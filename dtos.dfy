// The request and response records of the API, the length limits they share, and the
// data-annotation attributes that ASP.NET checks on them before a controller runs.
module Dtos {
  import opened Wrappers
  import opened Text
  import opened Models

  // Length limits shared by annotations and validators.
  const NameMin: nat := 1
  const NameMax: nat := 120
  const IngredientNameMax: nat := 100
  const AisleMax: nat := 100
  const UnitMax: nat := 50
  const EmailMax: nat := 255
  const PseudoMin: nat := 2
  const PseudoMax: nat := 50
  const PasswordMin: nat := 8
  const PasswordMax: nat := 100

  datatype ListeItemDto = ListeItemDto(
    ingredientId: string,
    ingredientName: string,
    quantity: Option<Quantity>,
    unit: Option<string>,
    aisle: Option<string>,
    checked: Option<bool>)

  datatype ListeReadDto = ListeReadDto(
    id: Option<string>,
    name: string,
    date: Instant,
    items: seq<ListeItemDto>,
    dishIds: seq<string>,
    ownerId: Option<string>)

  datatype ListeCreateDto = ListeCreateDto(
    name: string,
    date: Option<Instant>,
    items: Option<seq<ListeItemDto>>,
    dishIds: Option<seq<string>>)

  datatype ListeUpdateDto = ListeUpdateDto(
    name: Option<string>,
    date: Option<Instant>,
    items: Option<seq<ListeItemDto>>,
    dishIds: Option<seq<string>>)

  datatype PlatIngredientDto = PlatIngredientDto(ingredientId: string, quantity: Option<Quantity>, unit: Option<string>)

  datatype PlatReadDto = PlatReadDto(id: Option<string>, name: string, ingredients: seq<PlatIngredientDto>)

  datatype PlatCreateDto = PlatCreateDto(name: string, ingredients: Option<seq<PlatIngredientDto>>)

  datatype PlatUpdateDto = PlatUpdateDto(name: Option<string>, ingredients: Option<seq<PlatIngredientDto>>)

  datatype IngredientReadDto = IngredientReadDto(id: Option<string>, name: string, aisle: Option<string>)

  datatype IngredientCreateDto = IngredientCreateDto(name: string, aisle: Option<string>)

  datatype IngredientUpdateDto = IngredientUpdateDto(name: Option<string>, aisle: Option<string>)

  datatype UtilisateurReadDto = UtilisateurReadDto(id: string, email: string, pseudo: string, isSuperUser: bool)

  datatype UtilisateurCreateDto = UtilisateurCreateDto(
    email: string, pseudo: string, password: string, isSuperUser: Option<bool>)

  datatype UtilisateurUpdateDto = UtilisateurUpdateDto(
    email: Option<string>, pseudo: Option<string>, password: Option<string>, isSuperUser: Option<bool>)

  // ---------------------------------------------------------------------------
  // The data-annotation attributes, one predicate each.

  /** `[Required]` on a string: present and not white space only. */
  predicate Required(s: Option<string>) {
    s.Some? && Trim(s.value) != ""
  }

  /** `[MinLength(n), MaxLength(m)]` on a string: a null string passes, and the length is
      .NET's `string.Length`, in UTF-16 code units. */
  predicate LengthIn(s: Option<string>, min: nat, max: nat) {
    s.None? || min <= Utf16Length(s.value) <= max
  }

  /** `[Range(0.0, double.MaxValue)]` on a `double?`: a null passes. */
  predicate NonNegative(q: Option<Quantity>) {
    q.None? || q.value >= 0.0
  }

  /** The unit vocabulary of a dish ingredient, `^(g|kg|paquet)$`, case-sensitive. */
  predicate IsDishUnit(u: string) {
    u == "g" || u == "kg" || u == "paquet"
  }

  /** The unit vocabulary of a list item, `^(g|kg|paquet|unité)$`, case-sensitive. */
  predicate IsItemUnit(u: string) {
    IsDishUnit(u) || u == "unit\U{00E9}"
  }

  /** `[RegularExpression]`: a null or empty string passes without being matched. */
  predicate MatchesOrEmpty(s: Option<string>, vocabulary: string -> bool) {
    s.None? || s.value == "" || vocabulary(s.value)
  }

  /** The attributes of `ListeItemDto`. */
  predicate ListeItemDtoAnnotated(d: ListeItemDto) {
    && Required(Some(d.ingredientName))
    && LengthIn(Some(d.ingredientName), NameMin, IngredientNameMax)
    && NonNegative(d.quantity)
    && LengthIn(d.unit, 0, UnitMax)
    && MatchesOrEmpty(d.unit, IsItemUnit)
    && LengthIn(d.aisle, 0, AisleMax)
  }

  /** The attributes of `ListeCreateDto`, including those of each item. */
  predicate ListeCreateDtoAnnotated(d: ListeCreateDto) {
    && Required(Some(d.name))
    && LengthIn(Some(d.name), NameMin, NameMax)
    && (d.items.Some? ==> forall i :: 0 <= i < |d.items.value| ==> ListeItemDtoAnnotated(d.items.value[i]))
  }

  /** The attributes of `ListeUpdateDto`, including those of each item. */
  predicate ListeUpdateDtoAnnotated(d: ListeUpdateDto) {
    && LengthIn(d.name, NameMin, NameMax)
    && (d.items.Some? ==> forall i :: 0 <= i < |d.items.value| ==> ListeItemDtoAnnotated(d.items.value[i]))
  }

  /** The attributes of `PlatIngredientDto`. */
  predicate PlatIngredientDtoAnnotated(d: PlatIngredientDto) {
    && NonNegative(d.quantity)
    && LengthIn(d.unit, 0, UnitMax)
    && MatchesOrEmpty(d.unit, IsDishUnit)
  }

  /** The attributes of `PlatCreateDto`: `[Required, MinLength(1)]` on the ingredients. */
  predicate PlatCreateDtoAnnotated(d: PlatCreateDto) {
    && Required(Some(d.name))
    && LengthIn(Some(d.name), NameMin, NameMax)
    && d.ingredients.Some? && |d.ingredients.value| >= 1
    && forall i :: 0 <= i < |d.ingredients.value| ==> PlatIngredientDtoAnnotated(d.ingredients.value[i])
  }

  /** The attributes of `PlatUpdateDto`. */
  predicate PlatUpdateDtoAnnotated(d: PlatUpdateDto) {
    && LengthIn(d.name, NameMin, NameMax)
    && (d.ingredients.Some? ==>
          forall i :: 0 <= i < |d.ingredients.value| ==> PlatIngredientDtoAnnotated(d.ingredients.value[i]))
  }
}
