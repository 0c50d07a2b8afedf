// The FluentValidation rule chains of the API as predicates, the unit check of
// ValidationHelpers, and how these rules relate to the data annotations of the DTOs.
module Validators {
  import opened Wrappers
  import opened Text
  import opened Dtos

  // ---------------------------------------------------------------------------
  // ValidationHelpers

  /** `AllowedUnits.Contains(u)` for the set {"g", "kg", "paquet"} compared with
      `StringComparer.OrdinalIgnoreCase`. */
  predicate IsAllowedUnitName(u: string) {
    EqualsIgnoreCase(u, "g") || EqualsIgnoreCase(u, "kg") || EqualsIgnoreCase(u, "paquet")
  }

  /** `BeAllowedUnit`: a null or blank unit, or a known unit once trimmed, ignoring case. */
  predicate BeAllowedUnit(unit: Option<string>) {
    unit.None? || |Trim(unit.value)| == 0 || IsAllowedUnitName(Trim(unit.value))
  }

  /** The upper-case forms of the three unit names, and of "unité". */
  lemma UpperOfUnitNames()
    ensures Upper("g") == "G" && Upper("kg") == "KG" && Upper("paquet") == "PAQUET"
    ensures Upper("unit\U{00E9}") == "UNIT\U{00C9}"
  {
    assert Upper("g") == "G";
    assert Upper("kg") == "KG";
    assert Upper("paquet") == "PAQUET";
    assert Upper("unit\U{00E9}") == "UNIT\U{00C9}";
  }

  /** A name is an allowed unit exactly when its upper-case form is G, KG or PAQUET. */
  lemma IsAllowedUnitNameUpper(u: string)
    ensures IsAllowedUnitName(u) <==> Upper(u) in {"G", "KG", "PAQUET"}
  {
    UpperOfUnitNames();
  }

  /** What `BeAllowedUnit` accepts, case by case. */
  lemma BeAllowedUnitCases(unit: Option<string>)
    ensures unit.None? ==> BeAllowedUnit(unit)
    ensures unit.Some? && AllWhiteSpace(unit.value, IsWhiteSpace) ==> BeAllowedUnit(unit)
    ensures unit.Some? && !AllWhiteSpace(unit.value, IsWhiteSpace) ==>
              (BeAllowedUnit(unit) <==> Upper(Trim(unit.value)) in {"G", "KG", "PAQUET"})
  {
    if unit.Some? {
      IsAllowedUnitNameUpper(Trim(unit.value));
    }
  }

  /** "unité", a unit a list item may carry, is not a unit `BeAllowedUnit` accepts. */
  lemma ItemOnlyUnitNotAllowed()
    ensures IsItemUnit("unit\U{00E9}") && !IsDishUnit("unit\U{00E9}")
    ensures !BeAllowedUnit(Some("unit\U{00E9}"))
  {
    var u := "unit\U{00E9}";
    assert LeadingCount(u, IsWhiteSpace) == 0;
    assert TrailingCount(u[0..], IsWhiteSpace) == 0;
    assert u[0..][..|u| - 0] == u;
    assert Trim(u) == u;
    IsAllowedUnitNameUpper(u);
  }

  /** Every unit the dish-ingredient annotation accepts passes `BeAllowedUnit`. */
  lemma DishUnitIsAllowed(unit: Option<string>)
    requires MatchesOrEmpty(unit, IsDishUnit)
    ensures BeAllowedUnit(unit)
  {
    if unit.Some? && unit.value != "" {
      var u := unit.value;
      assert LeadingCount(u, IsWhiteSpace) == 0;
      assert TrailingCount(u[0..], IsWhiteSpace) == 0;
      assert Trim(u) == u;
      EqualsIgnoreCaseFacts(u, u, u);
    }
  }

  // ---------------------------------------------------------------------------
  // FluentValidation building blocks

  /** `NotEmpty()` on a string: not null, not empty, not white space only. */
  predicate NotEmpty(s: string) {
    !AllWhiteSpace(s, IsWhiteSpace)
  }

  /** `Length(min, max)` / `MaximumLength(max)` on a string, measured as .NET measures
      it, in UTF-16 code units. */
  predicate Length(s: string, min: nat, max: nat) {
    min <= Utf16Length(s) <= max
  }

  // ---------------------------------------------------------------------------
  // ListeValidator.cs

  predicate ListeItemDtoValid(d: ListeItemDto) {
    && NotEmpty(d.ingredientId)
    && NotEmpty(d.ingredientName) && Length(d.ingredientName, NameMin, IngredientNameMax)
    && NonNegative(d.quantity)
    && (d.unit.Some? ==> Length(d.unit.value, 0, UnitMax))
    && (d.aisle.Some? ==> Length(d.aisle.value, 0, AisleMax))
  }

  predicate AllItemsValid(items: Option<seq<ListeItemDto>>) {
    items.Some? ==> forall i :: 0 <= i < |items.value| ==> ListeItemDtoValid(items.value[i])
  }

  predicate ListeCreateDtoValid(d: ListeCreateDto) {
    && NotEmpty(d.name) && Length(d.name, NameMin, NameMax)
    && AllItemsValid(d.items)
  }

  predicate ListeUpdateDtoValid(d: ListeUpdateDto) {
    && (d.name.Some? ==> Length(d.name.value, NameMin, NameMax))
    && AllItemsValid(d.items)
  }

  /** The item rules: what each field must satisfy, and that a blank ingredient id or a
      negative quantity is rejected whatever the other fields hold. */
  lemma ListeItemRules(d: ListeItemDto)
    ensures ListeItemDtoValid(d) ==> 1 <= Utf16Length(d.ingredientName) <= IngredientNameMax
    ensures d.ingredientId == "" ==> !ListeItemDtoValid(d)
    ensures d.quantity.Some? && d.quantity.value < 0.0 ==> !ListeItemDtoValid(d)
    ensures (NotEmpty(d.ingredientId) && NotEmpty(d.ingredientName) && Utf16Length(d.ingredientName) <= IngredientNameMax
             && d.quantity.None? && d.unit.None? && d.aisle.None?) ==> ListeItemDtoValid(d)
  {
  }

  /** The item validator and the item annotations agree except on two points: the
      validator rejects a blank ingredient id, which the annotations do not check, and
      the annotations restrict the unit vocabulary, which the validator does not check. */
  lemma ListeItemRulesMatchAnnotations(d: ListeItemDto)
    ensures ListeItemDtoValid(d) && MatchesOrEmpty(d.unit, IsItemUnit) ==> ListeItemDtoAnnotated(d)
    ensures ListeItemDtoAnnotated(d) && NotEmpty(d.ingredientId) ==> ListeItemDtoValid(d)
    ensures ListeItemDtoValid(d) && d.unit == Some("l") ==> !ListeItemDtoAnnotated(d)
  {
    if ListeItemDtoValid(d) && MatchesOrEmpty(d.unit, IsItemUnit) {
      assert LengthIn(Some(d.ingredientName), NameMin, IngredientNameMax);
    }
    if ListeItemDtoAnnotated(d) && NotEmpty(d.ingredientId) {
      assert NotEmpty(d.ingredientName);
    }
    if d.unit == Some("l") {
      assert !IsItemUnit("l");
    }
  }

  /** Lengths are UTF-16 code units: a list name of 61 characters outside the Basic
      Multilingual Plane measures 122 and is refused by the validator and by the
      annotations alike, although it holds only 61 characters. */
  lemma ListeNameLengthInUtf16Units(name: string, c: ListeCreateDto)
    requires |name| == 61 && forall i :: 0 <= i < |name| ==> name[i] >= '\U{10000}'
    requires c.name == name
    ensures Utf16Length(name) == 122
    ensures !ListeCreateDtoValid(c) && !ListeCreateDtoAnnotated(c)
  {
  }

  /** Whatever passes the create rules, passes the update rules with the same fields. */
  lemma ListeCreateRulesImplyUpdateRules(d: ListeCreateDto)
    requires ListeCreateDtoValid(d)
    ensures ListeUpdateDtoValid(ListeUpdateDto(Some(d.name), d.date, d.items, d.dishIds))
  {
  }

  /** The update rules accept an update that supplies nothing, and a name is required
      only on create. */
  lemma ListeOptionalRules(d: ListeUpdateDto)
    ensures d.name.None? && d.items.None? ==> ListeUpdateDtoValid(d)
    ensures !ListeCreateDtoValid(ListeCreateDto("", None, None, None))
  {
  }

  /** Every item's unit is empty or in the item vocabulary. */
  predicate ItemUnitsInVocabulary(items: Option<seq<ListeItemDto>>) {
    items.Some? ==> forall i :: 0 <= i < |items.value| ==> MatchesOrEmpty(items.value[i].unit, IsItemUnit)
  }

  /** Every item's ingredient id is non-blank. */
  predicate ItemIdsPresent(items: Option<seq<ListeItemDto>>) {
    items.Some? ==> forall i :: 0 <= i < |items.value| ==> NotEmpty(items.value[i].ingredientId)
  }

  /** The list validators and the list annotations agree except on the items' ids and
      units, as for a single item: given vocabulary units, the validators imply the
      annotations; given non-blank ingredient ids, the annotations imply the validators. */
  lemma ListeRulesMatchAnnotations(c: ListeCreateDto, u: ListeUpdateDto)
    ensures ListeCreateDtoValid(c) && ItemUnitsInVocabulary(c.items) ==> ListeCreateDtoAnnotated(c)
    ensures ListeCreateDtoAnnotated(c) && ItemIdsPresent(c.items) ==> ListeCreateDtoValid(c)
    ensures ListeUpdateDtoValid(u) && ItemUnitsInVocabulary(u.items) ==> ListeUpdateDtoAnnotated(u)
    ensures ListeUpdateDtoAnnotated(u) && ItemIdsPresent(u.items) ==> ListeUpdateDtoValid(u)
  {
    if c.items.Some? {
      forall i | 0 <= i < |c.items.value| {
        ListeItemRulesMatchAnnotations(c.items.value[i]);
      }
    }
    if u.items.Some? {
      forall i | 0 <= i < |u.items.value| {
        ListeItemRulesMatchAnnotations(u.items.value[i]);
      }
    }
    ListeItemRulesMatchAnnotations(ListeItemDto("x", c.name, None, None, None, None));
  }

  // ---------------------------------------------------------------------------
  // PlatValidator.cs

  predicate PlatIngredientDtoValid(d: PlatIngredientDto) {
    && NotEmpty(d.ingredientId)
    && NonNegative(d.quantity)
    && (d.unit.Some? ==> Length(d.unit.value, 0, UnitMax))
  }

  predicate PlatCreateDtoValid(d: PlatCreateDto) {
    && NotEmpty(d.name) && Length(d.name, NameMin, NameMax)
    && d.ingredients.Some? && |d.ingredients.value| > 0
    && forall i :: 0 <= i < |d.ingredients.value| ==> PlatIngredientDtoValid(d.ingredients.value[i])
  }

  predicate PlatUpdateDtoValid(d: PlatUpdateDto) {
    && (d.name.Some? ==> Length(d.name.value, NameMin, NameMax))
    && (d.ingredients.Some? ==>
          forall i :: 0 <= i < |d.ingredients.value| ==> PlatIngredientDtoValid(d.ingredients.value[i]))
  }

  /** A dish is created with at least one ingredient, but an update may empty it. */
  lemma PlatIngredientListRules(name: string)
    ensures !PlatCreateDtoValid(PlatCreateDto(name, Some([])))
    ensures !PlatCreateDtoValid(PlatCreateDto(name, None))
    ensures PlatUpdateDtoValid(PlatUpdateDto(None, Some([])))
  {
  }

  /** The dish validator and the dish annotations agree except that the validator rejects a
      blank ingredient id and the annotations restrict the unit vocabulary. */
  lemma PlatRulesMatchAnnotations(d: PlatCreateDto)
    ensures (PlatCreateDtoValid(d) && forall i :: 0 <= i < |d.ingredients.value| ==>
               MatchesOrEmpty(d.ingredients.value[i].unit, IsDishUnit)) ==> PlatCreateDtoAnnotated(d)
    ensures (PlatCreateDtoAnnotated(d) && forall i :: 0 <= i < |d.ingredients.value| ==>
               NotEmpty(d.ingredients.value[i].ingredientId)) ==> PlatCreateDtoValid(d)
  {
  }

  /** Every reference's unit is empty or in the dish vocabulary. */
  predicate RefUnitsInVocabulary(refs: Option<seq<PlatIngredientDto>>) {
    refs.Some? ==> forall i :: 0 <= i < |refs.value| ==> MatchesOrEmpty(refs.value[i].unit, IsDishUnit)
  }

  /** Every reference's ingredient id is non-blank. */
  predicate RefIdsPresent(refs: Option<seq<PlatIngredientDto>>) {
    refs.Some? ==> forall i :: 0 <= i < |refs.value| ==> NotEmpty(refs.value[i].ingredientId)
  }

  /** The dish update validator and the dish update annotations agree except on the
      references' ids and units. */
  lemma PlatUpdateRulesMatchAnnotations(d: PlatUpdateDto)
    ensures PlatUpdateDtoValid(d) && RefUnitsInVocabulary(d.ingredients) ==> PlatUpdateDtoAnnotated(d)
    ensures PlatUpdateDtoAnnotated(d) && RefIdsPresent(d.ingredients) ==> PlatUpdateDtoValid(d)
  {
  }

  // ---------------------------------------------------------------------------
  // IngredientValidator.cs

  predicate IngredientCreateDtoValid(d: IngredientCreateDto) {
    && NotEmpty(d.name) && Length(d.name, NameMin, IngredientNameMax)
    && (d.aisle.Some? ==> Length(d.aisle.value, 0, AisleMax))
  }

  predicate IngredientUpdateDtoValid(d: IngredientUpdateDto) {
    && (d.name.Some? ==> Length(d.name.value, NameMin, IngredientNameMax))
    && (d.aisle.Some? ==> Length(d.aisle.value, 0, AisleMax))
  }

  /** Create needs a name; update checks only what it carries. */
  lemma IngredientRules(d: IngredientUpdateDto, name: string)
    ensures d.name.None? && d.aisle.None? ==> IngredientUpdateDtoValid(d)
    ensures IngredientCreateDtoValid(IngredientCreateDto(name, None)) <==>
              NotEmpty(name) && Utf16Length(name) <= IngredientNameMax
    ensures IngredientCreateDtoValid(IngredientCreateDto(name, d.aisle)) ==>
              IngredientUpdateDtoValid(IngredientUpdateDto(Some(name), d.aisle))
  {
  }

  // ---------------------------------------------------------------------------
  // UtilisateurValidator.cs; the e-mail syntax check `EmailAddress()` is the parameter `isEmail`.

  predicate UtilisateurCreateDtoValid(d: UtilisateurCreateDto, isEmail: string -> bool) {
    && NotEmpty(d.email) && isEmail(d.email) && Length(d.email, 0, EmailMax)
    && NotEmpty(d.pseudo) && Length(d.pseudo, PseudoMin, PseudoMax)
    && NotEmpty(d.password) && Length(d.password, PasswordMin, PasswordMax)
  }

  predicate UtilisateurUpdateDtoValid(d: UtilisateurUpdateDto, isEmail: string -> bool) {
    && (d.email.Some? ==> isEmail(d.email.value) && Length(d.email.value, 0, EmailMax))
    && (d.pseudo.Some? ==> Length(d.pseudo.value, PseudoMin, PseudoMax))
    && (d.password.Some? ==> Length(d.password.value, PasswordMin, PasswordMax))
  }

  /** Passwords of 8 to 100 characters, pseudos of 2 to 50; update checks only the
      fields it carries, so an empty update is valid. */
  lemma UtilisateurRules(d: UtilisateurUpdateDto, c: UtilisateurCreateDto, isEmail: string -> bool)
    ensures UtilisateurCreateDtoValid(c, isEmail) ==>
              8 <= Utf16Length(c.password) <= 100 && 2 <= Utf16Length(c.pseudo) <= 50
              && Utf16Length(c.email) <= 255 && isEmail(c.email)
    ensures d.email.None? && d.pseudo.None? && d.password.None? ==> UtilisateurUpdateDtoValid(d, isEmail)
    ensures UtilisateurCreateDtoValid(c, isEmail) ==>
              UtilisateurUpdateDtoValid(UtilisateurUpdateDto(Some(c.email), Some(c.pseudo), Some(c.password), c.isSuperUser), isEmail)
  {
  }
}
