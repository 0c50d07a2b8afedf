// Conversions between stored documents and DTOs, and the partial updates (`Apply`)
// that copy into a document only the fields an update supplies.
module Mappings {
  import opened Wrappers
  import opened Models
  import opened Dtos

  // ---------------------------------------------------------------------------
  // IngredientMappings.cs

  function IngredientToReadDto(m: Ingredient): IngredientReadDto {
    IngredientReadDto(m.id, m.name, m.aisle)
  }

  function IngredientFromCreate(dto: IngredientCreateDto): Ingredient {
    Ingredient(None, dto.name, dto.aisle)
  }

  function IngredientApply(m: Ingredient, dto: IngredientUpdateDto): Ingredient {
    m.(name := dto.name.GetOr(m.name), aisle := if dto.aisle.Some? then dto.aisle else m.aisle)
  }

  /** A created ingredient reads back with the dto's name and aisle and no id yet. */
  lemma IngredientCreateReadsBack(dto: IngredientCreateDto)
    ensures IngredientToReadDto(IngredientFromCreate(dto)) == IngredientReadDto(None, dto.name, dto.aisle)
  {
  }

  /** `Apply` changes a field only when the update supplies it, never the id, and can
      never clear an aisle; applying the same update twice is applying it once. */
  lemma IngredientApplyRules(m: Ingredient, dto: IngredientUpdateDto)
    ensures IngredientApply(m, dto).id == m.id
    ensures dto.name.Some? ==> IngredientApply(m, dto).name == dto.name.value
    ensures dto.name.None? ==> IngredientApply(m, dto).name == m.name
    ensures dto.aisle.Some? ==> IngredientApply(m, dto).aisle == dto.aisle
    ensures dto.aisle.None? ==> IngredientApply(m, dto).aisle == m.aisle
    ensures m.aisle.Some? ==> IngredientApply(m, dto).aisle.Some?
    ensures IngredientApply(m, IngredientUpdateDto(None, None)) == m
    ensures IngredientApply(IngredientApply(m, dto), dto) == IngredientApply(m, dto)
  {
  }

  // ---------------------------------------------------------------------------
  // ListeMappings.cs

  function ItemToDto(i: ListeItem): ListeItemDto {
    ListeItemDto(i.ingredientId, i.ingredientName, i.quantity, i.unit, i.aisle, Some(i.checked))
  }

  function ItemFromDto(d: ListeItemDto): ListeItem {
    ListeItem(d.ingredientId, d.ingredientName, d.quantity, d.unit, d.aisle, d.checked.GetOr(false))
  }

  /** `Items.Select(ToDtoItem)`: element by element, in order. */
  function ItemsToDto(items: seq<ListeItem>): (r: seq<ListeItemDto>)
    ensures |r| == |items|
    ensures forall k :: 0 <= k < |items| ==> r[k] == ItemToDto(items[k])
  {
    seq(|items|, k requires 0 <= k < |items| => ItemToDto(items[k]))
  }

  /** `Items.Select(ToModelItem)`: element by element, in order. */
  function ItemsFromDto(dtos: seq<ListeItemDto>): (r: seq<ListeItem>)
    ensures |r| == |dtos|
    ensures forall k :: 0 <= k < |dtos| ==> r[k] == ItemFromDto(dtos[k])
  {
    seq(|dtos|, k requires 0 <= k < |dtos| => ItemFromDto(dtos[k]))
  }

  /** An item survives the trip to a dto and back; a dto survives the trip to an item
      and back except that an absent `Checked` comes back as false. */
  lemma ItemRoundTrips(i: ListeItem, d: ListeItemDto)
    ensures ItemFromDto(ItemToDto(i)) == i
    ensures ItemToDto(ItemFromDto(d)) == d.(checked := Some(d.checked.GetOr(false)))
    ensures d.checked.Some? ==> ItemToDto(ItemFromDto(d)) == d
    ensures ItemFromDto(d).checked <==> d.checked == Some(true)
  {
  }

  /** A sequence of items survives the trip to dtos and back. */
  lemma ItemsRoundTrip(items: seq<ListeItem>)
    ensures ItemsFromDto(ItemsToDto(items)) == items
  {
    var back := ItemsFromDto(ItemsToDto(items));
    forall k | 0 <= k < |items|
      ensures back[k] == items[k]
    {
      ItemRoundTrips(items[k], ItemToDto(items[k]));
    }
  }

  function ListeToReadDto(m: Liste): ListeReadDto {
    ListeReadDto(m.id, m.name, m.date, ItemsToDto(m.items), m.dishIds, m.ownerId)
  }

  /** `ToModel`; `now` is the clock reading `DateTime.UtcNow`. */
  function ListeFromCreate(dto: ListeCreateDto, now: Instant): Liste {
    Liste(None, dto.name, dto.date.GetOr(now), ItemsFromDto(dto.items.GetOr([])), dto.dishIds.GetOr([]), None)
  }

  function ListeApply(m: Liste, dto: ListeUpdateDto): Liste {
    m.(name := dto.name.GetOr(m.name),
       date := dto.date.GetOr(m.date),
       items := if dto.items.Some? then ItemsFromDto(dto.items.value) else m.items,
       dishIds := dto.dishIds.GetOr(m.dishIds))
  }

  /** `ToModel` defaults absent items and dish ids to empty and an absent date to the
      clock, and leaves the id and the owner unset; the read dto copies what it finds. */
  lemma ListeFromCreateRules(dto: ListeCreateDto, now: Instant)
    ensures ListeFromCreate(dto, now).id.None? && ListeFromCreate(dto, now).ownerId.None?
    ensures ListeFromCreate(dto, now).name == dto.name
    ensures ListeFromCreate(dto, now).date == (if dto.date.Some? then dto.date.value else now)
    ensures dto.items.None? ==> ListeFromCreate(dto, now).items == []
    ensures dto.dishIds.None? ==> ListeFromCreate(dto, now).dishIds == []
    ensures dto.dishIds.Some? ==> ListeFromCreate(dto, now).dishIds == dto.dishIds.value
    ensures ListeToReadDto(ListeFromCreate(dto, now)).items ==
              ItemsToDto(ItemsFromDto(dto.items.GetOr([])))
  {
  }

  /** `Apply` changes each field only when the update supplies it, never the id or the
      owner; an empty update changes nothing and an update is idempotent. */
  lemma ListeApplyRules(m: Liste, dto: ListeUpdateDto)
    ensures ListeApply(m, dto).id == m.id && ListeApply(m, dto).ownerId == m.ownerId
    ensures ListeApply(m, dto).name == (if dto.name.Some? then dto.name.value else m.name)
    ensures ListeApply(m, dto).date == (if dto.date.Some? then dto.date.value else m.date)
    ensures dto.items.None? ==> ListeApply(m, dto).items == m.items
    ensures dto.items.Some? ==> |ListeApply(m, dto).items| == |dto.items.value|
    ensures ListeApply(m, dto).dishIds == (if dto.dishIds.Some? then dto.dishIds.value else m.dishIds)
    ensures ListeApply(m, ListeUpdateDto(None, None, None, None)) == m
    ensures ListeApply(ListeApply(m, dto), dto) == ListeApply(m, dto)
  {
  }

  /** Reading a list back through its dto and the item mapping gives its items again. */
  lemma ListeReadDtoItemsRoundTrip(m: Liste)
    ensures ItemsFromDto(ListeToReadDto(m).items) == m.items
    ensures ListeToReadDto(m).id == m.id && ListeToReadDto(m).ownerId == m.ownerId
  {
    ItemsRoundTrip(m.items);
  }

  // ---------------------------------------------------------------------------
  // PlatMappings.cs

  function PlatIngredientToDto(i: PlatIngredient): PlatIngredientDto {
    PlatIngredientDto(i.ingredientId, i.quantity, i.unit)
  }

  function PlatIngredientFromDto(d: PlatIngredientDto): PlatIngredient {
    PlatIngredient(d.ingredientId, d.quantity, d.unit)
  }

  function PlatIngredientsToDto(s: seq<PlatIngredient>): (r: seq<PlatIngredientDto>)
    ensures |r| == |s|
    ensures forall k :: 0 <= k < |s| ==> r[k] == PlatIngredientToDto(s[k])
  {
    seq(|s|, k requires 0 <= k < |s| => PlatIngredientToDto(s[k]))
  }

  function PlatIngredientsFromDto(s: seq<PlatIngredientDto>): (r: seq<PlatIngredient>)
    ensures |r| == |s|
    ensures forall k :: 0 <= k < |s| ==> r[k] == PlatIngredientFromDto(s[k])
  {
    seq(|s|, k requires 0 <= k < |s| => PlatIngredientFromDto(s[k]))
  }

  /** The dish-ingredient conversions are inverse to each other, element-wise and on
      whole sequences. */
  lemma PlatIngredientRoundTrips(i: PlatIngredient, d: PlatIngredientDto, s: seq<PlatIngredient>)
    ensures PlatIngredientFromDto(PlatIngredientToDto(i)) == i
    ensures PlatIngredientToDto(PlatIngredientFromDto(d)) == d
    ensures PlatIngredientsFromDto(PlatIngredientsToDto(s)) == s
  {
    var back := PlatIngredientsFromDto(PlatIngredientsToDto(s));
    assert forall k :: 0 <= k < |s| ==> back[k] == s[k];
  }

  function PlatToReadDto(m: Plat): PlatReadDto {
    PlatReadDto(m.id, m.name, PlatIngredientsToDto(m.ingredients))
  }

  function PlatFromCreate(dto: PlatCreateDto): Plat {
    Plat(None, dto.name, PlatIngredientsFromDto(dto.ingredients.GetOr([])))
  }

  function PlatApply(m: Plat, dto: PlatUpdateDto): Plat {
    m.(name := dto.name.GetOr(m.name),
       ingredients := if dto.ingredients.Some? then PlatIngredientsFromDto(dto.ingredients.value) else m.ingredients)
  }

  /** A created dish has no id and reads back with the dto's name and ingredients; `Apply`
      replaces the name and the whole ingredient list only when supplied. */
  lemma PlatMappingRules(dto: PlatCreateDto, m: Plat, u: PlatUpdateDto)
    ensures PlatFromCreate(dto).id.None?
    ensures PlatToReadDto(PlatFromCreate(dto)) == PlatReadDto(None, dto.name, dto.ingredients.GetOr([]))
    ensures PlatApply(m, u).id == m.id
    ensures PlatApply(m, u).name == (if u.name.Some? then u.name.value else m.name)
    ensures u.ingredients.None? ==> PlatApply(m, u).ingredients == m.ingredients
    ensures u.ingredients.Some? ==> PlatToReadDto(PlatApply(m, u)).ingredients == u.ingredients.value
    ensures PlatApply(m, PlatUpdateDto(None, None)) == m
  {
    var ds := dto.ingredients.GetOr([]);
    assert PlatIngredientsToDto(PlatIngredientsFromDto(ds)) == ds by {
      var back := PlatIngredientsToDto(PlatIngredientsFromDto(ds));
      assert forall k :: 0 <= k < |ds| ==> back[k] == ds[k];
    }
    if u.ingredients.Some? {
      var us := u.ingredients.value;
      var back := PlatIngredientsToDto(PlatIngredientsFromDto(us));
      assert forall k :: 0 <= k < |us| ==> back[k] == us[k];
    }
  }

  // ---------------------------------------------------------------------------
  // UtilisateurMappings.cs

  function UtilisateurToReadDto(u: Utilisateur): UtilisateurReadDto {
    UtilisateurReadDto(u.id.GetOr(""), u.email.GetOr(""), u.pseudo.GetOr(""), u.isSuperUser)
  }

  function UtilisateurApply(u: Utilisateur, dto: UtilisateurUpdateDto): Utilisateur {
    u.(email := if dto.email.Some? then dto.email else u.email,
       pseudo := if dto.pseudo.Some? then dto.pseudo else u.pseudo,
       isSuperUser := dto.isSuperUser.GetOr(u.isSuperUser))
  }

  /** The read dto turns missing strings into "" and copies the flag; `Apply` changes
      e-mail, pseudo and flag only when supplied, and never the id or the password hash,
      even when the update carries a password. */
  lemma UtilisateurMappingRules(u: Utilisateur, dto: UtilisateurUpdateDto)
    ensures u.id.None? ==> UtilisateurToReadDto(u).id == ""
    ensures u.email.None? ==> UtilisateurToReadDto(u).email == ""
    ensures u.pseudo.None? ==> UtilisateurToReadDto(u).pseudo == ""
    ensures UtilisateurToReadDto(u).isSuperUser == u.isSuperUser
    ensures UtilisateurApply(u, dto).id == u.id
    ensures UtilisateurApply(u, dto).passwordHash == u.passwordHash
    ensures dto.email.None? ==> UtilisateurApply(u, dto).email == u.email
    ensures dto.email.Some? ==> UtilisateurApply(u, dto).email == dto.email
    ensures dto.pseudo.None? ==> UtilisateurApply(u, dto).pseudo == u.pseudo
    ensures dto.pseudo.Some? ==> UtilisateurApply(u, dto).pseudo == dto.pseudo
    ensures UtilisateurApply(u, dto).isSuperUser == (if dto.isSuperUser.Some? then dto.isSuperUser.value else u.isSuperUser)
  {
  }
}
