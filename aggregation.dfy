// The specification of list materialisation: the accumulator that `AggregateFromDishesAsync`
// and `MergeManualAsync` fill, the per-occurrence merge steps, the checked-flag map and the
// final sort. Everything here is a function of the catalogs and the inputs; the methods of
// `ListeService` compute the same values with loops.
module Aggregation {
  import opened Wrappers
  import opened Text
  import opened Models
  import opened Dtos
  import opened Errors

  /** One value of the accumulator dictionary: the tuple (ingredientId, name, aisle, qty, unit). */
  datatype Agg = Agg(ingredientId: string, name: string, aisle: Option<string>, qty: Option<Quantity>, unit: Option<string>)

  /** The accumulator: a dictionary keyed by ingredient id, and the order in which its keys
      were first added (the enumeration order of a dictionary nobody removes from). */
  datatype Accumulator = Accumulator(entries: map<string, Agg>, order: seq<string>) {
    ghost predicate Valid() {
      && (forall i, j :: 0 <= i < j < |order| ==> order[i] != order[j])
      && (forall k :: k in entries <==> k in order)
      && (forall k :: k in entries ==> entries[k].ingredientId == k)
    }

    /** `acc.Values`, in enumeration order. */
    function Values(): (vs: seq<Agg>)
      requires Valid()
      ensures |vs| == |order|
      ensures forall i :: 0 <= i < |order| ==> vs[i] == entries[order[i]]
    {
      seq(|order|, i requires 0 <= i < |order| => entries[order[i]])
    }
  }

  const EmptyAcc: Accumulator := Accumulator(map[], [])

  /** `acc[a.ingredientId] = a`: an existing key keeps its place, a new key goes last. */
  function Put(acc: Accumulator, a: Agg): (r: Accumulator)
    requires acc.Valid()
    ensures r.Valid()
    ensures r.entries == acc.entries[a.ingredientId := a]
    ensures a.ingredientId in acc.entries ==> r.order == acc.order
    ensures a.ingredientId !in acc.entries ==> r.order == acc.order + [a.ingredientId]
  {
    if a.ingredientId in acc.entries then
      Accumulator(acc.entries[a.ingredientId := a], acc.order)
    else
      Accumulator(acc.entries[a.ingredientId := a], acc.order + [a.ingredientId])
  }

  // ---------------------------------------------------------------------------
  // The merge steps

  /** Both units are present and non-empty, and equal ignoring case. */
  predicate UnitsMatch(a: Option<string>, b: Option<string>) {
    !IsNullOrEmpty(a) && !IsNullOrEmpty(b) && EqualsIgnoreCase(a.value, b.value)
  }

  /** `(a ?? 0) + (b ?? 0)`. */
  function SumOrZero(a: Option<Quantity>, b: Option<Quantity>): Quantity {
    a.GetOr(0.0) + b.GetOr(0.0)
  }

  /** The first time a dish brings an ingredient: catalog name and aisle, and the dish's
      quantity and unit as they are (the unit is not trimmed). */
  function FirstDishOccurrence(ing: Ingredient, di: PlatIngredient): Agg {
    Agg(di.ingredientId, ing.name, ing.aisle, di.quantity, di.unit)
  }

  /** A later dish occurrence of an ingredient already in the accumulator. */
  function MergeDishOccurrence(cur: Agg, di: PlatIngredient): Agg {
    var curUnit := TrimOpt(cur.unit);
    if UnitsMatch(curUnit, TrimOpt(di.unit)) then
      Agg(cur.ingredientId, cur.name, cur.aisle, Some(SumOrZero(cur.qty, di.quantity)), curUnit)
    else
      Agg(cur.ingredientId, cur.name, cur.aisle, None, None)
  }

  /** The unit of a manual entry: null when blank, trimmed otherwise. */
  function ManualUnit(u: Option<string>): (r: Option<string>)
    ensures r.None? <==> IsNullOrWhiteSpace(u)
    ensures r.Some? ==> r.value == Trim(u.value) && r.value != "" && Trim(r.value) == r.value
  {
    if IsNullOrWhiteSpace(u) then None
    else
      TrimIdempotent(u.value);
      Some(Trim(u.value))
  }

  /** The name a manual entry brings: the catalog's when the ingredient resolves. */
  function ManualName(ings: map<string, Ingredient>, m: ListeItemDto): string {
    if m.ingredientId in ings then ings[m.ingredientId].name else m.ingredientName
  }

  /** The aisle a manual entry brings: `ing?.Aisle ?? m.Aisle`. */
  function ManualAisle(ings: map<string, Ingredient>, m: ListeItemDto): Option<string> {
    if m.ingredientId in ings && ings[m.ingredientId].aisle.Some? then ings[m.ingredientId].aisle else m.aisle
  }

  /** A manual entry landing on an ingredient already in the accumulator. */
  function MergeManualEntry(cur: Agg, name: string, aisle: Option<string>, qty: Option<Quantity>, unit: Option<string>): Agg {
    var curUnit := TrimOpt(cur.unit);
    if UnitsMatch(curUnit, unit) then
      Agg(cur.ingredientId, name, aisle, Some(SumOrZero(cur.qty, qty)), curUnit)
    else if cur.qty.None? && cur.unit.None? then
      cur
    else
      Agg(cur.ingredientId, name, aisle, None, None)
  }

  // ---------------------------------------------------------------------------
  // The dish phase

  /** The ingredient ids among `refs` that the catalog resolves. */
  function ResolvedRefs(ings: map<string, Ingredient>, refs: seq<PlatIngredient>): set<string> {
    set di | di in refs && di.ingredientId in ings :: di.ingredientId
  }

  /** One iteration of the inner loop of `AggregateFromDishesAsync`. */
  function StepDish(ings: map<string, Ingredient>, acc: Accumulator, di: PlatIngredient): (r: Accumulator)
    requires acc.Valid()
    ensures r.Valid()
    ensures r.entries.Keys == acc.entries.Keys + (if di.ingredientId in ings then {di.ingredientId} else {})
    ensures acc.order <= r.order
  {
    if di.ingredientId !in ings then acc
    else if di.ingredientId in acc.entries then Put(acc, MergeDishOccurrence(acc.entries[di.ingredientId], di))
    else Put(acc, FirstDishOccurrence(ings[di.ingredientId], di))
  }

  /** The inner loop over the ingredient references of one dish. */
  function AccumulateDish(ings: map<string, Ingredient>, acc: Accumulator, refs: seq<PlatIngredient>): (r: Accumulator)
    requires acc.Valid()
    ensures r.Valid()
    ensures r.entries.Keys == acc.entries.Keys + ResolvedRefs(ings, refs)
    ensures acc.order <= r.order
  {
    if refs == [] then acc
    else
      var init := refs[..|refs| - 1];
      var last := refs[|refs| - 1];
      assert refs == init + [last];
      var prev := AccumulateDish(ings, acc, init);
      ResolvedRefsSnoc(ings, init, last);
      StepDish(ings, prev, last)
  }

  lemma ResolvedRefsSnoc(ings: map<string, Ingredient>, init: seq<PlatIngredient>, last: PlatIngredient)
    ensures ResolvedRefs(ings, init + [last]) ==
              ResolvedRefs(ings, init) + (if last.ingredientId in ings then {last.ingredientId} else {})
  {
    var refs := init + [last];
    forall x | x in ResolvedRefs(ings, refs)
      ensures x in ResolvedRefs(ings, init) + (if last.ingredientId in ings then {last.ingredientId} else {})
    {
      var di :| di in refs && di.ingredientId in ings && di.ingredientId == x;
      if di != last {
        assert di in init;
      }
    }
    forall x | x in ResolvedRefs(ings, init) ensures x in ResolvedRefs(ings, refs) {
      var di :| di in init && di.ingredientId in ings && di.ingredientId == x;
      assert di in refs;
    }
    assert last in refs;
  }

  /** LINQ `Distinct()`: each id once, at the place of its first occurrence. */
  function Distinct(ids: seq<string>): (r: seq<string>)
    ensures forall i, j :: 0 <= i < j < |r| ==> r[i] != r[j]
    ensures forall x :: x in r <==> x in ids
  {
    if ids == [] then []
    else
      var init := ids[..|ids| - 1];
      var last := ids[|ids| - 1];
      assert ids == init + [last];
      var prev := Distinct(init);
      if last in prev then prev else prev + [last]
  }

  /** The ingredient ids that the dishes `dishIds` bring, for the dishes and ingredients
      the catalogs resolve. */
  function DishIngredientIds(ings: map<string, Ingredient>, plats: map<string, Plat>, dishIds: seq<string>): set<string> {
    set d, di | d in dishIds && d in plats && di in plats[d].ingredients && di.ingredientId in ings :: di.ingredientId
  }

  /** The outer loop of `AggregateFromDishesAsync`, over already de-duplicated dish ids. */
  function AccumulateDishes(ings: map<string, Ingredient>, plats: map<string, Plat>, acc: Accumulator, dishIds: seq<string>): (r: Accumulator)
    requires acc.Valid()
    ensures r.Valid()
    ensures r.entries.Keys == acc.entries.Keys + DishIngredientIds(ings, plats, dishIds)
    ensures acc.order <= r.order
  {
    if dishIds == [] then acc
    else
      var init := dishIds[..|dishIds| - 1];
      var d := dishIds[|dishIds| - 1];
      assert dishIds == init + [d];
      var prev := AccumulateDishes(ings, plats, acc, init);
      DishIngredientIdsSnoc(ings, plats, init, d);
      if d in plats then AccumulateDish(ings, prev, plats[d].ingredients) else prev
  }

  lemma DishIngredientIdsSnoc(ings: map<string, Ingredient>, plats: map<string, Plat>, init: seq<string>, d: string)
    ensures DishIngredientIds(ings, plats, init + [d]) ==
              DishIngredientIds(ings, plats, init) + (if d in plats then ResolvedRefs(ings, plats[d].ingredients) else {})
  {
    var ids := init + [d];
    var lhs := DishIngredientIds(ings, plats, ids);
    var rhs := DishIngredientIds(ings, plats, init) + (if d in plats then ResolvedRefs(ings, plats[d].ingredients) else {});
    forall x | x in lhs ensures x in rhs {
      var d', di :| d' in ids && d' in plats && di in plats[d'].ingredients && di.ingredientId in ings && di.ingredientId == x;
      if d' != d {
        assert d' in init;
      }
    }
    forall x | x in rhs ensures x in lhs {
      if x in DishIngredientIds(ings, plats, init) {
        var d', di :| d' in init && d' in plats && di in plats[d'].ingredients && di.ingredientId in ings && di.ingredientId == x;
        assert d' in ids;
      } else {
        var di :| di in plats[d].ingredients && di.ingredientId in ings && di.ingredientId == x;
        assert d in ids;
      }
    }
  }

  /** The ingredient ids a dish-id list brings do not depend on repeated ids. */
  lemma DishIngredientIdsDistinct(ings: map<string, Ingredient>, plats: map<string, Plat>, dishIds: seq<string>)
    ensures DishIngredientIds(ings, plats, Distinct(dishIds)) == DishIngredientIds(ings, plats, dishIds)
  {
    var ds := Distinct(dishIds);
    forall x | x in DishIngredientIds(ings, plats, ds) ensures x in DishIngredientIds(ings, plats, dishIds) {
      var d, di :| d in ds && d in plats && di in plats[d].ingredients && di.ingredientId in ings && di.ingredientId == x;
      assert d in dishIds;
    }
    forall x | x in DishIngredientIds(ings, plats, dishIds) ensures x in DishIngredientIds(ings, plats, ds) {
      var d, di :| d in dishIds && d in plats && di in plats[d].ingredients && di.ingredientId in ings && di.ingredientId == x;
      assert d in ds;
    }
  }

  /** `AggregateFromDishesAsync(dishIds)`. */
  function AggregateFromDishes(ings: map<string, Ingredient>, plats: map<string, Plat>, dishIds: seq<string>): (r: Accumulator)
    ensures r.Valid()
    ensures r.entries.Keys == DishIngredientIds(ings, plats, dishIds)
  {
    DishIngredientIdsDistinct(ings, plats, dishIds);
    AccumulateDishes(ings, plats, EmptyAcc, Distinct(dishIds))
  }

  // ---------------------------------------------------------------------------
  // The manual phase

  /** The ingredient ids of the manual entries. */
  function ManualIds(manual: seq<ListeItemDto>): set<string> {
    set m | m in manual :: m.ingredientId
  }

  /** One iteration of `MergeManualAsync`. */
  function StepManual(ings: map<string, Ingredient>, acc: Accumulator, m: ListeItemDto): (r: Accumulator)
    requires acc.Valid()
    ensures r.Valid()
    ensures r.entries.Keys == acc.entries.Keys + {m.ingredientId}
    ensures acc.order <= r.order
  {
    var name := ManualName(ings, m);
    var aisle := ManualAisle(ings, m);
    var unit := ManualUnit(m.unit);
    if m.ingredientId !in acc.entries then
      Put(acc, Agg(m.ingredientId, name, aisle, m.quantity, unit))
    else
      Put(acc, MergeManualEntry(acc.entries[m.ingredientId], name, aisle, m.quantity, unit))
  }

  /** `MergeManualAsync(acc, manual)`. */
  function AccumulateManual(ings: map<string, Ingredient>, acc: Accumulator, manual: seq<ListeItemDto>): (r: Accumulator)
    requires acc.Valid()
    ensures r.Valid()
    ensures r.entries.Keys == acc.entries.Keys + ManualIds(manual)
    ensures acc.order <= r.order
  {
    if manual == [] then acc
    else
      var init := manual[..|manual| - 1];
      var last := manual[|manual| - 1];
      assert manual == init + [last];
      assert ManualIds(manual) == ManualIds(init) + {last.ingredientId};
      StepManual(ings, AccumulateManual(ings, acc, init), last)
  }

  // ---------------------------------------------------------------------------
  // The checked flags

  /** The ingredient ids of a sequence of items, as a set. */
  function ItemIdSet(items: seq<ListeItem>): set<string> {
    set it | it in items :: it.ingredientId
  }

  /** A sequence of items with one more item at the end has distinct ids exactly when the
      first part has and the new id is not among its ids. */
  lemma DistinctIdsSnoc(init: seq<ListeItem>, last: ListeItem)
    ensures DistinctIds(init + [last]) <==> DistinctIds(init) && last.ingredientId !in ItemIdSet(init)
  {
    var s := init + [last];
    if last.ingredientId in ItemIdSet(init) {
      var it :| it in init && it.ingredientId == last.ingredientId;
      var i :| 0 <= i < |init| && init[i] == it;
      assert s[i].ingredientId == s[|init|].ingredientId;
    }
    if !DistinctIds(init) {
      var i, j :| 0 <= i < j < |init| && init[i].ingredientId == init[j].ingredientId;
      assert s[i] == init[i] && s[j] == init[j];
    } else if last.ingredientId !in ItemIdSet(init) {
      forall i, j | 0 <= i < j < |s| ensures s[i].ingredientId != s[j].ingredientId {
        if j == |init| {
          assert s[i] == init[i] && init[i] in init;
        } else {
          assert s[i] == init[i] && s[j] == init[j];
        }
      }
    }
  }

  /** `prior.ToDictionary(x => x.IngredientId, x => x.Checked)`, which fails on a repeated key. */
  function PriorChecked(prior: seq<ListeItem>): (r: Option<map<string, bool>>)
    ensures r.Some? <==> DistinctIds(prior)
    ensures r.Some? ==> r.value.Keys == ItemIdSet(prior)
  {
    if prior == [] then Some(map[])
    else
      var init := prior[..|prior| - 1];
      var last := prior[|prior| - 1];
      assert prior == init + [last];
      assert ItemIdSet(prior) == ItemIdSet(init) + {last.ingredientId};
      DistinctIdsSnoc(init, last);
      var prev := PriorChecked(init);
      if prev.None? || last.ingredientId in prev.value then None
      else Some(prev.value[last.ingredientId := last.checked])
  }

  /** Once it succeeds, the dictionary maps each prior item's id to that item's flag. */
  lemma {:induction false} PriorCheckedValue(prior: seq<ListeItem>, i: nat)
    requires DistinctIds(prior) && i < |prior|
    ensures PriorChecked(prior).value[prior[i].ingredientId] == prior[i].checked
  {
    var init := prior[..|prior| - 1];
    var last := prior[|prior| - 1];
    assert prior == init + [last];
    DistinctIdsSnoc(init, last);
    if i < |init| {
      assert prior[i] == init[i] && init[i] in init;
      PriorCheckedValue(init, i);
    }
  }

  /** One more prior item: the dictionary fails if it already failed or already holds the
      new id, and otherwise gains the new id with its flag. */
  lemma PriorCheckedSnoc(init: seq<ListeItem>, last: ListeItem)
    ensures PriorChecked(init + [last]) ==
              if PriorChecked(init).None? || last.ingredientId in PriorChecked(init).value then None
              else Some(PriorChecked(init).value[last.ingredientId := last.checked])
  {
    assert (init + [last])[..|init|] == init;
  }

  /** A repeated id among the first items is a repeated id among all of them. */
  lemma PriorCheckedPrefix(items: seq<ListeItem>, n: nat)
    requires n <= |items| && PriorChecked(items[..n]).None?
    ensures PriorChecked(items).None?
  {
    var a, b :| 0 <= a < b < n && items[..n][a].ingredientId == items[..n][b].ingredientId;
    assert items[a].ingredientId == items[b].ingredientId;
  }

  /** The loop that lets each manual entry with an explicit `Checked` override the map. */
  function OverrideChecked(base: map<string, bool>, manual: seq<ListeItemDto>): (r: map<string, bool>)
    ensures r.Keys == base.Keys + (set m | m in manual && m.checked.Some? :: m.ingredientId)
  {
    if manual == [] then base
    else
      var init := manual[..|manual| - 1];
      var last := manual[|manual| - 1];
      assert manual == init + [last];
      var prev := OverrideChecked(base, init);
      if last.checked.Some? then prev[last.ingredientId := last.checked.value] else prev
  }

  /** The checked map of `MaterializeAsync`: the prior items' flags (none on create),
      overridden by the manual entries; it fails when the prior items repeat an id. */
  function CheckedMap(prior: Option<seq<ListeItem>>, manual: Option<seq<ListeItemDto>>): Result<map<string, bool>, Exception> {
    var base := if prior.Some? then PriorChecked(prior.value) else Some(map[]);
    if base.None? then Failure(DuplicateKey)
    else Success(OverrideChecked(base.value, manual.GetOr([])))
  }

  /** `checkedMap.TryGetValue(id, out var c) ? c : false`. */
  function CheckedOf(cm: map<string, bool>, id: string): bool {
    if id in cm then cm[id] else false
  }

  // ---------------------------------------------------------------------------
  // Sorting and emission

  /** `OrderBy(v => v.name, comparer)` is a stable sort; `leq(a, b)` stands for
      `comparer.Compare(a, b) <= 0` of the case-insensitive fr-FR comparer. */
  function InsertByName(x: Agg, s: seq<Agg>, leq: (string, string) -> bool): (r: seq<Agg>)
    ensures multiset(r) == multiset(s) + multiset{x}
    ensures |r| == |s| + 1
  {
    if s == [] then [x]
    else if leq(x.name, s[0].name) then [x] + s
    else
      assert s == [s[0]] + s[1..];
      [s[0]] + InsertByName(x, s[1..], leq)
  }

  function SortByName(s: seq<Agg>, leq: (string, string) -> bool): (r: seq<Agg>)
    ensures multiset(r) == multiset(s)
    ensures |r| == |s|
  {
    if s == [] then []
    else
      assert s == [s[0]] + s[1..];
      InsertByName(s[0], SortByName(s[1..], leq), leq)
  }

  /** One `ListeItem` of the final list. */
  function ToItem(a: Agg, cm: map<string, bool>): ListeItem {
    ListeItem(a.ingredientId, a.name, a.qty, a.unit, a.aisle, CheckedOf(cm, a.ingredientId))
  }

  /** The loop that builds `final` from the sorted values. */
  function Emit(sorted: seq<Agg>, cm: map<string, bool>): (r: seq<ListeItem>)
    ensures |r| == |sorted|
    ensures forall i :: 0 <= i < |sorted| ==> r[i] == ToItem(sorted[i], cm)
  {
    seq(|sorted|, i requires 0 <= i < |sorted| => ToItem(sorted[i], cm))
  }

  /** The accumulator after both phases: the manual merge runs only for a non-empty
      manual list. */
  function Accumulated(ings: map<string, Ingredient>, plats: map<string, Plat>, dishIds: seq<string>,
                       manual: Option<seq<ListeItemDto>>): (r: Accumulator)
    ensures r.Valid()
    ensures r.entries.Keys == DishIngredientIds(ings, plats, dishIds) + (if manual.Some? then ManualIds(manual.value) else {})
  {
    var acc := AggregateFromDishes(ings, plats, dishIds);
    assert manual.Some? && |manual.value| == 0 ==> ManualIds(manual.value) == {};
    if manual.Some? && |manual.value| > 0 then AccumulateManual(ings, acc, manual.value) else acc
  }

  /** `MaterializeAsync`: the new items of a list whose (already replaced) dish ids are
      `dishIds`, given the manual entries and the items the checked flags come from. */
  function Materialized(ings: map<string, Ingredient>, plats: map<string, Plat>, dishIds: seq<string>,
                        manual: Option<seq<ListeItemDto>>, prior: Option<seq<ListeItem>>,
                        leq: (string, string) -> bool): Result<seq<ListeItem>, Exception>
  {
    var cm := CheckedMap(prior, manual);
    if cm.Failure? then Failure(cm.error)
    else Success(Emit(SortByName(Accumulated(ings, plats, dishIds, manual).Values(), leq), cm.value))
  }
}
