// What materialisation guarantees: one item per ingredient brought by the dishes or the
// manual entries, sorted by name, checked flags carried over, names and aisles taken from
// the catalog, and a second run over its own output changing nothing.
module MaterializationFacts {
  import opened Wrappers
  import opened Text
  import opened Models
  import opened Dtos
  import opened Errors
  import opened Aggregation

  // ---------------------------------------------------------------------------
  // The merge steps

  /** A later dish occurrence never changes the id, name or aisle; it sums the quantities
      (null counting as 0) and keeps the trimmed current unit when both trimmed units are
      non-empty and equal ignoring case, and otherwise clears quantity and unit. An entry
      whose quantity and unit are already cleared stays as it is. */
  lemma DishMergeRules(cur: Agg, di: PlatIngredient)
    ensures var r := MergeDishOccurrence(cur, di);
              r.ingredientId == cur.ingredientId && r.name == cur.name && r.aisle == cur.aisle
    ensures UnitsMatch(TrimOpt(cur.unit), TrimOpt(di.unit)) ==>
              MergeDishOccurrence(cur, di).qty == Some(cur.qty.GetOr(0.0) + di.quantity.GetOr(0.0))
              && MergeDishOccurrence(cur, di).unit == TrimOpt(cur.unit)
    ensures !UnitsMatch(TrimOpt(cur.unit), TrimOpt(di.unit)) ==>
              MergeDishOccurrence(cur, di).qty.None? && MergeDishOccurrence(cur, di).unit.None?
    ensures cur.qty.None? && cur.unit.None? ==> MergeDishOccurrence(cur, di) == cur
  {
  }

  /** 200 g and 300 g of the same ingredient give 500 g. */
  lemma DishMergeSameUnit(id: string, name: string, aisle: Option<string>)
    ensures MergeDishOccurrence(Agg(id, name, aisle, Some(200.0), Some("g")), PlatIngredient(id, Some(300.0), Some("g")))
              == Agg(id, name, aisle, Some(500.0), Some("g"))
  {
    TrimUnchanged("g");
  }

  /** 200 g and 300 kg give no quantity and no unit. */
  lemma DishMergeOtherUnit(id: string, name: string, aisle: Option<string>)
    ensures MergeDishOccurrence(Agg(id, name, aisle, Some(200.0), Some("g")), PlatIngredient(id, Some(300.0), Some("kg")))
              == Agg(id, name, aisle, None, None)
  {
    TrimUnchanged("g");
    TrimUnchanged("kg");
    assert Upper("g") != Upper("kg");
  }

  /** Units are compared trimmed and ignoring case, a null quantity counts as 0, and the
      merged entry keeps the trimmed current unit. */
  lemma DishMergeTrimmedUnits(id: string, name: string, aisle: Option<string>)
    ensures MergeDishOccurrence(Agg(id, name, aisle, Some(200.0), Some("g ")), PlatIngredient(id, None, Some(" G")))
              == Agg(id, name, aisle, Some(200.0), Some("g"))
  {
    TrimTrailingSpace();
    TrimLeadingSpace();
    assert Upper("g") == Upper("G");
  }

  lemma TrimTrailingSpace()
    ensures Trim("g ") == "g"
  {
    assert LeadingCount("g ", IsWhiteSpace) == 0;
    assert "g "[0..] == "g ";
    assert TrailingCount("g "[..1], IsWhiteSpace) == 0;
    assert TrailingCount("g ", IsWhiteSpace) == 1;
    assert "g "[..1] == "g";
  }

  lemma TrimLeadingSpace()
    ensures Trim(" G") == "G"
  {
    assert " G"[1..] == "G";
    assert LeadingCount("G", IsWhiteSpace) == 0;
    assert LeadingCount(" G", IsWhiteSpace) == 1;
    assert TrailingCount("G", IsWhiteSpace) == 0;
    assert "G"[..1] == "G";
  }

  /** A manual entry landing on an entry: with matching units it sums and takes the manual
      name and aisle; otherwise an entry whose quantity and unit are both null is left
      entirely unchanged, and any other entry takes the manual name and aisle with no
      quantity and no unit. In particular a manual entry never changes such a null entry. */
  lemma ManualMergeRules(cur: Agg, name: string, aisle: Option<string>, qty: Option<Quantity>, unit: Option<string>)
    ensures MergeManualEntry(cur, name, aisle, qty, unit).ingredientId == cur.ingredientId
    ensures UnitsMatch(TrimOpt(cur.unit), unit) ==>
              MergeManualEntry(cur, name, aisle, qty, unit)
                == Agg(cur.ingredientId, name, aisle, Some(cur.qty.GetOr(0.0) + qty.GetOr(0.0)), TrimOpt(cur.unit))
    ensures !UnitsMatch(TrimOpt(cur.unit), unit) && !(cur.qty.None? && cur.unit.None?) ==>
              MergeManualEntry(cur, name, aisle, qty, unit) == Agg(cur.ingredientId, name, aisle, None, None)
    ensures cur.qty.None? && cur.unit.None? ==> MergeManualEntry(cur, name, aisle, qty, unit) == cur
  {
  }

  /** One dish reference: an ingredient the catalog does not resolve is skipped; the first
      occurrence of a resolved ingredient stores the catalog's name and aisle with the
      reference's quantity and unit as given (the unit is not trimmed) and goes last; a
      repeat is merged in place. Nothing else changes. */
  lemma StepDishRules(ings: map<string, Ingredient>, acc: Accumulator, di: PlatIngredient)
    requires acc.Valid()
    ensures di.ingredientId !in ings ==> StepDish(ings, acc, di) == acc
    ensures var r := StepDish(ings, acc, di);
      && (di.ingredientId in ings && di.ingredientId !in acc.entries ==>
            r.entries[di.ingredientId] == Agg(di.ingredientId, ings[di.ingredientId].name, ings[di.ingredientId].aisle, di.quantity, di.unit)
            && r.order == acc.order + [di.ingredientId])
      && (di.ingredientId in ings && di.ingredientId in acc.entries ==>
            r.entries[di.ingredientId] == MergeDishOccurrence(acc.entries[di.ingredientId], di)
            && r.order == acc.order)
      && (forall k :: k in acc.entries && k != di.ingredientId ==> r.entries[k] == acc.entries[k])
  {
  }

  /** What one manual entry does to the accumulator: a new id is added last with the
      catalog name (or the entry's own), the catalog aisle (or the entry's own) and the
      entry's quantity and normalised unit; an existing id is merged in place. Nothing
      else changes. */
  lemma StepManualRules(ings: map<string, Ingredient>, acc: Accumulator, m: ListeItemDto)
    requires acc.Valid()
    ensures var r := StepManual(ings, acc, m);
      && (m.ingredientId !in acc.entries ==>
            r.entries[m.ingredientId] == Agg(m.ingredientId, ManualName(ings, m), ManualAisle(ings, m), m.quantity, ManualUnit(m.unit))
            && r.order == acc.order + [m.ingredientId])
      && (m.ingredientId in acc.entries ==>
            r.entries[m.ingredientId] == MergeManualEntry(acc.entries[m.ingredientId], ManualName(ings, m), ManualAisle(ings, m), m.quantity, ManualUnit(m.unit))
            && r.order == acc.order)
      && (forall k :: k in acc.entries && k != m.ingredientId ==> r.entries[k] == acc.entries[k])
    ensures m.ingredientId in ings ==> ManualName(ings, m) == ings[m.ingredientId].name
    ensures m.ingredientId !in ings ==> ManualName(ings, m) == m.ingredientName && ManualAisle(ings, m) == m.aisle
    ensures m.ingredientId in ings && ings[m.ingredientId].aisle.Some? ==> ManualAisle(ings, m) == ings[m.ingredientId].aisle
  {
  }

  // ---------------------------------------------------------------------------
  // From the accumulator to the item list

  function AggIdSet(s: seq<Agg>): set<string> {
    set a | a in s :: a.ingredientId
  }

  predicate DistinctAggIds(s: seq<Agg>) {
    forall i, j :: 0 <= i < j < |s| ==> s[i].ingredientId != s[j].ingredientId
  }

  predicate SortedAggs(s: seq<Agg>, leq: (string, string) -> bool) {
    forall i :: 0 <= i < |s| - 1 ==> leq(s[i].name, s[i + 1].name)
  }

  /** Items in non-decreasing order of name. */
  predicate SortedByName(items: seq<ListeItem>, leq: (string, string) -> bool) {
    forall i :: 0 <= i < |items| - 1 ==> leq(items[i].ingredientName, items[i + 1].ingredientName)
  }

  /** The comparer compares every pair of names. */
  ghost predicate Total(leq: (string, string) -> bool) {
    forall a, b :: leq(a, b) || leq(b, a)
  }

  /** The comparer is a total preorder, as a culture-aware string comparer is. */
  ghost predicate TotalPreorder(leq: (string, string) -> bool) {
    Total(leq) && forall a, b, c :: leq(a, b) && leq(b, c) ==> leq(a, c)
  }

  lemma ValuesFacts(acc: Accumulator)
    requires acc.Valid()
    ensures AggIdSet(acc.Values()) == acc.entries.Keys
    ensures DistinctAggIds(acc.Values())
    ensures forall a :: a in acc.Values() ==> a.ingredientId in acc.entries && acc.entries[a.ingredientId] == a
  {
    var vs := acc.Values();
    forall k | k in acc.entries.Keys ensures k in AggIdSet(vs) {
      var i :| 0 <= i < |acc.order| && acc.order[i] == k;
      assert vs[i] in vs && vs[i].ingredientId == k;
    }
    forall a | a in vs ensures a.ingredientId in acc.entries && acc.entries[a.ingredientId] == a {
      var i :| 0 <= i < |vs| && vs[i] == a;
      assert acc.order[i] in acc.entries;
    }
  }

  lemma SameElementsSameIds(a: seq<Agg>, b: seq<Agg>)
    requires multiset(a) == multiset(b)
    ensures AggIdSet(a) == AggIdSet(b)
    ensures forall x :: x in a <==> x in b
  {
    assert forall x :: x in a <==> x in multiset(a);
    assert forall x :: x in b <==> x in multiset(b);
  }

  lemma {:induction false} InsertKeepsDistinct(x: Agg, s: seq<Agg>, leq: (string, string) -> bool)
    requires DistinctAggIds(s) && x.ingredientId !in AggIdSet(s)
    ensures DistinctAggIds(InsertByName(x, s, leq))
  {
    if s == [] {
    } else if leq(x.name, s[0].name) {
      var r := [x] + s;
      forall j | 0 < j < |r| ensures r[j].ingredientId != x.ingredientId {
        assert r[j] in s;
      }
    } else {
      var t := s[1..];
      assert x.ingredientId !in AggIdSet(t) by {
        forall a | a in t ensures a.ingredientId != x.ingredientId {
          assert a in s;
        }
      }
      InsertKeepsDistinct(x, t, leq);
      var r := InsertByName(x, t, leq);
      forall j | 0 <= j < |r| ensures r[j].ingredientId != s[0].ingredientId {
        assert r[j] in multiset(t) + multiset{x} by { assert r[j] in multiset(r); }
        if r[j] != x {
          assert r[j] in t;
          var k :| 0 <= k < |t| && t[k] == r[j];
          assert s[k + 1] == r[j];
        } else {
          assert s[0] in s;
        }
      }
      assert InsertByName(x, s, leq) == [s[0]] + r;
    }
  }

  lemma {:induction false} SortKeepsDistinct(s: seq<Agg>, leq: (string, string) -> bool)
    requires DistinctAggIds(s)
    ensures DistinctAggIds(SortByName(s, leq))
  {
    if s != [] {
      var t := s[1..];
      SortKeepsDistinct(t, leq);
      SameElementsSameIds(SortByName(t, leq), t);
      assert s[0].ingredientId !in AggIdSet(t) by {
        forall a | a in t ensures a.ingredientId != s[0].ingredientId {
          var k :| 0 <= k < |t| && t[k] == a;
          assert s[k + 1] == a;
        }
      }
      InsertKeepsDistinct(s[0], SortByName(t, leq), leq);
    }
  }

  lemma InsertHead(x: Agg, s: seq<Agg>, leq: (string, string) -> bool)
    ensures InsertByName(x, s, leq)[0] == x || (s != [] && InsertByName(x, s, leq)[0] == s[0])
  {
  }

  lemma {:induction false} InsertKeepsSorted(x: Agg, s: seq<Agg>, leq: (string, string) -> bool)
    requires Total(leq) && SortedAggs(s, leq)
    ensures SortedAggs(InsertByName(x, s, leq), leq)
  {
    if s != [] && !leq(x.name, s[0].name) {
      var t := s[1..];
      InsertKeepsSorted(x, t, leq);
      var r := InsertByName(x, t, leq);
      InsertHead(x, t, leq);
      assert leq(s[0].name, r[0].name) by {
        if r[0] == x {
          assert leq(x.name, s[0].name) || leq(s[0].name, x.name);
        } else {
          assert r[0] == s[1];
        }
      }
      assert InsertByName(x, s, leq) == [s[0]] + r;
    }
  }

  lemma {:induction false} SortSorts(s: seq<Agg>, leq: (string, string) -> bool)
    requires Total(leq)
    ensures SortedAggs(SortByName(s, leq), leq)
  {
    if s != [] {
      SortSorts(s[1..], leq);
      InsertKeepsSorted(s[0], SortByName(s[1..], leq), leq);
    }
  }

  /** `a` stands somewhere before `b` in `r`. */
  predicate Precedes(r: seq<Agg>, a: Agg, b: Agg) {
    exists p, q :: 0 <= p < q < |r| && r[p] == a && r[q] == b
  }

  lemma PrecedesShift(h: seq<Agg>, t: seq<Agg>, a: Agg, b: Agg)
    requires Precedes(t, a, b)
    ensures Precedes(h + t, a, b)
  {
    var p, q :| 0 <= p < q < |t| && t[p] == a && t[q] == b;
    assert (h + t)[p + |h|] == a && (h + t)[q + |h|] == b;
  }

  lemma PrecedesFromHead(a: Agg, t: seq<Agg>, b: Agg)
    requires b in t
    ensures Precedes([a] + t, a, b)
  {
    var k :| 0 <= k < |t| && t[k] == b;
    assert ([a] + t)[0] == a && ([a] + t)[k + 1] == b;
  }

  /** Inserting an entry keeps every pair that was in order in order. */
  lemma {:induction false} InsertKeepsPrecedes(x: Agg, s: seq<Agg>, leq: (string, string) -> bool, a: Agg, b: Agg)
    requires Precedes(s, a, b)
    ensures Precedes(InsertByName(x, s, leq), a, b)
  {
    var p, q :| 0 <= p < q < |s| && s[p] == a && s[q] == b;
    if leq(x.name, s[0].name) {
      assert InsertByName(x, s, leq) == [x] + s;
      PrecedesShift([x], s, a, b);
    } else {
      var rest := s[1..];
      var t := InsertByName(x, rest, leq);
      assert InsertByName(x, s, leq) == [s[0]] + t;
      assert rest[q - 1] == b;
      if p == 0 {
        assert b in t by {
          assert b in multiset(rest);
          assert b in multiset(t);
        }
        PrecedesFromHead(a, t, b);
      } else {
        assert rest[p - 1] == a;
        InsertKeepsPrecedes(x, rest, leq, a, b);
        PrecedesShift([s[0]], t, a, b);
      }
    }
  }

  /** An inserted entry lands before every entry whose name it compares at most equal to. */
  lemma {:induction false} InsertLandsBefore(x: Agg, s: seq<Agg>, leq: (string, string) -> bool, b: Agg)
    requires b in s && leq(x.name, b.name)
    ensures Precedes(InsertByName(x, s, leq), x, b)
  {
    var k :| 0 <= k < |s| && s[k] == b;
    if leq(x.name, s[0].name) {
      assert InsertByName(x, s, leq) == [x] + s;
      PrecedesFromHead(x, s, b);
    } else {
      var rest := s[1..];
      var t := InsertByName(x, rest, leq);
      assert InsertByName(x, s, leq) == [s[0]] + t;
      assert k != 0;
      assert rest[k - 1] == b;
      InsertLandsBefore(x, rest, leq, b);
      PrecedesShift([s[0]], t, x, b);
    }
  }

  lemma SortByNameCons(s: seq<Agg>, leq: (string, string) -> bool)
    requires s != []
    ensures SortByName(s, leq) == InsertByName(s[0], SortByName(s[1..], leq), leq)
  {
  }

  lemma InSortByName(s: seq<Agg>, leq: (string, string) -> bool, x: Agg)
    requires x in s
    ensures x in SortByName(s, leq)
  {
    assert x in multiset(s);
  }

  /** The sort is stable: an entry that comes before another whose name it compares at
      most equal to still comes before it afterwards. */
  lemma {:induction false} SortIsStable(s: seq<Agg>, leq: (string, string) -> bool, i: nat, j: nat)
    requires i < j < |s| && leq(s[i].name, s[j].name)
    ensures Precedes(SortByName(s, leq), s[i], s[j])
  {
    if i == 0 {
      SortLandsFirstBefore(s, leq, s[j]);
    } else {
      var rest := s[1..];
      assert s[i] == rest[i - 1] && s[j] == rest[j - 1];
      SortIsStable(rest, leq, i - 1, j - 1);
      SortKeepsPrecedes(s, leq, s[i], s[j]);
    }
  }

  lemma SortLandsFirstBefore(s: seq<Agg>, leq: (string, string) -> bool, b: Agg)
    requires s != [] && b in s[1..] && leq(s[0].name, b.name)
    ensures Precedes(SortByName(s, leq), s[0], b)
  {
    SortByNameCons(s, leq);
    InSortByName(s[1..], leq, b);
    InsertLandsBefore(s[0], SortByName(s[1..], leq), leq, b);
  }

  lemma SortKeepsPrecedes(s: seq<Agg>, leq: (string, string) -> bool, a: Agg, b: Agg)
    requires s != [] && Precedes(SortByName(s[1..], leq), a, b)
    ensures Precedes(SortByName(s, leq), a, b)
  {
    SortByNameCons(s, leq);
    InsertKeepsPrecedes(s[0], SortByName(s[1..], leq), leq, a, b);
  }

  lemma EmitFacts(s: seq<Agg>, cm: map<string, bool>, leq: (string, string) -> bool)
    ensures ItemIdSet(Emit(s, cm)) == AggIdSet(s)
    ensures DistinctAggIds(s) ==> DistinctIds(Emit(s, cm))
    ensures SortedAggs(s, leq) ==> SortedByName(Emit(s, cm), leq)
  {
    var items := Emit(s, cm);
    forall k | k in AggIdSet(s) ensures k in ItemIdSet(items) {
      var a :| a in s && a.ingredientId == k;
      var i :| 0 <= i < |s| && s[i] == a;
      assert items[i] in items;
    }
    forall k | k in ItemIdSet(items) ensures k in AggIdSet(s) {
      var it :| it in items && it.ingredientId == k;
      var i :| 0 <= i < |items| && items[i] == it;
      assert s[i] in s;
    }
  }

  /** Adjacent order under a total preorder is order between any two positions. */
  lemma {:induction false} SortedPairwise(items: seq<ListeItem>, leq: (string, string) -> bool, i: int, j: int)
    requires TotalPreorder(leq) && SortedByName(items, leq)
    requires 0 <= i <= j < |items|
    ensures leq(items[i].ingredientName, items[j].ingredientName)
    decreases j - i
  {
    if i == j {
      var n := items[i].ingredientName;
      assert leq(n, n) || leq(n, n);
    } else {
      SortedPairwise(items, leq, i + 1, j);
    }
  }

  // ---------------------------------------------------------------------------
  // The result of materialisation

  /** Sorting and emitting an accumulator gives one item per key, in name order when the
      comparer is total. */
  lemma SortedEmitFacts(acc: Accumulator, cm: map<string, bool>, leq: (string, string) -> bool)
    requires acc.Valid()
    ensures var items := Emit(SortByName(acc.Values(), leq), cm);
      && ItemIdSet(items) == acc.entries.Keys
      && DistinctIds(items)
      && (Total(leq) ==> SortedByName(items, leq))
  {
    var vs := acc.Values();
    ValuesFacts(acc);
    var sorted := SortByName(vs, leq);
    SameElementsSameIds(sorted, vs);
    SortKeepsDistinct(vs, leq);
    EmitFacts(sorted, cm, leq);
    if Total(leq) {
      SortSorts(vs, leq);
    }
  }

  /** The items have exactly one entry per ingredient id that the resolvable dishes bring
      (through resolvable ingredients) or that a manual entry names, and nothing else; when
      the comparer compares every pair of names they come in non-decreasing name order. */
  lemma MaterializedItems(ings: map<string, Ingredient>, plats: map<string, Plat>, dishIds: seq<string>,
                          manual: Option<seq<ListeItemDto>>, prior: Option<seq<ListeItem>>,
                          leq: (string, string) -> bool)
    requires Materialized(ings, plats, dishIds, manual, prior, leq).Success?
    ensures var items := Materialized(ings, plats, dishIds, manual, prior, leq).value;
      && ItemIdSet(items) == DishIngredientIds(ings, plats, dishIds) + (if manual.Some? then ManualIds(manual.value) else {})
      && DistinctIds(items)
      && (Total(leq) ==> SortedByName(items, leq))
  {
    SortedEmitFacts(Accumulated(ings, plats, dishIds, manual), CheckedMap(prior, manual).value, leq);
  }

  /** Materialisation fails exactly when the items the checked flags come from repeat an
      ingredient id, and then with the duplicate-key error. */
  lemma MaterializedFailure(ings: map<string, Ingredient>, plats: map<string, Plat>, dishIds: seq<string>,
                            manual: Option<seq<ListeItemDto>>, prior: Option<seq<ListeItem>>,
                            leq: (string, string) -> bool)
    ensures Materialized(ings, plats, dishIds, manual, prior, leq).Failure? <==> prior.Some? && !DistinctIds(prior.value)
    ensures Materialized(ings, plats, dishIds, manual, prior, leq).Failure? ==>
              Materialized(ings, plats, dishIds, manual, prior, leq).error == DuplicateKey
  {
  }

  // ---------------------------------------------------------------------------
  // Checked flags

  /** The last explicit `Checked` among the manual entries for `id`, if any. */
  function LastExplicitChecked(manual: seq<ListeItemDto>, id: string): Option<bool> {
    if manual == [] then None
    else
      var last := manual[|manual| - 1];
      if last.ingredientId == id && last.checked.Some? then last.checked
      else LastExplicitChecked(manual[..|manual| - 1], id)
  }

  /** Some prior item for `id` is checked. */
  predicate PriorFlag(prior: Option<seq<ListeItem>>, id: string) {
    prior.Some? && exists i :: 0 <= i < |prior.value| && prior.value[i].ingredientId == id && prior.value[i].checked
  }

  /** The flag an item should carry: the last explicit manual value, else the prior
      item's flag, else false. */
  function ExpectedChecked(prior: Option<seq<ListeItem>>, manual: Option<seq<ListeItemDto>>, id: string): bool {
    match LastExplicitChecked(manual.GetOr([]), id)
    case Some(b) => b
    case None => PriorFlag(prior, id)
  }

  lemma {:induction false} OverrideLookup(base: map<string, bool>, manual: seq<ListeItemDto>, id: string)
    ensures CheckedOf(OverrideChecked(base, manual), id) ==
              match LastExplicitChecked(manual, id) case Some(b) => b case None => CheckedOf(base, id)
  {
    if manual != [] {
      OverrideLookup(base, manual[..|manual| - 1], id);
    }
  }

  lemma PriorLookup(prior: seq<ListeItem>, id: string)
    requires DistinctIds(prior)
    ensures CheckedOf(PriorChecked(prior).value, id) == PriorFlag(Some(prior), id)
  {
    var pc := PriorChecked(prior).value;
    if id in pc {
      var it :| it in prior && it.ingredientId == id;
      var i :| 0 <= i < |prior| && prior[i] == it;
      PriorCheckedValue(prior, i);
    }
  }

  /** Every item's checked flag is the last explicit manual flag for its ingredient, or
      else the flag it had among the prior items, or else false. */
  lemma MaterializedChecked(ings: map<string, Ingredient>, plats: map<string, Plat>, dishIds: seq<string>,
                            manual: Option<seq<ListeItemDto>>, prior: Option<seq<ListeItem>>,
                            leq: (string, string) -> bool)
    requires Materialized(ings, plats, dishIds, manual, prior, leq).Success?
    ensures var items := Materialized(ings, plats, dishIds, manual, prior, leq).value;
      forall i :: 0 <= i < |items| ==> items[i].checked == ExpectedChecked(prior, manual, items[i].ingredientId)
  {
    var items := Materialized(ings, plats, dishIds, manual, prior, leq).value;
    var base := if prior.Some? then PriorChecked(prior.value).value else map[];
    forall i | 0 <= i < |items| ensures items[i].checked == ExpectedChecked(prior, manual, items[i].ingredientId) {
      var id := items[i].ingredientId;
      OverrideLookup(base, manual.GetOr([]), id);
      if prior.Some? {
        PriorLookup(prior.value, id);
      }
    }
  }

  /** A checked item stays checked when a new materialisation brings its ingredient again
      and no manual entry says otherwise. */
  lemma CheckedPreserved(ings: map<string, Ingredient>, plats: map<string, Plat>, dishIds: seq<string>,
                         manual: Option<seq<ListeItemDto>>, prior: seq<ListeItem>, leq: (string, string) -> bool, p: nat)
    requires DistinctIds(prior) && p < |prior| && prior[p].checked
    requires manual.None? || forall m :: m in manual.value && m.ingredientId == prior[p].ingredientId ==> m.checked.None?
    ensures var items := Materialized(ings, plats, dishIds, manual, Some(prior), leq).value;
      forall i :: 0 <= i < |items| && items[i].ingredientId == prior[p].ingredientId ==> items[i].checked
  {
    MaterializedChecked(ings, plats, dishIds, manual, Some(prior), leq);
    NoExplicitChecked(manual.GetOr([]), prior[p].ingredientId);
  }

  lemma {:induction false} NoExplicitChecked(manual: seq<ListeItemDto>, id: string)
    requires forall m :: m in manual && m.ingredientId == id ==> m.checked.None?
    ensures LastExplicitChecked(manual, id).None?
  {
    if manual != [] {
      assert manual[|manual| - 1] in manual;
      NoExplicitChecked(manual[..|manual| - 1], id);
    }
  }

  // ---------------------------------------------------------------------------
  // Idempotence

  /** Materialising again with the same dishes and manual entries, taking the checked
      flags from the first result, gives the first result back. */
  lemma MaterializeIdempotent(ings: map<string, Ingredient>, plats: map<string, Plat>, dishIds: seq<string>,
                              manual: Option<seq<ListeItemDto>>, prior: Option<seq<ListeItem>>,
                              leq: (string, string) -> bool)
    requires Materialized(ings, plats, dishIds, manual, prior, leq).Success?
    ensures var out := Materialized(ings, plats, dishIds, manual, prior, leq).value;
            Materialized(ings, plats, dishIds, manual, Some(out), leq) == Success(out)
  {
    var out := Materialized(ings, plats, dishIds, manual, prior, leq).value;
    MaterializedItems(ings, plats, dishIds, manual, prior, leq);
    var base1 := if prior.Some? then PriorChecked(prior.value).value else map[];
    EmitAgain(SortByName(Accumulated(ings, plats, dishIds, manual).Values(), leq), base1, manual.GetOr([]));
  }

  /** Emitting the same entries with the flags read back from an emitted list, overridden
      by the same manual entries, gives that list again. */
  lemma EmitAgain(sorted: seq<Agg>, base: map<string, bool>, manual: seq<ListeItemDto>)
    requires DistinctIds(Emit(sorted, OverrideChecked(base, manual)))
    ensures var out := Emit(sorted, OverrideChecked(base, manual));
            Emit(sorted, OverrideChecked(PriorChecked(out).value, manual)) == out
  {
    var out := Emit(sorted, OverrideChecked(base, manual));
    var base2 := PriorChecked(out).value;
    forall i | 0 <= i < |sorted|
      ensures CheckedOf(OverrideChecked(base2, manual), sorted[i].ingredientId) == CheckedOf(OverrideChecked(base, manual), sorted[i].ingredientId)
    {
      var id := sorted[i].ingredientId;
      OverrideLookup(base, manual, id);
      OverrideLookup(base2, manual, id);
      assert out[i].ingredientId == id;
      PriorCheckedValue(out, i);
    }
    assert Emit(sorted, OverrideChecked(base2, manual)) == out;
  }

  // ---------------------------------------------------------------------------
  // Names and aisles

  /** Every entry of the accumulator carries its ingredient's catalog name and aisle. */
  ghost predicate FromCatalog(ings: map<string, Ingredient>, acc: Accumulator) {
    forall k :: k in acc.entries ==>
      k in ings && acc.entries[k].name == ings[k].name && acc.entries[k].aisle == ings[k].aisle
  }

  lemma StepDishFromCatalog(ings: map<string, Ingredient>, acc: Accumulator, di: PlatIngredient)
    requires acc.Valid() && FromCatalog(ings, acc)
    ensures FromCatalog(ings, StepDish(ings, acc, di))
  {
    var r := StepDish(ings, acc, di);
    if di.ingredientId in ings {
      forall k | k in r.entries ensures k in ings && r.entries[k].name == ings[k].name && r.entries[k].aisle == ings[k].aisle {
        if k != di.ingredientId {
          assert r.entries[k] == acc.entries[k];
        }
      }
    }
  }

  lemma {:induction false} AccumulateDishFromCatalog(ings: map<string, Ingredient>, acc: Accumulator, refs: seq<PlatIngredient>)
    requires acc.Valid() && FromCatalog(ings, acc)
    ensures FromCatalog(ings, AccumulateDish(ings, acc, refs))
  {
    if refs != [] {
      var init := refs[..|refs| - 1];
      AccumulateDishFromCatalog(ings, acc, init);
      StepDishFromCatalog(ings, AccumulateDish(ings, acc, init), refs[|refs| - 1]);
    }
  }

  lemma {:induction false} AccumulateDishesFromCatalog(ings: map<string, Ingredient>, plats: map<string, Plat>, acc: Accumulator, dishIds: seq<string>)
    requires acc.Valid() && FromCatalog(ings, acc)
    ensures FromCatalog(ings, AccumulateDishes(ings, plats, acc, dishIds))
  {
    if dishIds != [] {
      var init := dishIds[..|dishIds| - 1];
      var d := dishIds[|dishIds| - 1];
      AccumulateDishesFromCatalog(ings, plats, acc, init);
      if d in plats {
        AccumulateDishFromCatalog(ings, AccumulateDishes(ings, plats, acc, init), plats[d].ingredients);
      }
    }
  }

  /** Without manual entries, every item names a catalog ingredient and carries the
      catalog's name and aisle: later dish occurrences never change them. */
  lemma DishItemsFromCatalog(ings: map<string, Ingredient>, plats: map<string, Plat>, dishIds: seq<string>,
                             manual: Option<seq<ListeItemDto>>, prior: Option<seq<ListeItem>>,
                             leq: (string, string) -> bool)
    requires manual.None? || manual == Some([])
    requires Materialized(ings, plats, dishIds, manual, prior, leq).Success?
    ensures var items := Materialized(ings, plats, dishIds, manual, prior, leq).value;
      forall i :: 0 <= i < |items| ==>
        var id := items[i].ingredientId;
        id in ings && items[i].ingredientName == ings[id].name && items[i].aisle == ings[id].aisle
  {
    var acc := Accumulated(ings, plats, dishIds, manual);
    DishIngredientIdsDistinct(ings, plats, dishIds);
    AccumulateDishesFromCatalog(ings, plats, EmptyAcc, Distinct(dishIds));
    var vs := acc.Values();
    ValuesFacts(acc);
    var sorted := SortByName(vs, leq);
    SameElementsSameIds(sorted, vs);
    var items := Materialized(ings, plats, dishIds, manual, prior, leq).value;
    forall i | 0 <= i < |items|
      ensures items[i].ingredientId in ings
      ensures items[i].ingredientName == ings[items[i].ingredientId].name
      ensures items[i].aisle == ings[items[i].ingredientId].aisle
    {
      assert sorted[i] in vs;
    }
  }

  // ---------------------------------------------------------------------------
  // Orphans

  /** The dish ids the catalog resolves, in their order. */
  function ResolvedDishes(plats: map<string, Plat>, ids: seq<string>): (r: seq<string>)
    ensures forall x :: x in r <==> x in ids && x in plats
  {
    if ids == [] then []
    else
      var init := ids[..|ids| - 1];
      var last := ids[|ids| - 1];
      assert ids == init + [last];
      ResolvedDishes(plats, init) + (if last in plats then [last] else [])
  }

  lemma {:induction false} ResolvedDishesAppend(plats: map<string, Plat>, a: seq<string>, b: seq<string>)
    ensures ResolvedDishes(plats, a + b) == ResolvedDishes(plats, a) + ResolvedDishes(plats, b)
  {
    if b != [] {
      var init := b[..|b| - 1];
      var last := b[|b| - 1];
      assert b == init + [last];
      assert (a + b)[..|a + b| - 1] == a + init;
      ResolvedDishesAppend(plats, a, init);
    } else {
      assert a + b == a;
    }
  }

  /** The outer fold skips unresolved dish ids, so it only sees the resolved ones. */
  lemma {:induction false} AccumulateDishesResolved(ings: map<string, Ingredient>, plats: map<string, Plat>, acc: Accumulator, ids: seq<string>)
    requires acc.Valid()
    ensures AccumulateDishes(ings, plats, acc, ids) == AccumulateDishes(ings, plats, acc, ResolvedDishes(plats, ids))
  {
    if ids != [] {
      var init := ids[..|ids| - 1];
      var last := ids[|ids| - 1];
      AccumulateDishesResolved(ings, plats, acc, init);
      var r := ResolvedDishes(plats, init);
      var prev := AccumulateDishes(ings, plats, acc, init);
      if last in plats {
        var rl := r + [last];
        assert ResolvedDishes(plats, ids) == rl;
        assert rl[..|rl| - 1] == r && rl[|rl| - 1] == last;
        assert AccumulateDishes(ings, plats, acc, rl) == AccumulateDish(ings, prev, plats[last].ingredients);
        assert AccumulateDishes(ings, plats, acc, ids) == AccumulateDish(ings, prev, plats[last].ingredients);
      } else {
        assert ResolvedDishes(plats, ids) == r;
        assert AccumulateDishes(ings, plats, acc, ids) == prev;
      }
    }
  }

  lemma DistinctSnoc(ids: seq<string>, x: string)
    ensures Distinct(ids + [x]) == if x in Distinct(ids) then Distinct(ids) else Distinct(ids) + [x]
  {
    assert (ids + [x])[..|ids + [x]| - 1] == ids;
  }

  lemma ResolvedDishesSnoc(plats: map<string, Plat>, ids: seq<string>, x: string)
    ensures ResolvedDishes(plats, ids + [x]) == ResolvedDishes(plats, ids) + (if x in plats then [x] else [])
  {
    assert (ids + [x])[..|ids + [x]| - 1] == ids;
  }

  /** De-duplicating and keeping the resolved ids commute. */
  lemma {:induction false} DistinctResolved(plats: map<string, Plat>, ids: seq<string>)
    ensures ResolvedDishes(plats, Distinct(ids)) == Distinct(ResolvedDishes(plats, ids))
  {
    if ids != [] {
      var init := ids[..|ids| - 1];
      var last := ids[|ids| - 1];
      assert ids == init + [last];
      DistinctResolved(plats, init);
      var p := Distinct(init);
      var q := ResolvedDishes(plats, init);
      DistinctSnoc(init, last);
      ResolvedDishesSnoc(plats, init, last);
      if last in plats {
        DistinctSnoc(q, last);
        assert last in p <==> last in Distinct(q);
        if last !in p {
          ResolvedDishesSnoc(plats, p, last);
        }
      } else {
        assert q + [] == q;
        if last !in p {
          ResolvedDishesSnoc(plats, p, last);
          assert ResolvedDishes(plats, p) + [] == ResolvedDishes(plats, p);
        }
      }
    }
  }

  /** A dish id the catalog does not resolve, wherever it stands among the list's dish
      ids, changes nothing in the aggregation. */
  lemma UnresolvedDishIgnoredByAggregate(ings: map<string, Ingredient>, plats: map<string, Plat>,
                                         before: seq<string>, d: string, after: seq<string>)
    requires d !in plats
    ensures AggregateFromDishes(ings, plats, before + [d] + after) == AggregateFromDishes(ings, plats, before + after)
  {
    var with := before + [d] + after;
    var without := before + after;
    ResolvedDishesAppend(plats, before + [d], after);
    ResolvedDishesAppend(plats, before, [d]);
    ResolvedDishesAppend(plats, before, after);
    assert ResolvedDishes(plats, [d]) == [];
    assert ResolvedDishes(plats, with) == ResolvedDishes(plats, without);
    DistinctResolved(plats, with);
    DistinctResolved(plats, without);
    AccumulateDishesResolved(ings, plats, EmptyAcc, Distinct(with));
    AccumulateDishesResolved(ings, plats, EmptyAcc, Distinct(without));
  }

  /** A list made of one dish with one resolved reference, without manual entries or prior
      items, holds one unchecked item with the catalog's name and aisle and the reference's
      quantity and unit exactly as the dish stores them: a unit such as " g " keeps its
      spaces. */
  lemma SingleDishLineKeepsUnit(ings: map<string, Ingredient>, plats: map<string, Plat>, d: string,
                                di: PlatIngredient, leq: (string, string) -> bool)
    requires d in plats && plats[d].ingredients == [di] && di.ingredientId in ings
    ensures Materialized(ings, plats, [d], None, None, leq) ==
              Success([ListeItem(di.ingredientId, ings[di.ingredientId].name, di.quantity, di.unit, ings[di.ingredientId].aisle, false)])
  {
    var a := Agg(di.ingredientId, ings[di.ingredientId].name, ings[di.ingredientId].aisle, di.quantity, di.unit);
    SingleDishAggregate(ings, plats, d, di);
    MaterializedWithoutManual(ings, plats, [d], leq);
    SingleEntryEmitted(a, leq);
  }

  /** A one-entry accumulator emits one unchecked item when no flags are known. */
  lemma SingleEntryEmitted(a: Agg, leq: (string, string) -> bool)
    ensures Emit(SortByName(Accumulator(map[a.ingredientId := a], [a.ingredientId]).Values(), leq), map[]) ==
              [ListeItem(a.ingredientId, a.name, a.qty, a.unit, a.aisle, false)]
  {
    var acc := Accumulator(map[a.ingredientId := a], [a.ingredientId]);
    var vs := acc.Values();
    assert vs == [a] by {
      assert |vs| == 1 && vs[0] == a;
    }
    assert SortByName([a], leq) == [a] by {
      assert [a][1..] == [];
    }
    var e := Emit([a], map[]);
    assert |e| == 1 && e[0] == ToItem(a, map[]);
  }

  /** Without manual entries or prior items, materialisation emits the sorted dish phase
      with every flag false. */
  lemma MaterializedWithoutManual(ings: map<string, Ingredient>, plats: map<string, Plat>, dishIds: seq<string>,
                                  leq: (string, string) -> bool)
    ensures Materialized(ings, plats, dishIds, None, None, leq) ==
              Success(Emit(SortByName(AggregateFromDishes(ings, plats, dishIds).Values(), leq), map[]))
  {
    assert OverrideChecked(map[], []) == map[];
    assert CheckedMap(None, None) == Success(map[]);
    assert Accumulated(ings, plats, dishIds, None) == AggregateFromDishes(ings, plats, dishIds);
  }

  /** The dish phase over one dish with one resolved reference stores that reference's
      first-occurrence entry. */
  lemma SingleDishAggregate(ings: map<string, Ingredient>, plats: map<string, Plat>, d: string, di: PlatIngredient)
    requires d in plats && plats[d].ingredients == [di] && di.ingredientId in ings
    ensures AggregateFromDishes(ings, plats, [d]) ==
              Accumulator(map[di.ingredientId := Agg(di.ingredientId, ings[di.ingredientId].name, ings[di.ingredientId].aisle, di.quantity, di.unit)],
                          [di.ingredientId])
  {
    var a := Agg(di.ingredientId, ings[di.ingredientId].name, ings[di.ingredientId].aisle, di.quantity, di.unit);
    var acc := Accumulator(map[di.ingredientId := a], [di.ingredientId]);
    assert [d][..0] == [] && [di][..0] == [];
    assert Distinct([d]) == [d];
    StepDishRules(ings, EmptyAcc, di);
    assert StepDish(ings, EmptyAcc, di) == acc;
    assert AccumulateDish(ings, EmptyAcc, [di]) == acc;
    assert AccumulateDishes(ings, plats, EmptyAcc, [d]) == AccumulateDish(ings, EmptyAcc, [di]);
  }

  /** A dish id that the catalog does not resolve contributes nothing, wherever it stands. */
  lemma UnresolvedDishIgnored(ings: map<string, Ingredient>, plats: map<string, Plat>,
                              before: seq<string>, d: string, after: seq<string>,
                              manual: Option<seq<ListeItemDto>>, prior: Option<seq<ListeItem>>,
                              leq: (string, string) -> bool)
    requires d !in plats
    ensures Materialized(ings, plats, before + [d] + after, manual, prior, leq) == Materialized(ings, plats, before + after, manual, prior, leq)
  {
    UnresolvedDishIgnoredByAggregate(ings, plats, before, d, after);
    assert Accumulated(ings, plats, before + [d] + after, manual) == Accumulated(ings, plats, before + after, manual);
  }
}
