// The stored documents: ingredients, dishes ("plats"), shopping lists ("listes") and users.
// Each is a value: the services load a fresh copy, change it and write it back.
module Models {
  import opened Wrappers

  /** Quantities are `double?` in the source; here they are exact reals. */
  type Quantity = real

  /** Instants (`DateTime`) as a count of 100-nanosecond ticks. */
  type Instant = int

  /** A catalog ingredient. `id` is unset (null) until the store assigns one. */
  datatype Ingredient = Ingredient(id: Option<string>, name: string, aisle: Option<string>)

  /** One ingredient reference inside a dish; duplicates are allowed. */
  datatype PlatIngredient = PlatIngredient(ingredientId: string, quantity: Option<Quantity>, unit: Option<string>)

  /** A dish: a name and an ordered list of ingredient references. */
  datatype Plat = Plat(id: Option<string>, name: string, ingredients: seq<PlatIngredient>)

  /** One line of a shopping list; name and aisle are snapshots of the catalog. */
  datatype ListeItem = ListeItem(
    ingredientId: string,
    ingredientName: string,
    quantity: Option<Quantity>,
    unit: Option<string>,
    aisle: Option<string>,
    checked: bool)

  /** A dated shopping list owned by one user. */
  datatype Liste = Liste(
    id: Option<string>,
    name: string,
    date: Instant,
    items: seq<ListeItem>,
    dishIds: seq<string>,
    ownerId: Option<string>)

  /** An account. */
  datatype Utilisateur = Utilisateur(
    id: Option<string>,
    email: Option<string>,
    pseudo: Option<string>,
    isSuperUser: bool,
    passwordHash: Option<string>)

  /** The ingredient ids of a list's items, in order. */
  function ItemIds(items: seq<ListeItem>): (ids: seq<string>)
    ensures |ids| == |items|
    ensures forall i :: 0 <= i < |items| ==> ids[i] == items[i].ingredientId
  {
    seq(|items|, i requires 0 <= i < |items| => items[i].ingredientId)
  }

  /** No two items of a list name the same ingredient. */
  predicate DistinctIds(items: seq<ListeItem>) {
    forall i, j :: 0 <= i < j < |items| ==> items[i].ingredientId != items[j].ingredientId
  }

  /** `list.RemoveAll(drop)`: the elements that `drop` rejects, in their original order. */
  function RemoveAll<T(!new)>(s: seq<T>, drop: T -> bool): (r: seq<T>)
    ensures |r| <= |s|
    ensures forall x :: x in r <==> x in s && !drop(x)
  {
    if s == [] then []
    else
      var rest := RemoveAll(s[..|s| - 1], drop);
      var last := s[|s| - 1];
      assert s == s[..|s| - 1] + [last];
      if drop(last) then rest else rest + [last]
  }

  /** Removing nothing leaves the sequence as it was. */
  lemma {:induction false} RemoveAllNothing<T(!new)>(s: seq<T>, drop: T -> bool)
    requires forall x :: x in s ==> !drop(x)
    ensures RemoveAll(s, drop) == s
  {
    if s != [] {
      RemoveAllNothing(s[..|s| - 1], drop);
      assert s == s[..|s| - 1] + [s[|s| - 1]];
    }
  }

  /** Removing from two sequences laid end to end removes from each in turn. */
  lemma {:induction false} RemoveAllAppend<T(!new)>(a: seq<T>, b: seq<T>, drop: T -> bool)
    ensures RemoveAll(a + b, drop) == RemoveAll(a, drop) + RemoveAll(b, drop)
  {
    if b != [] {
      var init := b[..|b| - 1];
      assert a + b == (a + init) + [b[|b| - 1]];
      assert b == init + [b[|b| - 1]];
      RemoveAllAppend(a, init, drop);
    } else {
      assert a + b == a;
    }
  }

  /** Removing the one element the predicate drops from between two runs it keeps. */
  lemma RemoveAllOne<T(!new)>(before: seq<T>, x: T, after: seq<T>, drop: T -> bool)
    requires drop(x)
    requires forall k :: k in before ==> !drop(k)
    requires forall k :: k in after ==> !drop(k)
    ensures RemoveAll(before + [x] + after, drop) == before + after
  {
    RemoveAllNothing(before, drop);
    RemoveAllNothing(after, drop);
    assert RemoveAll([x], drop) == [] by {
      assert [x][..0] == [];
    }
    RemoveAllAppend(before + [x], after, drop);
    RemoveAllAppend(before, [x], drop);
  }

  /** What `RemoveAll` keeps is a subsequence: every ordered pair of kept elements was
      an ordered pair of the input. */
  lemma {:induction false} RemoveAllKeepsOrder<T(!new)>(s: seq<T>, drop: T -> bool, i: nat, j: nat)
    requires i < j < |RemoveAll(s, drop)|
    ensures exists i', j' :: 0 <= i' < j' < |s| && s[i'] == RemoveAll(s, drop)[i] && s[j'] == RemoveAll(s, drop)[j]
  {
    var r := RemoveAll(s, drop);
    var init := s[..|s| - 1];
    var rest := RemoveAll(init, drop);
    assert s == init + [s[|s| - 1]];
    if j < |rest| {
      RemoveAllKeepsOrder(init, drop, i, j);
      var i', j' :| 0 <= i' < j' < |init| && init[i'] == rest[i] && init[j'] == rest[j];
      assert s[i'] == r[i] && s[j'] == r[j];
    } else {
      assert r == rest + [s[|s| - 1]] && j == |rest|;
      assert r[i] in init by { assert r[i] == rest[i]; }
      var i' :| 0 <= i' < |init| && init[i'] == r[i];
      assert s[i'] == r[i] && s[|s| - 1] == r[j];
    }
  }

  /** Removing items keeps the remaining ingredient ids distinct. */
  lemma RemoveAllKeepsDistinctIds(items: seq<ListeItem>, drop: ListeItem -> bool)
    requires DistinctIds(items)
    ensures DistinctIds(RemoveAll(items, drop))
  {
    var r := RemoveAll(items, drop);
    forall i, j | 0 <= i < j < |r| ensures r[i].ingredientId != r[j].ingredientId {
      RemoveAllKeepsOrder(items, drop, i, j);
    }
  }
}
