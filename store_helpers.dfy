// The front end's array bookkeeping: `upsertById` and `removeById` build new arrays and
// leave their input untouched, which values model directly.
module ArrayHelpers {
  import opened Models

  /** `arr.findIndex(x => x.id === id)`: the first position holding that id, or -1. */
  function FindIndex<T>(arr: seq<T>, id: string, idOf: T -> string): (idx: int)
    ensures -1 <= idx < |arr|
    ensures idx == -1 <==> forall i :: 0 <= i < |arr| ==> idOf(arr[i]) != id
    ensures idx >= 0 ==> idOf(arr[idx]) == id && forall j :: 0 <= j < idx ==> idOf(arr[j]) != id
  {
    if arr == [] then -1
    else if idOf(arr[0]) == id then 0
    else
      var r := FindIndex(arr[1..], id, idOf);
      assert forall j :: 1 <= j < |arr| ==> arr[j] == arr[1..][j - 1];
      if r == -1 then -1 else r + 1
  }

  /** `upsertById`: an entity whose id is absent is appended; otherwise it replaces the
      first element with its id and nothing else changes. */
  function UpsertById<T>(arr: seq<T>, entity: T, idOf: T -> string): (r: seq<T>)
    ensures (forall i :: 0 <= i < |arr| ==> idOf(arr[i]) != idOf(entity)) ==> r == arr + [entity]
    ensures (exists i :: 0 <= i < |arr| && idOf(arr[i]) == idOf(entity)) ==>
              |r| == |arr| &&
              forall j :: 0 <= j < |arr| ==>
                r[j] == if idOf(arr[j]) == idOf(entity) && (forall k :: 0 <= k < j ==> idOf(arr[k]) != idOf(entity))
                        then entity else arr[j]
  {
    var idx := FindIndex(arr, idOf(entity), idOf);
    if idx == -1 then arr + [entity]
    else
      assert forall j :: 0 <= j < |arr| && idOf(arr[j]) == idOf(entity) && (forall k :: 0 <= k < j ==> idOf(arr[k]) != idOf(entity)) ==> j == idx;
      arr[idx := entity]
  }

  /** `removeById`: the elements whose id differs, in their order. */
  function RemoveById<T(!new)>(arr: seq<T>, id: string, idOf: T -> string): (r: seq<T>)
    ensures forall x :: x in r <==> x in arr && idOf(x) != id
  {
    RemoveAll(arr, (x: T) => idOf(x) == id)
  }

  /** After an upsert the entity is what a lookup by its id finds. */
  lemma UpsertThenFind<T>(arr: seq<T>, entity: T, idOf: T -> string)
    ensures var r := UpsertById(arr, entity, idOf);
      var idx := FindIndex(r, idOf(entity), idOf);
      0 <= idx && r[idx] == entity
  {
    var r := UpsertById(arr, entity, idOf);
    var id := idOf(entity);
    var a := FindIndex(arr, id, idOf);
    if a == -1 {
      assert r[|arr|] == entity;
    } else {
      assert r[a] == entity;
      assert forall k :: 0 <= k < a ==> r[k] == arr[k];
      assert FindIndex(r, id, idOf) == a;
    }
  }

  /** Upserting twice is upserting once. */
  lemma UpsertIdempotent<T>(arr: seq<T>, entity: T, idOf: T -> string)
    ensures UpsertById(UpsertById(arr, entity, idOf), entity, idOf) == UpsertById(arr, entity, idOf)
  {
    var r := UpsertById(arr, entity, idOf);
    UpsertThenFind(arr, entity, idOf);
    var idx := FindIndex(r, idOf(entity), idOf);
    assert r[idx := entity] == r;
  }

  /** Replacing an element that is removed anyway does not change what is kept. */
  lemma {:induction false} RemoveAllReplaced<T(!new)>(s: seq<T>, idx: nat, e: T, drop: T -> bool)
    requires idx < |s| && drop(s[idx]) && drop(e)
    ensures RemoveAll(s[idx := e], drop) == RemoveAll(s, drop)
  {
    var n := |s| - 1;
    var init, last := s[..n], s[n];
    var init', last' := s[idx := e][..n], s[idx := e][n];
    assert s == init + [last];
    assert s[idx := e] == init' + [last'];
    if idx == n {
      assert init' == init;
    } else {
      assert init' == init[idx := e] && last' == last;
      RemoveAllReplaced(init, idx, e, drop);
    }
  }

  /** Removing an id after upserting an entity with that id is removing it from the
      original array: the upsert leaves no other trace. */
  lemma UpsertThenRemove<T(!new)>(arr: seq<T>, entity: T, idOf: T -> string)
    ensures RemoveById(UpsertById(arr, entity, idOf), idOf(entity), idOf) == RemoveById(arr, idOf(entity), idOf)
  {
    var id := idOf(entity);
    var drop := (x: T) => idOf(x) == id;
    var idx := FindIndex(arr, id, idOf);
    if idx == -1 {
      assert (arr + [entity])[..|arr|] == arr;
    } else {
      RemoveAllReplaced(arr, idx, entity, drop);
    }
  }

  /** The elements `removeById` keeps stay in their original order. */
  lemma RemoveByIdKeepsOrder<T(!new)>(arr: seq<T>, id: string, idOf: T -> string, i: nat, j: nat)
    requires i < j < |RemoveById(arr, id, idOf)|
    ensures var r := RemoveById(arr, id, idOf);
      exists i', j' :: 0 <= i' < j' < |arr| && arr[i'] == r[i] && arr[j'] == r[j]
  {
    RemoveAllKeepsOrder(arr, (x: T) => idOf(x) == id, i, j);
  }

  /** Removing an id that is absent gives back an equal array. */
  lemma RemoveAbsentId<T(!new)>(arr: seq<T>, id: string, idOf: T -> string)
    requires forall x :: x in arr ==> idOf(x) != id
    ensures RemoveById(arr, id, idOf) == arr
  {
    RemoveAllNothing(arr, (x: T) => idOf(x) == id);
  }
}
