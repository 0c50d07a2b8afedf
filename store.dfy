// A document collection as the repositories see it: documents keyed by id, in insertion
// order (the order in which `Find(_ => true)` enumerates them).
module Store {
  import opened Wrappers
  import opened Errors
  import opened Models

  /** The write error of an insert whose `_id` is already taken. */
  const DuplicateId: Exception := SystemException("E11000 duplicate key error")

  class Repository<T(==)> {
    var docs: map<string, T>
    var order: seq<string>

    ghost predicate Valid()
      reads this
    {
      && (forall i, j :: 0 <= i < j < |order| ==> order[i] != order[j])
      && (forall k :: k in docs <==> k in order)
    }

    /** The documents in enumeration order. */
    function All(): (all: seq<T>)
      reads this
      requires Valid()
      ensures |all| == |order|
      ensures forall i :: 0 <= i < |order| ==> all[i] == docs[order[i]]
    {
      seq(|order|, i reads this requires 0 <= i < |order| && Valid() => docs[order[i]])
    }

    constructor ()
      ensures Valid() && docs == map[] && order == []
    {
      docs := map[];
      order := [];
    }

    /** `GetAllAsync`. */
    method GetAll() returns (all: seq<T>)
      requires Valid()
      ensures all == All()
    {
      all := [];
      var i := 0;
      while i < |order|
        invariant 0 <= i <= |order|
        invariant all == All()[..i]
      {
        all := all + [docs[order[i]]];
        i := i + 1;
      }
    }

    /** `GetByIdAsync`: the document with that id, or null. */
    method GetById(id: string) returns (r: Option<T>)
      ensures r.Some? <==> id in docs
      ensures r.Some? ==> r.value == docs[id]
    {
      r := if id in docs then Some(docs[id]) else None;
    }

    /** `CreateAsync`: inserts under `id`; an id already taken is a write error and
        changes nothing. */
    method Create(id: string, e: T) returns (r: Outcome<Exception>)
      requires Valid()
      modifies this
      ensures Valid()
      ensures old(id in docs) ==> r == Fail(DuplicateId) && docs == old(docs) && order == old(order)
      ensures old(id !in docs) ==> r.Pass? && docs == old(docs)[id := e] && order == old(order) + [id]
    {
      if id in docs {
        r := Fail(DuplicateId);
      } else {
        docs := docs[id := e];
        order := order + [id];
        r := Pass;
      }
    }

    /** `UpdateAsync`: replaces the document with that id, if any; the result is whether
        a document was modified (it matched and its content changed). */
    method Update(id: string, e: T) returns (modified: bool)
      requires Valid()
      modifies this
      ensures Valid() && order == old(order)
      ensures docs == if id in old(docs) then old(docs)[id := e] else old(docs)
      ensures modified <==> id in old(docs) && old(docs)[id] != e
    {
      modified := id in docs && docs[id] != e;
      if id in docs {
        docs := docs[id := e];
      }
    }

    /** `DeleteAsync`: removes the document with that id; the result is whether one was
        removed. */
    method Delete(id: string) returns (deleted: bool)
      requires Valid()
      modifies this
      ensures Valid()
      ensures deleted <==> id in old(docs)
      ensures docs == old(docs) - {id}
      ensures order == RemoveAll(old(order), (k: string) => k == id)
    {
      deleted := id in docs;
      if deleted {
        var i :| 0 <= i < |order| && order[i] == id;
        RemoveUniqueKey(order, i, id);
        order := order[..i] + order[i + 1..];
        docs := docs - {id};
      } else {
        RemoveAllNothing(order, (k: string) => k == id);
        assert docs - {id} == docs;
      }
    }
  }

  /** Removing a key that occurs once, at `i`, drops exactly that position. */
  lemma RemoveUniqueKey(order: seq<string>, i: nat, id: string)
    requires i < |order| && order[i] == id
    requires forall a, b :: 0 <= a < b < |order| ==> order[a] != order[b]
    ensures RemoveAll(order, (k: string) => k == id) == order[..i] + order[i + 1..]
    ensures var r := order[..i] + order[i + 1..];
      forall a, b :: 0 <= a < b < |r| ==> r[a] != r[b]
  {
    var before, after := order[..i], order[i + 1..];
    var r := before + after;
    forall a, b | 0 <= a < b < |r| ensures r[a] != r[b] {
      var a' := if a < i then a else a + 1;
      var b' := if b < i then b else b + 1;
      assert r[a] == order[a'] && r[b] == order[b'];
    }
    forall k | k in before ensures k != id {
      var a :| 0 <= a < |before| && before[a] == k;
      assert order[a] == k;
    }
    forall k | k in after ensures k != id {
      var a :| 0 <= a < |after| && after[a] == k;
      assert order[i + 1 + a] == k;
    }
    assert order == before + [id] + after;
    RemoveAllOne(before, id, after, (k: string) => k == id);
  }
}
