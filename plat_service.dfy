// `PlatService`: deleting a dish (then the list cascade), and removing an ingredient from
// every dish.
module PlatServices {
  import opened Wrappers
  import opened Models
  import opened Store
  import opened ListeServices

  /** Every stored dish carries its own key as id. */
  ghost predicate StoredPlatsWellFormed(docs: map<string, Plat>) {
    forall k :: k in docs ==> docs[k].id == Some(k)
  }

  /** Whether `CascadeRemoveIngredientAsync` touches a dish: some reference is the ingredient. */
  predicate UsesIngredient(p: Plat, ingredientId: string) {
    exists i :: 0 <= i < |p.ingredients| && p.ingredients[i].ingredientId == ingredientId
  }

  /** What the cascade makes of a dish: the references to the ingredient removed, for a
      dish that has any; any other dish is left as it is. */
  function IngredientPurged(p: Plat, ingredientId: string): (r: Plat)
    ensures r == p.(ingredients := r.ingredients)
    ensures forall x :: x in r.ingredients <==> x in p.ingredients && x.ingredientId != ingredientId
  {
    if UsesIngredient(p, ingredientId) then
      p.(ingredients := RemoveAll(p.ingredients, (x: PlatIngredient) => x.ingredientId == ingredientId))
    else
      assert forall x :: x in p.ingredients ==> x.ingredientId != ingredientId by {
        forall x | x in p.ingredients ensures x.ingredientId != ingredientId {
          var i :| 0 <= i < |p.ingredients| && p.ingredients[i] == x;
        }
      }
      p
  }

  /** After the purge no reference to the ingredient is left, the remaining references keep
      their relative order, and the dish may be left with no ingredient at all. */
  lemma IngredientPurgedRules(p: Plat, ingredientId: string, i: nat, j: nat)
    requires i < j < |IngredientPurged(p, ingredientId).ingredients|
    ensures !UsesIngredient(IngredientPurged(p, ingredientId), ingredientId)
    ensures var r := IngredientPurged(p, ingredientId).ingredients;
      exists i', j' :: 0 <= i' < j' < |p.ingredients| && p.ingredients[i'] == r[i] && p.ingredients[j'] == r[j]
  {
    var r := IngredientPurged(p, ingredientId);
    forall k | 0 <= k < |r.ingredients| ensures r.ingredients[k].ingredientId != ingredientId {
      assert r.ingredients[k] in r.ingredients;
    }
    if UsesIngredient(p, ingredientId) {
      RemoveAllKeepsOrder(p.ingredients, (x: PlatIngredient) => x.ingredientId == ingredientId, i, j);
    } else {
      assert p.ingredients[i] == r.ingredients[i] && p.ingredients[j] == r.ingredients[j];
    }
  }

  /** A dish whose only ingredient is removed is left with an empty ingredient list. */
  lemma PurgeMayEmptyADish(name: string, id: Option<string>, di: PlatIngredient)
    ensures IngredientPurged(Plat(id, name, [di]), di.ingredientId).ingredients == []
  {
    var p := Plat(id, name, [di]);
    assert UsesIngredient(p, di.ingredientId) by { assert p.ingredients[0].ingredientId == di.ingredientId; }
    assert [di][..0] == [];
  }

  class PlatService {
    const plats: Repository<Plat>
    const listes: ListeService

    ghost predicate Valid()
      reads this, plats, listes, listes.lists, listes.plats, listes.ingredients
    {
      listes.plats == plats && listes.Valid() && StoredPlatsWellFormed(plats.docs)
    }

    constructor (plats: Repository<Plat>, listes: ListeService)
      ensures this.plats == plats && this.listes == listes
    {
      this.plats := plats;
      this.listes := listes;
    }

    /** `DeleteAsync`: false and no cascade when nothing was deleted; otherwise the dish
        is gone, the lists holding it are re-materialised without it, and the result is
        true. */
    method Delete(id: string) returns (ok: bool)
      requires Valid()
      modifies plats, listes.lists
      ensures Valid()
      ensures ok <==> id in old(plats.docs)
      ensures plats.docs == old(plats.docs) - {id}
      ensures plats.order == RemoveAll(old(plats.order), (k: string) => k == id)
      ensures !ok ==> unchanged(listes.lists)
      ensures ok ==>
                && listes.lists.order == old(listes.lists.order)
                && listes.lists.docs.Keys == old(listes.lists.docs).Keys
                && forall k :: k in old(listes.lists.docs) ==>
                     listes.lists.docs[k] == DishCascaded(listes.ingredients.docs, plats.docs, old(listes.lists.docs)[k], id, listes.leq)
    {
      ok := plats.Delete(id);
      if !ok {
        return false;
      }
      listes.CascadeRemoveDish(id);
      return true;
    }

    /** `CascadeRemoveIngredientAsync`: every dish that uses the ingredient loses every
        reference to it; the other dishes are not touched. */
    method CascadeRemoveIngredient(ingredientId: string)
      requires Valid()
      modifies plats
      ensures Valid()
      ensures plats.order == old(plats.order) && plats.docs.Keys == old(plats.docs).Keys
      ensures forall k :: k in old(plats.docs) ==> plats.docs[k] == IngredientPurged(old(plats.docs)[k], ingredientId)
    {
      ghost var docs0 := plats.docs;
      ghost var order0 := plats.order;
      var all := plats.GetAll();
      var i := 0;
      while i < |all|
        invariant 0 <= i <= |all| && |all| == |order0|
        invariant plats.Valid() && plats.order == order0 && plats.docs.Keys == docs0.Keys
        invariant StoredPlatsWellFormed(docs0) && StoredPlatsWellFormed(plats.docs)
        invariant forall j :: 0 <= j < |order0| ==>
                    plats.docs[order0[j]] == if j < i then IngredientPurged(docs0[order0[j]], ingredientId) else docs0[order0[j]]
      {
        var p := all[i];
        assert p == docs0[order0[i]] && p.id == Some(order0[i]);
        ghost var before := plats.docs;
        if exists k :: 0 <= k < |p.ingredients| && p.ingredients[k].ingredientId == ingredientId {
          var p' := p.(ingredients := RemoveAll(p.ingredients, (x: PlatIngredient) => x.ingredientId == ingredientId));
          var _ := plats.Update(p.id.value, p');
        }
        assert plats.docs == before[order0[i] := IngredientPurged(p, ingredientId)];
        forall j | 0 <= j < |order0|
          ensures plats.docs[order0[j]] == if j < i + 1 then IngredientPurged(docs0[order0[j]], ingredientId) else docs0[order0[j]]
        {
          if j != i {
            assert order0[j] != order0[i];
          }
        }
        i := i + 1;
      }
    }
  }
}
