// `IngredientService`: deleting an ingredient, then purging it from the dishes and the lists.
module IngredientServices {
  import opened Wrappers
  import opened Models
  import opened Store
  import opened ListeServices
  import opened PlatServices

  class IngredientService {
    const ingredients: Repository<Ingredient>
    const plats: PlatService
    const listes: ListeService

    ghost predicate Valid()
      reads this, ingredients, plats, plats.plats, listes, listes.lists, listes.plats, listes.ingredients
    {
      plats.listes == listes && listes.ingredients == ingredients && plats.Valid()
    }

    constructor (ingredients: Repository<Ingredient>, plats: PlatService, listes: ListeService)
      ensures this.ingredients == ingredients && this.plats == plats && this.listes == listes
    {
      this.ingredients := ingredients;
      this.plats := plats;
      this.listes := listes;
    }

    /** `DeleteAsync`: false and no cascade when nothing was deleted; otherwise the
        ingredient is gone, every dish loses its references to it, every list loses its
        items for it (without re-aggregating the other items), and the result is true. */
    method Delete(id: string) returns (ok: bool)
      requires Valid()
      modifies ingredients, plats.plats, listes.lists
      ensures Valid()
      ensures ok <==> id in old(ingredients.docs)
      ensures ingredients.docs == old(ingredients.docs) - {id}
      ensures ingredients.order == RemoveAll(old(ingredients.order), (k: string) => k == id)
      ensures !ok ==> unchanged(plats.plats) && unchanged(listes.lists)
      ensures ok ==>
                && plats.plats.order == old(plats.plats.order)
                && listes.lists.order == old(listes.lists.order)
                && plats.plats.docs.Keys == old(plats.plats.docs).Keys
                && (forall k :: k in old(plats.plats.docs) ==>
                      plats.plats.docs[k] == IngredientPurged(old(plats.plats.docs)[k], id))
                && listes.lists.docs.Keys == old(listes.lists.docs).Keys
                && (forall k :: k in old(listes.lists.docs) ==>
                      listes.lists.docs[k] == if HoldsIngredient(old(listes.lists.docs)[k], id)
                                              then IngredientRemoved(old(listes.lists.docs)[k], id)
                                              else old(listes.lists.docs)[k])
    {
      ok := ingredients.Delete(id);
      if !ok {
        return false;
      }
      plats.CascadeRemoveIngredient(id);
      listes.CascadeRemoveIngredient(id);
      return true;
    }
  }
}
