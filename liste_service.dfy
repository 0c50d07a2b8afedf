// `ListeService`: materialisation over the stored catalogs, the access rules of the list
// endpoints, and the two cascades other services call.
module ListeServices {
  import opened Wrappers
  import opened Text
  import opened Models
  import opened Dtos
  import opened Errors
  import opened Aggregation
  import opened MaterializationFacts
  import opened Mappings
  import opened Access
  import opened Store

  // ---------------------------------------------------------------------------
  // What the operations compute

  /** `MaterializeAsync(list, manual, dishIdsFromDto, keepCheckedFrom)` on one list, with
      `prior` the items of `keepCheckedFrom`: the dish ids are replaced when supplied and
      the items are replaced by the materialised ones. */
  function MaterializedList(ings: map<string, Ingredient>, plats: map<string, Plat>, list: Liste,
                            manual: Option<seq<ListeItemDto>>, dishIdsFromDto: Option<seq<string>>,
                            prior: Option<seq<ListeItem>>, leq: (string, string) -> bool): Result<Liste, Exception>
  {
    var dishIds := dishIdsFromDto.GetOr(list.dishIds);
    var items := Materialized(ings, plats, dishIds, manual, prior, leq);
    if items.Failure? then Failure(items.error) else Success(list.(dishIds := dishIds, items := items.value))
  }

  /** Materialisation fails only on prior items that repeat an id; otherwise it keeps
      everything but the dish ids and the items, and the new items are distinct. */
  lemma MaterializedListRules(ings: map<string, Ingredient>, plats: map<string, Plat>, list: Liste,
                              manual: Option<seq<ListeItemDto>>, dishIdsFromDto: Option<seq<string>>,
                              prior: Option<seq<ListeItem>>, leq: (string, string) -> bool)
    ensures var r := MaterializedList(ings, plats, list, manual, dishIdsFromDto, prior, leq);
      && (r.Success? <==> prior.None? || DistinctIds(prior.value))
      && (r.Success? ==>
            && r.value.id == list.id && r.value.name == list.name && r.value.date == list.date
            && r.value.ownerId == list.ownerId
            && r.value.dishIds == (if dishIdsFromDto.Some? then dishIdsFromDto.value else list.dishIds)
            && DistinctIds(r.value.items))
  {
    var dishIds := dishIdsFromDto.GetOr(list.dishIds);
    MaterializedFailure(ings, plats, dishIds, manual, prior, leq);
    if Materialized(ings, plats, dishIds, manual, prior, leq).Success? {
      MaterializedItems(ings, plats, dishIds, manual, prior, leq);
    }
  }

  /** The list `CreateAsync` stores: the mapped dto, owned by `uid`, materialised with the
      dto's items as manual entries and no prior items, under the id the store assigns. */
  function CreatedList(ings: map<string, Ingredient>, plats: map<string, Plat>, uid: string, dto: ListeCreateDto,
                       now: Instant, newId: string, leq: (string, string) -> bool): (r: Liste)
    ensures r.id == Some(newId) && r.ownerId == Some(uid)
    ensures r.name == dto.name && r.date == dto.date.GetOr(now) && r.dishIds == dto.dishIds.GetOr([])
    ensures DistinctIds(r.items)
  {
    var entity := ListeFromCreate(dto, now).(ownerId := Some(uid));
    MaterializedListRules(ings, plats, entity, dto.items, dto.dishIds, None, leq);
    MaterializedList(ings, plats, entity, dto.items, dto.dishIds, None, leq).value.(id := Some(newId))
  }

  /** The list `UpdateAsync` stores: the dish ids replaced when supplied, the items
      re-materialised with the dto's items as manual entries and the list's own items as
      the checked source. The name and the date of the dto are never applied. */
  function UpdatedList(ings: map<string, Ingredient>, plats: map<string, Plat>, existing: Liste,
                       dto: ListeUpdateDto, leq: (string, string) -> bool): (r: Liste)
    requires DistinctIds(existing.items)
    ensures r.id == existing.id && r.ownerId == existing.ownerId
    ensures r.name == existing.name && r.date == existing.date
    ensures r.dishIds == dto.dishIds.GetOr(existing.dishIds)
    ensures DistinctIds(r.items)
  {
    MaterializedListRules(ings, plats, existing, dto.items, dto.dishIds, Some(existing.items), leq);
    MaterializedList(ings, plats, existing, dto.items, dto.dishIds, Some(existing.items), leq).value
  }

  /** What `CascadeRemoveDishAsync` makes of one list that holds the dish: every
      occurrence of the dish id removed, then re-materialised with no manual entries and
      the list's own items as the checked source. */
  function DishRemoved(ings: map<string, Ingredient>, plats: map<string, Plat>, l: Liste, dishId: string,
                       leq: (string, string) -> bool): (r: Liste)
    requires DistinctIds(l.items)
    ensures r.id == l.id && r.ownerId == l.ownerId && r.name == l.name && r.date == l.date
    ensures r.dishIds == RemoveAll(l.dishIds, (x: string) => x == dishId)
    ensures dishId !in r.dishIds
    ensures DistinctIds(r.items)
  {
    var ids := RemoveAll(l.dishIds, (x: string) => x == dishId);
    MaterializedListRules(ings, plats, l.(dishIds := ids), None, Some(ids), Some(l.items), leq);
    MaterializedList(ings, plats, l.(dishIds := ids), None, Some(ids), Some(l.items), leq).value
  }

  /** What `CascadeRemoveDishAsync` makes of any stored list: lists without the dish are
      left as they are. */
  function DishCascaded(ings: map<string, Ingredient>, plats: map<string, Plat>, l: Liste, dishId: string,
                        leq: (string, string) -> bool): (r: Liste)
    requires DistinctIds(l.items)
    ensures r.id == l.id
    ensures dishId !in l.dishIds ==> r == l
  {
    if dishId in l.dishIds then DishRemoved(ings, plats, l, dishId, leq) else l
  }

  /** After the dish cascade a list no longer holds the dish, and its ingredient ids are
      still distinct. */
  lemma DishCascadedRules(ings: map<string, Ingredient>, plats: map<string, Plat>, l: Liste, dishId: string,
                          leq: (string, string) -> bool)
    requires DistinctIds(l.items)
    ensures dishId !in DishCascaded(ings, plats, l, dishId, leq).dishIds
    ensures DistinctIds(DishCascaded(ings, plats, l, dishId, leq).items)
  {
    if dishId in l.dishIds {
      var r := DishRemoved(ings, plats, l, dishId, leq);
    }
  }

  /** Whether `CascadeRemoveIngredientAsync` touches a list: some item is the ingredient. */
  predicate HoldsIngredient(l: Liste, ingredientId: string) {
    exists i :: 0 <= i < |l.items| && l.items[i].ingredientId == ingredientId
  }

  /** What `CascadeRemoveIngredientAsync` makes of one list that holds the ingredient. */
  function IngredientRemoved(l: Liste, ingredientId: string): (r: Liste)
    ensures r == l.(items := r.items)
    ensures forall it :: it in r.items <==> it in l.items && it.ingredientId != ingredientId
  {
    l.(items := RemoveAll(l.items, (it: ListeItem) => it.ingredientId == ingredientId))
  }

  /** The ingredient purge removes exactly that ingredient's items, keeps the others in
      their order, keeps the ids distinct, and is the identity on a list without it. */
  lemma IngredientRemovedRules(l: Liste, ingredientId: string)
    ensures !HoldsIngredient(IngredientRemoved(l, ingredientId), ingredientId)
    ensures !HoldsIngredient(l, ingredientId) ==> IngredientRemoved(l, ingredientId) == l
    ensures DistinctIds(l.items) ==> DistinctIds(IngredientRemoved(l, ingredientId).items)
  {
    var drop := (it: ListeItem) => it.ingredientId == ingredientId;
    var r := IngredientRemoved(l, ingredientId);
    forall i | 0 <= i < |r.items| ensures r.items[i].ingredientId != ingredientId {
      assert r.items[i] in r.items;
    }
    if !HoldsIngredient(l, ingredientId) {
      forall it | it in l.items ensures !drop(it) {
        var i :| 0 <= i < |l.items| && l.items[i] == it;
      }
      RemoveAllNothing(l.items, drop);
    }
    if DistinctIds(l.items) {
      RemoveAllKeepsDistinctIds(l.items, drop);
    }
  }

  /** Lists read back through their dtos. */
  function ReadDtos(ls: seq<Liste>): (r: seq<ListeReadDto>)
    ensures |r| == |ls|
    ensures forall i :: 0 <= i < |ls| ==> r[i] == ListeToReadDto(ls[i])
  {
    seq(|ls|, i requires 0 <= i < |ls| => ListeToReadDto(ls[i]))
  }

  /** Every stored list carries its own key as id and never repeats an ingredient. */
  ghost predicate StoredListsWellFormed(docs: map<string, Liste>) {
    forall k :: k in docs ==> docs[k].id == Some(k) && DistinctIds(docs[k].items)
  }

  // ---------------------------------------------------------------------------
  // The service

  class ListeService {
    const lists: Repository<Liste>
    const plats: Repository<Plat>
    const ingredients: Repository<Ingredient>
    /** `comparer.Compare(a, b) <= 0` for the case-insensitive fr-FR string comparer. */
    const leq: (string, string) -> bool

    ghost predicate Valid()
      reads this, lists, plats, ingredients
    {
      lists.Valid() && plats.Valid() && ingredients.Valid() && StoredListsWellFormed(lists.docs)
    }

    constructor (lists: Repository<Liste>, plats: Repository<Plat>, ingredients: Repository<Ingredient>,
                 leq: (string, string) -> bool)
      ensures this.lists == lists && this.plats == plats && this.ingredients == ingredients && this.leq == leq
    {
      this.lists := lists;
      this.plats := plats;
      this.ingredients := ingredients;
      this.leq := leq;
    }

    /** `keepCheckedFrom.Items.ToDictionary(x => x.IngredientId, x => x.Checked)`. */
    static method ToDictionary(items: seq<ListeItem>) returns (r: Option<map<string, bool>>)
      ensures r == PriorChecked(items)
    {
      var cm: map<string, bool> := map[];
      var i := 0;
      while i < |items|
        invariant 0 <= i <= |items|
        invariant PriorChecked(items[..i]) == Some(cm)
      {
        assert items[..i + 1] == items[..i] + [items[i]];
        PriorCheckedSnoc(items[..i], items[i]);
        if items[i].ingredientId in cm {
          PriorCheckedPrefix(items, i + 1);
          return None;
        }
        cm := cm[items[i].ingredientId := items[i].checked];
        i := i + 1;
      }
      assert items[..i] == items;
      r := Some(cm);
    }

    /** The loop of `MaterializeAsync` that lets each explicit manual flag override the map. */
    static method OverrideLoop(base: map<string, bool>, manual: seq<ListeItemDto>) returns (cm: map<string, bool>)
      ensures cm == OverrideChecked(base, manual)
    {
      cm := base;
      var i := 0;
      while i < |manual|
        invariant 0 <= i <= |manual|
        invariant cm == OverrideChecked(base, manual[..i])
      {
        assert manual[..i + 1][..i] == manual[..i];
        if manual[i].checked.Some? {
          cm := cm[manual[i].ingredientId := manual[i].checked.value];
        }
        i := i + 1;
      }
      assert manual[..i] == manual;
    }

    /** The checked map of `MaterializeAsync`: the prior items' flags, then the explicit
        flags of the manual entries. */
    static method BuildCheckedMap(prior: Option<seq<ListeItem>>, manual: Option<seq<ListeItemDto>>)
      returns (r: Result<map<string, bool>, Exception>)
      ensures r == CheckedMap(prior, manual)
    {
      var base: map<string, bool> := map[];
      if prior.Some? {
        var d := ToDictionary(prior.value);
        if d.None? {
          return Failure(DuplicateKey);
        }
        base := d.value;
      }
      var cm := base;
      if manual.Some? {
        cm := OverrideLoop(base, manual.value);
      }
      r := Success(cm);
    }

    /** The loop that builds `final` from the sorted values. */
    static method EmitLoop(sorted: seq<Agg>, cm: map<string, bool>) returns (final: seq<ListeItem>)
      ensures final == Emit(sorted, cm)
    {
      final := [];
      var i := 0;
      while i < |sorted|
        invariant 0 <= i <= |sorted|
        invariant final == Emit(sorted, cm)[..i]
      {
        var c := if sorted[i].ingredientId in cm then cm[sorted[i].ingredientId] else false;
        final := final + [ListeItem(sorted[i].ingredientId, sorted[i].name, sorted[i].qty, sorted[i].unit, sorted[i].aisle, c)];
        i := i + 1;
      }
    }

    /** The inner loop of `AggregateFromDishesAsync`: one dish's ingredient references in
        order, skipping those the catalog does not resolve. */
    method AccumulateDishLoop(acc0: Accumulator, refs: seq<PlatIngredient>) returns (acc: Accumulator)
      requires Valid() && acc0.Valid()
      ensures acc == AccumulateDish(ingredients.docs, acc0, refs)
    {
      acc := acc0;
      var j := 0;
      while j < |refs|
        invariant 0 <= j <= |refs|
        invariant acc == AccumulateDish(ingredients.docs, acc0, refs[..j])
      {
        assert refs[..j + 1][..j] == refs[..j];
        var di := refs[j];
        var ing := ingredients.GetById(di.ingredientId);
        if ing.Some? {
          if di.ingredientId !in acc.entries {
            acc := Put(acc, FirstDishOccurrence(ing.value, di));
          } else {
            acc := Put(acc, MergeDishOccurrence(acc.entries[di.ingredientId], di));
          }
        }
        j := j + 1;
      }
      assert refs[..j] == refs;
    }

    /** `AggregateFromDishesAsync`: the distinct dish ids in order, each resolved dish's
        ingredient references in order, skipping what the catalogs do not resolve. */
    method AggregateFromDishesLoop(dishIds: seq<string>) returns (acc: Accumulator)
      requires Valid()
      ensures acc == AggregateFromDishes(ingredients.docs, plats.docs, dishIds)
    {
      var ds := Distinct(dishIds);
      acc := EmptyAcc;
      var i := 0;
      while i < |ds|
        invariant 0 <= i <= |ds|
        invariant acc == AccumulateDishes(ingredients.docs, plats.docs, EmptyAcc, ds[..i])
      {
        assert ds[..i + 1][..i] == ds[..i];
        var dish := plats.GetById(ds[i]);
        if dish.Some? {
          acc := AccumulateDishLoop(acc, dish.value.ingredients);
        }
        i := i + 1;
      }
      assert ds[..i] == ds;
    }

    /** `MergeManualAsync`: each manual entry in order, resolved against the catalog. */
    method MergeManualLoop(acc0: Accumulator, manual: seq<ListeItemDto>) returns (acc: Accumulator)
      requires Valid() && acc0.Valid()
      ensures acc == AccumulateManual(ingredients.docs, acc0, manual)
    {
      acc := acc0;
      var i := 0;
      while i < |manual|
        invariant 0 <= i <= |manual|
        invariant acc == AccumulateManual(ingredients.docs, acc0, manual[..i])
      {
        assert manual[..i + 1][..i] == manual[..i];
        var m := manual[i];
        var ing := ingredients.GetById(m.ingredientId);
        var mName := if ing.Some? then ing.value.name else m.ingredientName;
        var mAisle := if ing.Some? && ing.value.aisle.Some? then ing.value.aisle else m.aisle;
        var mUnit := if IsNullOrWhiteSpace(m.unit) then None else Some(Trim(m.unit.value));
        if m.ingredientId !in acc.entries {
          acc := Put(acc, Agg(m.ingredientId, mName, mAisle, m.quantity, mUnit));
        } else {
          acc := Put(acc, MergeManualEntry(acc.entries[m.ingredientId], mName, mAisle, m.quantity, mUnit));
        }
        i := i + 1;
      }
      assert manual[..i] == manual;
    }

    /** `MaterializeAsync`, with `prior` the items of `keepCheckedFrom`. */
    method Materialize(list: Liste, manual: Option<seq<ListeItemDto>>, dishIdsFromDto: Option<seq<string>>,
                       prior: Option<seq<ListeItem>>) returns (r: Result<Liste, Exception>)
      requires Valid()
      ensures r == MaterializedList(ingredients.docs, plats.docs, list, manual, dishIdsFromDto, prior, leq)
    {
      var cm := BuildCheckedMap(prior, manual);
      if cm.Failure? {
        return Failure(cm.error);
      }
      var dishIds := if dishIdsFromDto.Some? then dishIdsFromDto.value else list.dishIds;
      var acc := AggregateFromDishesLoop(dishIds);
      if manual.Some? && |manual.value| > 0 {
        acc := MergeManualLoop(acc, manual.value);
      }
      assert acc == Accumulated(ingredients.docs, plats.docs, dishIds, manual);
      var sorted := SortByName(acc.Values(), leq);
      var final := EmitLoop(sorted, cm.value);
      r := Success(list.(dishIds := dishIds, items := final));
    }

    /** `GetAllAsync`: the read dtos of the lists the caller may see, in store order. */
    method GetAll(user: Principal) returns (r: seq<ListeReadDto>)
      requires Valid()
      ensures r == ReadDtos(VisibleLists(user, lists.All()))
    {
      var all := lists.GetAll();
      var uid := CurrentUserId(user);
      var filtered := if IsSuperUser(user) || IsNullOrEmpty(uid) then all
                      else RemoveAll(all, (l: Liste) => l.ownerId != uid);
      r := ReadDtos(filtered);
    }

    /** `GetByIdAsync`: null for a missing id, without any ownership check; otherwise the
        list if the caller may see it, and LIST_FORBIDDEN if not. */
    method GetById(user: Principal, id: string) returns (r: Result<Option<ListeReadDto>, Exception>)
      requires Valid()
      ensures id !in lists.docs ==> r == Success(None)
      ensures id in lists.docs && EnsureOwnership(user, lists.docs[id]).Pass? ==>
                r == Success(Some(ListeToReadDto(lists.docs[id])))
      ensures id in lists.docs && EnsureOwnership(user, lists.docs[id]).Fail? ==> r == Failure(ListForbidden)
    {
      var existing := lists.GetById(id);
      if existing.None? {
        return Success(None);
      }
      var ok := EnsureOwnership(user, existing.value);
      if ok.Fail? {
        return Failure(ok.error);
      }
      r := Success(Some(ListeToReadDto(existing.value)));
    }

    /** `CreateAsync`: AUTH_REQUIRED without a user id; otherwise the created list is
        owned by the caller and stored under the id the store assigns. */
    method Create(user: Principal, dto: ListeCreateDto, now: Instant, newId: string)
      returns (r: Result<ListeReadDto, Exception>)
      requires Valid()
      modifies lists
      ensures Valid()
      ensures CurrentUserId(user).None? ==> r == Failure(AuthRequired) && unchanged(lists)
      ensures CurrentUserId(user).Some? && newId in old(lists.docs) ==>
                r == Failure(DuplicateId) && lists.docs == old(lists.docs) && lists.order == old(lists.order)
      ensures CurrentUserId(user).Some? && newId !in old(lists.docs) ==>
                var created := CreatedList(ingredients.docs, plats.docs, CurrentUserId(user).value, dto, now, newId, leq);
                && r == Success(ListeToReadDto(created))
                && lists.docs == old(lists.docs)[newId := created]
                && lists.order == old(lists.order) + [newId]
    {
      var uid := CurrentUserId(user);
      if uid.None? {
        return Failure(AuthRequired);
      }
      var entity := ListeFromCreate(dto, now).(ownerId := uid);
      MaterializedListRules(ingredients.docs, plats.docs, entity, dto.items, dto.dishIds, None, leq);
      var m := Materialize(entity, dto.items, dto.dishIds, None);
      var stored := m.value.(id := Some(newId));
      assert stored == CreatedList(ingredients.docs, plats.docs, uid.value, dto, now, newId, leq);
      var written := lists.Create(newId, stored);
      if written.Fail? {
        return Failure(written.error);
      }
      r := Success(ListeToReadDto(stored));
    }

    /** `UpdateAsync`: null for a missing id, LIST_FORBIDDEN for a list the caller may not
        change; otherwise the list is re-materialised and written back. */
    method Update(user: Principal, id: string, dto: ListeUpdateDto) returns (r: Result<Option<ListeReadDto>, Exception>)
      requires Valid()
      modifies lists
      ensures Valid()
      ensures id !in old(lists.docs) ==> r == Success(None) && unchanged(lists)
      ensures id in old(lists.docs) && EnsureOwnership(user, old(lists.docs)[id]).Fail? ==>
                r == Failure(ListForbidden) && unchanged(lists)
      ensures id in old(lists.docs) && EnsureOwnership(user, old(lists.docs)[id]).Pass? ==>
                var updated := UpdatedList(ingredients.docs, plats.docs, old(lists.docs)[id], dto, leq);
                && r == Success(Some(ListeToReadDto(updated)))
                && lists.docs == old(lists.docs)[id := updated]
                && lists.order == old(lists.order)
    {
      var existing := lists.GetById(id);
      if existing.None? {
        return Success(None);
      }
      var l := existing.value;
      var ok := EnsureOwnership(user, l);
      if ok.Fail? {
        return Failure(ok.error);
      }
      if dto.dishIds.Some? {
        l := l.(dishIds := dto.dishIds.value);
      }
      MaterializedListRules(ingredients.docs, plats.docs, existing.value, dto.items, dto.dishIds, Some(existing.value.items), leq);
      var m := Materialize(l, dto.items, dto.dishIds, Some(existing.value.items));
      var _ := lists.Update(id, m.value);
      r := Success(Some(ListeToReadDto(m.value)));
    }

    /** `DeleteAsync`: false for a missing id, without any ownership check; LIST_FORBIDDEN
        for a list the caller may not delete; otherwise the list is removed. */
    method Delete(user: Principal, id: string) returns (r: Result<bool, Exception>)
      requires Valid()
      modifies lists
      ensures Valid()
      ensures id !in old(lists.docs) ==> r == Success(false) && unchanged(lists)
      ensures id in old(lists.docs) && EnsureOwnership(user, old(lists.docs)[id]).Fail? ==>
                r == Failure(ListForbidden) && unchanged(lists)
      ensures id in old(lists.docs) && EnsureOwnership(user, old(lists.docs)[id]).Pass? ==>
                r == Success(true) && lists.docs == old(lists.docs) - {id}
                && lists.order == RemoveAll(old(lists.order), (k: string) => k == id)
    {
      var existing := lists.GetById(id);
      if existing.None? {
        return Success(false);
      }
      var ok := EnsureOwnership(user, existing.value);
      if ok.Fail? {
        return Failure(ok.error);
      }
      var deleted := lists.Delete(id);
      r := Success(deleted);
    }

    /** One list of `CascadeRemoveDishAsync`: the dish id removed from its dish ids, then
        the list re-materialised with no manual entries, keeping its own checked flags. */
    method RemoveDishFrom(l: Liste, dishId: string) returns (r: Liste)
      requires Valid() && DistinctIds(l.items)
      ensures r == DishRemoved(ingredients.docs, plats.docs, l, dishId, leq)
    {
      var ids := RemoveAll(l.dishIds, (x: string) => x == dishId);
      var l' := l.(dishIds := ids);
      MaterializedListRules(ingredients.docs, plats.docs, l', None, Some(ids), Some(l.items), leq);
      var m := Materialize(l', None, Some(ids), Some(l.items));
      r := m.value;
    }

    /** One step of `CascadeRemoveDishAsync`: a stored list holding the dish is replaced by
        its re-materialisation without the dish; any other list is left as it is. */
    method CascadeDishInto(l: Liste, dishId: string)
      requires Valid() && l.id.Some? && l.id.value in lists.docs && lists.docs[l.id.value] == l
      modifies lists
      ensures Valid() && lists.order == old(lists.order)
      ensures lists.docs == old(lists.docs)[l.id.value := DishCascaded(ingredients.docs, plats.docs, l, dishId, leq)]
    {
      DishCascadedRules(ingredients.docs, plats.docs, l, dishId, leq);
      if dishId in l.dishIds {
        var m := RemoveDishFrom(l, dishId);
        var _ := lists.Update(l.id.value, m);
      }
    }

    /** `CascadeRemoveDishAsync`: every list holding the dish loses it and is
        re-materialised; the other lists are not touched. */
    method CascadeRemoveDish(dishId: string)
      requires Valid()
      modifies lists
      ensures Valid()
      ensures lists.order == old(lists.order) && lists.docs.Keys == old(lists.docs).Keys
      ensures forall k :: k in old(lists.docs) ==>
                lists.docs[k] == DishCascaded(ingredients.docs, plats.docs, old(lists.docs)[k], dishId, leq)
    {
      ghost var docs0 := lists.docs;
      ghost var order0 := lists.order;
      var all := lists.GetAll();
      var i := 0;
      while i < |all|
        invariant 0 <= i <= |all| && |all| == |order0|
        invariant Valid() && lists.order == order0 && lists.docs.Keys == docs0.Keys
        invariant StoredListsWellFormed(docs0)
        invariant forall j :: 0 <= j < |order0| ==>
                    lists.docs[order0[j]] == if j < i then DishCascaded(ingredients.docs, plats.docs, docs0[order0[j]], dishId, leq)
                                             else docs0[order0[j]]
      {
        var l := all[i];
        assert l == docs0[order0[i]] && l.id == Some(order0[i]);
        ghost var before := lists.docs;
        CascadeDishInto(l, dishId);
        forall j | 0 <= j < |order0|
          ensures lists.docs[order0[j]] == if j < i + 1 then DishCascaded(ingredients.docs, plats.docs, docs0[order0[j]], dishId, leq)
                                           else docs0[order0[j]]
        {
          if j != i {
            assert order0[j] != order0[i];
            assert lists.docs[order0[j]] == before[order0[j]];
          }
        }
        i := i + 1;
      }
    }

    /** `CascadeRemoveIngredientAsync`: every list holding the ingredient loses exactly
        those items, without re-materialisation; the other lists are not touched. */
    method CascadeRemoveIngredient(ingredientId: string)
      requires Valid()
      modifies lists
      ensures Valid()
      ensures lists.order == old(lists.order) && lists.docs.Keys == old(lists.docs).Keys
      ensures forall k :: k in old(lists.docs) ==>
                lists.docs[k] == if HoldsIngredient(old(lists.docs)[k], ingredientId)
                                 then IngredientRemoved(old(lists.docs)[k], ingredientId)
                                 else old(lists.docs)[k]
    {
      ghost var docs0 := lists.docs;
      ghost var order0 := lists.order;
      var all := lists.GetAll();
      var i := 0;
      while i < |all|
        invariant 0 <= i <= |all| && |all| == |order0|
        invariant lists.Valid() && lists.order == order0 && lists.docs.Keys == docs0.Keys
        invariant StoredListsWellFormed(lists.docs)
        invariant forall j :: 0 <= j < |order0| ==>
                    lists.docs[order0[j]] == if j < i && HoldsIngredient(docs0[order0[j]], ingredientId)
                                             then IngredientRemoved(docs0[order0[j]], ingredientId)
                                             else docs0[order0[j]]
      {
        var l := all[i];
        if exists k :: 0 <= k < |l.items| && l.items[k].ingredientId == ingredientId {
          IngredientRemovedRules(l, ingredientId);
          var l' := l.(items := RemoveAll(l.items, (it: ListeItem) => it.ingredientId == ingredientId));
          var _ := lists.Update(l.id.value, l');
        }
        i := i + 1;
      }
    }
  }
}
