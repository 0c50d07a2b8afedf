# ListeDeCourses — a verified model of the shopping-list core

ListeDeCourses is a shopping-list application. Users keep a catalog of ingredients and
of dishes, where a dish is an ordered list of ingredient references with quantities and
units. They build dated shopping lists from dishes and from manual entries. A list is
*materialised*:

- the ingredients of its dishes are aggregated per ingredient, summing quantities whose
  units agree ignoring case;
- the manual entries are merged on top;
- the result is sorted by name;
- each item keeps the checked flag it had before, unless a manual entry sets one
  explicitly.

Deleting a dish or an ingredient cascades into the lists and dishes that use it. The API
authenticates callers with JWT bearer tokens and checks list ownership (superusers
bypass the check). It reports errors in a uniform `ApiResponse` envelope. The web client
decodes tokens, normalises tokens it finds in storage, and keeps entity arrays up to date.

The model covers this core:

- **Entities.** `Models` has ingredients, dishes, list items, lists and users as value
  datatypes. `Dtos`, `Validators` and `Mappings` hold the request and response shapes,
  their annotations and validators, and the conversions between them.
- **Store.** `Store.Repository` is a document collection keyed by id, in insertion order.
- **Materialisation.** `Aggregation` specifies materialisation as functions: the dish
  phase, the manual phase, the checked map, the stable sort by name, and emission.
  `MaterializationFacts` proves what materialisation guarantees.
- **List service.** `ListeServices.ListeService` computes the same values with loops. It
  implements the list endpoints, their access rules and the two cascades other services
  call. `Access` holds the claim lookup and the ownership rules.
- **Other services.** `PlatServices.PlatService` and `IngredientServices.IngredientService`
  hold the deletion cascades.
- **Pages.** `Paging` models `PagedResult`.
- **Envelope and errors.** `Responses` models the envelope. `ErrorHandling` models the
  middleware that turns exceptions into envelopes. `Errors` holds the domain errors.
- **Tokens and login.** `Tokens` models the token generator. `Authentication` models the
  register, login and profile actions.
- **Web client.** `ArrayHelpers` models `upsertById` and `removeById`. `ClientTokens`
  models `parseJwt`, `isExpired` and `getExpiryMs`. `TokenNormalization` models
  `normalizeToken`.

Behaviours of the code worth knowing:

- The first dish occurrence of an ingredient keeps the dish's unit untrimmed. Only later
  occurrences are compared trimmed.
- Consider a manual entry that lands on an aggregated entry whose quantity and unit are
  both null (an earlier unit conflict). It leaves that entry entirely unchanged,
  including its name and aisle.
- A manual entry's aisle falls back to the entry's own aisle when the catalog ingredient
  has none.
- `UpdateAsync` never applies the update's name or date. It only replaces the dish ids
  and re-materialises the items.
- The dish cascade re-materialises with no manual entries. Manual-only items of such a
  list are dropped.
- `GetAllAsync` and `GetByIdAsync` accept anonymous callers. An anonymous caller sees
  every list through `GetAllAsync`, but `GetByIdAsync` refuses it every list.
- The middleware's trace id is the current activity's id, else a fresh GUID. It never
  uses the root id.
- Every length limit of the annotations and validators counts .NET `string.Length`, in
  UTF-16 code units (`Text.Utf16Length`). A character outside the Basic Multilingual
  Plane counts twice: a list name of 61 such characters is too long.
- Signing refuses a key of fewer than 32 UTF-8 bytes, which a blank-key check alone does
  not catch. The 32-character minimum of `JwtSettings` keeps such keys out.

## Model

| member | source | states |
|---|---|---|
| Models.RemoveAll | Back/ListeDeCourses/Api/Services/ListeService.cs:120 | `List.RemoveAll` keeps exactly the elements the predicate rejects, and never grows the list |
| Models.RemoveAllNothing | Back/ListeDeCourses/Api/Services/ListeService.cs:131 | removing with a predicate no element satisfies leaves the list unchanged |
| Models.RemoveAllKeepsOrder | Back/ListeDeCourses/Api/Services/PlatService.cs:35 | the kept elements appear in the order they had before the removal |
| Models.RemoveAllKeepsDistinctIds | Back/ListeDeCourses/Api/Services/ListeService.cs:131 | removing items from a list with distinct ingredient ids keeps the ids distinct |
| Aggregation.Put | Back/ListeDeCourses/Api/Services/ListeService.cs:196 | writing a key of the accumulator dictionary keeps an existing key in its place, and appends a new key last |
| Aggregation.ManualUnit | Back/ListeDeCourses/Api/Services/ListeService.cs:229 | a manual unit is null exactly when it is null or blank; otherwise it is the trimmed, non-empty unit |
| Aggregation.StepDish | Back/ListeDeCourses/Api/Services/ListeService.cs:188-210 | one dish reference adds its ingredient id to the keys exactly when the catalog resolves the ingredient, and keys already present keep their order; what it stores is stated by `MaterializationFacts.StepDishRules` |
| Aggregation.AccumulateDish | Back/ListeDeCourses/Api/Services/ListeService.cs:188-211 | after one dish, the keys are the previous keys plus the resolved ingredient ids of its references |
| Aggregation.Distinct | Back/ListeDeCourses/Api/Services/ListeService.cs:183 | `Distinct()` has no repeated id, and has exactly the ids of its input |
| Aggregation.AccumulateDishes | Back/ListeDeCourses/Api/Services/ListeService.cs:183-212 | after the dishes, the keys are the previous keys plus the ingredient ids that the resolved dishes bring |
| Aggregation.DishIngredientIdsDistinct | Back/ListeDeCourses/Api/Services/ListeService.cs:183 | repeating a dish id changes nothing in the ingredient ids the dishes bring |
| Aggregation.AggregateFromDishes | Back/ListeDeCourses/Api/Services/ListeService.cs:177-215 | the aggregated keys are exactly the catalog-resolved ingredient ids of the catalog-resolved dishes |
| Aggregation.StepManual | Back/ListeDeCourses/Api/Services/ListeService.cs:222-250 | after one manual entry, the entry's ingredient id is always a key, whether or not the catalog knows it |
| Aggregation.AccumulateManual | Back/ListeDeCourses/Api/Services/ListeService.cs:217-252 | after the manual merge, the keys are the previous keys plus every manual ingredient id |
| Aggregation.PriorChecked | Back/ListeDeCourses/Api/Services/ListeService.cs:143 | `ToDictionary` succeeds exactly when the prior items have distinct ids, and then its keys are exactly their ids |
| Aggregation.PriorCheckedValue | Back/ListeDeCourses/Api/Services/ListeService.cs:143 | a successful dictionary maps each prior item's id to that item's checked flag |
| Aggregation.PriorCheckedSnoc | Back/ListeDeCourses/Api/Services/ListeService.cs:143 | one more item makes the dictionary fail on an id it already holds, and otherwise adds that id with its flag |
| Aggregation.PriorCheckedPrefix | Back/ListeDeCourses/Api/Services/ListeService.cs:143 | a repeated id among the first items makes the whole dictionary fail |
| Aggregation.DistinctIdsSnoc | Back/ListeDeCourses/Api/Services/ListeService.cs:143 | items with one more at the end have distinct ids exactly when the first ones have and the new id is not among them |
| Aggregation.OverrideChecked | Back/ListeDeCourses/Api/Services/ListeService.cs:144-150 | the override loop adds the ids of the manual entries that carry an explicit flag, and no other key |
| Aggregation.InsertByName | Back/ListeDeCourses/Api/Services/ListeService.cs:161 | inserting into the sorted values is a permutation of the values plus the new one |
| Aggregation.SortByName | Back/ListeDeCourses/Api/Services/ListeService.cs:161 | the sort by name is a permutation of the accumulator's values |
| Aggregation.Emit | Back/ListeDeCourses/Api/Services/ListeService.cs:160-172 | one item per sorted value, in the same order, each with its checked flag from the map (false when absent) |
| Aggregation.Accumulated | Back/ListeDeCourses/Api/Services/ListeService.cs:155-158 | the accumulator's keys are the dishes' ingredient ids plus, when manual entries are given, their ids |
| Aggregation.FirstDishOccurrence | Back/ListeDeCourses/Api/Services/ListeService.cs:193-196 | the first occurrence of an ingredient stores the catalog's name and aisle with the dish's quantity and its unit as written, untrimmed; stated by `MaterializationFacts.StepDishRules` and `MaterializationFacts.SingleDishLineKeepsUnit` |
| Aggregation.MergeDishOccurrence | Back/ListeDeCourses/Api/Services/ListeService.cs:199-209 | a later occurrence sums the quantities, a null one counting as 0, under the trimmed unit when both units are non-empty and equal ignoring case, and otherwise clears quantity and unit; stated by `MaterializationFacts.DishMergeRules` |
| Aggregation.ManualName | Back/ListeDeCourses/Api/Services/ListeService.cs:226 | a manual entry takes the catalog ingredient's name when the catalog has the ingredient, and its own name otherwise; stated by `MaterializationFacts.StepManualRules` |
| Aggregation.ManualAisle | Back/ListeDeCourses/Api/Services/ListeService.cs:227 | a manual entry takes the catalog ingredient's aisle when the catalog has one, and its own aisle otherwise; stated by `MaterializationFacts.StepManualRules` |
| Aggregation.MergeManualEntry | Back/ListeDeCourses/Api/Services/ListeService.cs:237-249 | a manual entry on an existing key sums under a shared non-empty unit, leaves an entry with null quantity and unit untouched, and otherwise clears quantity and unit; stated by `MaterializationFacts.ManualMergeRules` |
| Aggregation.CheckedMap | Back/ListeDeCourses/Api/Services/ListeService.cs:143-150 | the prior flags with each explicit manual flag written over them, the last one winning; stated by `MaterializationFacts.MaterializedChecked` and computed by `ListeServices.ListeService.BuildCheckedMap` |
| Aggregation.Materialized | Back/ListeDeCourses/Api/Services/ListeService.cs:136-175 | materialisation as one function: a failure exactly when the prior items repeat an id, else the sorted items; stated by `MaterializationFacts.MaterializedItems`, `MaterializedFailure`, `MaterializedChecked` and `MaterializeIdempotent` |
| MaterializationFacts.DishMergeRules | Back/ListeDeCourses/Api/Services/ListeService.cs:199-209 | a later dish occurrence keeps id, name and aisle; with matching trimmed units it sums the quantities (null as 0) under the existing unit, otherwise it clears quantity and unit; a cleared entry stays cleared |
| MaterializationFacts.DishMergeSameUnit | Back/ListeDeCourses/Api/Services/ListeService.cs:201-204 | worked example, not a general property (that is `DishMergeRules`): 200 g then 300 g of one ingredient give 500 g |
| MaterializationFacts.DishMergeOtherUnit | Back/ListeDeCourses/Api/Services/ListeService.cs:206-208 | worked example, not a general property (that is `DishMergeRules`): 200 g then 300 kg give no quantity and no unit |
| MaterializationFacts.DishMergeTrimmedUnits | Back/ListeDeCourses/Api/Services/ListeService.cs:199-204 | worked example, not a general property (that is `DishMergeRules`): "g " and " G" match once trimmed and compared ignoring case, and a null quantity counts as 0 |
| MaterializationFacts.ManualMergeRules | Back/ListeDeCourses/Api/Services/ListeService.cs:237-249 | a manual entry on an existing key keeps its id; with matching units it sums under the existing unit; otherwise it clears quantity and unit; an already cleared entry is left exactly as it was |
| MaterializationFacts.StepManualRules | Back/ListeDeCourses/Api/Services/ListeService.cs:224-249 | a new manual id is added last with the manual quantity and unit; name and aisle come from the catalog when it resolves the id, else from the entry |
| MaterializationFacts.StepDishRules | Back/ListeDeCourses/Api/Services/ListeService.cs:188-211 | an unresolved reference leaves the accumulator unchanged; a new id is stored with the catalog's name and aisle, the dish's quantity and its unit as written, and added last; a repeated id is merged in place; every other key keeps its entry |
| MaterializationFacts.SingleDishAggregate | Back/ListeDeCourses/Api/Services/ListeService.cs:177-215 | one dish with one resolved reference aggregates to a single entry holding that reference as written |
| MaterializationFacts.SingleDishLineKeepsUnit | Back/ListeDeCourses/Api/Services/ListeService.cs:136-196 | a list made of one dish with one resolved reference materialises to one unchecked item whose quantity and unit are the reference's as written; a unit " g " stays " g " |
| MaterializationFacts.SortSorts | Back/ListeDeCourses/Api/Services/ListeService.cs:161 | under a comparer that compares every pair of names, the sorted values are in non-decreasing name order |
| MaterializationFacts.SortedPairwise | Back/ListeDeCourses/Api/Services/ListeService.cs:161 | under a total preorder, any earlier item's name is at most any later item's name |
| MaterializationFacts.InsertKeepsPrecedes | Back/ListeDeCourses/Api/Services/ListeService.cs:161 | inserting into a sorted sequence keeps the relative order of the elements already there |
| MaterializationFacts.InsertLandsBefore | Back/ListeDeCourses/Api/Services/ListeService.cs:161 | an inserted element lands before every element it does not sort after |
| MaterializationFacts.SortIsStable | Back/ListeDeCourses/Api/Services/ListeService.cs:161 | the sort is stable: of two values in accumulator order whose names compare as not greater, the earlier one comes first in the result |
| MaterializationFacts.SortedEmitFacts | Back/ListeDeCourses/Api/Services/ListeService.cs:160-172 | emitting the sorted accumulator gives one item per key, distinct ids, in name order |
| MaterializationFacts.MaterializedItems | Back/ListeDeCourses/Api/Services/ListeService.cs:155-174 | the new items are exactly one per ingredient id that the resolved dishes or the manual entries bring, with distinct ids, sorted by name |
| MaterializationFacts.MaterializedFailure | Back/ListeDeCourses/Api/Services/ListeService.cs:143 | materialisation fails exactly when the prior items repeat an ingredient id, and the failure is the duplicate-key error |
| MaterializationFacts.MaterializedChecked | Back/ListeDeCourses/Api/Services/ListeService.cs:143-150 | every item's flag is the last explicit manual flag for its id, else the prior item's flag, else false |
| MaterializationFacts.CheckedPreserved | Back/ListeDeCourses/Api/Services/ListeService.cs:143 | a checked item that is materialised again, with no explicit manual flag for it, stays checked |
| MaterializationFacts.NoExplicitChecked | Back/ListeDeCourses/Api/Services/ListeService.cs:144-150 | without a manual entry that sets a flag for an id, no override applies to it |
| MaterializationFacts.MaterializeIdempotent | Back/ListeDeCourses/Api/Services/ListeService.cs:136-175 | materialising again with the same dishes and manual entries, from the items just produced, gives the same items |
| MaterializationFacts.EmitAgain | Back/ListeDeCourses/Api/Services/ListeService.cs:143-172 | emitting the same entries with the flags read back from an emitted list, under the same manual overrides, gives that list again |
| MaterializationFacts.DishItemsFromCatalog | Back/ListeDeCourses/Api/Services/ListeService.cs:193-196 | without manual entries every item names a catalog ingredient, with that ingredient's catalog name and aisle |
| MaterializationFacts.UnresolvedDishIgnoredByAggregate | Back/ListeDeCourses/Api/Services/ListeService.cs:185-186 | a dish id the catalog does not resolve, at any position among the dish ids, leaves the aggregation unchanged |
| MaterializationFacts.UnresolvedDishIgnored | Back/ListeDeCourses/Api/Services/ListeService.cs:185-186 | a dish id the catalog does not resolve, at any position among the dish ids, leaves the materialised items unchanged |
| Access.FindFirst | Back/ListeDeCourses/Api/Services/ListeService.cs:34 | the claim lookup finds nothing exactly when no claim has the type (ignoring case), and otherwise returns the value of a claim of that type |
| Access.FindFirstCons | Back/ListeDeCourses/Api/Services/ListeService.cs:34 | the lookup returns the first claim's value when its type matches, and otherwise looks further |
| Access.FindFirstAppend | Back/ListeDeCourses/Api/Services/ListeService.cs:34 | over two claim lists laid end to end, the lookup answers from the first list whenever that list has the type |
| Access.EnsureOwnership | Back/ListeDeCourses/Api/Services/ListeService.cs:43-49 | the only error of the ownership check is the 403 LIST_FORBIDDEN domain error |
| Access.VisibleLists | Back/ListeDeCourses/Api/Services/ListeService.cs:56-58 | a superuser, or a caller without a user id, sees every stored list in order; any other caller sees exactly the stored lists whose owner is their user id, never more than the stored ones |
| Access.OwnershipRules | Back/ListeDeCourses/Api/Services/ListeService.cs:37-49 | the check passes exactly for a superuser, or for a caller whose non-empty user id equals the owner; an unowned list passes only for a superuser |
| Access.VisibleListsAreOwned | Back/ListeDeCourses/Api/Services/ListeService.cs:53-58 | for a caller with a user id, a list is visible exactly when it is stored and passes the ownership check |
| Access.SuperUserSeesAll | Back/ListeDeCourses/Api/Services/ListeService.cs:45 | a superuser sees every list and passes every ownership check |
| Access.AnonymousCallerSeesAllButOwnsNone | Back/ListeDeCourses/Api/Services/ListeService.cs:46-58 | a caller without a user id sees every list, yet fails every ownership check unless a superuser |
| Access.SuperUserRoleCases | Back/ListeDeCourses/Api/Services/ListeService.cs:37-41 | the role "SuperUser" counts ignoring case; no role claim means no superuser |
| Access.CurrentUserId | Back/ListeDeCourses/Api/Services/ListeService.cs:33-35 | the caller's id is the sub claim, else the name-identifier claim; a login token leads to the user's id (`Authentication.LoginThenMe`) and a caller with neither claim has none (`Access.AnonymousCallerSeesAllButOwnsNone`) |
| Access.IsSuperUser | Back/ListeDeCourses/Api/Services/ListeService.cs:37-41 | true exactly when the role claim is "superuser" ignoring case; stated by `Access.SuperUserRoleCases` |
| ListeServices.MaterializedListRules | Back/ListeDeCourses/Api/Services/ListeService.cs:136-175 | materialising a list fails only on repeated prior ids; otherwise it keeps id, name, date and owner, sets the supplied dish ids (or keeps the old ones) and leaves distinct item ids |
| ListeServices.MaterializedList | Back/ListeDeCourses/Api/Services/ListeService.cs:136-175 | a list with its dish ids replaced when given and its items materialised, every other field kept; stated by `ListeServices.MaterializedListRules` |
| ListeServices.CreatedList | Back/ListeDeCourses/Api/Services/ListeService.cs:72-83 | a created list is owned by the caller, has the assigned id, the dto's name, date (or now) and dish ids (or none), and distinct items |
| ListeServices.UpdatedList | Back/ListeDeCourses/Api/Services/ListeService.cs:85-104 | an update keeps id, owner, name and date, replaces the dish ids when supplied, and leaves distinct items |
| ListeServices.DishRemoved | Back/ListeDeCourses/Api/Services/ListeService.cs:118-122 | a list that held the dish keeps id, owner, name and date, loses every occurrence of the dish id, and has distinct items |
| ListeServices.DishCascaded | Back/ListeDeCourses/Api/Services/ListeService.cs:115-124 | the dish cascade keeps a list's id and leaves a list without the dish untouched |
| ListeServices.DishCascadedRules | Back/ListeDeCourses/Api/Services/ListeService.cs:115-124 | after the dish cascade the list no longer holds the dish, and its item ids stay distinct |
| ListeServices.IngredientRemoved | Back/ListeDeCourses/Api/Services/ListeService.cs:129-131 | the ingredient purge keeps every field but the items, and keeps exactly the items of other ingredients |
| ListeServices.IngredientRemovedRules | Back/ListeDeCourses/Api/Services/ListeService.cs:126-134 | after the purge the list holds no item of the ingredient, a list without it is untouched, and distinct ids stay distinct |
| ListeServices.HoldsIngredient | Back/ListeDeCourses/Api/Services/ListeService.cs:129 | a list holds an ingredient exactly when one of its items has that id; with `IngredientRemovedRules`, no list holds it after the cascade |
| ListeServices.ReadDtos | Back/ListeDeCourses/Api/Services/ListeService.cs:60 | one read dto per list, in order |
| ListeServices.ListeService.ToDictionary | Back/ListeDeCourses/Api/Services/ListeService.cs:143 | the loop computes the prior checked map, failing on a repeated id |
| ListeServices.ListeService.OverrideLoop | Back/ListeDeCourses/Api/Services/ListeService.cs:144-150 | the loop applies the explicit manual flags as the override specification does |
| ListeServices.ListeService.BuildCheckedMap | Back/ListeDeCourses/Api/Services/ListeService.cs:143-150 | the checked map of the method is the specified checked map, or its duplicate-key error |
| ListeServices.ListeService.EmitLoop | Back/ListeDeCourses/Api/Services/ListeService.cs:160-172 | the emission loop builds the specified items |
| ListeServices.ListeService.AggregateFromDishesLoop | Back/ListeDeCourses/Api/Services/ListeService.cs:177-215 | the nested loops over the stored catalogs compute the specified aggregation |
| ListeServices.ListeService.AccumulateDishLoop | Back/ListeDeCourses/Api/Services/ListeService.cs:188-211 | the inner loop over one dish's references folds them into the accumulator as specified |
| ListeServices.ListeService.MergeManualLoop | Back/ListeDeCourses/Api/Services/ListeService.cs:217-252 | the manual loop computes the specified manual merge |
| ListeServices.ListeService.Materialize | Back/ListeDeCourses/Api/Services/ListeService.cs:136-175 | the method materialises a list as the specification does, over the stored catalogs |
| ListeServices.ListeService.GetAll | Back/ListeDeCourses/Api/Services/ListeService.cs:51-61 | the read dtos of exactly the lists the caller may see, in store order |
| ListeServices.ListeService.GetById | Back/ListeDeCourses/Api/Services/ListeService.cs:63-70 | null for a missing id; the list for a caller who passes the ownership check; LIST_FORBIDDEN otherwise |
| ListeServices.ListeService.Create | Back/ListeDeCourses/Api/Services/ListeService.cs:72-83 | AUTH_REQUIRED and no write without a user id; otherwise the created list is stored under the new id and returned, or the store's duplicate-id error |
| ListeServices.ListeService.Update | Back/ListeDeCourses/Api/Services/ListeService.cs:85-104 | null and no write for a missing id; LIST_FORBIDDEN and no write for a foreign list; otherwise the updated list is stored and returned |
| ListeServices.ListeService.Delete | Back/ListeDeCourses/Api/Services/ListeService.cs:106-113 | false for a missing id; LIST_FORBIDDEN and no write for a foreign list; otherwise the list is removed, the other ids keep their store order, and the result is true |
| ListeServices.ListeService.RemoveDishFrom | Back/ListeDeCourses/Api/Services/ListeService.cs:120-121 | removing the dish id and re-materialising with the list's own items gives the specified dish-removed list |
| ListeServices.ListeService.CascadeDishInto | Back/ListeDeCourses/Api/Services/ListeService.cs:118-122 | one step of the cascade replaces the stored list by its dish-cascaded form and touches no other list |
| ListeServices.ListeService.CascadeRemoveDish | Back/ListeDeCourses/Api/Services/ListeService.cs:115-124 | every stored list becomes its dish-cascaded form; keys and order are unchanged |
| ListeServices.ListeService.CascadeRemoveIngredient | Back/ListeDeCourses/Api/Services/ListeService.cs:126-134 | every stored list holding the ingredient loses exactly its items; the others are unchanged |
| PlatServices.IngredientPurged | Back/ListeDeCourses/Api/Services/PlatService.cs:33-35 | the purged dish keeps every field but its ingredients, and keeps exactly the references to other ingredients |
| PlatServices.IngredientPurgedRules | Back/ListeDeCourses/Api/Services/PlatService.cs:33-35 | after the purge no reference to the ingredient is left, and the kept references keep their order |
| PlatServices.UsesIngredient | Back/ListeDeCourses/Api/Services/PlatService.cs:33 | a dish uses an ingredient exactly when one of its references has that id; with `IngredientPurgedRules`, no dish uses it after the purge |
| PlatServices.PurgeMayEmptyADish | Back/ListeDeCourses/Api/Services/PlatService.cs:35 | a dish whose only ingredient is purged is left with no ingredient |
| PlatServices.PlatService.Delete | Back/ListeDeCourses/Api/Services/PlatService.cs:21-28 | true exactly when the dish existed; the dish is gone and the other dishes keep their store order; only then does every list become its dish-cascaded form, with the lists' order unchanged |
| PlatServices.PlatService.CascadeRemoveIngredient | Back/ListeDeCourses/Api/Services/PlatService.cs:30-38 | every stored dish becomes its purged form; keys and order are unchanged |
| IngredientServices.IngredientService.Delete | Back/ListeDeCourses/Api/Services/IngredientService.cs:23-31 | true exactly when the ingredient existed; it is gone and the other ingredients keep their store order; only then are dishes purged and list items removed for it, with the order of dishes and of lists unchanged |
| Store.Repository.GetAll | Back/ListeDeCourses/Api/Repositories/BaseRepository.cs:18-19 | every stored document, in insertion order |
| Store.Repository.GetById | Back/ListeDeCourses/Api/Repositories/BaseRepository.cs:21-25 | the document with that id, or nothing exactly when none is stored |
| Store.Repository.Create | Back/ListeDeCourses/Api/Repositories/BaseRepository.cs:27-32 | a new id is stored last; a taken id is a duplicate-key write error that changes nothing |
| Store.Repository.Update | Back/ListeDeCourses/Api/Repositories/BaseRepository.cs:34-40 | the document is replaced when present; the result says whether it matched and changed |
| Store.Repository.Delete | Back/ListeDeCourses/Api/Repositories/BaseRepository.cs:42-47 | the result says whether the id was stored; afterwards it is not, the other documents are unchanged, and the remaining ids keep their order |
| Mappings.IngredientCreateReadsBack | Back/ListeDeCourses/Api/Mappings/IngredientMappings.cs:9-20 | a created ingredient has no id and reads back with the dto's name and aisle |
| Mappings.IngredientApplyRules | Back/ListeDeCourses/Api/Mappings/IngredientMappings.cs:22-26 | an ingredient update changes a field only when it supplies one, and never the id |
| Mappings.ItemsToDto | Back/ListeDeCourses/Api/Mappings/ListeMappings.cs:35-43 | item to dto conversion, element by element, in order |
| Mappings.ItemsFromDto | Back/ListeDeCourses/Api/Mappings/ListeMappings.cs:45-53 | dto to item conversion, element by element, in order |
| Mappings.ItemRoundTrips | Back/ListeDeCourses/Api/Mappings/ListeMappings.cs:35-53 | an item survives the trip to a dto and back; a dto with an explicit flag survives the trip to an item and back |
| Mappings.ItemsRoundTrip | Back/ListeDeCourses/Api/Mappings/ListeMappings.cs:14 | a list's items survive the trip to dtos and back |
| Mappings.ListeFromCreateRules | Back/ListeDeCourses/Api/Mappings/ListeMappings.cs:19-25 | a created list has no id and no owner; absent items and dish ids become empty, and an absent date becomes now |
| Mappings.ListeApplyRules | Back/ListeDeCourses/Api/Mappings/ListeMappings.cs:27-33 | a list update changes each field only when supplied, never the id or the owner |
| Mappings.ListeReadDtoItemsRoundTrip | Back/ListeDeCourses/Api/Mappings/ListeMappings.cs:9-17 | reading a list back through its read dto gives its items again |
| Mappings.PlatIngredientsToDto | Back/ListeDeCourses/Api/Mappings/PlatMappings.cs:29-34 | dish reference to dto conversion, element by element |
| Mappings.PlatIngredientsFromDto | Back/ListeDeCourses/Api/Mappings/PlatMappings.cs:36-41 | dto to dish reference conversion, element by element |
| Mappings.PlatIngredientRoundTrips | Back/ListeDeCourses/Api/Mappings/PlatMappings.cs:29-41 | the dish reference conversions are inverse to each other, on elements and on sequences |
| Mappings.PlatMappingRules | Back/ListeDeCourses/Api/Mappings/PlatMappings.cs:9-27 | a created dish has no id and the dto's name and ingredients; an update changes only what it supplies |
| Mappings.UtilisateurMappingRules | Back/ListeDeCourses/Api/Mappings/UtilisateurMappings.cs:8-21 | missing strings read back as ""; the flag is copied; an update changes only what it supplies, never id or password hash |
| Mappings.IngredientToReadDto | Back/ListeDeCourses/Api/Mappings/IngredientMappings.cs:9-14 | id, name and aisle copied; stated by `Mappings.IngredientCreateReadsBack` |
| Mappings.IngredientFromCreate | Back/ListeDeCourses/Api/Mappings/IngredientMappings.cs:16-20 | no id, the dto's name and aisle; stated by `Mappings.IngredientCreateReadsBack` |
| Mappings.IngredientApply | Back/ListeDeCourses/Api/Mappings/IngredientMappings.cs:22-26 | each field replaced only when the update supplies it; stated by `Mappings.IngredientApplyRules` |
| Mappings.ItemToDto | Back/ListeDeCourses/Api/Mappings/ListeMappings.cs:35-43 | every field copied, the flag as a present value; stated by `Mappings.ItemRoundTrips` |
| Mappings.ItemFromDto | Back/ListeDeCourses/Api/Mappings/ListeMappings.cs:45-53 | every field copied, an absent flag read as false; stated by `Mappings.ItemRoundTrips` |
| Mappings.ListeToReadDto | Back/ListeDeCourses/Api/Mappings/ListeMappings.cs:9-17 | every field copied and the items converted in order; stated by `Mappings.ListeReadDtoItemsRoundTrip` |
| Mappings.ListeFromCreate | Back/ListeDeCourses/Api/Mappings/ListeMappings.cs:19-25 | no id and no owner, the date defaulting to the given clock reading; stated by `Mappings.ListeFromCreateRules` |
| Mappings.ListeApply | Back/ListeDeCourses/Api/Mappings/ListeMappings.cs:27-33 | each field replaced only when supplied; stated by `Mappings.ListeApplyRules` |
| Mappings.PlatIngredientToDto | Back/ListeDeCourses/Api/Mappings/PlatMappings.cs:29-34 | id, quantity and unit copied; stated by `Mappings.PlatIngredientRoundTrips` |
| Mappings.PlatIngredientFromDto | Back/ListeDeCourses/Api/Mappings/PlatMappings.cs:36-41 | id, quantity and unit copied; stated by `Mappings.PlatIngredientRoundTrips` |
| Mappings.PlatToReadDto | Back/ListeDeCourses/Api/Mappings/PlatMappings.cs:9-14 | id and name copied, the references converted in order; stated by `Mappings.PlatMappingRules` |
| Mappings.PlatFromCreate | Back/ListeDeCourses/Api/Mappings/PlatMappings.cs:16-20 | no id, the dto's name and references; stated by `Mappings.PlatMappingRules` |
| Mappings.PlatApply | Back/ListeDeCourses/Api/Mappings/PlatMappings.cs:22-27 | name and references replaced only when supplied; stated by `Mappings.PlatMappingRules` |
| Mappings.UtilisateurToReadDto | Back/ListeDeCourses/Api/Mappings/UtilisateurMappings.cs:8-14 | missing strings read back as ""; stated by `Mappings.UtilisateurMappingRules` |
| Mappings.UtilisateurApply | Back/ListeDeCourses/Api/Mappings/UtilisateurMappings.cs:16-21 | e-mail, pseudo and flag replaced only when supplied, the hash never; stated by `Mappings.UtilisateurMappingRules` |
| Validators.UpperOfUnitNames | Back/ListeDeCourses/Api/Validators/ValidationHelpers.cs:7-8 | worked example, not a general property (that is `IsAllowedUnitNameUpper`): the upper-case forms of the allowed unit names and of "unité" |
| Validators.IsAllowedUnitNameUpper | Back/ListeDeCourses/Api/Validators/ValidationHelpers.cs:7-8 | a unit is in the allowed set exactly when its upper-case form is G, KG or PAQUET |
| Validators.BeAllowedUnitCases | Back/ListeDeCourses/Api/Validators/ValidationHelpers.cs:10-11 | a null or blank unit passes; otherwise the trimmed unit must be g, kg or paquet ignoring case |
| Validators.ItemOnlyUnitNotAllowed | Back/ListeDeCourses/Api/Validators/ValidationHelpers.cs:7-11 | "unité", which a list item may carry, is not an allowed unit |
| Validators.DishUnitIsAllowed | Back/ListeDeCourses/Api/DTOs/PlatDTO.cs:5-15 | every unit the dish-reference annotation accepts passes the unit check |
| Validators.ListeItemRules | Back/ListeDeCourses/Api/Validators/ListeValidator.cs:7-27 | a valid item has a name of 1 to 100 UTF-16 code units; a blank id or a negative quantity is rejected; id and name alone suffice |
| Validators.ListeItemRulesMatchAnnotations | Back/ListeDeCourses/Api/DTOs/ListeDTO.cs:5-23 | the validator and the annotations agree except on the blank id (validator only) and the unit vocabulary (annotations only) |
| Validators.ListeNameLengthInUtf16Units | Back/ListeDeCourses/Api/Validators/ListeValidator.cs:29-43 | lengths are UTF-16 code units: a list name of 61 characters outside the Basic Multilingual Plane measures 122 and is refused by the validator and the annotations |
| Validators.ListeCreateRulesImplyUpdateRules | Back/ListeDeCourses/Api/Validators/ListeValidator.cs:29-60 | whatever passes the create rules passes the update rules |
| Validators.ListeOptionalRules | Back/ListeDeCourses/Api/Validators/ListeValidator.cs:45-60 | an update that supplies nothing is valid, while a create without a name is not |
| Validators.PlatIngredientListRules | Back/ListeDeCourses/Api/Validators/PlatValidator.cs:22-55 | a dish is created with at least one ingredient, but an update may empty it |
| Validators.PlatRulesMatchAnnotations | Back/ListeDeCourses/Api/DTOs/PlatDTO.cs:27-34 | the dish validator and annotations agree except on the blank reference id and the unit vocabulary |
| Validators.IngredientRules | Back/ListeDeCourses/Api/Validators/IngredientValidator.cs:7-37 | create needs a non-blank name of at most 100 UTF-16 code units; update checks only what it carries |
| Validators.UtilisateurRules | Back/ListeDeCourses/Api/Validators/UtilisateurValidator.cs:7-49 | create needs a password of 8 to 100 and a pseudo of 2 to 50 UTF-16 code units, and an e-mail of at most 255; an empty update is valid |
| Validators.BeAllowedUnit | Back/ListeDeCourses/Api/Validators/ValidationHelpers.cs:10-11 | a null or blank unit passes, otherwise the trimmed unit must be an allowed name ignoring case; stated by `Validators.BeAllowedUnitCases` |
| Validators.ListeItemDtoValid | Back/ListeDeCourses/Api/Validators/ListeValidator.cs:7-27 | the item rules; stated by `Validators.ListeItemRules` and `ListeItemRulesMatchAnnotations`, with every length counted in UTF-16 code units |
| Validators.AllItemsValid | Back/ListeDeCourses/Api/Validators/ListeValidator.cs:37-42 | every item of the list passes the item rules |
| Validators.ListeCreateDtoValid | Back/ListeDeCourses/Api/Validators/ListeValidator.cs:29-43 | the create rules; stated by `Validators.ListeCreateRulesImplyUpdateRules` and `ListeRulesMatchAnnotations`, with every length counted in UTF-16 code units |
| Validators.ListeUpdateDtoValid | Back/ListeDeCourses/Api/Validators/ListeValidator.cs:45-60 | the update rules, each applied only when the field is supplied; stated by `Validators.ListeOptionalRules` and `ListeRulesMatchAnnotations`, with every length counted in UTF-16 code units |
| Validators.ListeRulesMatchAnnotations | Back/ListeDeCourses/Api/DTOs/ListeDTO.cs:41-63 | a list create or update body that passes the validator, with item units in the annotation's vocabulary, passes the annotations; one that passes the annotations, with every item id present, passes the validator |
| Validators.PlatIngredientDtoValid | Back/ListeDeCourses/Api/Validators/PlatValidator.cs:7-20 | the dish reference rules; stated by `Validators.PlatRulesMatchAnnotations`, with every length counted in UTF-16 code units |
| Validators.PlatCreateDtoValid | Back/ListeDeCourses/Api/Validators/PlatValidator.cs:22-37 | the dish create rules; stated by `Validators.PlatIngredientListRules` and `PlatRulesMatchAnnotations`, with every length counted in UTF-16 code units |
| Validators.PlatUpdateDtoValid | Back/ListeDeCourses/Api/Validators/PlatValidator.cs:39-55 | the dish update rules; stated by `Validators.PlatIngredientListRules` and `PlatUpdateRulesMatchAnnotations`, with every length counted in UTF-16 code units |
| Validators.PlatUpdateRulesMatchAnnotations | Back/ListeDeCourses/Api/DTOs/PlatDTO.cs:36-42 | a dish update that passes the validator, with units in the annotation's vocabulary, passes the annotations; one that passes the annotations, with every reference id present, passes the validator |
| Validators.IngredientCreateDtoValid | Back/ListeDeCourses/Api/Validators/IngredientValidator.cs:7-19 | the ingredient create rules; stated by `Validators.IngredientRules`, with every length counted in UTF-16 code units |
| Validators.IngredientUpdateDtoValid | Back/ListeDeCourses/Api/Validators/IngredientValidator.cs:21-37 | the ingredient update rules; stated by `Validators.IngredientRules`, with every length counted in UTF-16 code units |
| Validators.UtilisateurCreateDtoValid | Back/ListeDeCourses/Api/Validators/UtilisateurValidator.cs:7-24 | the user create rules; stated by `Validators.UtilisateurRules`, with every length counted in UTF-16 code units |
| Validators.UtilisateurUpdateDtoValid | Back/ListeDeCourses/Api/Validators/UtilisateurValidator.cs:26-49 | the user update rules; stated by `Validators.UtilisateurRules`, with every length counted in UTF-16 code units |
| Dtos.ListeItemDtoAnnotated | Back/ListeDeCourses/Api/DTOs/ListeDTO.cs:5-23 | the item annotations; compared with the validator by `Validators.ListeItemRulesMatchAnnotations`, with every length counted in UTF-16 code units |
| Dtos.ListeCreateDtoAnnotated | Back/ListeDeCourses/Api/DTOs/ListeDTO.cs:41-51 | the list create annotations; compared with the validator by `Validators.ListeRulesMatchAnnotations`, with every length counted in UTF-16 code units |
| Dtos.ListeUpdateDtoAnnotated | Back/ListeDeCourses/Api/DTOs/ListeDTO.cs:53-63 | the list update annotations; compared with the validator by `Validators.ListeRulesMatchAnnotations`, with every length counted in UTF-16 code units |
| Dtos.PlatIngredientDtoAnnotated | Back/ListeDeCourses/Api/DTOs/PlatDTO.cs:5-15 | the dish reference annotations; stated by `Validators.DishUnitIsAllowed`, with every length counted in UTF-16 code units |
| Dtos.PlatCreateDtoAnnotated | Back/ListeDeCourses/Api/DTOs/PlatDTO.cs:27-34 | the dish create annotations; compared with the validator by `Validators.PlatRulesMatchAnnotations`, with every length counted in UTF-16 code units |
| Dtos.PlatUpdateDtoAnnotated | Back/ListeDeCourses/Api/DTOs/PlatDTO.cs:36-42 | the dish update annotations; compared with the validator by `Validators.PlatUpdateRulesMatchAnnotations`, with every length counted in UTF-16 code units |
| Paging.CeilDiv | Back/ListeDeCourses/Api/Common/PagedResult.cs:12 | the quotient rounded up: the least number of pages of that size holding the count |
| Paging.PagedResult.TotalPages | Back/ListeDeCourses/Api/Common/PagedResult.cs:10-12 | 0 for a non-positive page size; otherwise the least number of full pages covering the total count |
| Paging.Create | Back/ListeDeCourses/Api/Common/PagedResult.cs:14-21 | succeeds exactly when page ≥ 1, page size ≥ 1 and total count ≥ 0, with the given fields |
| Paging.CreateGuards | Back/ListeDeCourses/Api/Common/PagedResult.cs:16-18 | each failed guard is an argument error naming its parameter, checked page first, then page size, then total count |
| Paging.CreatedPageCount | Back/ListeDeCourses/Api/Common/PagedResult.cs:10-21 | a created page has no pages exactly when its total count is 0, and never more pages than items |
| Paging.EmptyDefaults | Back/ListeDeCourses/Api/Common/PagedResult.cs:23-24 | the default empty page is page 1 of size 10 with no items and no pages |
| Paging.PageCountExamples | Back/ListeDeCourses/Api/Common/PagedResult.cs:10-12 | worked example, not a general property (that is `TotalPages`): 25 or 30 items at 10 per page need 3 pages, 31 need 4, a page size of 0 gives 0 |
| Responses.CurrentTraceId | Back/ListeDeCourses/Api/Common/ApiResponse.cs:30-31 | the current activity's id, else its root id, else none |
| Responses.OkRules | Back/ListeDeCourses/Api/Common/ApiResponse.cs:24-25 | a success envelope carries its data and message, no code, and the current trace id |
| Responses.FailRules | Back/ListeDeCourses/Api/Common/ApiResponse.cs:27-28 | a failure envelope carries no data, its message and code, and the given trace id, else the current one |
| Responses.OkIsNotFail | Back/ListeDeCourses/Api/Common/ApiResponse.cs:15-28 | no success envelope equals a failure envelope |
| Responses.MakeRules | Back/ListeDeCourses/Api/Common/ApiResponse.cs:15-22 | the envelope keeps every field it is given, and a missing trace id comes from the current activity's id, else its root id, else none |
| Responses.Make | Back/ListeDeCourses/Api/Common/ApiResponse.cs:15-22 | stated by `Responses.MakeRules` |
| Responses.OkResponse | Back/ListeDeCourses/Api/Common/ApiResponse.cs:24-25 | stated by `Responses.OkRules` |
| Responses.FailResponse | Back/ListeDeCourses/Api/Common/ApiResponse.cs:27-28 | stated by `Responses.FailRules` |
| ErrorHandling.ErrorTraceId | Back/ListeDeCourses/Api/Middlewares/ErrorHandlingMiddleware.cs:27-34 | the current activity's id, else the fresh GUID |
| ErrorHandling.ErrorFor | Back/ListeDeCourses/Api/Middlewares/ErrorHandlingMiddleware.cs:22-38 | every error reply carries the middleware's trace id |
| ErrorHandling.WriteErrorResponse | Back/ListeDeCourses/Api/Middlewares/ErrorHandlingMiddleware.cs:41-48 | the response gets the JSON content type, the status and a failure envelope |
| ErrorHandling.Invoke | Back/ListeDeCourses/Api/Middlewares/ErrorHandlingMiddleware.cs:18-39 | a passing pipeline leaves the response alone; a throwing one gets the error reply's status, content type and envelope |
| ErrorHandling.DomainErrorPassesThrough | Back/ListeDeCourses/Api/Middlewares/ErrorHandlingMiddleware.cs:24-30 | a domain exception reaches the client with its message and code, under its status or 400 |
| ErrorHandling.OtherErrorsAreHidden | Back/ListeDeCourses/Api/Middlewares/ErrorHandlingMiddleware.cs:32-37 | any other exception gives the same 500 reply, with a fixed message and no code |
| ErrorHandling.ErrorBodyRules | Back/ListeDeCourses/Api/Middlewares/ErrorHandlingMiddleware.cs:41-48 | the written body is a failure with no data, with the reply's message, code and trace id |
| ErrorHandling.ServiceErrorStatuses | Back/ListeDeCourses/Api/Common/DomainException.cs:5-23 | a foreign list is a 403 LIST_FORBIDDEN, a missing user a 401 AUTH_REQUIRED, and a duplicate key a 500 with no code |
| Tokens.BoolText | Back/ListeDeCourses/Api/Auth/JwtTokenGenerator.cs:58 | the superuser flag is written "true" exactly when it holds, and "false" otherwise |
| Tokens.BuildClaims | Back/ListeDeCourses/Api/Auth/JwtTokenGenerator.cs:50-66 | sub, then email, then the pseudo when not blank, then the superuser flag, then the extra claims in order |
| Tokens.Generate | Back/ListeDeCourses/Api/Auth/JwtTokenGenerator.cs:20-48 | a token exactly when the key is not blank, the lifetime is positive, the expiry is representable and the key has at least 32 UTF-8 bytes (256 bits, the HS256 minimum); it has the configured issuer and audience, validity from now for the configured minutes, and the built claims |
| Tokens.EpochSeconds | Back/ListeDeCourses/Api/Auth/JwtTokenGenerator.cs:38-45 | the whole seconds since the Unix epoch that an instant is written as, and never negative |
| Tokens.GenerateGuards | Back/ListeDeCourses/Api/Auth/JwtTokenGenerator.cs:25-29 | a blank key is reported before a non-positive lifetime, and each error names the settings |
| Tokens.ValidatedKeySigns | Back/ListeDeCourses/Api/Settings/JwtSettings.cs:13-14 | a key of at least 32 UTF-16 code units, as the settings' `[MinLength(32)]` demands, is never refused when signing; the blank-check-passing key "abc" is |
| Tokens.DefaultSettingsGenerate | Back/ListeDeCourses/Api/Settings/JwtSettings.cs:8-17 | the default settings issue tokens that last two hours |
| Tokens.TokenLifetime | Back/ListeDeCourses/Api/Auth/JwtTokenGenerator.cs:31-45 | on the wire, exp is nbf plus the configured minutes in seconds |
| Tokens.PseudoClaimIffNotBlank | Back/ListeDeCourses/Api/Auth/JwtTokenGenerator.cs:55-56 | the user's own claims include a pseudo claim exactly when the pseudo is not blank |
| Tokens.OwnClaimLookup | Back/ListeDeCourses/Api/Auth/JwtTokenGenerator.cs:50-58 | read back by type, the user's own claims give the id, the e-mail and the flag, and never a role |
| Tokens.OwnClaims | Back/ListeDeCourses/Api/Auth/JwtTokenGenerator.cs:50-58 | sub, email, the pseudo when not blank, and the superuser flag; stated by `Tokens.OwnClaimLookup` and `Tokens.PseudoClaimIffNotBlank` |
| Tokens.ClaimLookup | Back/ListeDeCourses/Api/Auth/JwtTokenGenerator.cs:50-66 | read back by type, a token's claims give the user's id as the caller id, the e-mail and the flag; the role is the extra claims' role |
| Authentication.FirstWithEmail | Back/ListeDeCourses/Api/Repositories/UtilisateurRepository.cs:11-12 | none exactly when no stored user has that exact e-mail; otherwise a stored user with it |
| Authentication.FirstWithEmailAppend | Back/ListeDeCourses/Api/Repositories/UtilisateurRepository.cs:11-12 | a user added behind users without the e-mail is found by it exactly when it carries it |
| Authentication.NewUser | Back/ListeDeCourses/Api/Controllers/AuthController.cs:58-64 | a registered user has the new id, trimmed e-mail and pseudo, the hash, and is never a superuser |
| Authentication.RoleOf | Back/ListeDeCourses/Api/Controllers/AuthController.cs:93-96 | the role is superuser exactly for a superuser, and user otherwise |
| Authentication.LoginReply | Back/ListeDeCourses/Api/Controllers/AuthController.cs:83-99 | 401 exactly when no user is found, it has no hash or the password fails; otherwise the generator's result |
| Authentication.MeLookup | Back/ListeDeCourses/Api/Controllers/AuthController.cs:106-118 | a non-empty user id that finds a user decides; otherwise a non-empty e-mail claim is used |
| Authentication.MeProfile | Back/ListeDeCourses/Api/Controllers/AuthController.cs:120-127 | the profile's role is superuser exactly when its flag is set, which is the user's flag |
| Authentication.AuthController.GetByEmail | Back/ListeDeCourses/Api/Repositories/UtilisateurRepository.cs:11-12 | the loop finds the first stored user with that e-mail |
| Authentication.AuthController.Register | Back/ListeDeCourses/Api/Controllers/AuthController.cs:46-74 | an invalid body is a validation problem; a taken trimmed e-mail is a conflict; otherwise the new user is stored and described |
| Authentication.AuthController.Login | Back/ListeDeCourses/Api/Controllers/AuthController.cs:78-100 | an invalid body is a validation problem; otherwise the login reply for the user found by e-mail |
| Authentication.AuthController.Me | Back/ListeDeCourses/Api/Controllers/AuthController.cs:104-128 | 401 when the lookup finds nobody, otherwise that user's profile |
| Authentication.LoginThenMe | Back/ListeDeCourses/Api/Controllers/AuthController.cs:93-128 | a login token's claims lead the caller id, `Me` and the superuser check back to the stored user |
| Authentication.RegisterThenLogin | Back/ListeDeCourses/Api/Controllers/AuthController.cs:58-99 | a freshly registered user can log in with the registered password |
| Authentication.MeRefusesAnonymous | Back/ListeDeCourses/Api/Controllers/AuthController.cs:106-118 | without id and e-mail claims, `Me` finds nobody |
| Authentication.LoginRequestRules | Back/ListeDeCourses/Api/Controllers/AuthController.cs:27-31 | a valid login has an e-mail and a password of at least three UTF-16 code units; two characters outside the Basic Multilingual Plane suffice, two ASCII letters do not |
| Authentication.LoginRequestValid | Back/ListeDeCourses/Api/Controllers/AuthController.cs:27-31 | a required e-mail that the e-mail check accepts and a required password of at least 3 UTF-16 code units; stated by `Authentication.LoginRequestRules`, used by `AuthController.Login` and `Authentication.LoginThenMe` |
| Authentication.RegisterRequestValid | Back/ListeDeCourses/Api/Controllers/AuthController.cs:35-40 | a required e-mail that the e-mail check accepts, a required pseudo of at least 2 and a required password of at least 3 UTF-16 code units; used by `AuthController.Register` and `Authentication.RegisterThenLogin` |
| Authentication.CanLogIn | Back/ListeDeCourses/Api/Controllers/AuthController.cs:85-91 | a user is found, has a hash, and the password verifies against it; stated by `Authentication.LoginReply` and `Authentication.RegisterThenLogin` |
| Authentication.EmailOf | Back/ListeDeCourses/Api/Controllers/AuthController.cs:107 | the email claim, else the e-mail claim type; stated by `Authentication.MeLookup` and `Authentication.MeRefusesAnonymous` |
| ArrayHelpers.FindIndex | Front/listedecourses-front/src/stores/_helpers.ts:4 | the first position holding the id, or -1 exactly when none does |
| ArrayHelpers.UpsertById | Front/listedecourses-front/src/stores/_helpers.ts:3-9 | a new id is appended; otherwise only the first element with the id is replaced |
| ArrayHelpers.RemoveById | Front/listedecourses-front/src/stores/_helpers.ts:11-13 | exactly the elements with another id are kept |
| ArrayHelpers.UpsertThenFind | Front/listedecourses-front/src/stores/_helpers.ts:3-9 | after an upsert, a lookup by the entity's id finds the entity |
| ArrayHelpers.UpsertIdempotent | Front/listedecourses-front/src/stores/_helpers.ts:3-9 | upserting twice is upserting once |
| ArrayHelpers.UpsertThenRemove | Front/listedecourses-front/src/stores/_helpers.ts:3-13 | removing an id after upserting it is removing it from the original |
| ArrayHelpers.RemoveByIdKeepsOrder | Front/listedecourses-front/src/stores/_helpers.ts:11-13 | the kept elements keep their order |
| ArrayHelpers.RemoveAbsentId | Front/listedecourses-front/src/stores/_helpers.ts:11-13 | removing an absent id gives an equal array |
| ClientTokens.FromUrlAlphabet | Front/listedecourses-front/src/api/jwt.ts:2 | '-' and '_' become '+' and '/', character by character, and none is left |
| ClientTokens.Padded | Front/listedecourses-front/src/api/jwt.ts:3-4 | '=' is appended up to a multiple of four, fewer than four, and only when needed |
| ClientTokens.UrlRoundTrip | Front/listedecourses-front/src/api/jwt.ts:1-6 | decoding undoes base64url encoding: the padded base64 text comes back |
| ClientTokens.ParseJwt | Front/listedecourses-front/src/api/jwt.ts:8-16 | a token without a dot parses to nothing |
| ClientTokens.GetExpiryMs | Front/listedecourses-front/src/api/jwt.ts:25-28 | there is an expiry exactly when the payload has a truthy exp |
| ClientTokens.ExpiryAgreement | Front/listedecourses-front/src/api/jwt.ts:18-28 | expired exactly when there is no expiry, or the current second is at least the expiry less the skew |
| ClientTokens.ExpiredStaysExpired | Front/listedecourses-front/src/api/jwt.ts:18-23 | once expired, a token stays expired |
| ClientTokens.IssuedTokenWindow | Front/listedecourses-front/src/api/jwt.ts:18-23 | an issued token read on the issuer's clock is not expired at issue, and expired once its lifetime has passed |
| ClientTokens.UrlToBase64 | Front/listedecourses-front/src/api/jwt.ts:1-6 | '-' and '_' become '+' and '/', then '=' pads to a multiple of four; stated by `ClientTokens.FromUrlAlphabet`, `Padded` and `UrlRoundTrip` |
| ClientTokens.IsExpired | Front/listedecourses-front/src/api/jwt.ts:18-23 | expired without an expiry, or once the current second reaches it; stated by `ClientTokens.ExpiryAgreement`, `ExpiredStaysExpired` and `IssuedTokenWindow` |
| TokenNormalization.NormalizeToken | Front/listedecourses-front/src/api/token-normalize.ts:1-20 | nothing exactly for null or undefined; some text for anything else. Each branch is stated by a lemma: `StringsPassThrough`, `ParsedTripleJoined`, `TripleJoined` and `OtherValuesStringified` |
| TokenNormalization.JoinedTripleSplits | Front/listedecourses-front/src/api/token-normalize.ts:4 | a token joined from three dot-free parts splits back into those three parts |
| TokenNormalization.StringsPassThrough | Front/listedecourses-front/src/api/token-normalize.ts:4-19 | a string that does not look like a JSON array comes back unchanged |
| TokenNormalization.TripleJoined | Front/listedecourses-front/src/api/token-normalize.ts:15-17 | an array of three strings becomes the dotted token |
| TokenNormalization.ParsedTripleJoined | Front/listedecourses-front/src/api/token-normalize.ts:6-13 | a string that is not already a dotted triple, looks like a JSON array and parses to three strings becomes those strings joined with '.' |
| TokenNormalization.TripleText | Front/listedecourses-front/src/api/token-normalize.ts:15-17 | three strings form a triple, and their join is the three with '.' between them |
| TokenNormalization.OtherValuesStringified | Front/listedecourses-front/src/api/token-normalize.ts:1-20 | every value no earlier branch takes, including a parsed array of another shape, is written as JavaScript's `String` writes it |
| TokenNormalization.NormalizeIdempotentOnJoined | Front/listedecourses-front/src/api/token-normalize.ts:1-20 | normalising the token built from three dot-free parts gives it back |
| TokenNormalization.PairIsWrittenWithComma | Front/listedecourses-front/src/api/token-normalize.ts:19 | worked example, not a general property (that is `OtherValuesStringified`): an array of two strings is written with ',' between its elements |

## Left out

- In-place updates: the source mutates entities it has loaded and writes them back. The
  model computes the new value and writes it to the store, since no loaded entity is
  shared. Aliasing between loaded objects is therefore not modelled.
- The store is a map from id to document plus the insertion order. MongoDB's filters are
  not modelled: an id that is not a valid ObjectId, or an empty id, which throws. Ids are
  strings, and store-assigned ids are a parameter (`newId`).
- The services assume the store is keyed by id (`StoredListsWellFormed`,
  `StoredPlatsWellFormed`, `StoredUsersWellFormed`). Stored lists also have distinct
  item ids. Every write in the model keeps this invariant. Documents written by other
  means are not covered.
- Null collections in stored documents (`Items`, `DishIds`, `Ingredients`) are not
  modelled. They are always present.
- The culture-aware comparer used by the sort is an abstract `leq`. Its total-preorder
  property is assumed only in the lemmas that need it.
- Case-insensitive comparison upper-cases ASCII and Latin-1 letters only. Full Unicode
  case folding is not modelled.
- Quantities are exact reals. Floating-point rounding of `double` sums is not modelled.
- Paging.PagedResult.TotalPages: uses the exact integer ceiling. It does not model the
  `double` division or the `int` cast overflow of very large counts.
- `IItemCheckService`, logging, `async`/`CancellationToken` and HTTP routing are not part
  of this model.
- Several inputs are parameters rather than modelled:
  - clock readings (`DateTime.UtcNow`, `Date.now()`);
  - `Activity.Current`;
  - `Guid.NewGuid()`;
  - BCrypt hashing and verification;
  - the `[EmailAddress]` syntax check;
  - `atob`;
  - `JSON.parse`.
- Token signing and serialisation (`WriteToken`) are not modelled, apart from its refusal
  of a key under 256 bits. Neither is the bearer handler's signature and lifetime
  validation.
- The registered claims the bearer handler adds (iss, aud, nbf, exp) are assumed to
  follow the token's own claims. `Authentication.LoginThenMe` takes them as a suffix.
- Instants are counted in 100-nanosecond ticks, as `DateTime` does.
- Tokens.Generate: the overflow error of `AddMinutes` is modelled with no parameter name.
  The short-key refusal is one argument error with a fixed message; the identity
  library's own messages for keys under 128 and under 256 bits are not modelled.
- ClientTokens.IsExpired: a non-integer or non-numeric `exp` in the payload is not
  modelled. `exp` is an optional integer.
- ClientTokens.ParseJwt: its contract states only the missing-dot case. Other failures
  come from the `atob` and `JSON.parse` parameters.
- The validation-problem details of `ModelState` are not modelled. An invalid body yields
  the bare `ValidationProblem` reply.
- The `[Required]`, `[MinLength]` and `[Range]` annotations on `JwtSettings` are not
  checked by the model. Settings are taken as configured; `Tokens.ValidatedKeySigns`
  states what the key minimum guarantees.
- ErrorHandling.Invoke: models a response body that is written once. It does not model
  a response that has already started.
