# Bulk request reconciliation for Django REST framework, in Dafny

This project models the core of django-rest-framework-bulk. That extension lets one
request create, update or delete many records, and reports on each record in turn.
The model covers five pieces:

- **Tolerant list validation** (`Serializers`). The list serializer walks the
  submitted list. It records one error map per position, where `{}` means success.
  It collects the validated values of the successful items only. A non-list body, or
  an empty list where empty lists are refused, is a whole-request error.
- **Representation filtering and memoised state** on the serializer. This covers
  `is_valid`, `data` and `save`: the class `EasyBulkListSerializer` holds
  `_validated_data`, `_errors` and `_data` as optional fields.
- **Identity-matched bulk update** (`BulkListSerializer.update`). Validated records
  are keyed by the lookup field. Falsy or class keys are refused. Every key must be
  found before any object is touched. Each matched object is then updated once.
- **The tolerant create and update handlers** (`Mixins`). They build a 201, 200 or
  207 multi-status reply, and they dispatch between bulk and single-record paths.
  They pair each success with the next unconsumed data item.
- **Bulk destroy** (`Mixins`, `IdsQuery`). The `ids` query pattern is checked and
  the value split on commas. The destroy guard refuses when filtering returned the
  very same queryset object.

Records are maps from field names to values (`Value` is null, a boolean, an integer,
a string or a class object). Field validation, creation, update and representation
of one record belong to the host framework. They appear as function fields of
`ChildSerializer`. An "exception" is a value of the `Exception` datatype, returned
in `Result` or `Outcome`. Each handler also returns the calls it made to
`child.create` or `child.update`, so "nothing was written before the refusal" is
stated in its contract.

Files:

- `bulk_types.dfy`: values, error details, responses and constants.
- `positions.dfy`: counting successes before a position (`Rank`) and dropping the
  failed positions (`Drop`).
- `serializers.dfy`: the serializer side.
- `ids_query.dfy`: the `^\d+(,\d+)*$` pattern, `split(',')` and `join`.
- `mixins.dfy`: the views.

Behaviour of the code that the lemmas make explicit:

- **Multi-status resources in queryset order.** In an update answered with 207, the
  k-th successful position gets the k-th *updated object*. The objects come in
  queryset order, not input order (`Mixins.UpdateMultiStatusResources`). So a
  success's `resource` can describe a different record than the one submitted at
  that position.
- **Repeated keys.** When two valid records carry the same key, the later one wins
  and only one update happens. There are then fewer updated objects than successes.
  In a 207 reply some valid item's record carries `resource: None`; in a 200 reply
  the list of representations is shorter than the list of successes
  (`Mixins.DuplicateKeysLeaveSuccessEmpty`).
- **Destroy with pass-through filters.** With no filter backends, or only backends
  that return the queryset they were given, the bulk destroy always answers 400
  (`Mixins.EntityStore.BulkDestroy`, `Mixins.EntityStore.EasyBulkDestroy`).
- **Empty list with `allow_empty` off.** This raises a shape error. With
  `raise_exception` false, `is_valid` leaves `_validated_data` unset. The following
  `save` then fails the host framework's assertion (`AssertionFailed`). So
  `build_multi_status_response` only ever receives the index-aligned list, never a
  dict.

## Model

| member | source | states |
|---|---|---|
| Serializers.RestoreLookupKey | rest_framework_bulk/serializers.py:21-38 | the lookup field is set to the submitted value (or `empty`) exactly when the root is bulk, the field name is non-empty and the method is PUT or PATCH; otherwise the record is unchanged; every other key keeps its value |
| Serializers.ValidateList | rest_framework_bulk/serializers.py:138-185 | the body is checked item by item exactly when it is a list that is non-empty or allowed empty, giving one error entry per item; the nested field is skipped exactly for a refused empty list under a partial parent; a shape error carries one message under `non_field_errors` |
| Serializers.ItemOutcome | rest_framework_bulk/serializers.py:166-183 | outside `create`, an item lacking the lookup field gets the "This field is required." error; a valid item carries the lookup field where it is required and passed field validation |
| Serializers.ChildRunValidation | rest_framework_bulk/serializers.py:21-38 | field errors are reported without running `validate`; otherwise `validate` receives the field-validated value with the lookup field set to the submitted value (or `empty`) for a bulk PUT or PATCH, and the value unchanged otherwise |
| Serializers.ValidationErrorsAligned | rest_framework_bulk/serializers.py:145-185 | a non-list body gives a `not_a_list` error, a refused empty list gives SkipField (parent and partial) or an `empty` error, with no per-item work; otherwise one error entry per item, `{}` exactly when the item validated, the item's own errors when it did not, and `{id: ["This field is required."]}` for an item lacking the lookup field outside `create` |
| Serializers.ValidatedValuesAligned | rest_framework_bulk/serializers.py:166-183 | the validated values are as many as the empty error entries; the valid item at position i is the Rank(i)-th validated value, so they appear in input order and only successes appear |
| Serializers.AnyErrorIffInvalid | rest_framework_bulk/serializers.py:166-185 | a list passing the shape checks is checked item by item, and some error entry is non-empty exactly when some item is invalid |
| Serializers.SuccessesLength | rest_framework_bulk/serializers.py:166-183 | the successes collected are exactly as many as the empty error entries |
| Serializers.SuccessesAt | rest_framework_bulk/serializers.py:178-183 | a success at position i lands at index Rank(i) of the collected values |
| Serializers.EasyBulkListSerializer.ToInternalValue | rest_framework_bulk/serializers.py:138-185 | the loop appends one error entry per item and a validated value per success; its result equals the list-validation specification |
| Serializers.EasyBulkListSerializer.IsValid | rest_framework_bulk/serializers.py:84-112 | the first call validates and records the value and the errors (full index-aligned list when any item failed, `[]` otherwise, the error dict for a shape error); with raise_exception the validated data becomes `[]` and the errors are raised; a later call does not validate again; the result is true exactly when no error is recorded |
| Serializers.FreshData | rest_framework_bulk/serializers.py:216-222 | with no errors recorded, or only falsy ones, the fresh representation is the element-wise representation of the instance, or of the validated data when there is no instance; with errors and `allow_errors`, the same source with the failed positions dropped; with errors and no `allow_errors`, the representation of the initial list (nothing for a non-list body) |
| Serializers.EasyBulkListSerializer.Data | rest_framework_bulk/serializers.py:204-224 | refused before validation; otherwise computed once from the instance, the validated data or the initial data, as the errors and `allow_errors` permit, then memoised |
| Serializers.Represent | rest_framework_bulk/serializers.py:187-202 | never more representations than objects, and exactly one per object when no errors are recorded |
| Serializers.RepresentLength | rest_framework_bulk/serializers.py:195-202 | with errors recorded, the representation has one entry per position the errors do not mark |
| Serializers.RepresentKeepsSurvivor | rest_framework_bulk/serializers.py:195-202 | an unmarked position is represented, through the child, at the index counting the unmarked positions before it (relative order kept) |
| Serializers.RepresentWithoutErrors | rest_framework_bulk/serializers.py:195-202 | with no errors recorded, or only errors Python reads as false (such as `_errors` reset to `[]`), the representation is the element-wise child representation |
| Positions.DropAt | rest_framework_bulk/serializers.py:197-198 | after dropping the marked positions, unmarked position i sits at index KeptBefore(i) |
| Positions.DropLength | rest_framework_bulk/serializers.py:197-198 | dropping the marked positions leaves as many elements as there are unmarked positions |
| Positions.DropNothing | rest_framework_bulk/serializers.py:197-198 | when nothing is marked, the drop is the identity |
| Positions.KeptBeforePerItem | rest_framework_bulk/serializers.py:197 | for a per-item error list, the unmarked positions before n are its successes before n |
| Serializers.ById | rest_framework_bulk/serializers.py:47-50 | the by-id mapping has at most one key per record |
| Serializers.PlanUpdate | rest_framework_bulk/serializers.py:44-64 | the update is refused for a missing key exactly when some record lacks the lookup field; an accepted plan writes one pair per distinct key |
| Serializers.LaterRecordWins | rest_framework_bulk/serializers.py:47-50 | the record kept for a lookup value is the last record carrying that value, with the lookup field popped |
| Serializers.ByIdKeys | rest_framework_bulk/serializers.py:47-50 | the keys of the by-id mapping are exactly the records' lookup values |
| Serializers.ByIdPopped | rest_framework_bulk/serializers.py:47-50 | no record in the by-id mapping keeps its lookup field |
| Serializers.UpdateRejections | rest_framework_bulk/serializers.py:47-64 | a record without the lookup field refuses the update (KeyError), and so does any falsy or class key (ValidationError) |
| Serializers.UpdateMatchesEveryKey | rest_framework_bulk/serializers.py:59-76 | when the update proceeds, over stored objects with distinct ids, every requested key is matched by exactly one object, and each object is paired with the record that key selects |
| Serializers.UpdateProceedsIffAllStored | rest_framework_bulk/serializers.py:59-64 | with distinct stored lookup values and every key present and usable, the update proceeds exactly when every key names a stored object, and is refused as "Could not find all objects to update." exactly when some key names none |
| Serializers.CountMatchFindsEveryKey | rest_framework_bulk/serializers.py:59-64 | as many distinct matched objects as keys means every key names a stored object |
| Serializers.EveryKeyStoredCountMatch | rest_framework_bulk/serializers.py:59-64 | when every key names a stored object (lookup values distinct), the matches are exactly as many as the keys |
| Serializers.InMatched | rest_framework_bulk/serializers.py:59-61 | a stored object whose lookup value is a key is among the matched objects |
| Serializers.Matched | rest_framework_bulk/serializers.py:59-61 | the objects matched are stored objects whose lookup value is one of the keys |
| Serializers.EasyBulkListSerializer.Update | rest_framework_bulk/serializers.py:44-76 | a refused plan raises its error and updates nothing; otherwise each matched object is updated once, in queryset order, and the result has one entry per matched object |
| Serializers.EasyBulkListSerializer.UpdateEach | rest_framework_bulk/serializers.py:66-76 | each pair is handed to child.update once, in order, and the results are collected in that order |
| Serializers.EasyBulkListSerializer.Save | rest_framework_bulk/mixins.py:84-88 | refused before validation; without an instance, every validated record is created once, in order; with an instance, the bulk update runs and, on success, its result becomes the instance |
| Serializers.EasyBulkListSerializer.constructor | rest_framework_bulk/serializers.py:79-82 | a new serializer records its child, settings, `allow_errors` (true by default in the handlers) and body, with nothing validated or memoised |
| IdsQuery.MatchesSplit | rest_framework_bulk/mixins.py:192-195 | the pattern accepts exactly the strings whose comma pieces are all non-empty digit runs |
| IdsQuery.MatchesIds | rest_framework_bulk/mixins.py:192 | an accepted value is non-empty and starts and ends with a digit |
| IdsQuery.MatchesShape | rest_framework_bulk/mixins.py:192 | the pattern accepts exactly the non-empty strings of digits and commas that start and end with a digit and have no two commas in a row |
| IdsQuery.InRunSplit | rest_framework_bulk/mixins.py:192 | after a digit, the rest is accepted exactly when its first piece is all digits and every later piece is a digit run |
| IdsQuery.InRunShape | rest_framework_bulk/mixins.py:192 | after a digit, the rest is accepted exactly when it is empty, or it is digits and single commas ending in a digit |
| IdsQuery.JoinSplit | rest_framework_bulk/mixins.py:195 | joining the pieces of any string with commas gives the string back |
| IdsQuery.SplitCommaFree | rest_framework_bulk/mixins.py:195 | no piece of a split contains a comma |
| IdsQuery.Split | rest_framework_bulk/mixins.py:195 | a split always yields at least one piece |
| IdsQuery.AcceptedSplitsIntoIds | rest_framework_bulk/mixins.py:191-195 | an accepted value splits into digit runs that join back to it |
| IdsQuery.ParseIds | rest_framework_bulk/mixins.py:189-195 | an empty value gives no ids; a non-empty value the pattern refuses is an error; an accepted one gives its pieces |
| IdsQuery.ParsedIdsAreDigitRuns | rest_framework_bulk/mixins.py:189-195 | the ids taken from an accepted value are at least one digit run each, and join back to the value |
| Mixins.BuildMultiStatusResponse | rest_framework_bulk/mixins.py:207-220 | one record per error entry, in order, and the data loses exactly its first min(#successes, len(data)) items |
| Mixins.MultiStatusRecords | rest_framework_bulk/mixins.py:207-220 | the reply has one record per error entry, and record j is the record for entry j |
| Mixins.MultiStatusFailures | rest_framework_bulk/mixins.py:211-213 | record j is a failure exactly when entry j is non-empty, and then it carries that entry |
| Mixins.MultiStatusConsumesInOrder | rest_framework_bulk/mixins.py:215-216 | a later success holds a data item only if an earlier success does, and holds a later one; a success whose rank reaches past the data carries None |
| Mixins.MultiStatusUsesEveryItem | rest_framework_bulk/mixins.py:215-216 | each of the first min(#successes, len(data)) data items is given to the success of that rank |
| Positions.SuccessRanksIncrease | rest_framework_bulk/mixins.py:215-216 | later successes have strictly higher ranks, so no two take the same data item |
| Positions.EveryRankTaken | rest_framework_bulk/mixins.py:215-216 | every rank below the number of successes belongs to some success |
| Mixins.ValidateAndReset | rest_framework_bulk/mixins.py:133-141 | validation without raising; a SkipField is reported; otherwise `_errors` ends as `[]`, the errors kept aside are the field dict of a shape error, or the index-aligned list when some item failed and `[]` when none did, and the validated data is set exactly when the shape checks passed |
| Mixins.SaveAndAnswer | rest_framework_bulk/mixins.py:143-150 | without validated data the save fails the assertion and nothing is written; otherwise a create creates every validated record, and an update writes the plan's pairs or raises its refusal; after a save the answer is 207 with the multi-status records when the kept errors hold a failure, else the given status with the representations |
| Mixins.EasyBulkCreate | rest_framework_bulk/mixins.py:126-150 | the handler's answer and created records are those of the create reply: a non-list is delegated; a list is validated without raising, `_errors` reset, saved, and answered 201 or 207 |
| Mixins.CreateStatusChoice | rest_framework_bulk/mixins.py:127-150 | a list passing the shape checks is answered; 207 exactly when some item is invalid, 201 exactly when all are valid; only the valid items are created, in input order; a refused empty list ends in the failed save |
| Mixins.CreateReconciles | rest_framework_bulk/mixins.py:136-150 | in a 207 create reply, record i carries item i's own errors when it is invalid, and otherwise the representation of the object created from item i |
| Mixins.BulkCreate | rest_framework_bulk/mixins.py:28-38 | a non-list is delegated; a list is validated raising any errors, then every record is created and answered 201 |
| Mixins.StrictCreateAllOrNothing | rest_framework_bulk/mixins.py:35-38 | the strict create answers exactly when the shape checks pass and every item is valid, and then creates every item; otherwise it creates nothing |
| Mixins.IsNotAList | rest_framework_bulk/mixins.py:173 | the not-a-list error of any body type is escalated; the empty-list error is not |
| Mixins.EasyBulkUpdate | rest_framework_bulk/mixins.py:155-184 | the handler's answer and writes are those of the update reply: a `not_a_list` error is raised; otherwise `_errors` is reset, the update runs and the answer is 200 or 207 |
| Mixins.UpdateRefusals | rest_framework_bulk/mixins.py:165-177 | a non-list body raises the `not_a_list` detail; a refused empty list ends in the failed save; a refused update plan raises its error; none of them writes anything |
| Mixins.UpdateStatusChoice | rest_framework_bulk/mixins.py:176-184 | once the plan is accepted, the reply is 207 exactly when some item is invalid and 200 exactly when all are valid, and the writes are the plan's pairs |
| Mixins.UpdateMultiStatusResources | rest_framework_bulk/mixins.py:176-182 | in a 207 update reply, a failed item's record carries its errors, and the success of rank k carries the k-th updated object (queryset order), or None past them |
| Mixins.DuplicateKeysLeaveSuccessEmpty | rest_framework_bulk/serializers.py:47-50 | two valid items with the same key leave fewer updated objects than successes; a 207 reply then gives some valid item's record no resource, and a 200 reply has fewer representations than successes |
| Mixins.FewerWritesThanSuccesses | rest_framework_bulk/mixins.py:176-184 | with an accepted plan writing fewer objects than there are successes, a 207 reply gives some valid item's record no resource and a 200 reply has fewer representations than successes |
| Mixins.AnswerBeyondData | rest_framework_bulk/mixins.py:207-220 | a multi-status answer over fewer representations than successes gives the success of the last rank no resource |
| Serializers.ByIdShrinksOnCollision | rest_framework_bulk/serializers.py:47-50 | two records sharing a lookup value give fewer keys than records |
| Mixins.FilterQueryset | rest_framework_bulk/mixins.py:106-108 | the filtered objects are the backends applied in order; the result is the same queryset object exactly when every backend passed it through, otherwise a new one |
| Mixins.ApplyBackendsSubset | rest_framework_bulk/mixins.py:196-198 | filtering keeps only objects of its input |
| Mixins.Keep | rest_framework_bulk/mixins.py:198 | a narrowing backend keeps exactly the input objects it accepts |
| Mixins.EntityStore.PerformDestroy | rest_framework_bulk/mixins.py:116-117 | one object is deleted |
| Mixins.EntityStore.PerformBulkDestroy | rest_framework_bulk/mixins.py:119-121 | each object is deleted once, in iteration order |
| Mixins.AllowBulkDestroy | rest_framework_bulk/mixins.py:96-103 | the destroy is refused only when the filtered queryset is the queryset itself, so it holds the same objects |
| Mixins.EntityStore.BulkDestroy | rest_framework_bulk/mixins.py:96-114 | 400 and nothing deleted when filtering returned the queryset itself; otherwise the filtered objects are deleted and the answer is 204 |
| Mixins.EntityStore.EasyBulkDestroy | rest_framework_bulk/mixins.py:188-204 | a present, non-empty `ids` that the pattern refuses raises "Invalid ids" before any filtering or deletion; otherwise the objects whose id is listed are filtered and deleted under the same guard |
| Mixins.SelectIds | rest_framework_bulk/mixins.py:196 | the selection holds exactly the stored objects whose integer id one of the pieces spells |
| Mixins.NoIdsSelectsNothing | rest_framework_bulk/mixins.py:189-196 | without `ids` the selection is empty, so nothing is deleted whatever the backends do |
| Mixins.DestroyDeletesOnlyListed | rest_framework_bulk/mixins.py:196-202 | whatever the destroy deletes is stored and listed in `ids` |

## Left out

- Validation of one record is a pair of parameters. `ChildSerializer.fieldsToInternal`
  is the fields' own `to_internal_value` (field coercion and field validators).
  `ChildSerializer.validate` is `run_validators` followed by `validate()`, and it
  receives the value after the lookup field is restored, as the child's
  `run_validation` calls it (`Serializers.ChildRunValidation`). The child's
  `validate_empty_values` is left out. The list serializer's own `run_validation` is
  modelled on its default path: the list-level validators accept and the list-level
  `validate` returns the value.
- A JSON `null` body is not modelled. The list serializer's `validate_empty_values`
  (rest_framework_bulk/serializers.py:120-122) refuses it before `to_internal_value`
  runs, so the `not_a_list` error never arises, `_validated_data` stays unset, and
  the update handler ends in the failed `save` assertion. In the model such a body
  can only be written as `NonList("NoneType")`, for which the update handler raises
  the `not_a_list` ValidationError instead. (The create handler delegates it in both.)
- Serializers.ById: keys are `Value`s compared structurally, so `Int(1)` and
  `Bool(true)` (likewise `Int(0)` and `Bool(false)`) are two keys. A Python dict
  merges `1` and `True` into one key (rest_framework_bulk/serializers.py:47-50), so a
  PUT listing ids `1` and `true` with object 1 stored updates object 1 once, with
  the second record; the model counts two keys and refuses with `NotAllFound`.
  `Serializers.ByIdKeys`, `Serializers.LaterRecordWins`,
  `Serializers.ByIdShrinksOnCollision` and `Serializers.PlanUpdate` are stated for
  structural key equality.
- Serializers.ChildRunValidation: the root of the serializer tree is always taken to
  be the bulk list serializer, so the lookup field is restored under PUT and PATCH
  whatever the list is nested in. In the source the restore needs `self.root` to be
  a `BulkListSerializer` (rest_framework_bulk/serializers.py:30), which fails for a
  bulk list nested in a non-bulk parent. The handlers modelled here always build a
  top-level list serializer, where the two agree.
- Mixins.FilterBackend: backends are modelled as order-preserving filters of their
  input (`Narrow`) or as the identity (`PassThrough`). A backend that reorders
  (`order_by`) or returns other objects is not expressible, so
  `Mixins.ApplyBackendsSubset`, `Mixins.DestroyDeletesOnlyListed` and the deletion
  order stated by `Mixins.EntityStore.BulkDestroy` and
  `Mixins.EntityStore.EasyBulkDestroy` hold for such backends only.
- The per-item lookup `self.instance.get(...)` and the binding of `child.instance`
  and `child.initial_data` are not modelled (rest_framework_bulk/serializers.py:173-176).
  The uncaught `DoesNotExist` is an ORM exception.
- The ORM is modelled on values. A queryset is a sequence of records. `filter(...__in=...)`
  is a filter over the sequence, and `count()` is its length. `delete()` is an
  entry in `EntityStore.deleted`. Queryset identity is reference equality on
  `QuerySet`.
- HTML form input (`html.parse_html_list`) is not modelled. Neither is the
  error-detail formatting of `as_serializer_error` or `_get_full_details`: an error
  already has message and code. `Response` and `ReturnList` become a status plus
  payload. `get_object` and permissions are left out.
- Serializer.get_initial on a non-list body is modelled as `[]`. The framework would
  represent whatever iterating that body yields; the handlers never read it.
- The `ids` pattern uses ASCII digits and a `$` that does not match before a
  trailing newline. In Python, `\d` also matches other Unicode digits, and `$` also
  matches before a final `\n`.
- An error dict without a `non_field_errors` key in the update handler would crash
  with a TypeError. The model's whole-request errors always carry that key
  (`Mixins.IsNotAList`).
- A serializer context with no view is not modelled; every model serializer has a
  view (`Serializers.View`).
- `BulkUpdateModelMixin.bulk_update` and `partial_bulk_update`, the non-tolerant
  update handler, are not modelled. The tolerant `EasyBulkUpdate` covers the
  update path, with `partial` as a parameter.
- `BulkCreate` is modelled over the tolerant list serializer. With
  `raise_exception` true, that serializer raises whenever any item failed, as the
  default list validation does.
- Serializers.Matched: compares a stored lookup value with a key exactly. Django's
  `__in` filter first converts each key to the field's type, so a submitted `"5"`
  matches a stored id 5; the source then passes `all_validated_data_by_id.get(5)`,
  which is `None`, to `child.update` (rest_framework_bulk/serializers.py:59-74). For
  that input the model refuses the update with `NotAllFound`, and
  `Serializers.UpdateMatchesEveryKey` and `Serializers.UpdateProceedsIffAllStored`
  hold only under exact comparison.
- List items that are not objects (null, numbers, strings, nested lists) are not
  modelled: `Body.ListBody` holds records only. In the source, outside the `create`
  action, `id_attr not in item` raises TypeError for a null or numeric item. For a
  string item it is a substring test: a string containing `id_attr` passes it and
  then raises TypeError at `item[id_attr]`, and any other string gets the
  per-position "This field is required." error
  (rest_framework_bulk/serializers.py:170-173). Under `create` such an item gets a
  per-position error from the child serializer.
- Stored querysets with repeated ids are allowed in `PlanUpdate`, but
  `Serializers.UpdateMatchesEveryKey` is stated only for distinct ids, which is
  what a lookup field on a primary or unique key guarantees.
