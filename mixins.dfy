/** The view mixins of the bulk extension: the multi-status reply, the tolerant
    create and update handlers, the strict bulk create and the guarded bulk destroy. */
module Mixins {
  import opened BulkTypes
  import opened Positions
  import opened Serializers
  import opened IdsQuery

  function Min(a: nat, b: nat): nat {
    if a <= b then a else b
  }

  // ---------------------------------------------------------------------------
  // build_multi_status_response

  /** The record for error entry j: a failure carrying that entry, or a success carrying
      the data item that the successes before it have not consumed, if any is left. */
  function RecordFor(data: seq<Record>, errs: seq<ErrorDetail>, j: nat): StatusRecord
    requires j < |errs|
  {
    if errs[j] != map[] then Failed(errs[j])
    else Succeeded(if Rank(errs, j) < |data| then Some(data[Rank(errs, j)]) else None)
  }

  /** The records for the first i error entries. */
  function RecordsUpTo(data: seq<Record>, errs: seq<ErrorDetail>, i: nat): (rs: seq<StatusRecord>)
    requires i <= |errs|
    ensures |rs| == i
    ensures forall j :: 0 <= j < i ==> rs[j] == RecordFor(data, errs, j)
  {
    seq(i, j requires 0 <= j < i => RecordFor(data, errs, j))
  }

  function MultiStatusRecords(data: seq<Record>, errs: seq<ErrorDetail>): (rs: seq<StatusRecord>)
    ensures |rs| == |errs|
    ensures forall j :: 0 <= j < |errs| ==> rs[j] == RecordFor(data, errs, j)
  {
    RecordsUpTo(data, errs, |errs|)
  }

  /** Walks the error list once; each success takes the front of what is left of `data`.
      Also returns what is left of `data` afterwards. */
  method BuildMultiStatusResponse(data: seq<Record>, errors: seq<ErrorDetail>)
    returns (response: seq<StatusRecord>, remaining: seq<Record>)
    ensures response == MultiStatusRecords(data, errors)
    ensures remaining == data[Min(CountKept(errors), |data|)..]
  {
    response := [];
    remaining := data;
    ghost var k := 0;
    var i := 0;
    while i < |errors|
      invariant 0 <= i <= |errors|
      invariant k == Rank(errors, i)
      invariant response == RecordsUpTo(data, errors, i)
      invariant remaining == data[Min(k, |data|)..]
    {
      var error := errors[i];
      var record: StatusRecord;
      RankStep(errors, i);
      if error != map[] {
        record := Failed(error);
      } else {
        PopFront(data, k);
        if |remaining| > 0 {
          record := Succeeded(Some(remaining[0]));
          remaining := remaining[1..];
        } else {
          record := Succeeded(None);
        }
        k := k + 1;
      }
      RecordForAt(data, errors, i, k, record);
      response := response + [record];
      i := i + 1;
    }
    RankWhole(errors);
  }

  /** `data.pop(0)` on what is left after k successes: the front is item k, and what
      remains is what is left after k + 1; with nothing left, nothing changes. */
  lemma {:induction false} PopFront(data: seq<Record>, k: nat)
    ensures var rest := data[Min(k, |data|)..];
            && (|rest| > 0 <==> k < |data|)
            && (|rest| > 0 ==> rest[0] == data[k] && rest[1..] == data[Min(k + 1, |data|)..])
            && (|rest| == 0 ==> data[Min(k + 1, |data|)..] == rest)
  {
  }

  /** One step of the walk: the record built at position i is the record for i, so the
      records so far grow by it. */
  lemma {:induction false} RecordForAt(data: seq<Record>, errs: seq<ErrorDetail>, i: nat, k: nat, record: StatusRecord)
    requires i < |errs|
    requires k == Rank(errs, i) + (if errs[i] == map[] then 1 else 0)
    requires errs[i] != map[] ==> record == Failed(errs[i])
    requires errs[i] == map[] ==>
               record == Succeeded(if Rank(errs, i) < |data| then Some(data[Rank(errs, i)]) else None)
    ensures record == RecordFor(data, errs, i)
    ensures RecordsUpTo(data, errs, i) + [record] == RecordsUpTo(data, errs, i + 1)
  {
  }

  /** One record per error entry, in order: position j failed exactly when its entry is
      non-empty, and a failed record carries that entry. */
  lemma {:induction false} MultiStatusFailures(data: seq<Record>, errs: seq<ErrorDetail>, j: nat)
    requires j < |errs|
    ensures MultiStatusRecords(data, errs)[j].Failed? <==> errs[j] != map[]
    ensures errs[j] != map[] ==> MultiStatusRecords(data, errs)[j] == Failed(errs[j])
  {
  }

  /** The k-th success takes the k-th data item; once data runs out, successes carry none.
      Successes consume the data strictly in order, never the same item twice. */
  lemma {:induction false} MultiStatusConsumesInOrder(data: seq<Record>, errs: seq<ErrorDetail>, i: nat, j: nat)
    requires i < j < |errs| && errs[i] == map[] && errs[j] == map[]
    ensures MultiStatusRecords(data, errs)[j].resource.Some? ==>
              MultiStatusRecords(data, errs)[i].resource.Some? &&
              Rank(errs, i) < Rank(errs, j)
    ensures Rank(errs, j) >= |data| <==> MultiStatusRecords(data, errs)[j] == Succeeded(None)
  {
    SuccessRanksIncrease(errs, i, j);
  }

  /** Every data item that the successes can reach is handed to exactly one success. */
  lemma {:induction false} MultiStatusUsesEveryItem(data: seq<Record>, errs: seq<ErrorDetail>, k: nat)
    requires k < Min(CountKept(errs), |data|)
    ensures exists j :: 0 <= j < |errs| && errs[j] == map[] && Rank(errs, j) == k &&
                        MultiStatusRecords(data, errs)[j] == Succeeded(Some(data[k]))
  {
    EveryRankTaken(errs, k);
    var j :| 0 <= j < |errs| && errs[j] == map[] && Rank(errs, j) == k;
    assert MultiStatusRecords(data, errs)[j] == Succeeded(Some(data[k]));
  }

  // ---------------------------------------------------------------------------
  // EasyBulkCreateModelMixin.create and BulkCreateModelMixin.create

  /** The serializer options the handlers build: top level, so never nested. */
  function HandlerSettings(allowEmpty: bool, partial: bool): ListSettings {
    ListSettings(allowEmpty, false, partial)
  }

  /** The opening both tolerant handlers share: `is_valid(raise_exception=False)`, then
      any recorded errors are kept aside and `_errors` is reset to `[]` so that the save
      and the representation see no errors. `skip` reports the SkipField raised. */
  method ValidateAndReset(serializer: EasyBulkListSerializer) returns (skip: bool, errors: Errors)
    requires serializer.Valid() && serializer.validatedData.None?
    modifies serializer`validatedData, serializer`errors
    ensures serializer.Valid()
    ensures var v := ValidateList(serializer.initialData, serializer.settings, serializer.child, serializer.view);
            && (skip <==> v.Skip?)
            && (!skip ==> serializer.errors == Some(PerItem([])))
            && (v.ShapeError? ==> serializer.validatedData == None && errors == Fields(v.detail))
            && (v.Checked? ==>
                  serializer.validatedData == Some(v.ret) &&
                  errors == if AnyError(v.errors) then PerItem(v.errors) else PerItem([]))
  {
    ghost var v := ValidateList(serializer.initialData, serializer.settings, serializer.child, serializer.view);
    assert v.ShapeError? ==> NonFieldErrorsKey in v.detail;
    var valid := serializer.IsValid(false);
    if valid == Err(SkipField) {
      return true, PerItem([]);
    }
    errors := PerItem([]);
    if ErrorsTruthy(serializer.errors.value) {
      errors := serializer.errors.value;
      serializer.errors := Some(PerItem([]));
    }
    skip := false;
  }

  /** The answer after a successful save: 207 with one multi-status record per error
      entry when some item failed, else `okStatus` with the representations. */
  function Answer(reps: seq<Record>, entries: seq<ErrorDetail>, okStatus: int): Outcome {
    if AnyError(entries) then Returned(Response(HTTP_207_MULTI_STATUS, MultiStatus(MultiStatusRecords(reps, entries))))
    else Returned(Response(okStatus, Records(reps)))
  }

  /** The closing both tolerant handlers share: the save (perform_bulk_create or
      perform_bulk_update), then the representation, answered against the errors kept
      aside: the multi-status reply when there were any, else `okStatus`. */
  method SaveAndAnswer(serializer: EasyBulkListSerializer, errors: Errors, okStatus: int) returns (r: Outcome)
    requires serializer.Valid() && serializer.errors == Some(PerItem([])) && serializer.data.None?
    requires serializer.validatedData.Some? ==> errors == PerItem([]) || (errors.PerItem? && AnyError(errors.entries))
    modifies serializer`instance, serializer`createCalls, serializer`updateCalls, serializer`data
    ensures serializer.validatedData.None? ==>
              r == Raise(AssertionFailed) &&
              serializer.createCalls == old(serializer.createCalls) && serializer.updateCalls == old(serializer.updateCalls)
    ensures serializer.validatedData.Some? && old(serializer.instance).None? ==>
              && serializer.createCalls == old(serializer.createCalls) + serializer.validatedData.value
              && serializer.updateCalls == old(serializer.updateCalls)
              && r == Answer(MapRecords(serializer.child.represent, MapRecords(serializer.child.create, serializer.validatedData.value)),
                             errors.entries, okStatus)
    ensures serializer.validatedData.Some? && old(serializer.instance).Some? ==>
              serializer.createCalls == old(serializer.createCalls) &&
              match PlanUpdate(old(serializer.instance).value, serializer.validatedData.value, serializer.child.idAttr)
              case Plan(pairs) =>
                serializer.updateCalls == old(serializer.updateCalls) + pairs &&
                r == Answer(MapRecords(serializer.child.represent, ApplyUpdates(serializer.child, pairs)), errors.entries, okStatus)
              case failure =>
                serializer.updateCalls == old(serializer.updateCalls) && r == Raise(PlanError(failure))
  {
    var saved := serializer.Save();
    if saved.Err? {
      return Raise(saved.exc);
    }
    var data := serializer.Data();
    RepresentWithoutErrors(serializer.child, saved.value, Some(PerItem([])));
    if ErrorsTruthy(errors) {
      var records, _ := BuildMultiStatusResponse(data.value, errors.entries);
      return Returned(Response(HTTP_207_MULTI_STATUS, MultiStatus(records)));
    }
    return Returned(Response(okStatus, Records(data.value)));
  }

  /** What the tolerant create answers, and the records handed to child.create. */
  function CreateReply(child: ChildSerializer, view: View, allowEmpty: bool, body: Body): (Outcome, seq<Record>) {
    match body
    case NonList(_) => (Delegated, [])
    case ListBody(_) =>
      match ValidateList(body, HandlerSettings(allowEmpty, false), child, view)
      case Skip => (Raise(SkipField), [])
      case ShapeError(_) => (Raise(AssertionFailed), [])
      case Checked(ret, entries) =>
        (Answer(MapRecords(child.represent, MapRecords(child.create, ret)), entries, HTTP_201_CREATED), ret)
  }

  /** The tolerant create. A list body is validated without raising; recorded errors are
      kept aside and `_errors` reset to `[]`; every valid record is created; the reply is
      201 with the representations, or 207 with the multi-status records when any item
      failed. Anything but a list is handed to the single-record create. */
  method EasyBulkCreate(child: ChildSerializer, view: View, allowEmpty: bool, body: Body)
    returns (r: Outcome, created: seq<Record>)
    ensures (r, created) == CreateReply(child, view, allowEmpty, body)
  {
    if !body.ListBody? {
      return Delegated, [];
    }
    var serializer := new EasyBulkListSerializer(child, view, HandlerSettings(allowEmpty, false), true, body, None);
    var skip, errors := ValidateAndReset(serializer);
    if skip {
      return Raise(SkipField), [];
    }
    ghost var v := ValidateList(body, HandlerSettings(allowEmpty, false), child, view);
    r := SaveAndAnswer(serializer, errors, HTTP_201_CREATED);
    created := serializer.createCalls;
    assert v.ShapeError? ==> r == Raise(AssertionFailed) && created == [];
    assert v.Checked? ==> created == v.ret;
    assert v.Checked? ==> r == Answer(MapRecords(child.represent, MapRecords(child.create, v.ret)), v.errors, HTTP_201_CREATED);
  }

  /** Tolerant create, end to end: a list body is answered exactly when it passes the
      shape checks; the answer is 207 exactly when some item failed, else 201; only the
      valid items are created, in input order. */
  lemma {:induction false} CreateStatusChoice(child: ChildSerializer, view: View, allowEmpty: bool, body: Body)
    ensures body.NonList? ==> CreateReply(child, view, allowEmpty, body) == (Delegated, [])
    ensures body.ListBody? && !allowEmpty && |body.items| == 0 ==>
              CreateReply(child, view, allowEmpty, body) == (Raise(AssertionFailed), [])
    ensures body.ListBody? && (allowEmpty || |body.items| > 0) ==>
              var os := Outcomes(child, view, body.items);
              && CreateReply(child, view, allowEmpty, body).1 == Successes(os)
              && CreateReply(child, view, allowEmpty, body).0.Returned?
              && (CreateReply(child, view, allowEmpty, body).0.response.status == HTTP_207_MULTI_STATUS <==>
                    exists i :: 0 <= i < |body.items| && ItemOutcome(child, view, body.items[i]).Invalid?)
              && (CreateReply(child, view, allowEmpty, body).0.response.status == HTTP_201_CREATED <==>
                    forall i :: 0 <= i < |body.items| ==> ItemOutcome(child, view, body.items[i]).Valid?)
  {
    if body.ListBody? && (allowEmpty || |body.items| > 0) {
      ValidationErrorsAligned(body, HandlerSettings(allowEmpty, false), child, view);
      var v := ValidateList(body, HandlerSettings(allowEmpty, false), child, view);
      if exists i :: 0 <= i < |body.items| && ItemOutcome(child, view, body.items[i]).Invalid? {
        var i :| 0 <= i < |body.items| && ItemOutcome(child, view, body.items[i]).Invalid?;
        assert v.errors[i] != map[];
      }
    }
  }

  /** Tolerant create, per record: in a 207 reply, record i fails with item i's own
      errors when item i is invalid, and otherwise carries the representation of the
      object created from item i's validated value. */
  lemma {:induction false} CreateReconciles(child: ChildSerializer, view: View, allowEmpty: bool, body: Body, i: nat)
    requires body.ListBody? && i < |body.items|
    requires CreateReply(child, view, allowEmpty, body).0.Returned?
    requires CreateReply(child, view, allowEmpty, body).0.response.status == HTTP_207_MULTI_STATUS
    ensures var rs := CreateReply(child, view, allowEmpty, body).0.response.payload.records;
            && |rs| == |body.items|
            && rs[i] == match ItemOutcome(child, view, body.items[i])
                        case Invalid(detail) => Failed(detail)
                        case Valid(value) => Succeeded(Some(child.represent(child.create(value))))
  {
    var settings := HandlerSettings(allowEmpty, false);
    ValidationErrorsAligned(body, settings, child, view);
    ValidatedValuesAligned(body, settings, child, view, i);
    var v := ValidateList(body, settings, child, view);
    SuccessesLength(Outcomes(child, view, body.items));
  }

  /** What the strict bulk create answers (validation raising), and what it creates. */
  function StrictCreateReply(child: ChildSerializer, view: View, allowEmpty: bool, body: Body): (Outcome, seq<Record>) {
    match body
    case NonList(_) => (Delegated, [])
    case ListBody(_) =>
      match ValidateList(body, HandlerSettings(allowEmpty, false), child, view)
      case Skip => (Raise(SkipField), [])
      case ShapeError(detail) => (Raise(ValidationError(Fields(detail))), [])
      case Checked(ret, entries) =>
        if AnyError(entries) then (Raise(ValidationError(PerItem(entries))), [])
        else (Returned(Response(HTTP_201_CREATED, Records(MapRecords(child.represent, MapRecords(child.create, ret))))), ret)
  }

  /** BulkCreateModelMixin.create: a list body is validated raising on any error, then
      every record is created and the reply is 201 with the representations. */
  method BulkCreate(child: ChildSerializer, view: View, allowEmpty: bool, body: Body)
    returns (r: Outcome, created: seq<Record>)
    ensures (r, created) == StrictCreateReply(child, view, allowEmpty, body)
  {
    if !body.ListBody? {
      return Delegated, [];
    }
    var serializer := new EasyBulkListSerializer(child, view, HandlerSettings(allowEmpty, false), true, body, None);
    ghost var v := ValidateList(body, HandlerSettings(allowEmpty, false), child, view);
    var valid := serializer.IsValid(true);
    assert v.ShapeError? ==> v.detail == EmptyListError() && NonFieldErrorsKey in v.detail;
    assert v.Skip? ==> valid == Err(SkipField);
    assert v.ShapeError? ==> valid == Err(ValidationError(Fields(v.detail)));
    assert v.Checked? && AnyError(v.errors) ==> valid == Err(ValidationError(PerItem(v.errors)));
    if valid.Err? {
      return Raise(valid.exc), [];
    }
    assert v.Checked? && !AnyError(v.errors);
    assert serializer.validatedData == Some(v.ret) && serializer.errors == Some(PerItem([]));
    // Validation passed, so the serializer holds validated data and save succeeds.
    var saved := serializer.Save();
    assert saved.Ok?;
    var data := serializer.Data();
    RepresentWithoutErrors(child, saved.value, Some(PerItem([])));
    assert data == Ok(MapRecords(child.represent, saved.value));
    assert saved.value == MapRecords(child.create, v.ret) && serializer.createCalls == v.ret;
    return Returned(Response(HTTP_201_CREATED, Records(data.value))), serializer.createCalls;
  }

  /** Strict create: nothing is created unless every item is valid, and then all are. */
  lemma {:induction false} StrictCreateAllOrNothing(child: ChildSerializer, view: View, allowEmpty: bool, body: Body)
    requires body.ListBody?
    ensures StrictCreateReply(child, view, allowEmpty, body).0.Returned? <==>
              (allowEmpty || |body.items| > 0) &&
              forall i :: 0 <= i < |body.items| ==> ItemOutcome(child, view, body.items[i]).Valid?
    ensures StrictCreateReply(child, view, allowEmpty, body).0.Returned? ==>
              StrictCreateReply(child, view, allowEmpty, body).1 == Successes(Outcomes(child, view, body.items)) &&
              |StrictCreateReply(child, view, allowEmpty, body).1| == |body.items|
    ensures !StrictCreateReply(child, view, allowEmpty, body).0.Returned? ==> StrictCreateReply(child, view, allowEmpty, body).1 == []
  {
    if allowEmpty || |body.items| > 0 {
      var os := Outcomes(child, view, body.items);
      ValidationErrorsAligned(body, HandlerSettings(allowEmpty, false), child, view);
      SuccessesLength(os);
      if exists i :: 0 <= i < |body.items| && ItemOutcome(child, view, body.items[i]).Invalid? {
        var i :| 0 <= i < |body.items| && ItemOutcome(child, view, body.items[i]).Invalid?;
        assert Entries(os)[i] != map[];
      } else {
        CountKeptAllEmpty(Entries(os));
      }
    }
  }

  lemma {:induction false} CountKeptAllEmpty(errs: seq<ErrorDetail>)
    requires forall i :: 0 <= i < |errs| ==> errs[i] == map[]
    ensures CountKept(errs) == |errs|
  {
    if |errs| > 0 {
      CountKeptAllEmpty(errs[..|errs| - 1]);
    }
  }

  // ---------------------------------------------------------------------------
  // EasyBulkUpdateModelMixin.bulk_update

  /** Whether a whole-request error is the `not_a_list` one the update escalates. */
  predicate IsNotAList(detail: ErrorDetail): (r: bool)
    ensures forall typeName :: detail == NotAListError(typeName) ==> r
    ensures detail == EmptyListError() ==> !r
  {
    NonFieldErrorsKey in detail && |detail[NonFieldErrorsKey]| > 0 && detail[NonFieldErrorsKey][0].code == "not_a_list"
  }

  /** What the tolerant update answers, and the (object, record) pairs handed to
      child.update. `queryset` is the filtered queryset the serializer is bound to. */
  function UpdateReply(child: ChildSerializer, view: View, allowEmpty: bool, partial: bool, body: Body, queryset: seq<Record>)
    : (Outcome, seq<(Record, Record)>)
  {
    match ValidateList(body, HandlerSettings(allowEmpty, partial), child, view)
    case Skip => (Raise(SkipField), [])
    case ShapeError(detail) =>
      if IsNotAList(detail) then (Raise(ValidationError(Messages([detail[NonFieldErrorsKey][0]]))), [])
      else (Raise(AssertionFailed), [])
    case Checked(ret, entries) =>
      match PlanUpdate(queryset, ret, child.idAttr)
      case Plan(pairs) => (Answer(MapRecords(child.represent, ApplyUpdates(child, pairs)), entries, HTTP_200_OK), pairs)
      case failure => (Raise(PlanError(failure)), [])
  }

  /** The tolerant update. The body is validated without raising; a `not_a_list` error
      is raised as is; otherwise recorded errors are kept aside, `_errors` reset to `[]`,
      the valid records applied to the queryset, and the reply is 200 with the updated
      representations, or 207 with the multi-status records when any item failed. */
  method EasyBulkUpdate(child: ChildSerializer, view: View, allowEmpty: bool, partial: bool, body: Body, queryset: seq<Record>)
    returns (r: Outcome, writes: seq<(Record, Record)>)
    ensures (r, writes) == UpdateReply(child, view, allowEmpty, partial, body, queryset)
  {
    var serializer := new EasyBulkListSerializer(child, view, HandlerSettings(allowEmpty, partial), true, body, Some(queryset));
    var skip, errors := ValidateAndReset(serializer);
    if skip {
      return Raise(SkipField), [];
    }
    if errors.Fields? && IsNotAList(errors.detail) {
      return Raise(ValidationError(Messages([errors.detail[NonFieldErrorsKey][0]]))), [];
    }
    ghost var v := ValidateList(body, HandlerSettings(allowEmpty, partial), child, view);
    r := SaveAndAnswer(serializer, errors, HTTP_200_OK);
    writes := serializer.updateCalls;
    assert v.ShapeError? ==> r == Raise(AssertionFailed) && writes == [];
    assert v.Checked? && PlanUpdate(queryset, v.ret, child.idAttr).Plan? ==>
             var pairs := PlanUpdate(queryset, v.ret, child.idAttr).pairs;
             writes == pairs && r == Answer(MapRecords(child.represent, ApplyUpdates(child, pairs)), v.errors, HTTP_200_OK);
  }

  /** Tolerant update, refusals: a non-list body is raised as the `not_a_list` error; a
      refused update plan raises its error; in both cases nothing is written. */
  lemma {:induction false} UpdateRefusals(child: ChildSerializer, view: View, allowEmpty: bool, partial: bool, body: Body, queryset: seq<Record>)
    ensures body.NonList? ==>
              UpdateReply(child, view, allowEmpty, partial, body, queryset) ==
                (Raise(ValidationError(Messages([ErrorMsg(NotAListMessage(body.typeName), "not_a_list")]))), [])
    ensures body.ListBody? && !allowEmpty && |body.items| == 0 ==>
              UpdateReply(child, view, allowEmpty, partial, body, queryset) == (Raise(AssertionFailed), [])
    ensures body.ListBody? && (allowEmpty || |body.items| > 0) ==>
              var plan := PlanUpdate(queryset, Successes(Outcomes(child, view, body.items)), child.idAttr);
              !plan.Plan? ==> UpdateReply(child, view, allowEmpty, partial, body, queryset) == (Raise(PlanError(plan)), [])
  {
  }

  /** Tolerant update, status: when the plan is accepted, the reply is 207 exactly when
      some item failed validation, else 200, and every matched object is written once. */
  lemma {:induction false} UpdateStatusChoice(child: ChildSerializer, view: View, allowEmpty: bool, partial: bool, body: Body, queryset: seq<Record>)
    requires body.ListBody? && (allowEmpty || |body.items| > 0)
    requires PlanUpdate(queryset, Successes(Outcomes(child, view, body.items)), child.idAttr).Plan?
    ensures var reply := UpdateReply(child, view, allowEmpty, partial, body, queryset);
            && reply.0.Returned?
            && reply.1 == PlanUpdate(queryset, Successes(Outcomes(child, view, body.items)), child.idAttr).pairs
            && (reply.0.response.status == HTTP_207_MULTI_STATUS <==>
                  exists i :: 0 <= i < |body.items| && ItemOutcome(child, view, body.items[i]).Invalid?)
            && (reply.0.response.status == HTTP_200_OK <==>
                  forall i :: 0 <= i < |body.items| ==> ItemOutcome(child, view, body.items[i]).Valid?)
  {
    var settings := HandlerSettings(allowEmpty, partial);
    AnyErrorIffInvalid(body, settings, child, view);
    var v := ValidateList(body, settings, child, view);
    var plan := PlanUpdate(queryset, v.ret, child.idAttr);
    var reps := MapRecords(child.represent, ApplyUpdates(child, plan.pairs));
    assert UpdateReply(child, view, allowEmpty, partial, body, queryset) ==
             if AnyError(v.errors) then (Returned(Response(HTTP_207_MULTI_STATUS, MultiStatus(MultiStatusRecords(reps, v.errors)))), plan.pairs)
             else (Returned(Response(HTTP_200_OK, Records(reps))), plan.pairs);
  }

  /** Tolerant update, per record: a failed item's record carries its errors; the k-th
      successful item's record carries the k-th updated object, and the updated objects
      come in queryset order, not in input order. */
  lemma {:induction false} UpdateMultiStatusResources(child: ChildSerializer, view: View, allowEmpty: bool, partial: bool, body: Body, queryset: seq<Record>, i: nat)
    requires body.ListBody? && i < |body.items|
    requires UpdateReply(child, view, allowEmpty, partial, body, queryset).0.Returned?
    requires UpdateReply(child, view, allowEmpty, partial, body, queryset).0.response.status == HTTP_207_MULTI_STATUS
    ensures var reply := UpdateReply(child, view, allowEmpty, partial, body, queryset);
            var rs := reply.0.response.payload.records;
            var errs := ValidateList(body, HandlerSettings(allowEmpty, partial), child, view).errors;
            && |rs| == |body.items|
            && (ItemOutcome(child, view, body.items[i]).Invalid? ==> rs[i] == Failed(ItemOutcome(child, view, body.items[i]).detail))
            && (ItemOutcome(child, view, body.items[i]).Valid? ==>
                  rs[i] == Succeeded(if Rank(errs, i) < |reply.1|
                                     then Some(child.represent(child.update(reply.1[Rank(errs, i)].0, reply.1[Rank(errs, i)].1)))
                                     else None))
  {
    ValidationErrorsAligned(body, HandlerSettings(allowEmpty, partial), child, view);
  }

  /** Two valid items naming the same stored object collapse into one update, so there
      are fewer updated objects than successes. In a 207 reply some valid item's record
      therefore carries no resource; in a 200 reply the representations are fewer than
      the successes. */
  lemma {:induction false} DuplicateKeysLeaveSuccessEmpty(child: ChildSerializer, view: View, allowEmpty: bool, partial: bool, body: Body, queryset: seq<Record>, i: nat, j: nat)
    requires body.ListBody? && (allowEmpty || |body.items| > 0)
    requires var ret := Successes(Outcomes(child, view, body.items));
             i < j < |ret| && AllHaveKey(ret, child.idAttr) && ret[i][child.idAttr] == ret[j][child.idAttr]
    requires UpdateReply(child, view, allowEmpty, partial, body, queryset).0.Returned?
    ensures var reply := UpdateReply(child, view, allowEmpty, partial, body, queryset);
            && |reply.1| < |Successes(Outcomes(child, view, body.items))|
            && (reply.0.response.status == HTTP_207_MULTI_STATUS ==>
                  && reply.0.response.payload.MultiStatus?
                  && exists p :: 0 <= p < |body.items| && ItemOutcome(child, view, body.items[p]).Valid? &&
                                 reply.0.response.payload.records[p] == Succeeded(None))
            && (reply.0.response.status == HTTP_200_OK ==>
                  && reply.0.response.payload.Records?
                  && |reply.0.response.payload.items| < |Successes(Outcomes(child, view, body.items))|)
  {
    var ret := Successes(Outcomes(child, view, body.items));
    ByIdShrinksOnCollision(ret, child.idAttr, i, j);
    FewerWritesThanSuccesses(child, view, allowEmpty, partial, body, queryset);
  }

  /** An accepted update plan with fewer writes than successes: a 207 reply gives some
      valid item no resource, and a 200 reply has fewer representations than successes. */
  lemma {:induction false} FewerWritesThanSuccesses(child: ChildSerializer, view: View, allowEmpty: bool, partial: bool, body: Body, queryset: seq<Record>)
    requires body.ListBody? && (allowEmpty || |body.items| > 0)
    requires PlanUpdate(queryset, Successes(Outcomes(child, view, body.items)), child.idAttr).Plan?
    requires |PlanUpdate(queryset, Successes(Outcomes(child, view, body.items)), child.idAttr).pairs| <
             |Successes(Outcomes(child, view, body.items))|
    ensures var reply := UpdateReply(child, view, allowEmpty, partial, body, queryset);
            && reply.0.Returned?
            && |reply.1| < |Successes(Outcomes(child, view, body.items))|
            && (reply.0.response.status == HTTP_207_MULTI_STATUS ==>
                  && reply.0.response.payload.MultiStatus?
                  && exists p :: 0 <= p < |body.items| && ItemOutcome(child, view, body.items[p]).Valid? &&
                                 reply.0.response.payload.records[p] == Succeeded(None))
            && (reply.0.response.status == HTTP_200_OK ==>
                  && reply.0.response.payload.Records?
                  && |reply.0.response.payload.items| < |Successes(Outcomes(child, view, body.items))|)
  {
    var settings := HandlerSettings(allowEmpty, partial);
    ValidationErrorsAligned(body, settings, child, view);
    ValidatedValuesAligned(body, settings, child, view, 0);
    var v := ValidateList(body, settings, child, view);
    var pairs := PlanUpdate(queryset, v.ret, child.idAttr).pairs;
    var reps := MapRecords(child.represent, ApplyUpdates(child, pairs));
    assert UpdateReply(child, view, allowEmpty, partial, body, queryset) == (Answer(reps, v.errors, HTTP_200_OK), pairs);
    if AnyError(v.errors) {
      AnswerBeyondData(reps, v.errors, HTTP_200_OK);
    }
  }

  /** A multi-status answer over fewer representations than successes: the success
      of the last rank carries no resource. */
  lemma {:induction false} AnswerBeyondData(reps: seq<Record>, errs: seq<ErrorDetail>, okStatus: int)
    requires AnyError(errs) && |reps| < CountKept(errs)
    ensures Answer(reps, errs, okStatus).response.payload.MultiStatus?
    ensures exists p :: 0 <= p < |errs| && errs[p] == map[] &&
                        Answer(reps, errs, okStatus).response.payload.records[p] == Succeeded(None)
  {
    EveryRankTaken(errs, CountKept(errs) - 1);
    var p :| 0 <= p < |errs| && errs[p] == map[] && Rank(errs, p) == CountKept(errs) - 1;
    assert Answer(reps, errs, okStatus).response.payload.records[p] == RecordFor(reps, errs, p);
  }

  // ---------------------------------------------------------------------------
  // BulkDestroyModelMixin and EasyBulkDestroyModelMixin.bulk_destroy

  /** A queryset object; the destroy guard compares querysets by identity. */
  class QuerySet {
    const objects: seq<Record>

    constructor (objects: seq<Record>)
      ensures this.objects == objects
    {
      this.objects := objects;
    }
  }

  /** A filter backend either hands back the very queryset it was given, or builds a
      new one holding the objects it keeps. */
  datatype FilterBackend = PassThrough | Narrow(keep: Record -> bool)

  function Keep(keep: Record -> bool, objects: seq<Record>): (r: seq<Record>)
    ensures forall o :: o in r <==> o in objects && keep(o)
  {
    if |objects| == 0 then []
    else Keep(keep, objects[..|objects| - 1]) + (if keep(objects[|objects| - 1]) then [objects[|objects| - 1]] else [])
  }

  /** The objects left after applying the backends in order. */
  function ApplyBackends(backends: seq<FilterBackend>, objects: seq<Record>): seq<Record> {
    if |backends| == 0 then objects
    else
      var before := ApplyBackends(backends[..|backends| - 1], objects);
      match backends[|backends| - 1]
      case PassThrough => before
      case Narrow(keep) => Keep(keep, before)
  }

  predicate AllPassThrough(backends: seq<FilterBackend>) {
    forall i :: 0 <= i < |backends| ==> backends[i].PassThrough?
  }

  /** Filtering keeps only objects of the input. */
  lemma {:induction false} ApplyBackendsSubset(backends: seq<FilterBackend>, objects: seq<Record>)
    ensures forall o :: o in ApplyBackends(backends, objects) ==> o in objects
  {
    if |backends| > 0 {
      ApplyBackendsSubset(backends[..|backends| - 1], objects);
    }
  }

  /** filter_queryset: each backend in turn; the result is the given queryset itself
      exactly when every backend passed it through. */
  method FilterQueryset(backends: seq<FilterBackend>, qs: QuerySet) returns (filtered: QuerySet)
    ensures filtered.objects == ApplyBackends(backends, qs.objects)
    ensures AllPassThrough(backends) ==> filtered == qs
    ensures !AllPassThrough(backends) ==> fresh(filtered)
  {
    filtered := qs;
    var i := 0;
    while i < |backends|
      invariant 0 <= i <= |backends|
      invariant filtered.objects == ApplyBackends(backends[..i], qs.objects)
      invariant AllPassThrough(backends[..i]) ==> filtered == qs
      invariant !AllPassThrough(backends[..i]) ==> fresh(filtered)
    {
      assert backends[..i + 1][..i] == backends[..i];
      match backends[i] {
        case PassThrough =>
        case Narrow(keep) =>
          filtered := new QuerySet(Keep(keep, filtered.objects));
      }
      i := i + 1;
    }
    assert backends[..|backends|] == backends;
  }

  /** allow_bulk_destroy: only a queryset that filtering replaced may be destroyed. */
  predicate AllowBulkDestroy(qs: QuerySet, filtered: QuerySet): (r: bool)
    ensures !r ==> filtered.objects == qs.objects
  {
    qs != filtered
  }

  /** The stored objects' deletions, in call order. */
  class EntityStore {
    var deleted: seq<Record>

    constructor ()
      ensures deleted == []
    {
      deleted := [];
    }

    /** perform_destroy: deletes one object. */
    method PerformDestroy(obj: Record)
      modifies this
      ensures deleted == old(deleted) + [obj]
    {
      deleted := deleted + [obj];
    }

    /** perform_bulk_destroy: deletes each object once, in iteration order. */
    method PerformBulkDestroy(objects: seq<Record>)
      modifies this
      ensures deleted == old(deleted) + objects
    {
      var i := 0;
      while i < |objects|
        invariant 0 <= i <= |objects|
        invariant deleted == old(deleted) + objects[..i]
      {
        PerformDestroy(objects[i]);
        assert objects[..i + 1] == objects[..i] + [objects[i]];
        i := i + 1;
      }
      assert objects[..|objects|] == objects;
    }

    /** BulkDestroyModelMixin.bulk_destroy: 400 and nothing deleted when filtering returned
        the queryset itself, else the filtered objects are deleted and the reply is 204. */
    method BulkDestroy(backends: seq<FilterBackend>, qs: QuerySet) returns (r: Outcome)
      modifies this
      ensures AllPassThrough(backends) ==>
                r == Returned(Response(HTTP_400_BAD_REQUEST, NoBody)) && deleted == old(deleted)
      ensures !AllPassThrough(backends) ==>
                r == Returned(Response(HTTP_204_NO_CONTENT, NoBody)) &&
                deleted == old(deleted) + ApplyBackends(backends, qs.objects)
    {
      var filtered := FilterQueryset(backends, qs);
      if !AllowBulkDestroy(qs, filtered) {
        return Returned(Response(HTTP_400_BAD_REQUEST, NoBody));
      }
      PerformBulkDestroy(filtered.objects);
      return Returned(Response(HTTP_204_NO_CONTENT, NoBody));
    }

    /** EasyBulkDestroyModelMixin.bulk_destroy: an `ids` value that is present and
        non-empty must match the pattern, else "Invalid ids" is raised before any
        filtering; the stored objects whose id is one of the listed numbers are then
        selected and filtered, and deleted under the same guard as above. */
    method EasyBulkDestroy(backends: seq<FilterBackend>, stored: seq<Record>, ids: Option<string>) returns (r: Outcome)
      modifies this
      ensures var p := ParseIds(if ids.Some? then ids.value else "");
              && (p == InvalidIds ==> r == Raise(ParseError(InvalidIdsMessage)) && deleted == old(deleted))
              && (p != InvalidIds && AllPassThrough(backends) ==>
                    r == Returned(Response(HTTP_400_BAD_REQUEST, NoBody)) && deleted == old(deleted))
              && (p != InvalidIds && !AllPassThrough(backends) ==>
                    r == Returned(Response(HTTP_204_NO_CONTENT, NoBody)) &&
                    deleted == old(deleted) + ApplyBackends(backends, SelectIds(stored, ListIds(p))))
    {
      var listId: seq<string> := [];
      if ids.Some? && ids.value != "" {
        if !MatchesIds(ids.value) {
          return Raise(ParseError(InvalidIdsMessage));
        }
        listId := Split(ids.value);
      }
      var qs := new QuerySet(SelectIds(stored, listId));
      r := BulkDestroy(backends, qs);
    }
  }

  /** `list_id`: the pieces of an accepted value, none otherwise. */
  function ListIds(p: IdsParse): seq<string> {
    if p.Ids? then p.segs else []
  }

  /** Whether a stored object's id is the number one of the pieces spells. */
  predicate IdListed(o: Record, segs: seq<string>) {
    "id" in o && o["id"].Int? && exists k :: 0 <= k < |segs| && AllDigits(segs[k]) && o["id"].n == ParseNat(segs[k])
  }

  /** `get_queryset().filter(id__in=list_id)`, in stored order. */
  function SelectIds(stored: seq<Record>, segs: seq<string>): (r: seq<Record>)
    ensures forall o :: o in r <==> o in stored && IdListed(o, segs)
  {
    if |stored| == 0 then []
    else
      var last := stored[|stored| - 1];
      SelectIds(stored[..|stored| - 1], segs) + (if IdListed(last, segs) then [last] else [])
  }

  /** Without `ids`, nothing is selected (the filter is `id__in=[]`), so no object is
      deleted whatever the backends do. */
  lemma {:induction false} NoIdsSelectsNothing(backends: seq<FilterBackend>, stored: seq<Record>)
    ensures ApplyBackends(backends, SelectIds(stored, ListIds(ParseIds("")))) == []
  {
    var selected := SelectIds(stored, []);
    if |selected| > 0 {
      assert selected[0] in selected;
    }
    ApplyBackendsOfNothing(backends);
  }

  lemma {:induction false} ApplyBackendsOfNothing(backends: seq<FilterBackend>)
    ensures ApplyBackends(backends, []) == []
  {
    if |backends| > 0 {
      ApplyBackendsOfNothing(backends[..|backends| - 1]);
    }
  }

  /** Everything deleted by the filtered destroy was selected by the ids and is stored. */
  lemma {:induction false} DestroyDeletesOnlyListed(backends: seq<FilterBackend>, stored: seq<Record>, ids: string)
    ensures forall o :: o in ApplyBackends(backends, SelectIds(stored, ListIds(ParseIds(ids)))) ==>
              o in stored && IdListed(o, ListIds(ParseIds(ids)))
  {
    ApplyBackendsSubset(backends, SelectIds(stored, ListIds(ParseIds(ids))));
  }
}
