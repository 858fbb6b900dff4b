/** The list serializer of the bulk extension: tolerant per-record validation with
    index-aligned errors, representation that skips failed positions, identity-matched
    bulk update, and the lookup-key restoration done by the per-record serializer. */
module Serializers {
  import opened BulkTypes
  import opened Positions

  /** The view that drives a serializer: its action name and its request's method. */
  datatype View = View(action: string, httpMethod: string)

  /** Result of the per-record serializer's own validation. */
  datatype ItemResult = Valid(value: Record) | Invalid(detail: FieldErrors)

  /** The per-record (child) serializer. Its field-level validation, representation,
      creation and update are the host framework's and stay abstract. */
  datatype ChildSerializer = ChildSerializer(
    idAttr: string,                        // Meta.update_lookup_field, "id" by default
    fieldsToInternal: Record -> ItemResult, // the fields' to_internal_value on one record
    validate: Record -> ItemResult,         // run_validators, then validate(), on that value
    represent: Record -> Record,            // to_representation of one object
    create: Record -> Record,               // create(validated_data)
    update: (Record, Record) -> Record)     // update(instance, validated_data)

  /** Construction options of the list serializer. */
  datatype ListSettings = ListSettings(allowEmpty: bool, hasParent: bool, partial: bool)

  function MapRecords(f: Record -> Record, xs: seq<Record>): (r: seq<Record>)
    ensures |r| == |xs|
    ensures forall i :: 0 <= i < |xs| ==> r[i] == f(xs[i])
  {
    seq(|xs|, i requires 0 <= i < |xs| => f(xs[i]))
  }

  // ---------------------------------------------------------------------------
  // BulkSerializerMixin.to_internal_value

  /** Whether the per-record serializer puts the lookup field back: it is nested in a
      bulk list serializer, the lookup field name is non-empty and the method is PUT or PATCH. */
  predicate RestoresKey(rootIsBulk: bool, idAttr: string, httpMethod: string) {
    rootIsBulk && idAttr != "" && (httpMethod == "PUT" || httpMethod == "PATCH")
  }

  /** What the lookup field reads from the submitted record: its value, or `empty`. */
  function SubmittedValue(data: Record, idAttr: string): Value {
    if idAttr in data then data[idAttr] else EmptySentinel
  }

  /** The validated record `ret` of one submitted record `data`, with the lookup field
      restored when RestoresKey holds, since field validation drops read-only fields. */
  function RestoreLookupKey(ret: Record, data: Record, idAttr: string, rootIsBulk: bool, httpMethod: string): (r: Record)
    ensures RestoresKey(rootIsBulk, idAttr, httpMethod) ==>
              r.Keys == ret.Keys + {idAttr} && r[idAttr] == SubmittedValue(data, idAttr)
    ensures !RestoresKey(rootIsBulk, idAttr, httpMethod) ==> r == ret
    ensures forall k :: k in ret && k != idAttr ==> k in r && r[k] == ret[k]
  {
    if RestoresKey(rootIsBulk, idAttr, httpMethod) then ret[idAttr := SubmittedValue(data, idAttr)] else ret
  }

  /** child.run_validation(item): field validation, lookup-key restoration inside the
      child's to_internal_value, then the validators and `validate` on the restored value. */
  function ChildRunValidation(child: ChildSerializer, view: View, item: Record): (r: ItemResult)
    ensures child.fieldsToInternal(item).Invalid? ==> r == child.fieldsToInternal(item)
    ensures child.fieldsToInternal(item).Valid? && RestoresKey(true, child.idAttr, view.httpMethod) ==>
              r == child.validate(child.fieldsToInternal(item).value[child.idAttr := SubmittedValue(item, child.idAttr)])
    ensures child.fieldsToInternal(item).Valid? && !RestoresKey(true, child.idAttr, view.httpMethod) ==>
              r == child.validate(child.fieldsToInternal(item).value)
  {
    match child.fieldsToInternal(item)
    case Valid(v) => child.validate(RestoreLookupKey(v, item, child.idAttr, true, view.httpMethod))
    case Invalid(d) => Invalid(d)
  }

  // ---------------------------------------------------------------------------
  // EasyBulkListSerializer.to_internal_value

  /** The error recorded for an item lacking the lookup field outside the create action. */
  function MissingLookupError(idAttr: string): FieldErrors {
    map[idAttr := [ErrorMsg(RequiredMessage, DefaultCode)]]
  }

  /** Whether items must carry the lookup field: any action but `create`. */
  predicate RequiresLookup(view: View) {
    view.action != "create"
  }

  /** The outcome of one item of the submitted list. */
  function ItemOutcome(child: ChildSerializer, view: View, item: Record): (r: ItemResult)
    ensures RequiresLookup(view) && child.idAttr !in item ==> r == Invalid(MissingLookupError(child.idAttr))
    ensures r.Valid? ==> (!RequiresLookup(view) || child.idAttr in item) && child.fieldsToInternal(item).Valid?
  {
    if RequiresLookup(view) && child.idAttr !in item then Invalid(MissingLookupError(child.idAttr))
    else ChildRunValidation(child, view, item)
  }

  function Outcomes(child: ChildSerializer, view: View, items: seq<Record>): (os: seq<ItemResult>)
    ensures |os| == |items|
    ensures forall i :: 0 <= i < |items| ==> os[i] == ItemOutcome(child, view, items[i])
  {
    seq(|items|, i requires 0 <= i < |items| => ItemOutcome(child, view, items[i]))
  }

  /** The error entry of one outcome: `{}` for a success. */
  function ErrorEntry(o: ItemResult): ErrorDetail {
    if o.Valid? then map[] else o.detail
  }

  function Entries(os: seq<ItemResult>): (es: seq<ErrorDetail>)
    ensures |es| == |os|
    ensures forall i :: 0 <= i < |os| ==> es[i] == ErrorEntry(os[i])
  {
    seq(|os|, i requires 0 <= i < |os| => ErrorEntry(os[i]))
  }

  /** The validated values of the successful outcomes, in order. */
  function Successes(os: seq<ItemResult>): seq<Record> {
    if |os| == 0 then []
    else Successes(os[..|os| - 1]) + (if os[|os| - 1].Valid? then [os[|os| - 1].value] else [])
  }

  /** What validating the submitted body yields: the successes and the index-aligned
      error list, a whole-request shape error, or a skip of the nested field. */
  datatype ShapeCheck = Checked(ret: seq<Record>, errors: seq<ErrorDetail>) | Skip | ShapeError(detail: ErrorDetail)

  function NotAListError(typeName: string): ErrorDetail {
    map[NonFieldErrorsKey := [ErrorMsg(NotAListMessage(typeName), "not_a_list")]]
  }

  function EmptyListError(): ErrorDetail {
    map[NonFieldErrorsKey := [ErrorMsg(EmptyListMessage, "empty")]]
  }

  /** The specification of to_internal_value on the serializer's settings. */
  function ValidateList(data: Body, settings: ListSettings, child: ChildSerializer, view: View): (r: ShapeCheck)
    ensures r.Checked? <==> data.ListBody? && (settings.allowEmpty || |data.items| > 0)
    ensures r.Skip? <==> data.ListBody? && |data.items| == 0 && !settings.allowEmpty && settings.hasParent && settings.partial
    ensures r.ShapeError? ==> NonFieldErrorsKey in r.detail && |r.detail[NonFieldErrorsKey]| == 1
    ensures r.Checked? ==> |r.errors| == |data.items|
  {
    match data
    case NonList(typeName) => ShapeError(NotAListError(typeName))
    case ListBody(items) =>
      if !settings.allowEmpty && |items| == 0 then
        (if settings.hasParent && settings.partial then Skip else ShapeError(EmptyListError()))
      else
        var os := Outcomes(child, view, items);
        Checked(Successes(os), Entries(os))
  }

  lemma {:induction false} EntriesPrefix(os: seq<ItemResult>, n: nat)
    requires n <= |os|
    ensures Entries(os)[..n] == Entries(os[..n])
  {
  }

  /** The successes are as many as the empty error entries. */
  lemma {:induction false} SuccessesLength(os: seq<ItemResult>)
    ensures |Successes(os)| == CountKept(Entries(os))
  {
    if |os| > 0 {
      var n := |os| - 1;
      SuccessesLength(os[..n]);
      EntriesPrefix(os, n);
    }
  }

  /** One more outcome: the successes and the entries each grow by that outcome. */
  lemma {:induction false} OutcomeStep(os: seq<ItemResult>, i: nat)
    requires i < |os|
    ensures Successes(os[..i + 1]) == Successes(os[..i]) + (if os[i].Valid? then [os[i].value] else [])
    ensures Entries(os[..i + 1]) == Entries(os[..i]) + [ErrorEntry(os[i])]
  {
    assert os[..i + 1][..i] == os[..i];
  }

  /** The success at position i is the Rank(i)-th element of the successes. */
  lemma {:induction false} SuccessesAt(os: seq<ItemResult>, i: nat)
    requires i < |os| && os[i].Valid?
    ensures Rank(Entries(os), i) < |Successes(os)|
    ensures Successes(os)[Rank(Entries(os), i)] == os[i].value
  {
    var n := |os| - 1;
    var init := os[..n];
    var es := Entries(os);
    var r := Rank(es, i);
    assert os[..n + 1] == os;
    OutcomeStep(os, n);
    SuccessesLength(init);
    EntriesPrefix(os, n);
    assert Entries(init) == es[..n];
    if i < n {
      SuccessesAt(init, i);
      assert es[..n][..i] == es[..i];
      assert Rank(Entries(init), i) == r;
      assert init[i] == os[i];
    } else {
      assert r == CountKept(Entries(init));
    }
  }

  /** Successes-only: after a list validation the validated values are exactly the
      successful items' values, in input order, one per empty error entry. */
  lemma {:induction false} ValidatedValuesAligned(data: Body, settings: ListSettings, child: ChildSerializer, view: View, i: nat)
    requires data.ListBody? && (settings.allowEmpty || |data.items| > 0)
    requires i < |data.items|
    ensures ValidateList(data, settings, child, view).Checked?
    ensures var v := ValidateList(data, settings, child, view);
            && |v.ret| == CountKept(v.errors)
            && (ItemOutcome(child, view, data.items[i]).Valid? ==>
                  Rank(v.errors, i) < |v.ret| && v.ret[Rank(v.errors, i)] == ItemOutcome(child, view, data.items[i]).value)
  {
    var os := Outcomes(child, view, data.items);
    SuccessesLength(os);
    if os[i].Valid? {
      SuccessesAt(os, i);
    }
  }

  /** The shape checks come before any item: a non-list body, or an empty list where
      empty lists are refused, yields no per-item errors at all. Otherwise there is one
      error entry per submitted item, empty exactly when that item validated, holding
      the item's own errors when it did not, and "required" on the lookup field for an
      item without one outside the create action. */
  lemma {:induction false} ValidationErrorsAligned(data: Body, settings: ListSettings, child: ChildSerializer, view: View)
    ensures data.NonList? ==> ValidateList(data, settings, child, view) == ShapeError(NotAListError(data.typeName))
    ensures data.ListBody? && !settings.allowEmpty && |data.items| == 0 ==>
              ValidateList(data, settings, child, view) ==
                (if settings.hasParent && settings.partial then Skip else ShapeError(EmptyListError()))
    ensures data.ListBody? && (settings.allowEmpty || |data.items| > 0) ==>
              var v := ValidateList(data, settings, child, view);
              && v.Checked?
              && |v.errors| == |data.items|
              && (forall i :: 0 <= i < |data.items| ==>
                    (v.errors[i] == map[] <==> ItemOutcome(child, view, data.items[i]).Valid?))
              && (forall i :: 0 <= i < |data.items| && ItemOutcome(child, view, data.items[i]).Invalid? ==>
                    v.errors[i] == ItemOutcome(child, view, data.items[i]).detail)
              && (forall i :: 0 <= i < |data.items| && RequiresLookup(view) && child.idAttr !in data.items[i] ==>
                    v.errors[i] == MissingLookupError(child.idAttr))
  {
    if data.ListBody? && (settings.allowEmpty || |data.items| > 0) {
      var os := Outcomes(child, view, data.items);
      forall i | 0 <= i < |data.items| ensures (Entries(os)[i] == map[] <==> os[i].Valid?) {
        if os[i].Invalid? {
          var d: FieldErrors := os[i].detail;
          assert |d| > 0;
        }
      }
    }
  }

  /** A list passing the shape checks records some error exactly when some item is invalid. */
  lemma {:induction false} AnyErrorIffInvalid(data: Body, settings: ListSettings, child: ChildSerializer, view: View)
    requires data.ListBody? && (settings.allowEmpty || |data.items| > 0)
    ensures ValidateList(data, settings, child, view).Checked?
    ensures AnyError(ValidateList(data, settings, child, view).errors) <==>
              exists i :: 0 <= i < |data.items| && ItemOutcome(child, view, data.items[i]).Invalid?
  {
    ValidationErrorsAligned(data, settings, child, view);
    var v := ValidateList(data, settings, child, view);
    if exists i :: 0 <= i < |data.items| && ItemOutcome(child, view, data.items[i]).Invalid? {
      var i :| 0 <= i < |data.items| && ItemOutcome(child, view, data.items[i]).Invalid?;
      assert v.errors[i] != map[];
    }
  }

  // ---------------------------------------------------------------------------
  // EasyBulkListSerializer.to_representation

  /** to_representation of `iterable` as the serializer's recorded `_errors` filter it:
      with errors recorded and a non-empty input, the marked positions are skipped. */
  function Represent(child: ChildSerializer, iterable: seq<Record>, errors: Option<Errors>): (r: seq<Record>)
    ensures |r| <= |iterable|
    ensures errors.None? ==> |r| == |iterable|
  {
    if |iterable| > 0 && errors.Some? then
      DropLength(iterable, errors.value);
      MapRecords(child.represent, Drop(iterable, errors.value))
    else MapRecords(child.represent, iterable)
  }

  /** The representation has one entry per unmarked position. */
  lemma {:induction false} RepresentLength(child: ChildSerializer, iterable: seq<Record>, errors: Option<Errors>)
    ensures |Represent(child, iterable, errors)| == if errors.Some? then KeptBefore(errors.value, |iterable|) else |iterable|
  {
    if errors.Some? {
      DropLength(iterable, errors.value);
    }
  }

  /** An unmarked position i is represented, in relative order, at the index counting
      the unmarked positions before it. */
  lemma {:induction false} RepresentKeepsSurvivor(child: ChildSerializer, iterable: seq<Record>, errors: Option<Errors>, i: nat)
    requires i < |iterable|
    requires errors.Some? ==> !ErrorAt(errors.value, i)
    ensures var k := if errors.Some? then KeptBefore(errors.value, i) else i;
            k < |Represent(child, iterable, errors)| && Represent(child, iterable, errors)[k] == child.represent(iterable[i])
  {
    if errors.Some? {
      DropAt(iterable, errors.value, i);
    }
  }

  /** With no errors recorded, or only errors Python reads as false (such as `_errors`
      reset to `[]`), it is the element-wise representation. */
  lemma {:induction false} RepresentWithoutErrors(child: ChildSerializer, iterable: seq<Record>, errors: Option<Errors>)
    ensures errors.None? || !ErrorsTruthy(errors.value) ==>
              Represent(child, iterable, errors) == MapRecords(child.represent, iterable)
  {
    if errors.Some? && !ErrorsTruthy(errors.value) {
      DropNothing(iterable, errors.value);
    }
  }

  // ---------------------------------------------------------------------------
  // BulkListSerializer.update

  predicate AllHaveKey(records: seq<Record>, idAttr: string) {
    forall i :: 0 <= i < |records| ==> idAttr in records[i]
  }

  /** `{i.pop(id_attr): i for i in all_validated_data}`: each record keyed by its lookup
      value with that field removed; a later record replaces an earlier one. */
  function ById(records: seq<Record>, idAttr: string): (r: map<Value, Record>)
    requires AllHaveKey(records, idAttr)
    ensures |r| <= |records|
  {
    if |records| == 0 then map[]
    else
      var last := records[|records| - 1];
      ById(records[..|records| - 1], idAttr)[last[idAttr] := last - {idAttr}]
  }

  /** A key the update accepts: truthy and not a class. */
  predicate UsableKey(v: Value) {
    Truthy(v) && !v.Class?
  }

  /** `queryset.filter(<id_attr>__in=keys)`, in queryset order. */
  function Matched(queryset: seq<Record>, idAttr: string, keys: set<Value>): (r: seq<Record>)
    ensures forall o :: o in r ==> o in queryset && idAttr in o && o[idAttr] in keys
  {
    if |queryset| == 0 then []
    else
      var last := queryset[|queryset| - 1];
      Matched(queryset[..|queryset| - 1], idAttr, keys) + (if idAttr in last && last[idAttr] in keys then [last] else [])
  }

  /** Each matched object with the record its lookup value selects. */
  function Pairs(matched: seq<Record>, byId: map<Value, Record>, idAttr: string): (r: seq<(Record, Record)>)
    requires forall o :: o in matched ==> idAttr in o && o[idAttr] in byId
    ensures |r| == |matched|
    ensures forall i :: 0 <= i < |matched| ==> r[i] == (matched[i], byId[matched[i][idAttr]])
  {
    seq(|matched|, i requires 0 <= i < |matched| => (matched[i], byId[matched[i][idAttr]]))
  }

  /** The decision `update` takes before touching any object. */
  datatype UpdatePlan = KeyMissing | BadKey | NotAllFound | Plan(pairs: seq<(Record, Record)>)

  function PlanUpdate(queryset: seq<Record>, records: seq<Record>, idAttr: string): (r: UpdatePlan)
    ensures r == KeyMissing <==> !AllHaveKey(records, idAttr)
    ensures r.Plan? ==> AllHaveKey(records, idAttr) && |r.pairs| == |ById(records, idAttr)|
  {
    if !AllHaveKey(records, idAttr) then KeyMissing
    else
      var byId := ById(records, idAttr);
      if exists k :: k in byId && !UsableKey(k) then BadKey
      else
        var matched := Matched(queryset, idAttr, byId.Keys);
        if |byId| != |matched| then NotAllFound
        else Plan(Pairs(matched, byId, idAttr))
  }

  /** The exception a refused plan raises. */
  function PlanError(p: UpdatePlan): Exception
    requires !p.Plan?
  {
    match p
    case KeyMissing => KeyError
    case BadKey => ValidationError(Messages([ErrorMsg("", DefaultCode)]))
    case NotAllFound => ValidationError(Messages([ErrorMsg(NotAllFoundMessage, DefaultCode)]))
  }

  function ApplyUpdates(child: ChildSerializer, pairs: seq<(Record, Record)>): (r: seq<Record>)
    ensures |r| == |pairs|
    ensures forall i :: 0 <= i < |pairs| ==> r[i] == child.update(pairs[i].0, pairs[i].1)
  {
    seq(|pairs|, i requires 0 <= i < |pairs| => child.update(pairs[i].0, pairs[i].1))
  }

  /** One more pair: the updated objects grow by that pair's update. */
  lemma {:induction false} ApplyUpdatesStep(child: ChildSerializer, pairs: seq<(Record, Record)>, i: nat)
    requires i < |pairs|
    ensures ApplyUpdates(child, pairs[..i + 1]) == ApplyUpdates(child, pairs[..i]) + [child.update(pairs[i].0, pairs[i].1)]
  {
  }

  /** Later record wins: the record keyed by a lookup value is the last record carrying
      that value, with the lookup field popped. */
  lemma {:induction false} LaterRecordWins(records: seq<Record>, idAttr: string, j: nat)
    requires AllHaveKey(records, idAttr)
    requires j < |records|
    requires forall l :: j < l < |records| ==> records[l][idAttr] != records[j][idAttr]
    ensures records[j][idAttr] in ById(records, idAttr)
    ensures ById(records, idAttr)[records[j][idAttr]] == records[j] - {idAttr}
  {
    var n := |records| - 1;
    if j < n {
      var init := records[..n];
      assert AllHaveKey(init, idAttr);
      forall l | j < l < |init| ensures init[l][idAttr] != init[j][idAttr] {
        assert init[l] == records[l];
      }
      LaterRecordWins(init, idAttr, j);
      assert init[j] == records[j];
    }
  }

  /** The keys of the by-id mapping are exactly the records' lookup values. */
  lemma {:induction false} ByIdKeys(records: seq<Record>, idAttr: string)
    requires AllHaveKey(records, idAttr)
    ensures forall k :: k in ById(records, idAttr) <==> exists i :: 0 <= i < |records| && records[i][idAttr] == k
  {
    if |records| > 0 {
      var n := |records| - 1;
      var init := records[..n];
      assert AllHaveKey(init, idAttr);
      ByIdKeys(init, idAttr);
      forall k | exists i :: 0 <= i < |records| && records[i][idAttr] == k
        ensures k in ById(records, idAttr)
      {
        var i :| 0 <= i < |records| && records[i][idAttr] == k;
        if i < n {
          assert init[i] == records[i];
        }
      }
      forall k | k in ById(records, idAttr)
        ensures exists i :: 0 <= i < |records| && records[i][idAttr] == k
      {
        if k != records[n][idAttr] {
          assert k in ById(init, idAttr);
          var i :| 0 <= i < |init| && init[i][idAttr] == k;
          assert records[i] == init[i];
        }
      }
    }
  }

  /** A collision among the lookup values shrinks the by-id mapping below the records. */
  lemma {:induction false} ByIdShrinksOnCollision(records: seq<Record>, idAttr: string, i: nat, j: nat)
    requires AllHaveKey(records, idAttr)
    requires i < j < |records| && records[i][idAttr] == records[j][idAttr]
    ensures |ById(records, idAttr)| < |records|
  {
    var n := |records| - 1;
    var init := records[..n];
    assert AllHaveKey(init, idAttr);
    if j < n {
      ByIdShrinksOnCollision(init, idAttr, i, j);
    } else {
      ByIdHas(init, idAttr, i);
      assert records[n][idAttr] in ById(init, idAttr);
    }
  }

  /** Every record's lookup value is a key of the by-id mapping. */
  lemma {:induction false} ByIdHas(records: seq<Record>, idAttr: string, i: nat)
    requires AllHaveKey(records, idAttr) && i < |records|
    ensures records[i][idAttr] in ById(records, idAttr)
  {
    var n := |records| - 1;
    if i < n {
      var init := records[..n];
      assert AllHaveKey(init, idAttr);
      ByIdHas(init, idAttr, i);
      assert init[i] == records[i];
    }
  }

  /** Stored objects carry pairwise distinct lookup values. */
  predicate DistinctIds(queryset: seq<Record>, idAttr: string) {
    forall i, j :: 0 <= i < j < |queryset| && idAttr in queryset[i] && idAttr in queryset[j] ==>
      queryset[i][idAttr] != queryset[j][idAttr]
  }

  function IdsOf(objs: seq<Record>, idAttr: string): set<Value>
    requires forall o :: o in objs ==> idAttr in o
  {
    set o | o in objs :: o[idAttr]
  }

  lemma {:induction false} MatchedIndices(queryset: seq<Record>, idAttr: string, keys: set<Value>, k: nat)
    requires k < |Matched(queryset, idAttr, keys)|
    ensures exists i :: 0 <= i < |queryset| && queryset[i] == Matched(queryset, idAttr, keys)[k]
  {
    var m := Matched(queryset, idAttr, keys);
    assert m[k] in m;
    var i :| 0 <= i < |queryset| && queryset[i] == m[k];
  }

  lemma {:induction false} MatchedDistinct(queryset: seq<Record>, idAttr: string, keys: set<Value>)
    requires DistinctIds(queryset, idAttr)
    ensures DistinctIds(Matched(queryset, idAttr, keys), idAttr)
  {
    if |queryset| > 0 {
      var n := |queryset| - 1;
      var init := queryset[..n];
      var last := queryset[n];
      assert DistinctIds(init, idAttr) by {
        forall i, j | 0 <= i < j < |init| && idAttr in init[i] && idAttr in init[j]
          ensures init[i][idAttr] != init[j][idAttr]
        {
          assert init[i] == queryset[i] && init[j] == queryset[j];
        }
      }
      MatchedDistinct(init, idAttr, keys);
      var mi := Matched(init, idAttr, keys);
      if idAttr in last && last[idAttr] in keys {
        var m := mi + [last];
        forall i, j | 0 <= i < j < |m| && idAttr in m[i] && idAttr in m[j]
          ensures m[i][idAttr] != m[j][idAttr]
        {
          if j == |mi| {
            MatchedIndices(init, idAttr, keys, i);
            var p :| 0 <= p < |init| && init[p] == mi[i];
            assert queryset[p] == init[p];
          } else {
            assert m[i] == mi[i] && m[j] == mi[j];
          }
        }
      }
    }
  }

  lemma {:induction false} DistinctIdsCount(objs: seq<Record>, idAttr: string)
    requires forall o :: o in objs ==> idAttr in o
    requires DistinctIds(objs, idAttr)
    ensures |IdsOf(objs, idAttr)| == |objs|
  {
    if |objs| > 0 {
      var n := |objs| - 1;
      var init := objs[..n];
      assert forall o :: o in init ==> o in objs;
      assert DistinctIds(init, idAttr) by {
        forall i, j | 0 <= i < j < |init| && idAttr in init[i] && idAttr in init[j]
          ensures init[i][idAttr] != init[j][idAttr]
        {
          assert init[i] == objs[i] && init[j] == objs[j];
        }
      }
      DistinctIdsCount(init, idAttr);
      assert objs == init + [objs[n]];
      assert IdsOf(objs, idAttr) == IdsOf(init, idAttr) + {objs[n][idAttr]};
    }
  }

  lemma {:induction false} SubsetSameSize<T>(a: set<T>, b: set<T>)
    requires a <= b && |a| == |b|
    ensures a == b
  {
    if a != b {
      var x :| x in b && x !in a;
      SubsetSize(a, b - {x});
    }
  }

  lemma {:induction false} SubsetSize<T>(a: set<T>, b: set<T>)
    requires a <= b
    ensures |a| <= |b|
    decreases |a|
  {
    if a != {} {
      var x :| x in a;
      SubsetSize(a - {x}, b - {x});
    }
  }

  /** The objects matched by a key set as large as the matches, with distinct lookup
      values, cover every key. */
  lemma {:induction false} MatchedCoversKeys(matched: seq<Record>, idAttr: string, keys: set<Value>)
    requires forall o :: o in matched ==> idAttr in o && o[idAttr] in keys
    requires DistinctIds(matched, idAttr)
    requires |matched| == |keys|
    ensures forall k :: k in keys ==> exists i :: 0 <= i < |matched| && matched[i][idAttr] == k
  {
    DistinctIdsCount(matched, idAttr);
    var ids := IdsOf(matched, idAttr);
    SubsetSameSize(ids, keys);
    forall k | k in keys ensures exists i :: 0 <= i < |matched| && matched[i][idAttr] == k {
      assert k in ids;
      var o :| o in matched && o[idAttr] == k;
      var i :| 0 <= i < |matched| && matched[i] == o;
    }
  }

  /** The update pairs cover every requested key, each with the record that key
      selects (lookup field popped), and no two pairs share a lookup value. */
  predicate PairsCoverKeys(pairs: seq<(Record, Record)>, byId: map<Value, Record>, idAttr: string) {
    && (forall k :: k in byId ==> exists i :: 0 <= i < |pairs| && idAttr in pairs[i].0 && pairs[i].0[idAttr] == k)
    && (forall i :: 0 <= i < |pairs| ==>
          (idAttr in pairs[i].0 && pairs[i].0[idAttr] in byId &&
           pairs[i].1 == byId[pairs[i].0[idAttr]] && idAttr !in pairs[i].1))
    && (forall i, j :: 0 <= i < j < |pairs| && idAttr in pairs[i].0 && idAttr in pairs[j].0 ==>
          pairs[i].0[idAttr] != pairs[j].0[idAttr])
  }

  /** Pairing distinct matched objects, as many as the keys, covers every key once. */
  lemma {:induction false} PairsCover(matched: seq<Record>, byId: map<Value, Record>, idAttr: string)
    requires forall o :: o in matched ==> idAttr in o && o[idAttr] in byId
    requires DistinctIds(matched, idAttr)
    requires |matched| == |byId|
    requires forall k :: k in byId ==> idAttr !in byId[k]
    ensures PairsCoverKeys(Pairs(matched, byId, idAttr), byId, idAttr)
  {
    var pairs := Pairs(matched, byId, idAttr);
    assert |byId.Keys| == |byId|;
    MatchedCoversKeys(matched, idAttr, byId.Keys);
    forall k | k in byId ensures exists i :: 0 <= i < |pairs| && idAttr in pairs[i].0 && pairs[i].0[idAttr] == k {
      var i :| 0 <= i < |matched| && matched[i][idAttr] == k;
      assert matched[i] in matched;
      assert pairs[i].0 == matched[i];
    }
    forall i | 0 <= i < |pairs|
      ensures idAttr in pairs[i].0 && pairs[i].0[idAttr] in byId &&
              pairs[i].1 == byId[pairs[i].0[idAttr]] && idAttr !in pairs[i].1
    {
      assert matched[i] in matched;
    }
    forall i, j | 0 <= i < j < |pairs| && idAttr in pairs[i].0 && idAttr in pairs[j].0
      ensures pairs[i].0[idAttr] != pairs[j].0[idAttr]
    {
      assert pairs[i].0 == matched[i] && pairs[j].0 == matched[j];
    }
  }

  /** Update on success (stored lookup values distinct): every requested key is matched
      by exactly one object, and each object is paired with the record its key selects,
      lookup field popped. So every key's record is applied, and applied once. */
  lemma {:induction false} UpdateMatchesEveryKey(queryset: seq<Record>, records: seq<Record>, idAttr: string)
    requires DistinctIds(queryset, idAttr)
    requires PlanUpdate(queryset, records, idAttr).Plan?
    ensures AllHaveKey(records, idAttr)
    ensures PairsCoverKeys(PlanUpdate(queryset, records, idAttr).pairs, ById(records, idAttr), idAttr)
  {
    var byId := ById(records, idAttr);
    var matched := Matched(queryset, idAttr, byId.Keys);
    assert PlanUpdate(queryset, records, idAttr).pairs == Pairs(matched, byId, idAttr);
    MatchedDistinct(queryset, idAttr, byId.Keys);
    ByIdPopped(records, idAttr);
    PairsCover(matched, byId, idAttr);
  }

  lemma {:induction false} ByIdPopped(records: seq<Record>, idAttr: string)
    requires AllHaveKey(records, idAttr)
    ensures forall k :: k in ById(records, idAttr) ==> idAttr !in ById(records, idAttr)[k]
  {
    if |records| > 0 {
      var init := records[..|records| - 1];
      assert AllHaveKey(init, idAttr);
      ByIdPopped(init, idAttr);
    }
  }

  /** Update rejection is decided on the keys and counts alone: a missing key, an
      unusable key or a lookup miss refuses the plan, and only a plan updates anything. */
  lemma {:induction false} UpdateRejections(queryset: seq<Record>, records: seq<Record>, idAttr: string)
    ensures PlanUpdate(queryset, records, idAttr) == KeyMissing <==> exists i :: 0 <= i < |records| && idAttr !in records[i]
    ensures AllHaveKey(records, idAttr) ==>
              (PlanUpdate(queryset, records, idAttr) == BadKey <==>
                 exists i :: 0 <= i < |records| && !UsableKey(records[i][idAttr]))
  {
    if AllHaveKey(records, idAttr) {
      ByIdKeys(records, idAttr);
      var byId := ById(records, idAttr);
      if exists i :: 0 <= i < |records| && !UsableKey(records[i][idAttr]) {
        var i :| 0 <= i < |records| && !UsableKey(records[i][idAttr]);
        assert records[i][idAttr] in byId;
      }
    }
  }

  /** Some stored object carries lookup value k. */
  predicate Stored(queryset: seq<Record>, idAttr: string, k: Value) {
    exists o :: o in queryset && idAttr in o && o[idAttr] == k
  }

  /** A stored object whose lookup value is a key is matched. */
  lemma {:induction false} InMatched(queryset: seq<Record>, idAttr: string, keys: set<Value>, o: Record)
    requires o in queryset && idAttr in o && o[idAttr] in keys
    ensures o in Matched(queryset, idAttr, keys)
  {
    var n := |queryset| - 1;
    if queryset[n] != o {
      var init := queryset[..n];
      assert queryset == init + [queryset[n]];
      InMatched(init, idAttr, keys, o);
    }
  }

  /** Distinct matched objects as many as the keys: every key names a stored object. */
  lemma {:induction false} CountMatchFindsEveryKey(queryset: seq<Record>, idAttr: string, keys: set<Value>)
    requires DistinctIds(queryset, idAttr)
    requires |Matched(queryset, idAttr, keys)| == |keys|
    ensures forall k :: k in keys ==> Stored(queryset, idAttr, k)
  {
    var matched := Matched(queryset, idAttr, keys);
    MatchedDistinct(queryset, idAttr, keys);
    MatchedCoversKeys(matched, idAttr, keys);
    forall k | k in keys ensures Stored(queryset, idAttr, k) {
      var p :| 0 <= p < |matched| && matched[p][idAttr] == k;
      assert matched[p] in matched;
    }
  }

  /** Every key naming a stored object (lookup values distinct): the matches are exactly
      as many as the keys. */
  lemma {:induction false} EveryKeyStoredCountMatch(queryset: seq<Record>, idAttr: string, keys: set<Value>)
    requires DistinctIds(queryset, idAttr)
    requires forall k :: k in keys ==> Stored(queryset, idAttr, k)
    ensures |Matched(queryset, idAttr, keys)| == |keys|
  {
    var matched := Matched(queryset, idAttr, keys);
    MatchedDistinct(queryset, idAttr, keys);
    forall k | k in keys ensures k in IdsOf(matched, idAttr) {
      assert Stored(queryset, idAttr, k);
      var o :| o in queryset && idAttr in o && o[idAttr] == k;
      InMatched(queryset, idAttr, keys, o);
    }
    assert IdsOf(matched, idAttr) == keys;
    DistinctIdsCount(matched, idAttr);
  }

  /** The lookup check both ways (stored lookup values distinct, every key present and
      usable): the update proceeds exactly when every key names a stored object, and is
      refused as NotAllFound exactly when some key names none. */
  lemma {:induction false} UpdateProceedsIffAllStored(queryset: seq<Record>, records: seq<Record>, idAttr: string)
    requires DistinctIds(queryset, idAttr)
    requires AllHaveKey(records, idAttr)
    requires forall i :: 0 <= i < |records| ==> UsableKey(records[i][idAttr])
    ensures PlanUpdate(queryset, records, idAttr).Plan? <==>
              forall i :: 0 <= i < |records| ==> Stored(queryset, idAttr, records[i][idAttr])
    ensures PlanUpdate(queryset, records, idAttr) == NotAllFound <==>
              exists i :: 0 <= i < |records| && !Stored(queryset, idAttr, records[i][idAttr])
  {
    ByIdKeys(records, idAttr);
    var keys := ById(records, idAttr).Keys;
    assert |keys| == |ById(records, idAttr)|;
    assert forall k :: k in keys ==> UsableKey(k);
    assert (forall k :: k in keys ==> Stored(queryset, idAttr, k)) <==>
           (forall i :: 0 <= i < |records| ==> Stored(queryset, idAttr, records[i][idAttr]));
    if |Matched(queryset, idAttr, keys)| == |keys| {
      CountMatchFindsEveryKey(queryset, idAttr, keys);
    }
    if forall k :: k in keys ==> Stored(queryset, idAttr, k) {
      EveryKeyStoredCountMatch(queryset, idAttr, keys);
    }
  }

  // ---------------------------------------------------------------------------
  // EasyBulkListSerializer: is_valid, data, save, update

  /** The representation the `data` property computes when nothing is memoised yet:
      the bound instance, else the validated data, when no errors are recorded or
      errors are allowed; otherwise the initial data. */
  function FreshData(child: ChildSerializer, instance: Option<seq<Record>>, validated: seq<Record>,
                     errors: Option<Errors>, allowErrors: bool, initialData: Body): (r: seq<Record>)
    ensures errors.None? || !ErrorsTruthy(errors.value) ==>
              r == MapRecords(child.represent, if instance.Some? then instance.value else validated)
    ensures errors.Some? && ErrorsTruthy(errors.value) && allowErrors ==>
              r == Represent(child, if instance.Some? then instance.value else validated, errors)
    ensures errors.Some? && ErrorsTruthy(errors.value) && !allowErrors ==>
              r == if initialData.ListBody? then Represent(child, initialData.items, errors) else []
  {
    RepresentWithoutErrors(child, if instance.Some? then instance.value else validated, errors);
    var permitted := errors.None? || !ErrorsTruthy(errors.value) || allowErrors;
    if instance.Some? && permitted then Represent(child, instance.value, errors)
    else if permitted then Represent(child, validated, errors)
    else match initialData
      case ListBody(items) => Represent(child, items, errors)
      case NonList(_) => []
  }

  /** A bulk list serializer bound to one request body. Its memo fields mirror the
      attributes `_validated_data`, `_errors` and `_data`; `None` means "attribute unset". */
  class EasyBulkListSerializer {
    const child: ChildSerializer
    const view: View
    const settings: ListSettings
    const allowErrors: bool
    const initialData: Body
    var instance: Option<seq<Record>>
    var validatedData: Option<seq<Record>>
    var errors: Option<Errors>
    var data: Option<seq<Record>>
    /** The records handed to child.create, in call order. */
    var createCalls: seq<Record>
    /** The (object, record) pairs handed to child.update, in call order. */
    var updateCalls: seq<(Record, Record)>

    /** Validated data is never recorded without errors. */
    ghost predicate Valid()
      reads this
    {
      validatedData.Some? ==> errors.Some?
    }

    constructor (child: ChildSerializer, view: View, settings: ListSettings, allowErrors: bool,
                 initialData: Body, instance: Option<seq<Record>>)
      ensures Valid()
      ensures this.child == child && this.view == view && this.settings == settings
      ensures this.allowErrors == allowErrors && this.initialData == initialData && this.instance == instance
      ensures validatedData == None && errors == None && data == None
      ensures createCalls == [] && updateCalls == []
    {
      this.child := child;
      this.view := view;
      this.settings := settings;
      this.allowErrors := allowErrors;
      this.initialData := initialData;
      this.instance := instance;
      validatedData := None;
      errors := None;
      data := None;
      createCalls := [];
      updateCalls := [];
    }

    /** to_internal_value: walks the list, one error entry per item, the validated
        values of the successful items only; shape errors before any item. */
    method ToInternalValue(input: Body) returns (r: ShapeCheck)
      ensures r == ValidateList(input, settings, child, view)
    {
      if !input.ListBody? {
        return ShapeError(NotAListError(input.typeName));
      }
      var items := input.items;
      if !settings.allowEmpty && |items| == 0 {
        if settings.hasParent && settings.partial {
          return Skip;
        }
        return ShapeError(EmptyListError());
      }
      ghost var os := Outcomes(child, view, items);
      var ret: seq<Record> := [];
      var errs: seq<ErrorDetail> := [];
      var i := 0;
      while i < |items|
        invariant 0 <= i <= |items|
        invariant ret == Successes(os[..i])
        invariant errs == Entries(os[..i])
      {
        var item := items[i];
        var outcome: ItemResult;
        if RequiresLookup(view) && child.idAttr !in item {
          outcome := Invalid(MissingLookupError(child.idAttr));
        } else {
          outcome := ChildRunValidation(child, view, item);
        }
        assert outcome == os[i];
        OutcomeStep(os, i);
        match outcome {
          case Invalid(detail) =>
            errs := errs + [detail];
          case Valid(validated) =>
            ret := ret + [validated];
            errs := errs + [map[]];
        }
        i := i + 1;
      }
      assert os[..|items|] == os;
      return Checked(ret, errs);
    }

    /** is_valid: validates once and memoises; true exactly when no errors are recorded. */
    method IsValid(raiseException: bool) returns (r: Result<bool>)
      requires Valid()
      modifies this`validatedData, this`errors
      ensures Valid()
      ensures old(validatedData).Some? ==> validatedData == old(validatedData) && errors == old(errors)
      ensures old(validatedData).None? ==>
                match ValidateList(initialData, settings, child, view)
                case Skip => validatedData == None && errors == old(errors)
                case ShapeError(detail) =>
                  validatedData == (if raiseException then Some([]) else None) && errors == Some(Fields(detail))
                case Checked(ret, entries) =>
                  if AnyError(entries) then
                    validatedData == Some(if raiseException then [] else ret) && errors == Some(PerItem(entries))
                  else
                    validatedData == Some(ret) && errors == Some(PerItem([]))
      ensures r == Err(SkipField) <==> old(validatedData).None? && ValidateList(initialData, settings, child, view).Skip?
      ensures r != Err(SkipField) ==>
                errors.Some? &&
                r == if raiseException && ErrorsTruthy(errors.value) then Err(ValidationError(errors.value))
                     else Ok(!ErrorsTruthy(errors.value))
    {
      if validatedData.None? {
        var result := ToInternalValue(initialData);
        match result
        case Skip =>
          return Err(SkipField);
        case ShapeError(detail) =>
          if raiseException {
            validatedData := Some([]);
          }
          errors := Some(Fields(detail));
        case Checked(ret, entries) =>
          validatedData := Some(ret);
          if exists i :: 0 <= i < |entries| && entries[i] != map[] {
            if raiseException {
              validatedData := Some([]);
            }
            errors := Some(PerItem(entries));
          } else {
            errors := Some(PerItem([]));
          }
      }
      if ErrorsTruthy(errors.value) && raiseException {
        return Err(ValidationError(errors.value));
      }
      return Ok(!ErrorsTruthy(errors.value));
    }

    /** The `data` property: refused before validation, computed once, then memoised. */
    method Data() returns (r: Result<seq<Record>>)
      modifies this`data
      ensures validatedData.None? ==> r == Err(AssertionFailed) && data == old(data)
      ensures validatedData.Some? && old(data).Some? ==> r == Ok(old(data).value) && data == old(data)
      ensures validatedData.Some? && old(data).None? ==>
                r == Ok(FreshData(child, instance, validatedData.value, errors, allowErrors, initialData)) && data == Some(r.value)
    {
      if validatedData.None? {
        return Err(AssertionFailed);
      }
      if data.None? {
        data := Some(FreshData(child, instance, validatedData.value, errors, allowErrors, initialData));
      }
      return Ok(data.value);
    }

    /** BulkListSerializer.update: the whole plan is decided first; then each matched
        object is updated once, in queryset order. A refused plan updates nothing. */
    method Update(queryset: seq<Record>, allValidatedData: seq<Record>) returns (r: Result<seq<Record>>)
      modifies this`updateCalls
      ensures match PlanUpdate(queryset, allValidatedData, child.idAttr)
              case Plan(pairs) => r == Ok(ApplyUpdates(child, pairs)) && updateCalls == old(updateCalls) + pairs
              case failure => r == Err(PlanError(failure)) && updateCalls == old(updateCalls)
    {
      var plan := PlanUpdate(queryset, allValidatedData, child.idAttr);
      if !plan.Plan? {
        return Err(PlanError(plan));
      }
      var updated := UpdateEach(plan.pairs);
      return Ok(updated);
    }

    /** The update loop: each matched object is handed to child.update once, in order. */
    method UpdateEach(pairs: seq<(Record, Record)>) returns (updated: seq<Record>)
      modifies this`updateCalls
      ensures updated == ApplyUpdates(child, pairs)
      ensures updateCalls == old(updateCalls) + pairs
    {
      updated := [];
      var i := 0;
      while i < |pairs|
        invariant 0 <= i <= |pairs|
        invariant updated == ApplyUpdates(child, pairs[..i])
        invariant updateCalls == old(updateCalls) + pairs[..i]
      {
        ApplyUpdatesStep(child, pairs, i);
        updated := updated + [child.update(pairs[i].0, pairs[i].1)];
        updateCalls := updateCalls + [pairs[i]];
        assert pairs[..i + 1] == pairs[..i] + [pairs[i]];
        i := i + 1;
      }
      assert pairs[..|pairs|] == pairs;
    }

    /** save: refused before validation; otherwise creates each validated record, or
        updates the bound queryset when an instance is bound. */
    method Save() returns (r: Result<seq<Record>>)
      requires Valid()
      modifies this`instance, this`createCalls, this`updateCalls
      ensures Valid()
      ensures validatedData.None? ==>
                r == Err(AssertionFailed) && instance == old(instance)
                && createCalls == old(createCalls) && updateCalls == old(updateCalls)
      ensures validatedData.Some? && old(instance).None? ==>
                r == Ok(MapRecords(child.create, validatedData.value)) && instance == Some(r.value)
                && createCalls == old(createCalls) + validatedData.value && updateCalls == old(updateCalls)
      ensures validatedData.Some? && old(instance).Some? ==>
                createCalls == old(createCalls) &&
                match PlanUpdate(old(instance).value, validatedData.value, child.idAttr)
                case Plan(pairs) =>
                  r == Ok(ApplyUpdates(child, pairs)) && instance == Some(r.value) && updateCalls == old(updateCalls) + pairs
                case failure =>
                  r == Err(PlanError(failure)) && instance == old(instance) && updateCalls == old(updateCalls)
    {
      if validatedData.None? {
        return Err(AssertionFailed);
      }
      var records := validatedData.value;
      if instance.None? {
        var created: seq<Record> := [];
        var i := 0;
        while i < |records|
          invariant 0 <= i <= |records|
          invariant created == MapRecords(child.create, records[..i])
          invariant createCalls == old(createCalls) + records[..i]
          invariant instance == old(instance) && updateCalls == old(updateCalls)
        {
          created := created + [child.create(records[i])];
          createCalls := createCalls + [records[i]];
          assert records[..i + 1] == records[..i] + [records[i]];
          i := i + 1;
        }
        assert records[..|records|] == records;
        instance := Some(created);
        return Ok(created);
      }
      r := Update(instance.value, records);
      if r.Ok? {
        instance := Some(r.value);
      }
    }
  }
}
