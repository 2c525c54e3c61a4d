/**
  The create/edit form's state. `formData` is a record of sixteen fields, held here as a map
  from field name to JavaScript value, so that a missing key and a key holding `undefined` stay
  apart as they do in an object spread. The form starts from its `initialData` with `||`
  fallbacks, merges a newly arrived `initialData` into its state, is changed one field at a
  time by the inputs, and submits its state as it is.

  The clock enters through `today` and `weekAhead` (the `yyyy-mm-dd` strings of now and of
  seven days later), the random reference number through `generated`, and the conversion
  `new Date(v).toISOString().split('T')[0]` through `isoDay`.
*/
module Form {
  import opened Wrappers
  import opened Js
  import Schema
  import CorrespondenceRoute

  /** The fields of `CorrespondenceData`. */
  const FormKeys: set<string> := {
    "referenceNumber", "subject", "description", "type", "priority", "status", "senderName",
    "senderEmail", "senderPhone", "senderOrganization", "senderAddress", "receivedDate",
    "dueDate", "notes", "assignedToId", "divisionId"}

  /** The fields the merge keeps from the previous state when the incoming value is falsy. */
  const GuardedKeys: set<string> := {"referenceNumber", "type", "priority", "status"}

  /** The fields the merge converts to a calendar day. */
  const DateKeys: set<string> := {"receivedDate", "dueDate"}

  /** `initialData?.key`: `undefined` when there is no initial data or no such key. */
  function InitProp(init: Option<map<string, Value>>, key: string): Value {
    if init.Some? then Prop(init.value, key) else Undefined
  }

  /** The fallback of each field in the initial state. */
  function Fallback(key: string, generated: string, today: string, weekAhead: string): Value {
    match key
    case "referenceNumber" => Str(generated)
    case "type" => Str("letter")
    case "priority" => Str("normal")
    case "status" => Str("pending")
    case "receivedDate" => Str(today)
    case "dueDate" => Str(weekAhead)
    case "assignedToId" => Null
    case "divisionId" => Null
    case _ => Str("")
  }

  /** The state the form starts from: each field the initial value when that is truthy,
      otherwise its fallback. */
  function InitialFormData(init: Option<map<string, Value>>, generated: string, today: string, weekAhead: string)
    : (m: map<string, Value>)
    ensures m.Keys == FormKeys
    ensures forall k :: k in m ==> m[k] == if Truthy(InitProp(init, k)) then InitProp(init, k) else Fallback(k, generated, today, weekAhead)
  {
    map k | k in FormKeys :: Or(InitProp(init, k), Fallback(k, generated, today, weekAhead))
  }

  /** Without initial data the form opens on a letter of normal priority, pending, with a
      generated reference number, empty text fields and no assignee or division; a falsy
      initial id, `0` included, also opens as no selection. */
  lemma InitialDefaults(init: Option<map<string, Value>>, generated: string, today: string, weekAhead: string)
    ensures var m := InitialFormData(None, generated, today, weekAhead);
      && m["type"] == Str("letter") && m["priority"] == Str("normal") && m["status"] == Str("pending")
      && m["referenceNumber"] == Str(generated)
      && m["subject"] == Str("") && m["senderName"] == Str("") && m["notes"] == Str("")
      && m["assignedToId"] == Null && m["divisionId"] == Null
    ensures InitProp(init, "assignedToId") == Num(0) ==>
      InitialFormData(init, generated, today, weekAhead)["assignedToId"] == Null
  {
    assert "type" in FormKeys && "priority" in FormKeys && "status" in FormKeys;
    assert "referenceNumber" in FormKeys && "subject" in FormKeys && "senderName" in FormKeys;
    assert "notes" in FormKeys && "assignedToId" in FormKeys && "divisionId" in FormKeys;
  }

  /** The state after the effect that runs when `initialData` changes: the previous state,
      overwritten by every key of `init`, except that the four guarded fields keep their
      previous value when the incoming one is falsy and the two dates are converted to a day,
      or kept when falsy. */
  function Merge(prev: map<string, Value>, init: map<string, Value>, isoDay: Value -> string): (m: map<string, Value>)
    ensures m.Keys == prev.Keys + init.Keys + GuardedKeys + DateKeys
    ensures forall k :: k in GuardedKeys ==>
      m[k] == if Truthy(Prop(init, k)) then Prop(init, k) else Prop(prev, k)
    ensures forall k :: k in DateKeys ==>
      m[k] == if Truthy(Prop(init, k)) then Str(isoDay(Prop(init, k))) else Prop(prev, k)
    ensures forall k :: k in m && k !in GuardedKeys && k !in DateKeys ==>
      m[k] == if k in init then init[k] else prev[k]
  {
    map k | k in prev.Keys + init.Keys + GuardedKeys + DateKeys :: MergedField(prev, init, isoDay, k)
  }

  /** One field of `{...prev, ...init, referenceNumber: ..., dueDate: ...}`: the explicit
      entries written after the spreads win, then `init`'s own keys, then `prev`'s. */
  function MergedField(prev: map<string, Value>, init: map<string, Value>, isoDay: Value -> string, k: string): (v: Value)
    ensures k !in DateKeys && Truthy(Prop(init, k)) ==> v == init[k]
    ensures k in DateKeys && Truthy(Prop(init, k)) ==> v == Str(isoDay(init[k]))
    ensures !Truthy(Prop(init, k)) && (k in GuardedKeys || k in DateKeys || k !in init) ==> v == Prop(prev, k)
  {
    if k in GuardedKeys then Or(Prop(init, k), Prop(prev, k))
    else if k in DateKeys then
      if Truthy(Prop(init, k)) then Str(isoDay(Prop(init, k))) else Prop(prev, k)
    else if k in init then init[k]
    else Prop(prev, k)
  }

  /** Running the effect twice with the same `initialData` leaves the state of the first run. */
  lemma MergeIdempotent(prev: map<string, Value>, init: map<string, Value>, isoDay: Value -> string)
    ensures Merge(Merge(prev, init, isoDay), init, isoDay) == Merge(prev, init, isoDay)
  {
    var once := Merge(prev, init, isoDay);
    var twice := Merge(once, init, isoDay);
    assert twice.Keys == once.Keys;
    forall k | k in twice ensures twice[k] == once[k] {
      if k in GuardedKeys || k in DateKeys {
        assert Prop(once, k) == once[k];
      }
    }
  }

  /** A state holding every field keeps every field through the merge, and gains only the
      keys `init` brings. */
  lemma MergeKeepsFields(prev: map<string, Value>, init: map<string, Value>, isoDay: Value -> string)
    requires FormKeys <= prev.Keys
    ensures Merge(prev, init, isoDay).Keys == prev.Keys + init.Keys
  {
  }

  /** The reference-number input is enabled only when the initial data brings no reference
      number (`disabled={!!initialData?.referenceNumber}`). */
  predicate ReferenceNumberEditable(init: Option<map<string, Value>>) {
    !Truthy(InitProp(init, "referenceNumber"))
  }

  /** A new item's reference number can be edited; when the input is locked, both the initial
      state and every merge show the initial data's reference number. */
  lemma LockedReferenceNumberIsInitial(init: map<string, Value>, prev: map<string, Value>, isoDay: Value -> string,
                                       generated: string, today: string, weekAhead: string)
    ensures ReferenceNumberEditable(None)
    ensures !ReferenceNumberEditable(Some(init)) ==>
      && InitialFormData(Some(init), generated, today, weekAhead)["referenceNumber"] == init["referenceNumber"]
      && Merge(prev, init, isoDay)["referenceNumber"] == init["referenceNumber"]
  {
    assert "referenceNumber" in FormKeys && "referenceNumber" in GuardedKeys;
  }

  // ---------------------------------------------------------------------------
  // The assignee and division selects

  /** The value the select shows: `"none"` for a falsy id, else the id's string. */
  function SelectDisplay(v: Value): (r: string)
    ensures !Truthy(v) ==> r == "none"
    ensures v.Num? ==> (r == "none" <==> v.n == 0)
  {
    if Truthy(v) then
      if v.Num? then IntToStringEnds(v.n); ToString(v) else ToString(v)
    else "none"
  }

  /** The id a choice sets: null for `"none"`, else `Number(value)`. */
  function SelectChoose(value: string): (r: Value)
    ensures r == Null <==> value == "none"
    ensures r == Null || r.Num? || r == NaN
  {
    if value == "none" then Null else NumberOf(value)
  }

  /** Showing an id and choosing what is shown gives back the id; a falsy id comes back null. */
  lemma SelectRoundTrip(id: int, v: Value)
    ensures id != 0 ==> SelectChoose(SelectDisplay(Num(id))) == Num(id)
    ensures !Truthy(v) ==> SelectChoose(SelectDisplay(v)) == Null
  {
    NumberOfIntToString(id);
    if id < 0 {
      assert IntToString(id)[0] == '-';
    } else {
      assert IsDigit(IntToString(id)[0]);
    }
  }

  /** Choosing an option whose value is an id's string and showing the result gives the option back. */
  lemma ChooseThenDisplay(id: int)
    requires id != 0
    ensures SelectDisplay(SelectChoose(IntToString(id))) == IntToString(id)
  {
    NumberOfIntToString(id);
    if id < 0 {
      assert IntToString(id)[0] == '-';
    } else {
      assert IsDigit(IntToString(id)[0]);
    }
  }

  // ---------------------------------------------------------------------------
  // Submission

  /** `JSON.stringify` of the state as the create page sends it: keys holding `undefined` are
      dropped and `NaN` is written as null. */
  function JsonBody(formData: map<string, Value>): (body: map<string, Value>)
    ensures forall k :: k in body <==> k in formData && formData[k] != Undefined
    ensures forall k :: k in body ==> body[k] != Undefined && body[k] != NaN
  {
    map k | k in formData && formData[k] != Undefined :: if formData[k] == NaN then Null else formData[k]
  }

  /** The form's state has no `departmentId` field: its fields are the sixteen above, and
      the division is held as `divisionId`. */
  lemma NoDepartmentField()
    ensures "departmentId" !in FormKeys && "divisionId" in FormKeys
  {
  }

  /** The form has no `departmentId` field and the route never reads `divisionId`, so a row
      created from the form never records a division. */
  lemma FormPostNeverSetsDepartment(formData: map<string, Value>, db: Schema.Database, id: nat, userId: string,
                                    now: int, parseDate: string -> Option<int>)
    requires "departmentId" !in formData
    requires CorrespondenceRoute.PostedRow(db, id, JsonBody(formData), userId, now, parseDate).Some?
    ensures CorrespondenceRoute.PostedRow(db, id, JsonBody(formData), userId, now, parseDate).value.departmentId == None
  {
    assert "departmentId" !in JsonBody(formData);
    CorrespondenceRoute.FalsyValuesStoredAsNull(db, id, JsonBody(formData), userId, now, parseDate);
  }

  class CorrespondenceForm {
    /** The `initialData` prop of the latest render. */
    var initialData: Option<map<string, Value>>
    var formData: map<string, Value>

    /** While the reference-number input is locked, the state shows the reference number of the
        initial data. */
    predicate ShowsLockedReferenceNumber()
      reads this
    {
      !ReferenceNumberEditable(initialData) ==>
        "referenceNumber" in formData && formData["referenceNumber"] == InitProp(initialData, "referenceNumber")
    }

    /** The first render: the state starts from `InitialFormData`, and the effect then runs
        once with the same `initialData`. */
    constructor (init: Option<map<string, Value>>, generated: string, today: string, weekAhead: string,
                 isoDay: Value -> string)
      ensures initialData == init
      ensures init.None? ==> formData == InitialFormData(init, generated, today, weekAhead)
      ensures init.Some? ==> formData == Merge(InitialFormData(init, generated, today, weekAhead), init.value, isoDay)
      ensures ShowsLockedReferenceNumber()
    {
      var start := InitialFormData(init, generated, today, weekAhead);
      if init.Some? {
        LockedReferenceNumberIsInitial(init.value, start, isoDay, generated, today, weekAhead);
      }
      initialData := init;
      formData := if init.Some? then Merge(start, init.value, isoDay) else start;
    }

    /** A render with a new `initialData`: the effect merges it when it is present. */
    method OnInitialDataChange(init: Option<map<string, Value>>, isoDay: Value -> string)
      modifies this
      ensures initialData == init
      ensures formData == if init.Some? then Merge(old(formData), init.value, isoDay) else old(formData)
      ensures ShowsLockedReferenceNumber()
    {
      if init.Some? {
        LockedReferenceNumberIsInitial(init.value, formData, isoDay, "", "", "");
      }
      initialData := init;
      if init.Some? {
        formData := Merge(formData, init.value, isoDay);
      }
    }

    /** A text input or the type, priority or status select: `{ ...formData, key: value }`. */
    method SetField(key: string, value: string)
      requires key in FormKeys - {"assignedToId", "divisionId"}
      requires key == "referenceNumber" ==> ReferenceNumberEditable(initialData)
      requires ShowsLockedReferenceNumber()
      modifies this
      ensures ShowsLockedReferenceNumber()
      ensures formData == old(formData)[key := Str(value)]
      ensures initialData == old(initialData)
    {
      formData := formData[key := Str(value)];
    }

    /** The assignee select. */
    method SelectAssignee(value: string)
      requires ShowsLockedReferenceNumber()
      modifies this
      ensures ShowsLockedReferenceNumber()
      ensures formData == old(formData)["assignedToId" := SelectChoose(value)]
      ensures initialData == old(initialData)
    {
      formData := formData["assignedToId" := SelectChoose(value)];
    }

    /** The division select. */
    method SelectDivision(value: string)
      requires ShowsLockedReferenceNumber()
      modifies this
      ensures ShowsLockedReferenceNumber()
      ensures formData == old(formData)["divisionId" := SelectChoose(value)]
      ensures initialData == old(initialData)
    {
      formData := formData["divisionId" := SelectChoose(value)];
    }

    /** `handleSubmit`: the state is passed on unchanged. */
    method HandleSubmit() returns (submitted: map<string, Value>)
      ensures submitted == formData
    {
      submitted := formData;
    }
  }
}
