/**
  The server action `createCorrespondence`: the same two checks as `POST`, failing by throwing,
  then an insert whose reference number is always freshly generated and whose status and
  completion date are never set. `year` and `draw` stand for the clock's year and the random
  draw of the reference number.
*/
module Actions {
  import opened Wrappers
  import opened Js
  import opened Schema
  import opened Authorization
  import DateUtils
  import Store

  /** The insert values `createCorrespondence` builds from its argument and the generated
      reference number. */
  function ValuesFromInput(input: map<string, Value>, referenceNumber: string, parseDate: string -> Option<int>): (v: Store.Values)
    ensures v.referenceNumber == Str(referenceNumber)
    ensures v.status == Undefined && v.completedDate == Undefined
    ensures v.createdById == Prop(input, "createdById")
    ensures v.assignedToId == Prop(input, "assignedToId") && v.departmentId == Prop(input, "departmentId")
  {
    Store.Values(
      referenceNumber := Str(referenceNumber),
      subject := Prop(input, "subject"),
      description := Prop(input, "description"),
      kind := Prop(input, "type"),
      priority := Prop(input, "priority"),
      status := Undefined,
      senderName := Prop(input, "senderName"),
      senderEmail := Prop(input, "senderEmail"),
      senderPhone := Prop(input, "senderPhone"),
      senderOrganization := Prop(input, "senderOrganization"),
      senderAddress := Prop(input, "senderAddress"),
      assignedToId := Prop(input, "assignedToId"),
      departmentId := Prop(input, "departmentId"),
      receivedDate := NewDate(Prop(input, "receivedDate"), parseDate),
      dueDate := NewDate(Prop(input, "dueDate"), parseDate),
      completedDate := Undefined,
      notes := Prop(input, "notes"),
      createdById := Prop(input, "createdById"))
  }

  const Forbidden: string := "Forbidden: insufficient permissions"

  /** `createCorrespondence(formData)` against `store`. */
  method CreateCorrespondence(store: Store.CorrespondenceStore, session: Option<Session>, input: map<string, Value>,
                              year: int, draw: nat, now: int, parseDate: string -> Option<int>)
    returns (r: Result<Correspondence, string>)
    requires draw < 10000
    requires store.Valid()
    modifies store
    ensures store.Valid()
    ensures GateFor(session).NoUser? ==> r == Failure("Unauthorized") && unchanged(store)
    ensures GateFor(session).NotPermitted? ==> r == Failure(Forbidden) && unchanged(store)
    ensures GateFor(session).Permitted? ==>
      && r == Store.InsertOutcome(old(store.db),
                ValuesFromInput(input, DateUtils.ReferenceNumber(year, draw), parseDate), old(store.nextId), now)
      && (r.Success? ==> store.db == WithCorrespondence(old(store.db), r.value) && store.nextId == old(store.nextId) + 1)
      && (r.Failure? ==> unchanged(store))
  {
    var s :- RequireAuth(session);
    if !CanMutate(s.user.value.role) {
      return Failure(Forbidden);
    }
    var referenceNumber := DateUtils.ReferenceNumber(year, draw);
    r := store.Insert(ValuesFromInput(input, referenceNumber, parseDate), now);
  }

  /** The outcome of the insert for a caller who passes both checks. */
  function Created(db: Database, id: nat, input: map<string, Value>, year: int, draw: nat,
                   now: int, parseDate: string -> Option<int>): Result<Correspondence, string>
    requires draw < 10000
  {
    Store.InsertOutcome(db, ValuesFromInput(input, DateUtils.ReferenceNumber(year, draw), parseDate), id, now)
  }

  /** A created row carries the generated reference number, starts out pending with no
      completion date, and names as its creator the `createdById` of the argument. */
  lemma CreatedRowSources(db: Database, id: nat, input: map<string, Value>, year: int, draw: nat,
                          now: int, parseDate: string -> Option<int>)
    requires draw < 10000
    requires Created(db, id, input, year, draw, now, parseDate).Success?
    ensures var row := Created(db, id, input, year, draw, now, parseDate).value;
      && row.referenceNumber == DateUtils.ReferenceNumber(year, draw)
      && DateUtils.ParseReferenceNumber(row.referenceNumber) == Some((year, draw))
      && row.status == Pending
      && row.completedDate == None
      && (Prop(input, "createdById").Num? ==> row.createdById == Prop(input, "createdById").n)
  {
    DateUtils.ReferenceNumberRoundTrip(year, draw);
  }

  /** A `referenceNumber` in the argument is ignored, and so is the session: neither reaches
      the inserted values. */
  lemma ReferenceNumberNotFromInput(input: map<string, Value>, v: Value, referenceNumber: string,
                                    parseDate: string -> Option<int>)
    ensures ValuesFromInput(input["referenceNumber" := v], referenceNumber, parseDate)
         == ValuesFromInput(input, referenceNumber, parseDate)
  {
  }

  /** Unlike `POST`, which turns a `0` assignee into null, the action passes `0` through, and
      the insert is refused when no user has id 0. */
  lemma ZeroAssigneeRefused(db: Database, id: nat, input: map<string, Value>, year: int, draw: nat,
                            now: int, parseDate: string -> Option<int>)
    requires draw < 10000
    requires Prop(input, "assignedToId") == Num(0) && 0 !in UserIds(db)
    ensures Created(db, id, input, year, draw, now, parseDate).Failure?
  {
  }
}
