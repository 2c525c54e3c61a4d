/**
  `GET` and `POST` of `/api/correspondence`. `POST` checks the session, then the role, then
  reads the JSON body and inserts one row built from it; any error thrown on the way becomes
  a 500. The body is a parsed JSON object, or None when reading it throws.
*/
module CorrespondenceRoute {
  import opened Wrappers
  import opened Js
  import opened Schema
  import opened Authorization
  import opened Http
  import Queries
  import Store

  /** The insert values `POST` builds from the body and the session user's id. */
  function ValuesFromBody(body: map<string, Value>, userId: string, parseDate: string -> Option<int>): (v: Store.Values)
    ensures v.createdById == NumberOf(userId)
    ensures v.referenceNumber == Prop(body, "referenceNumber")
    ensures v.priority == Prop(body, "priority") && v.status == Prop(body, "status")
    ensures v.assignedToId == Or(Prop(body, "assignedToId"), Null)
    ensures v.departmentId == Or(Prop(body, "departmentId"), Null)
    ensures v.completedDate == if Truthy(Prop(body, "completedDate")) then NewDate(Prop(body, "completedDate"), parseDate) else Null
    ensures v.receivedDate == NewDate(Prop(body, "receivedDate"), parseDate)
    ensures v.dueDate == NewDate(Prop(body, "dueDate"), parseDate)
  {
    Store.Values(
      referenceNumber := Prop(body, "referenceNumber"),
      subject := Prop(body, "subject"),
      description := Prop(body, "description"),
      kind := Prop(body, "type"),
      priority := Prop(body, "priority"),
      status := Prop(body, "status"),
      senderName := Prop(body, "senderName"),
      senderEmail := Prop(body, "senderEmail"),
      senderPhone := Prop(body, "senderPhone"),
      senderOrganization := Prop(body, "senderOrganization"),
      senderAddress := Prop(body, "senderAddress"),
      assignedToId := Or(Prop(body, "assignedToId"), Null),
      departmentId := Or(Prop(body, "departmentId"), Null),
      receivedDate := NewDate(Prop(body, "receivedDate"), parseDate),
      dueDate := NewDate(Prop(body, "dueDate"), parseDate),
      completedDate :=
        if Truthy(Prop(body, "completedDate")) then NewDate(Prop(body, "completedDate"), parseDate) else Null,
      notes := Prop(body, "notes"),
      createdById := NumberOf(userId))
  }

  const CreateFailed: Response := Response(500, ErrorBody("Failed to create correspondence"))

  /** `POST /api/correspondence` against `store`, at instant `now`. */
  method Post(store: Store.CorrespondenceStore, session: Option<Session>, body: Option<map<string, Value>>,
              now: int, parseDate: string -> Option<int>)
    returns (resp: Response)
    requires store.Valid()
    modifies store
    ensures store.Valid()
    ensures GateFor(session).NoUser? ==>
      resp == Response(401, ErrorBody("Unauthorized")) && unchanged(store)
    ensures GateFor(session).NotPermitted? ==>
      resp == Response(403, ErrorBody("Forbidden")) && unchanged(store)
    ensures GateFor(session).Permitted? && body.None? ==> resp == CreateFailed && unchanged(store)
    ensures GateFor(session).Permitted? && body.Some? ==>
      var out := Store.InsertOutcome(old(store.db), ValuesFromBody(body.value, GateFor(session).user.id, parseDate),
                                     old(store.nextId), now);
      && (out.Success? ==>
            && resp == Response(201, RowBody(out.value))
            && store.db == WithCorrespondence(old(store.db), out.value)
            && store.nextId == old(store.nextId) + 1)
      && (out.Failure? ==> resp == CreateFailed && unchanged(store))
  {
    match GateFor(session)
    case NoUser =>
      return Response(401, ErrorBody("Unauthorized"));
    case NotPermitted =>
      return Response(403, ErrorBody("Forbidden"));
    case Permitted(user) =>
      if body.None? {
        return CreateFailed;
      }
      var r := store.Insert(ValuesFromBody(body.value, user.id, parseDate), now);
      if r.Success? {
        resp := Response(201, RowBody(r.value));
      } else {
        resp := CreateFailed;
      }
  }

  /** The row a successful `POST` stores, when there is one. */
  function PostedRow(db: Database, id: nat, body: map<string, Value>, userId: string,
                     now: int, parseDate: string -> Option<int>): Option<Correspondence>
  {
    var out := Store.InsertOutcome(db, ValuesFromBody(body, userId, parseDate), id, now);
    if out.Success? then Some(out.value) else None
  }

  /** A falsy `assignedToId` or `departmentId` (absent, null, 0 or '') is stored as null, and a
      falsy `completedDate` leaves the completion date null whatever the status. */
  lemma FalsyValuesStoredAsNull(db: Database, id: nat, body: map<string, Value>, userId: string,
                                now: int, parseDate: string -> Option<int>)
    requires PostedRow(db, id, body, userId, now, parseDate).Some?
    ensures var row := PostedRow(db, id, body, userId, now, parseDate).value;
      && (!Truthy(Prop(body, "assignedToId")) ==> row.assignedToId == None)
      && (!Truthy(Prop(body, "departmentId")) ==> row.departmentId == None)
      && (!Truthy(Prop(body, "completedDate")) ==> row.completedDate == None)
  {
  }

  /** The stored row records the session user, as `Number(session.user.id)`, as its creator,
      keeps the body's reference number verbatim, and takes the column defaults for a missing
      priority or status. */
  lemma PostedRowSources(db: Database, id: nat, body: map<string, Value>, userId: string,
                         now: int, parseDate: string -> Option<int>)
    requires PostedRow(db, id, body, userId, now, parseDate).Some?
    ensures var row := PostedRow(db, id, body, userId, now, parseDate).value;
      && NumberOf(userId) == Num(row.createdById)
      && (Prop(body, "referenceNumber").Str? ==> row.referenceNumber == Prop(body, "referenceNumber").s)
      && ("priority" !in body ==> row.priority == DefaultPriority)
      && ("status" !in body ==> row.status == DefaultStatus)
      && row.id == id && row.createdAt == now
  {
  }

  /** A body without a due date never creates a row. */
  lemma DueDateRequired(db: Database, id: nat, body: map<string, Value>, userId: string,
                        now: int, parseDate: string -> Option<int>)
    requires "dueDate" !in body
    ensures PostedRow(db, id, body, userId, now, parseDate).None?
  {
    assert ValuesFromBody(body, userId, parseDate).dueDate == NaN;
  }

  /** `GET /api/correspondence`: every row with its joins, newest first. */
  method Get(store: Store.CorrespondenceStore) returns (resp: Response)
    ensures resp == Response(200, ListBody(Queries.ListCorrespondence(store.db)))
  {
    var rows := store.List();
    resp := Response(200, ListBody(rows));
  }
}
