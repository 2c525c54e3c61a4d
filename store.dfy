/**
  The database as the create paths and the queries see it: one object holding the tables and
  the next value of the `correspondence.id` serial. An insert turns the values the caller hands
  to the query builder into a row the way the database does (omitted columns take their
  default, an explicit null in a NOT NULL column is refused, enum columns accept only their
  labels), then checks the key constraints and appends.
*/
module Store {
  import opened Wrappers
  import opened Js
  import opened Schema
  import Queries

  /** The values an insert supplies, one per column, as JavaScript values: `Undefined` leaves the
      column out of the statement. A timestamp is a `Date`, stood for by its millisecond value
      `Num(ms)`, by `Null`, or by `NaN` for an invalid date. */
  datatype Values = Values(
    referenceNumber: Value,
    subject: Value,
    description: Value,
    kind: Value,
    priority: Value,
    status: Value,
    senderName: Value,
    senderEmail: Value,
    senderPhone: Value,
    senderOrganization: Value,
    senderAddress: Value,
    assignedToId: Value,
    departmentId: Value,
    receivedDate: Value,
    dueDate: Value,
    completedDate: Value,
    notes: Value,
    createdById: Value)

  function NotNull(column: string): string {
    "null value in column \"" + column + "\" violates not-null constraint"
  }

  /** A NOT NULL text column without a default. */
  function RequiredText(column: string, v: Value): (r: Result<string, string>)
    ensures r.Failure? <==> v == Undefined || v == Null
    ensures v.Str? ==> r == Success(v.s)
  {
    if v == Undefined || v == Null then Failure(NotNull(column)) else Success(ToString(v))
  }

  /** A nullable text column. */
  function OptionalText(v: Value): (r: Option<string>)
    ensures r.None? <==> v == Undefined || v == Null
    ensures v.Str? ==> r == Some(v.s)
  {
    if v == Undefined || v == Null then None else Some(ToString(v))
  }

  /** The range of PostgreSQL's `integer` (int4) type. */
  const Int4Min: int := -0x8000_0000
  const Int4Max: int := 0x7fff_ffff

  predicate InInt4(n: int) {
    Int4Min <= n <= Int4Max
  }

  /** The white space PostgreSQL's integer input skips around the number (C's `isspace`:
      space, tab, line feed, vertical tab, form feed and carriage return). */
  predicate IsPgSpace(c: char) {
    c == ' ' || c == '\t' || c == '\n' || c == '\r' || c as int == 0x0B || c as int == 0x0C
  }

  function InvalidInteger(s: string): string {
    "invalid input syntax for type integer: \"" + s + "\""
  }

  function OutOfRange(s: string): string {
    "value \"" + s + "\" is out of range for type integer"
  }

  /** PostgreSQL's text input for `integer`: white space around an optionally signed run of
      decimal digits, whose value must lie in the int4 range. */
  function IntegerText(s: string): (r: Result<int, string>)
    ensures r.Success? ==> InInt4(r.value)
  {
    match SignedDigits(Trim(s, IsPgSpace))
    case None => Failure(InvalidInteger(s))
    case Some(n) => if InInt4(n) then Success(n) else Failure(OutOfRange(s))
  }

  /** An integer column. The driver sends a JavaScript value as its `String()` text, which the
      database reads as an integer. */
  function IntegerOf(v: Value): (r: Result<int, string>)
    requires v != Undefined && v != Null
    ensures r.Success? ==> InInt4(r.value)
    ensures v.Num? ==> (r.Success? <==> InInt4(v.n))
    ensures v.Num? && r.Success? ==> r.value == v.n
    ensures v == NaN ==> r.Failure?
  {
    match v
    case Num(n) => IntegerTextOfInt(n); IntegerText(IntToString(n))
    case NaN => NotIntegerText("NaN"); IntegerText("NaN")
    case Str(s) => IntegerText(s)
  }

  lemma IntegerTextOfInt(i: int)
    ensures IntegerText(IntToString(i)).Success? <==> InInt4(i)
    ensures IntegerText(IntToString(i)).Success? ==> IntegerText(IntToString(i)).value == i
  {
    IntegerTextPadded([], i, false, []);
    assert [] + SignedString(i, false) + [] == IntToString(i);
  }

  /** A text that starts with neither a digit, a sign nor white space is not an integer, as
      `String(NaN)` is not. */
  lemma NotIntegerText(t: string)
    requires t != [] && !IsDigit(t[0]) && t[0] != '+' && t[0] != '-'
    requires !IsPgSpace(t[0]) && !IsPgSpace(t[|t| - 1])
    ensures IntegerText(t).Failure?
  {
    assert [] + t + [] == t;
    TrimPadded([], t, [], IsPgSpace);
    assert !AllDigits(t) by {
      assert !IsDigit(t[0]);
    }
    assert SignedDigits(t) == None;
  }


  /** The database reads back every int4 value's `toString`, also with a `+` in front of a
      non-negative one and with white space around it; a value outside int4 is refused. */
  lemma IntegerTextPadded(front: string, i: int, plus: bool, back: string)
    requires AllSpace(front, IsPgSpace) && AllSpace(back, IsPgSpace)
    requires plus ==> i >= 0
    ensures var r := IntegerText(front + SignedString(i, plus) + back);
      (r.Success? <==> InInt4(i)) && (r.Success? ==> r.value == i)
  {
    SignedDigitsPadded(front, i, plus, back, IsPgSpace);
  }


  /** A nullable integer column. */
  function OptionalInteger(v: Value): (r: Result<Option<int>, string>)
    ensures v == Undefined || v == Null ==> r == Success(None)
    ensures v.Num? ==> (r.Success? <==> InInt4(v.n))
    ensures v.Num? && r.Success? ==> r.value == Some(v.n)
    ensures r.Success? && r.value.Some? ==> InInt4(r.value.value)
  {
    if v == Undefined || v == Null then Success(None)
    else match IntegerOf(v)
      case Success(n) => Success(Some(n))
      case Failure(e) => Failure(e)
  }

  /** A timestamp value: an invalid date throws before the statement is sent. */
  function TimestampOf(v: Value): (r: Result<int, string>)
    requires v != Undefined && v != Null
    ensures v.Num? ==> r == Success(v.n)
  {
    if v.Num? then Success(v.n) else Failure("Invalid time value")
  }

  /** An enum column with a default: omitted takes the default, null is refused, and a string
      must be one of the labels. */
  function EnumOf<E>(column: string, v: Value, default: Option<E>, parse: string -> Option<E>): (r: Result<E, string>)
    ensures v == Undefined && default.Some? ==> r == Success(default.value)
    ensures v.Str? && parse(v.s).Some? ==> r == Success(parse(v.s).value)
    ensures r.Success? ==> (v == Undefined && default.Some? && r.value == default.value) || (v.Str? && parse(v.s) == Some(r.value))
  {
    if v == Undefined && default.Some? then Success(default.value)
    else if v == Undefined || v == Null then Failure(NotNull(column))
    else if v.Str? && parse(v.s).Some? then Success(parse(v.s).value)
    else Failure("invalid input value for enum " + column)
  }

  /** The row the database would build from `v`, with the serial value `id` and the statement
      time `now` for the `defaultNow()` columns; or the reason it refuses the values. */
  function RowOf(v: Values, id: nat, now: int): (r: Result<Correspondence, string>)
    ensures r.Success? ==> r.value.id == id && r.value.createdAt == now && r.value.updatedAt == now
    ensures r.Success? ==> r.value.attachments == None
    ensures v.priority == Undefined && r.Success? ==> r.value.priority == DefaultPriority
    ensures v.status == Undefined && r.Success? ==> r.value.status == DefaultStatus
    ensures v.receivedDate == Undefined && r.Success? ==> r.value.receivedDate == now
    ensures v.referenceNumber.Str? && r.Success? ==> r.value.referenceNumber == v.referenceNumber.s
    ensures (v.assignedToId == Undefined || v.assignedToId == Null) && r.Success? ==> r.value.assignedToId == None
    ensures (v.departmentId == Undefined || v.departmentId == Null) && r.Success? ==> r.value.departmentId == None
    ensures v.assignedToId.Num? && r.Success? ==> r.value.assignedToId == Some(v.assignedToId.n)
    ensures v.departmentId.Num? && r.Success? ==> r.value.departmentId == Some(v.departmentId.n)
    ensures (v.completedDate == Undefined || v.completedDate == Null) && r.Success? ==> r.value.completedDate == None
    ensures v.createdById.Num? && r.Success? ==> r.value.createdById == v.createdById.n
    ensures r.Success? ==> v.dueDate.Num? && r.value.dueDate == v.dueDate.n
    ensures v.dueDate == Undefined || v.dueDate == Null || v.createdById == Undefined || v.createdById == Null ==> r.Failure?
  {
    var (referenceNumber, subject, description, kind, priority, status, senderName) :- Descriptive(v);
    var (assignedToId, departmentId) :- Links(v);
    var (receivedDate, dueDate, completedDate) :- Dates(v, now);
    var createdById :- Creator(v);
    Success(Correspondence(
      id, referenceNumber, subject, description, kind, priority, status, senderName,
      OptionalText(v.senderEmail), OptionalText(v.senderPhone),
      OptionalText(v.senderOrganization), OptionalText(v.senderAddress),
      assignedToId, departmentId, receivedDate, dueDate, completedDate,
      None, OptionalText(v.notes), createdById, now, now))
  }

  /** The NOT NULL text and enum columns, in column order. */
  function Descriptive(v: Values): (r: Result<(string, string, string, CorrespondenceType, Priority, Status, string), string>)
    ensures v.referenceNumber.Str? && r.Success? ==> r.value.0 == v.referenceNumber.s
    ensures v.priority == Undefined && r.Success? ==> r.value.4 == DefaultPriority
    ensures v.status == Undefined && r.Success? ==> r.value.5 == DefaultStatus
  {
    var referenceNumber :- RequiredText("reference_number", v.referenceNumber);
    var subject :- RequiredText("subject", v.subject);
    var description :- RequiredText("description", v.description);
    var kind :- EnumOf("correspondence_type", v.kind, None, ParseType);
    var priority :- EnumOf("priority", v.priority, Some(DefaultPriority), ParsePriority);
    var status :- EnumOf("status", v.status, Some(DefaultStatus), ParseStatus);
    var senderName :- RequiredText("sender_name", v.senderName);
    Success((referenceNumber, subject, description, kind, priority, status, senderName))
  }

  /** The two nullable foreign keys. */
  function Links(v: Values): (r: Result<(Option<int>, Option<int>), string>)
    ensures (v.assignedToId == Undefined || v.assignedToId == Null) && r.Success? ==> r.value.0 == None
    ensures (v.departmentId == Undefined || v.departmentId == Null) && r.Success? ==> r.value.1 == None
    ensures v.assignedToId.Num? && r.Success? ==> r.value.0 == Some(v.assignedToId.n)
    ensures v.departmentId.Num? && r.Success? ==> r.value.1 == Some(v.departmentId.n)
  {
    var assignedToId :- OptionalInteger(v.assignedToId);
    var departmentId :- OptionalInteger(v.departmentId);
    Success((assignedToId, departmentId))
  }

  /** The received date (defaulting to the statement time), the due date (NOT NULL, no
      default) and the nullable completion date. */
  function Dates(v: Values, now: int): (r: Result<(int, int, Option<int>), string>)
    ensures v.receivedDate == Undefined && r.Success? ==> r.value.0 == now
    ensures v.dueDate == Undefined || v.dueDate == Null ==> r.Failure?
    ensures r.Success? ==> v.dueDate.Num? && r.value.1 == v.dueDate.n
    ensures (v.completedDate == Undefined || v.completedDate == Null) && r.Success? ==> r.value.2 == None
  {
    var receivedDate :-
      if v.receivedDate == Undefined then Success(now)
      else if v.receivedDate == Null then Failure(NotNull("received_date"))
      else TimestampOf(v.receivedDate);
    var dueDate :-
      if v.dueDate == Undefined || v.dueDate == Null then Failure(NotNull("due_date"))
      else TimestampOf(v.dueDate);
    var completedDate :-
      if v.completedDate == Undefined || v.completedDate == Null then Success(None)
      else match TimestampOf(v.completedDate)
        case Success(t) => Success(Some(t))
        case Failure(e) => Failure(e);
    Success((receivedDate, dueDate, completedDate))
  }

  /** The NOT NULL integer `created_by_id`. */
  function Creator(v: Values): (r: Result<int, string>)
    ensures v.createdById == Undefined || v.createdById == Null ==> r.Failure?
    ensures v.createdById.Num? ==> (r.Success? <==> InInt4(v.createdById.n))
    ensures v.createdById.Num? && r.Success? ==> r.value == v.createdById.n
  {
    if v.createdById == Undefined || v.createdById == Null then Failure(NotNull("created_by_id"))
    else IntegerOf(v.createdById)
  }

  /** The outcome of inserting `v` into `db` when the serial yields `id`. */
  function InsertOutcome(db: Database, v: Values, id: nat, now: int): (r: Result<Correspondence, string>)
    ensures r.Success? <==> RowOf(v, id, now).Success? && InsertViolation(db, RowOf(v, id, now).value).None?
    ensures r.Success? ==> r == RowOf(v, id, now)
  {
    var row :- RowOf(v, id, now);
    match InsertViolation(db, row)
    case Some(constraint) => Failure("violates constraint " + constraint)
    case None => Success(row)
  }

  class CorrespondenceStore {
    var db: Database
    /** The next value of the `correspondence.id` serial. */
    var nextId: nat

    ghost predicate Valid()
      reads this
    {
      WellFormed(db) && nextId >= 1 && forall r :: r in db.correspondence ==> r.id < nextId
    }

    /** A store whose correspondence, comment and activity tables are empty. */
    constructor (users: seq<User>, departments: seq<Department>)
      requires WellFormed(Database(users, departments, [], [], []))
      ensures Valid()
      ensures db == Database(users, departments, [], [], []) && nextId == 1
    {
      db := Database(users, departments, [], [], []);
      nextId := 1;
    }

    /** `db.insert(correspondence).values(v).returning()`: on success exactly one row, the
        returned one, is appended; on failure nothing changes. */
    method Insert(v: Values, now: int) returns (r: Result<Correspondence, string>)
      requires Valid()
      modifies this
      ensures Valid()
      ensures r == InsertOutcome(old(db), v, old(nextId), now)
      ensures r.Success? ==> db == WithCorrespondence(old(db), r.value) && nextId == old(nextId) + 1
      ensures r.Failure? ==> unchanged(this)
    {
      r := InsertOutcome(db, v, nextId, now);
      if r.Success? {
        InsertPreservesWellFormed(db, r.value);
        db := WithCorrespondence(db, r.value);
        nextId := nextId + 1;
      }
    }

    /** The statistics over the current table. */
    method Stats() returns (st: Queries.Stats)
      ensures st == Queries.StatsOf(db.correspondence)
    {
      st := Queries.StatsOf(db.correspondence);
    }

    /** The current table, newest first, joined with assignees and divisions. */
    method List() returns (rows: seq<Queries.Listed>)
      ensures rows == Queries.ListCorrespondence(db)
    {
      rows := Queries.ListCorrespondence(db);
    }
  }

  /** The serial never collides: a row the database accepts can fail only on its reference
      number or on a foreign key, never on the primary key. */
  lemma SerialIdIsFresh(db: Database, nextId: nat, v: Values, now: int)
    requires forall r :: r in db.correspondence ==> r.id < nextId
    requires RowOf(v, nextId, now).Success?
    ensures InsertViolation(db, RowOf(v, nextId, now).value) != Some("correspondence_pkey")
  {
  }
}
