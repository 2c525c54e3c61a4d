/**
  The database schema: the three enumerated types, the rows of the `users`, `departments`,
  `correspondence`, `activity_log` and `comments` tables, their column defaults, and the
  constraints the database enforces (primary keys, unique columns, foreign keys), gathered
  into one well-formedness predicate over the whole database.
*/
module Schema {
  import opened Wrappers

  // ---------------------------------------------------------------------------
  // Enumerated types

  datatype Priority = Low | Normal | High | Urgent
  datatype Status = Pending | InProgress | Completed | Overdue
  datatype CorrespondenceType = Letter | Email | Request | Submission | Complaint | Inquiry | Other

  /** The labels of the `priority` enum, in declaration order. */
  const PriorityLabels: seq<string> := ["low", "normal", "high", "urgent"]
  /** The labels of the `status` enum, in declaration order. */
  const StatusLabels: seq<string> := ["pending", "in_progress", "completed", "overdue"]
  /** The labels of the `correspondence_type` enum, in declaration order. */
  const TypeLabels: seq<string> := ["letter", "email", "request", "submission", "complaint", "inquiry", "other"]

  function PriorityName(p: Priority): string {
    match p
    case Low => "low"
    case Normal => "normal"
    case High => "high"
    case Urgent => "urgent"
  }

  function StatusName(s: Status): string {
    match s
    case Pending => "pending"
    case InProgress => "in_progress"
    case Completed => "completed"
    case Overdue => "overdue"
  }

  function TypeName(t: CorrespondenceType): string {
    match t
    case Letter => "letter"
    case Email => "email"
    case Request => "request"
    case Submission => "submission"
    case Complaint => "complaint"
    case Inquiry => "inquiry"
    case Other => "other"
  }

  /** The database's cast of a string to the `priority` enum: only the four labels are accepted. */
  function ParsePriority(s: string): (r: Option<Priority>)
    ensures r.Some? <==> s in PriorityLabels
    ensures r.Some? ==> PriorityName(r.value) == s
  {
    if s == "low" then Some(Low)
    else if s == "normal" then Some(Normal)
    else if s == "high" then Some(High)
    else if s == "urgent" then Some(Urgent)
    else None
  }

  /** The cast to the `status` enum: only the four labels are accepted. */
  function ParseStatus(s: string): (r: Option<Status>)
    ensures r.Some? <==> s in StatusLabels
    ensures r.Some? ==> StatusName(r.value) == s
  {
    if s == "pending" then Some(Pending)
    else if s == "in_progress" then Some(InProgress)
    else if s == "completed" then Some(Completed)
    else if s == "overdue" then Some(Overdue)
    else None
  }

  /** The cast to the `correspondence_type` enum: only the seven labels are accepted. */
  function ParseType(s: string): (r: Option<CorrespondenceType>)
    ensures r.Some? <==> s in TypeLabels
    ensures r.Some? ==> TypeName(r.value) == s
  {
    if s == "letter" then Some(Letter)
    else if s == "email" then Some(Email)
    else if s == "request" then Some(Request)
    else if s == "submission" then Some(Submission)
    else if s == "complaint" then Some(Complaint)
    else if s == "inquiry" then Some(Inquiry)
    else if s == "other" then Some(Other)
    else None
  }

  /** Every enum value is stored under its own label and reads back as itself. */
  lemma EnumNamesRoundTrip(p: Priority, s: Status, t: CorrespondenceType)
    ensures ParsePriority(PriorityName(p)) == Some(p)
    ensures ParseStatus(StatusName(s)) == Some(s)
    ensures ParseType(TypeName(t)) == Some(t)
  {
  }

  /** The label lists have no repeats, so the enums have exactly 4, 4 and 7 members. */
  lemma EnumSizes()
    ensures |PriorityLabels| == 4 && |StatusLabels| == 4 && |TypeLabels| == 7
    ensures forall i, j :: 0 <= i < j < |PriorityLabels| ==> PriorityLabels[i] != PriorityLabels[j]
    ensures forall i, j :: 0 <= i < j < |StatusLabels| ==> StatusLabels[i] != StatusLabels[j]
    ensures forall i, j :: 0 <= i < j < |TypeLabels| ==> TypeLabels[i] != TypeLabels[j]
  {
  }

  // ---------------------------------------------------------------------------
  // Column defaults

  const DefaultPriority: Priority := Normal
  const DefaultStatus: Status := Pending
  /** The role a user row gets when none is given. */
  const DefaultRole: string := "staff"

  // ---------------------------------------------------------------------------
  // Rows. Timestamps are milliseconds since the epoch; nullable columns are Options;
  // foreign-key columns are plain integers, checked against the referenced table.

  datatype User = User(
    id: nat,
    name: string,
    email: string,
    passwordHash: Option<string>,
    role: string,
    department: Option<string>,
    isActive: bool,
    createdAt: int,
    updatedAt: int)

  datatype Department = Department(
    id: nat,
    name: string,
    code: string,
    description: Option<string>,
    createdAt: int)

  datatype Correspondence = Correspondence(
    id: nat,
    referenceNumber: string,
    subject: string,
    description: string,
    kind: CorrespondenceType,
    priority: Priority,
    status: Status,
    senderName: string,
    senderEmail: Option<string>,
    senderPhone: Option<string>,
    senderOrganization: Option<string>,
    senderAddress: Option<string>,
    assignedToId: Option<int>,
    departmentId: Option<int>,
    receivedDate: int,
    dueDate: int,
    completedDate: Option<int>,
    attachments: Option<string>,
    notes: Option<string>,
    createdById: int,
    createdAt: int,
    updatedAt: int)

  datatype ActivityEntry = ActivityEntry(
    id: nat,
    correspondenceId: int,
    userId: int,
    action: string,
    description: string,
    previousValue: Option<string>,
    newValue: Option<string>,
    createdAt: int)

  datatype Comment = Comment(
    id: nat,
    correspondenceId: int,
    userId: int,
    content: string,
    isInternal: bool,
    createdAt: int,
    updatedAt: int)

  datatype Database = Database(
    users: seq<User>,
    departments: seq<Department>,
    correspondence: seq<Correspondence>,
    activityLog: seq<ActivityEntry>,
    comments: seq<Comment>)

  // ---------------------------------------------------------------------------
  // Constraints

  function UserIds(db: Database): set<int> {
    set u | u in db.users :: u.id as int
  }

  function DepartmentIds(db: Database): set<int> {
    set d | d in db.departments :: d.id as int
  }

  function CorrespondenceIds(db: Database): set<int> {
    set r | r in db.correspondence :: r.id as int
  }

  function ReferenceNumbers(rows: seq<Correspondence>): set<string> {
    set r | r in rows :: r.referenceNumber
  }

  /** Primary keys and unique columns: no two rows of a table agree on them. */
  ghost predicate UniqueColumns(db: Database) {
    && (forall i, j :: 0 <= i < j < |db.users| ==>
          db.users[i].id != db.users[j].id && db.users[i].email != db.users[j].email)
    && (forall i, j :: 0 <= i < j < |db.departments| ==>
          && db.departments[i].id != db.departments[j].id
          && db.departments[i].name != db.departments[j].name
          && db.departments[i].code != db.departments[j].code)
    && (forall i, j :: 0 <= i < j < |db.correspondence| ==>
          && db.correspondence[i].id != db.correspondence[j].id
          && db.correspondence[i].referenceNumber != db.correspondence[j].referenceNumber)
    && (forall i, j :: 0 <= i < j < |db.activityLog| ==> db.activityLog[i].id != db.activityLog[j].id)
    && (forall i, j :: 0 <= i < j < |db.comments| ==> db.comments[i].id != db.comments[j].id)
  }

  /** The foreign keys of one correspondence row point at existing rows. */
  predicate CorrespondenceReferencesExist(db: Database, r: Correspondence) {
    && r.createdById in UserIds(db)
    && (r.assignedToId.Some? ==> r.assignedToId.value in UserIds(db))
    && (r.departmentId.Some? ==> r.departmentId.value in DepartmentIds(db))
  }

  /** Every foreign key points at an existing row; comments and activity entries always
      belong to a correspondence item. */
  ghost predicate ReferencesExist(db: Database) {
    && (forall r :: r in db.correspondence ==> CorrespondenceReferencesExist(db, r))
    && (forall c :: c in db.comments ==>
          c.correspondenceId in CorrespondenceIds(db) && c.userId in UserIds(db))
    && (forall a :: a in db.activityLog ==>
          a.correspondenceId in CorrespondenceIds(db) && a.userId in UserIds(db))
  }

  ghost predicate WellFormed(db: Database) {
    UniqueColumns(db) && ReferencesExist(db)
  }

  /** The constraint a new correspondence row would violate, by the name the database gives it,
      or None when the insert is accepted. */
  function InsertViolation(db: Database, r: Correspondence): (v: Option<string>)
    ensures v.None? <==>
      && r.id as int !in CorrespondenceIds(db)
      && r.referenceNumber !in ReferenceNumbers(db.correspondence)
      && CorrespondenceReferencesExist(db, r)
  {
    if r.id as int in CorrespondenceIds(db) then Some("correspondence_pkey")
    else if r.referenceNumber in ReferenceNumbers(db.correspondence) then Some("correspondence_reference_number_unique")
    else if r.createdById !in UserIds(db) then Some("correspondence_created_by_id_users_id_fk")
    else if r.assignedToId.Some? && r.assignedToId.value !in UserIds(db) then Some("correspondence_assigned_to_id_users_id_fk")
    else if r.departmentId.Some? && r.departmentId.value !in DepartmentIds(db) then Some("correspondence_department_id_departments_id_fk")
    else None
  }

  function WithCorrespondence(db: Database, r: Correspondence): Database {
    db.(correspondence := db.correspondence + [r])
  }

  /** An accepted insert keeps the database well formed. */
  lemma InsertPreservesWellFormed(db: Database, r: Correspondence)
    requires WellFormed(db) && InsertViolation(db, r).None?
    ensures WellFormed(WithCorrespondence(db, r))
  {
    var db' := WithCorrespondence(db, r);
    assert UserIds(db') == UserIds(db);
    assert DepartmentIds(db') == DepartmentIds(db);
    assert CorrespondenceIds(db) <= CorrespondenceIds(db');
    forall i, j | 0 <= i < j < |db'.correspondence|
      ensures db'.correspondence[i].id != db'.correspondence[j].id
      ensures db'.correspondence[i].referenceNumber != db'.correspondence[j].referenceNumber
    {
      if j == |db.correspondence| {
        assert db'.correspondence[i] in db.correspondence;
      }
    }
  }

  /** In a well-formed table a reference number identifies at most one row. */
  lemma ReferenceNumberIdentifiesRow(db: Database, a: Correspondence, b: Correspondence)
    requires WellFormed(db) && a in db.correspondence && b in db.correspondence
    requires a.referenceNumber == b.referenceNumber
    ensures a == b
  {
    var i :| 0 <= i < |db.correspondence| && db.correspondence[i] == a;
    var j :| 0 <= j < |db.correspondence| && db.correspondence[j] == b;
    if i < j {
      assert false;
    } else if j < i {
      assert false;
    }
  }
}
