/**
  The read side of the store: the listing ordered newest first with its assignee and
  division joined in, the lookup by id, the per-status and per-priority statistics, the
  active users by name and the departments by name.
*/
module Queries {
  import opened Wrappers
  import opened Sorting
  import opened Schema

  // ---------------------------------------------------------------------------
  // Statistics

  /** One row of `getCorrespondenceStats()` and of `GET /api/correspondence/stats`. */
  datatype Stats = Stats(
    total: nat,
    pending: nat, inProgress: nat, completed: nat, overdue: nat,
    urgent: nat, high: nat, normal: nat, low: nat)

  function HasStatus(s: Status): Correspondence -> bool {
    (r: Correspondence) => r.status == s
  }

  function HasPriority(p: Priority): Correspondence -> bool {
    (r: Correspondence) => r.priority == p
  }

  /** `count(*) filter (where ...)`: the number of rows satisfying `p`. */
  function CountWhere(rows: seq<Correspondence>, p: Correspondence -> bool): (n: nat)
    ensures n <= |rows|
  {
    |Filter(rows, p)|
  }

  /** The statistics row: `count(*)` and the eight filtered counts over the whole table. */
  function StatsOf(rows: seq<Correspondence>): (st: Stats)
    ensures st.total == |rows|
    ensures st.pending <= st.total && st.inProgress <= st.total
    ensures st.completed <= st.total && st.overdue <= st.total
    ensures st.urgent <= st.total && st.high <= st.total
    ensures st.normal <= st.total && st.low <= st.total
  {
    Stats(|rows|,
      CountWhere(rows, HasStatus(Pending)), CountWhere(rows, HasStatus(InProgress)),
      CountWhere(rows, HasStatus(Completed)), CountWhere(rows, HasStatus(Overdue)),
      CountWhere(rows, HasPriority(Urgent)), CountWhere(rows, HasPriority(High)),
      CountWhere(rows, HasPriority(Normal)), CountWhere(rows, HasPriority(Low)))
  }

  /** Appending a row adds one to the count of every filter it satisfies and to no other. */
  lemma CountWhereSnoc(rows: seq<Correspondence>, r: Correspondence, p: Correspondence -> bool)
    ensures CountWhere(rows + [r], p) == CountWhere(rows, p) + (if p(r) then 1 else 0)
  {
    FilterSnoc(rows, r, p);
  }

  /** Every row has exactly one status, so the four status counts add up to the total. */
  lemma {:induction false} StatusCountsSum(rows: seq<Correspondence>)
    ensures var st := StatsOf(rows); st.pending + st.inProgress + st.completed + st.overdue == st.total
  {
    if rows != [] {
      var init, last := rows[..|rows| - 1], rows[|rows| - 1];
      assert rows == init + [last];
      StatusCountsSum(init);
      CountWhereSnoc(init, last, HasStatus(Pending));
      CountWhereSnoc(init, last, HasStatus(InProgress));
      CountWhereSnoc(init, last, HasStatus(Completed));
      CountWhereSnoc(init, last, HasStatus(Overdue));
    }
  }

  /** Every row has exactly one priority, so the four priority counts add up to the total. */
  lemma {:induction false} PriorityCountsSum(rows: seq<Correspondence>)
    ensures var st := StatsOf(rows); st.urgent + st.high + st.normal + st.low == st.total
  {
    if rows != [] {
      var init, last := rows[..|rows| - 1], rows[|rows| - 1];
      assert rows == init + [last];
      PriorityCountsSum(init);
      CountWhereSnoc(init, last, HasPriority(Urgent));
      CountWhereSnoc(init, last, HasPriority(High));
      CountWhereSnoc(init, last, HasPriority(Normal));
      CountWhereSnoc(init, last, HasPriority(Low));
    }
  }

  /** Inserting a row raises the total by one, and exactly the count of its status and the
      count of its priority by one. */
  lemma StatsAfterInsert(rows: seq<Correspondence>, r: Correspondence)
    ensures var before, after := StatsOf(rows), StatsOf(rows + [r]);
      && after.total == before.total + 1
      && after.pending == before.pending + (if r.status == Pending then 1 else 0)
      && after.inProgress == before.inProgress + (if r.status == InProgress then 1 else 0)
      && after.completed == before.completed + (if r.status == Completed then 1 else 0)
      && after.overdue == before.overdue + (if r.status == Overdue then 1 else 0)
      && after.urgent == before.urgent + (if r.priority == Urgent then 1 else 0)
      && after.high == before.high + (if r.priority == High then 1 else 0)
      && after.normal == before.normal + (if r.priority == Normal then 1 else 0)
      && after.low == before.low + (if r.priority == Low then 1 else 0)
  {
    CountWhereSnoc(rows, r, HasStatus(Pending));
    CountWhereSnoc(rows, r, HasStatus(InProgress));
    CountWhereSnoc(rows, r, HasStatus(Completed));
    CountWhereSnoc(rows, r, HasStatus(Overdue));
    CountWhereSnoc(rows, r, HasPriority(Urgent));
    CountWhereSnoc(rows, r, HasPriority(High));
    CountWhereSnoc(rows, r, HasPriority(Normal));
    CountWhereSnoc(rows, r, HasPriority(Low));
  }

  // ---------------------------------------------------------------------------
  // Listing and lookup

  /** The assignee and division columns a listing row carries from the two left joins. */
  datatype UserRef = UserRef(id: nat, name: string, email: string)
  datatype DepartmentRef = DepartmentRef(id: nat, name: string, code: string)
  datatype Listed = Listed(row: Correspondence, assignedTo: Option<UserRef>, department: Option<DepartmentRef>)

  /** The first user with the given id, if any. */
  function FindUser(users: seq<User>, id: int): (u: Option<User>)
    ensures u.Some? ==> u.value in users && u.value.id as int == id
    ensures u.None? ==> forall v :: v in users ==> v.id as int != id
  {
    if users == [] then None
    else if users[0].id as int == id then Some(users[0])
    else FindUser(users[1..], id)
  }

  function FindDepartment(departments: seq<Department>, id: int): (d: Option<Department>)
    ensures d.Some? ==> d.value in departments && d.value.id as int == id
    ensures d.None? ==> forall e :: e in departments ==> e.id as int != id
  {
    if departments == [] then None
    else if departments[0].id as int == id then Some(departments[0])
    else FindDepartment(departments[1..], id)
  }

  /** `leftJoin(users, ...)` and `leftJoin(departments, ...)` for one correspondence row:
      the matching user and department, or nothing when the key is null or matches no row. */
  function Join(db: Database, r: Correspondence): (l: Listed)
    ensures l.row == r
    ensures l.assignedTo.Some? <==> r.assignedToId.Some? && r.assignedToId.value in UserIds(db)
    ensures l.department.Some? <==> r.departmentId.Some? && r.departmentId.value in DepartmentIds(db)
    ensures l.assignedTo.Some? ==> l.assignedTo.value.id as int == r.assignedToId.value
    ensures l.department.Some? ==> l.department.value.id as int == r.departmentId.value
  {
    var user := if r.assignedToId.Some? then FindUser(db.users, r.assignedToId.value) else None;
    var dept := if r.departmentId.Some? then FindDepartment(db.departments, r.departmentId.value) else None;
    Listed(r,
      if user.Some? then Some(UserRef(user.value.id, user.value.name, user.value.email)) else None,
      if dept.Some? then Some(DepartmentRef(dept.value.id, dept.value.name, dept.value.code)) else None)
  }

  /** `orderBy(desc(createdAt))` */
  predicate CreatedNoEarlier(a: Correspondence, b: Correspondence) {
    a.createdAt >= b.createdAt
  }

  lemma CreatedNoEarlierTotalPreorder()
    ensures TotalPreorder(CreatedNoEarlier)
  {
  }

  /** The table's rows, newest first. */
  function NewestFirst(rows: seq<Correspondence>): (r: seq<Correspondence>)
    ensures multiset(r) == multiset(rows)
    ensures forall i, j :: 0 <= i < j < |r| ==> r[i].createdAt >= r[j].createdAt
  {
    CreatedNoEarlierTotalPreorder();
    InsertionSortSorted(rows, CreatedNoEarlier);
    InsertionSort(rows, CreatedNoEarlier)
  }

  /** `getCorrespondence()` and `GET /api/correspondence`: every row once, newest first, each
      with its assignee and division joined in. */
  function ListCorrespondence(db: Database): (l: seq<Listed>)
    ensures |l| == |db.correspondence|
    ensures forall i, j :: 0 <= i < j < |l| ==> l[i].row.createdAt >= l[j].row.createdAt
    ensures multiset(seq(|l|, i requires 0 <= i < |l| => l[i].row)) == multiset(db.correspondence)
  {
    var sorted := NewestFirst(db.correspondence);
    var l := seq(|sorted|, i requires 0 <= i < |sorted| => Join(db, sorted[i]));
    assert seq(|l|, i requires 0 <= i < |l| => l[i].row) == sorted;
    l
  }

  /** The first correspondence row with the given id. */
  function FindCorrespondence(rows: seq<Correspondence>, id: int): (r: Option<Correspondence>)
    ensures r.Some? ==> r.value in rows && r.value.id as int == id
    ensures r.None? <==> forall c :: c in rows ==> c.id as int != id
  {
    if rows == [] then None
    else if rows[0].id as int == id then Some(rows[0])
    else FindCorrespondence(rows[1..], id)
  }

  /** `getCorrespondenceById(id)`: the joined row with that id, or nothing (`result[0]` of an
      empty result is `undefined`). */
  function CorrespondenceById(db: Database, id: int): (r: Option<Listed>)
    ensures r.None? <==> id !in CorrespondenceIds(db)
    ensures r.Some? ==> r.value.row in db.correspondence && r.value.row.id as int == id
  {
    match FindCorrespondence(db.correspondence, id)
    case None => None
    case Some(row) => Some(Join(db, row))
  }

  /** In a well-formed table the id names exactly one row, so the lookup is that row. */
  lemma CorrespondenceByIdIsUnique(db: Database, c: Correspondence)
    requires WellFormed(db) && c in db.correspondence
    ensures CorrespondenceById(db, c.id as int).Some?
    ensures CorrespondenceById(db, c.id as int).value.row == c
  {
    var found := CorrespondenceById(db, c.id as int).value.row;
    var i :| 0 <= i < |db.correspondence| && db.correspondence[i] == c;
    var j :| 0 <= j < |db.correspondence| && db.correspondence[j] == found;
    if i < j {
      assert false;
    } else if j < i {
      assert false;
    }
  }

  // ---------------------------------------------------------------------------
  // Users and departments

  /** The columns `getUsers()` selects; the password hash is not among them. */
  datatype UserSummary = UserSummary(id: nat, name: string, email: string, role: string, department: Option<string>)

  function SummaryOf(u: User): UserSummary {
    UserSummary(u.id, u.name, u.email, u.role, u.department)
  }

  predicate IsActive(u: User) {
    u.isActive
  }

  predicate UserNameLe(a: User, b: User) {
    LexLe(a.name, b.name)
  }

  predicate DepartmentNameLe(a: Department, b: Department) {
    LexLe(a.name, b.name)
  }

  lemma UserNameLeTotalPreorder()
    ensures TotalPreorder(UserNameLe)
  {
    forall a: User, b: User ensures UserNameLe(a, b) || UserNameLe(b, a) {
      LexLeTotal(a.name, b.name);
    }
    forall a: User, b: User, c: User | UserNameLe(a, b) && UserNameLe(b, c)
      ensures UserNameLe(a, c)
    {
      LexLeTransitive(a.name, b.name, c.name);
    }
  }

  lemma DepartmentNameLeTotalPreorder()
    ensures TotalPreorder(DepartmentNameLe)
  {
    forall a: Department, b: Department ensures DepartmentNameLe(a, b) || DepartmentNameLe(b, a) {
      LexLeTotal(a.name, b.name);
    }
    forall a: Department, b: Department, c: Department | DepartmentNameLe(a, b) && DepartmentNameLe(b, c)
      ensures DepartmentNameLe(a, c)
    {
      LexLeTransitive(a.name, b.name, c.name);
    }
  }

  /** The active users in name order. */
  function ActiveSortedByName(users: seq<User>): (s: seq<User>)
    ensures forall i, j :: 0 <= i < j < |s| ==> LexLe(s[i].name, s[j].name)
    ensures forall u :: u in s <==> u in users && u.isActive
    ensures |s| == |Filter(users, IsActive)|
  {
    var active := Filter(users, IsActive);
    UserNameLeTotalPreorder();
    InsertionSortSorted(active, UserNameLe);
    SameMultisetSameElements(active, InsertionSort(active, UserNameLe));
    InsertionSort(active, UserNameLe)
  }

  lemma SameMultisetSameElements<T>(a: seq<T>, b: seq<T>)
    requires multiset(a) == multiset(b)
    ensures forall x :: x in a <==> x in b
  {
    forall x ensures x in a <==> x in b {
      assert x in a <==> x in multiset(a);
      assert x in b <==> x in multiset(b);
    }
  }

  function Summaries(s: seq<User>): (r: seq<UserSummary>)
    ensures |r| == |s|
    ensures forall i :: 0 <= i < |s| ==> r[i] == SummaryOf(s[i])
  {
    seq(|s|, i requires 0 <= i < |s| => SummaryOf(s[i]))
  }

  lemma SummariesMembership(s: seq<User>)
    ensures forall u :: u in s ==> SummaryOf(u) in Summaries(s)
    ensures forall x :: x in Summaries(s) ==> exists u :: u in s && SummaryOf(u) == x
  {
    var r := Summaries(s);
    forall u | u in s ensures SummaryOf(u) in r {
      var k :| 0 <= k < |s| && s[k] == u;
      assert r[k] == SummaryOf(u);
    }
    forall x | x in r ensures exists u :: u in s && SummaryOf(u) == x {
      var k :| 0 <= k < |r| && r[k] == x;
      assert s[k] in s && SummaryOf(s[k]) == x;
    }
  }

  /** `getUsers()`: the active users, in name order, without their password hashes. */
  function ActiveUsersByName(users: seq<User>): (r: seq<UserSummary>)
    ensures forall i, j :: 0 <= i < j < |r| ==> LexLe(r[i].name, r[j].name)
    ensures forall u :: u in users && u.isActive ==> SummaryOf(u) in r
    ensures forall x :: x in r ==> exists u :: u in users && u.isActive && SummaryOf(u) == x
    ensures |r| == |Filter(users, IsActive)|
  {
    var sorted := ActiveSortedByName(users);
    SummariesMembership(sorted);
    Summaries(sorted)
  }

  /** `getDepartments()`: every department once, in name order. */
  function DepartmentsByName(departments: seq<Department>): (r: seq<Department>)
    ensures multiset(r) == multiset(departments)
    ensures forall i, j :: 0 <= i < j < |r| ==> LexLe(r[i].name, r[j].name)
  {
    DepartmentNameLeTotalPreorder();
    InsertionSortSorted(departments, DepartmentNameLe);
    InsertionSort(departments, DepartmentNameLe)
  }
}
