/**
  The two authorisation checks shared by the create paths: whether a role may change
  correspondence, and whether the request carries a signed-in user at all.
*/
module Authorization {
  import opened Wrappers
  import Schema

  /** The signed-in user as the session carries it; the id is a string there. */
  datatype SessionUser = SessionUser(id: string, role: string)

  /** A session, which may lack a user. */
  datatype Session = Session(user: Option<SessionUser>)

  /** `canMutate(role)`: only the exact roles `admin` and `manager` may create correspondence. */
  predicate CanMutate(role: string)
    ensures CanMutate(role) ==> role != Schema.DefaultRole && role != ""
  {
    role == "admin" || role == "manager"
  }

  lemma CanMutateRoles()
    ensures CanMutate("admin") && CanMutate("manager") && !CanMutate(Schema.DefaultRole)
    ensures !CanMutate("staff") && !CanMutate("Admin") && !CanMutate("")
  {
  }

  /** `requireAuth()`: the session when it has a user, otherwise the error `Unauthorized`. */
  function RequireAuth(session: Option<Session>): (r: Result<Session, string>)
    ensures r.Failure? <==> session.None? || session.value.user.None?
    ensures r.Failure? ==> r.error == "Unauthorized"
    ensures r.Success? ==> session == Some(r.value) && r.value.user.Some?
  {
    if session.None? || session.value.user.None? then Failure("Unauthorized")
    else Success(session.value)
  }

  /** The outcome of the two checks, in the order both create paths apply them: the session
      first, then the role. */
  datatype Gate = NoUser | NotPermitted | Permitted(user: SessionUser)

  function GateFor(session: Option<Session>): (g: Gate)
    ensures g.NoUser? <==> RequireAuth(session).Failure?
    ensures g.NotPermitted? <==>
      RequireAuth(session).Success? && !CanMutate(session.value.user.value.role)
    ensures g.Permitted? <==>
      RequireAuth(session).Success? && CanMutate(session.value.user.value.role)
    ensures g.Permitted? ==> session == Some(Session(Some(g.user))) && CanMutate(g.user.role)
  {
    match RequireAuth(session)
    case Failure(_) => NoUser
    case Success(s) =>
      if CanMutate(s.user.value.role) then Permitted(s.user.value) else NotPermitted
  }

  /** A request with no user is turned away before its role is looked at, so the role
      never matters there. */
  lemma MissingUserIsNotForbidden(session: Option<Session>)
    requires session.None? || session.value.user.None?
    ensures GateFor(session) == NoUser
  {
  }
}
