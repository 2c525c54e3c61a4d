/**
  The request gate that runs before every page and API route: the login page and the
  authentication endpoints are open, a signed-in user is sent away from the login page, and
  every other path needs a session.
*/
module Middleware {
  import opened Js

  datatype Decision =
    | Next                                   // `NextResponse.next()`: the request proceeds
    | RedirectHome                           // redirect to `/`
    | RedirectToLogin(callbackUrl: string)   // redirect to `/login?callbackUrl=<pathname>`

  /** The paths the `matcher` hands to the gate: all but the static assets, the image
      optimiser and the favicon. */
  predicate Matched(pathname: string) {
    !StartsWith(pathname, "/_next/static") && !StartsWith(pathname, "/_next/image")
    && !StartsWith(pathname, "/favicon.ico")
  }

  predicate IsLoginPath(pathname: string) {
    StartsWith(pathname, "/login")
  }

  predicate IsPublic(pathname: string) {
    IsLoginPath(pathname) || StartsWith(pathname, "/api/auth")
  }

  /** The gate's decision for a request to `pathname`, given whether it carries a session. */
  function Decide(pathname: string, isLoggedIn: bool): (d: Decision)
    ensures d == RedirectHome <==> Matched(pathname) && isLoggedIn && IsLoginPath(pathname)
    ensures d.RedirectToLogin? <==> Matched(pathname) && !isLoggedIn && !IsPublic(pathname)
    ensures d.RedirectToLogin? ==> d.callbackUrl == pathname
    ensures d == Next <==>
      !Matched(pathname) || (IsPublic(pathname) && !(isLoggedIn && IsLoginPath(pathname))) ||
      (isLoggedIn && !IsPublic(pathname))
  {
    if !Matched(pathname) then Next
    else if IsPublic(pathname) then
      if isLoggedIn && IsLoginPath(pathname) then RedirectHome else Next
    else if !isLoggedIn then RedirectToLogin(pathname)
    else Next
  }

  /** The authentication endpoints are reachable with or without a session. */
  lemma AuthApiAlwaysOpen(rest: string, isLoggedIn: bool)
    ensures Decide("/api/auth" + rest, isLoggedIn) == Next
  {
    var p := "/api/auth" + rest;
    assert p[..9] == "/api/auth";
    assert p[1] == 'a';
  }

  /** Any path that merely begins with `/login`, such as `/loginx`, is treated as the login page. */
  lemma LoginPrefixIsPublic()
    ensures Decide("/loginx", false) == Next
    ensures Decide("/loginx", true) == RedirectHome
  {
    assert "/loginx"[..6] == "/login";
  }
}
