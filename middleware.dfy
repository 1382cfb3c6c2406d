/**
 * The route guard in front of the admin pages. The user lookup by e-mail
 * is not modelled: its outcome is a parameter.
 */
module AdminGuard {
  import opened Wrappers
  import opened JsString

  /** What `getUserByEmail` gave: no user, a user with its `isAdmin` flag, or a thrown error. */
  datatype Lookup = NoUser | User(isAdmin: bool) | LookupFailed

  /** `NextResponse.next()` or a redirect to a path of the same origin. */
  datatype Response = Next | Redirect(path: string)

  /** Where every refused request is sent. */
  const Home := "/"

  /** The protected prefix. */
  const AdminPrefix := "/admin"

  /**
   * `middleware`: a request for `path` with the `userEmail` cookie `cookie`
   * (`None` when absent), where `lookup` is what looking that e-mail up gives.
   */
  function Middleware(path: string, cookie: Option<string>, lookup: Lookup): (r: Response)
    // paths outside /admin pass
    ensures !StartsWith(path, AdminPrefix) ==> r == Next
    // a missing or empty cookie is refused
    ensures StartsWith(path, AdminPrefix) && (cookie.None? || cookie == Some("")) ==> r == Redirect(Home)
    // an admin path passes exactly for a signed-in admin
    ensures StartsWith(path, AdminPrefix) ==>
      (r == Next <==> cookie.Some? && cookie.value != "" && lookup == User(true))
    // a failed lookup is refused
    ensures StartsWith(path, AdminPrefix) && lookup.LookupFailed? ==> r == Redirect(Home)
    // every redirect goes home
    ensures r.Redirect? ==> r.path == Home
  {
    if StartsWith(path, AdminPrefix) then
      if cookie.None? || cookie.value == "" then Redirect(Home)
      else
        match lookup
        case LookupFailed => Redirect(Home)
        case NoUser => Redirect(Home)
        case User(isAdmin) => if !isAdmin then Redirect(Home) else Next
    else Next
  }

  /** `config.matcher` '/admin/:path*': `/admin` itself or a path below it. */
  predicate Matched(path: string)
  {
    path == AdminPrefix || StartsWith(path, AdminPrefix + "/")
  }

  /** Every path the matcher sends to the middleware is one it guards. */
  lemma MatchedPathsGuarded(path: string, cookie: Option<string>, lookup: Lookup)
    requires Matched(path)
    ensures Middleware(path, cookie, lookup) == Next <==>
      cookie.Some? && cookie.value != "" && lookup == User(true)
  {
    assert StartsWith(path, AdminPrefix) by {
      if path != AdminPrefix {
        assert path[..|AdminPrefix|] == (AdminPrefix + "/")[..|AdminPrefix|];
      }
    }
  }
}
