/**
 * The control tower's route guards: the middleware that runs on every
 * matched path (with its matcher's exclusions), and the admin page's own
 * session check before it reads the user collection.
 */
module AccessGuard {
  import opened Wrappers
  import opened Text
  import opened UserModel
  import opened Auth

  /** What `req.auth` holds when there is one: the session, with or without a user. */
  datatype AuthSession = AuthSession(user: Option<SessionUser>)

  datatype Decision = Next | Redirect(to: string)

  /** `(req.auth?.user)?.role`: undefined when there is no session, no user or no role. */
  function SessionRole(auth: Option<AuthSession>): Option<string> {
    if auth.Some? && auth.value.user.Some? then auth.value.user.value.role else None
  }

  /** The middleware's decision for one request. */
  function Middleware(path: string, auth: Option<AuthSession>): Decision {
    if StartsWith(path, "/admin") then
      if auth.None? then Redirect(SIGN_IN_PAGE)
      else if SessionRole(auth) != Some("admin") then Redirect("/")
      else Next
    else Next
  }

  /**
   * Paths outside "/admin" always pass; an "/admin" path (any path with
   * that prefix, "/administrator" included) redirects to "/login" without
   * a session, to "/" with a session whose role is not "admin", and passes
   * with role "admin".
   */
  lemma MiddlewareRules(path: string, auth: Option<AuthSession>)
    ensures !StartsWith(path, "/admin") ==> Middleware(path, auth) == Next
    ensures StartsWith(path, "/admin") && auth.None? ==> Middleware(path, auth) == Redirect("/login")
    ensures StartsWith(path, "/admin") && auth.Some? && SessionRole(auth) != Some("admin") ==> Middleware(path, auth) == Redirect("/")
    ensures Middleware(path, auth) == Next <==> !StartsWith(path, "/admin") || SessionRole(auth) == Some("admin")
  {
  }

  /** The matcher's negative lookahead alternatives; `.` in "favicon.ico" is the regex wildcard. */
  const EXCLUDED: seq<string> := ["api", "_next/static", "_next/image", "favicon.ico"]

  /** A regex alternative of literal characters and `.` (any character but a newline) is a prefix of s. */
  predicate PatternPrefix(pattern: string, s: string) {
    |pattern| <= |s| && forall i :: 0 <= i < |pattern| ==> if pattern[i] == '.' then s[i] != '\n' else s[i] == pattern[i]
  }

  /** `/((?!api|_next/static|_next/image|favicon.ico).*)`, anchored at both ends. */
  predicate Matched(path: string) {
    |path| >= 1 && path[0] == '/' && forall p :: p in EXCLUDED ==> !PatternPrefix(p, path[1..])
  }

  /** A request: the middleware runs only on matched paths; everything else goes straight through. */
  function Route(path: string, auth: Option<AuthSession>): Decision {
    if Matched(path) then Middleware(path, auth) else Next
  }

  /** Every "/admin" path is matched, so the middleware always sees it. */
  lemma AdminPathsMatched(path: string, auth: Option<AuthSession>)
    requires StartsWith(path, "/admin")
    ensures Matched(path) && Route(path, auth) == Middleware(path, auth)
  {
    var rest := path[1..];
    assert rest[0] == path[1] == 'a' && rest[1] == path[2] == 'd';
    forall p | p in EXCLUDED
      ensures !PatternPrefix(p, rest)
    {
      assert p[0] != 'a' || p[1] != 'd';
    }
  }

  /**
   * The matcher skips the paths whose remainder after "/" begins with one
   * of the first three alternatives, and anything not starting with "/".
   */
  lemma ExcludedPathsSkipped(path: string)
    ensures StartsWith(path, "/api") || StartsWith(path, "/_next/static") || StartsWith(path, "/_next/image") ==> !Matched(path)
    ensures !StartsWith(path, "/") ==> !Matched(path)
  {
    if StartsWith(path, "/api") {
      assert PatternPrefix("api", path[1..]);
    } else if StartsWith(path, "/_next/static") {
      assert PatternPrefix("_next/static", path[1..]);
    } else if StartsWith(path, "/_next/image") {
      assert PatternPrefix("_next/image", path[1..]);
    }
  }

  /** The dot of "favicon.ico" matches any character: "/favicon" + c + "ico…" is skipped for every c but a newline. */
  lemma FaviconWildcardSkipped(path: string)
    requires |path| >= 12 && path[..8] == "/favicon" && path[8] != '\n' && path[9..12] == "ico"
    ensures !Matched(path)
  {
    var rest := path[1..];
    forall i | 0 <= i < 11
      ensures if "favicon.ico"[i] == '.' then rest[i] != '\n' else rest[i] == "favicon.ico"[i]
    {
      if i < 7 {
        assert rest[i] == path[..8][i + 1];
      } else if i > 7 {
        assert rest[i] == path[9..12][i - 8];
      }
    }
    assert PatternPrefix("favicon.ico", rest);
  }

  /** What the admin page renders. */
  datatype Page = PageRedirect(to: string) | Panel(users: seq<UserDoc>) | Crash

  /**
   * The admin page: no session, or a session user whose role is not
   * "admin", redirects to "/login"; a session without a user fails on
   * reading its role; otherwise the panel receives every stored user.
   */
  function AdminPage(session: Option<AuthSession>, users: seq<UserDoc>): Page {
    if session.None? then PageRedirect(SIGN_IN_PAGE)
    else if session.value.user.None? then Crash
    else if session.value.user.value.role != Some("admin") then PageRedirect(SIGN_IN_PAGE)
    else Panel(users)
  }

  /**
   * The page's outcome is decided before the store is read: whether it
   * redirects, and where, depends on the session alone; an admin gets the
   * panel with exactly the stored users; a non-admin is sent to "/login"
   * where the middleware sends them to "/".
   */
  lemma AdminPageRules(session: Option<AuthSession>, users: seq<UserDoc>, others: seq<UserDoc>)
    ensures session.None? ==> AdminPage(session, users) == PageRedirect("/login")
    ensures !AdminPage(session, users).Panel? ==> AdminPage(session, users) == AdminPage(session, others)
    ensures AdminPage(session, users).Panel? <==> SessionRole(session) == Some("admin")
    ensures AdminPage(session, users).Panel? ==> AdminPage(session, users).users == users
    ensures session.Some? && session.value.user.Some? && SessionRole(session) != Some("admin") ==>
      AdminPage(session, users) == PageRedirect("/login") && Middleware("/admin", session) == Redirect("/")
  {
  }
}
