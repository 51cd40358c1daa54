/**
 * The route guard that runs before every matched page request: it refreshes
 * the session, looks up the user and either redirects or lets the request
 * through with the refreshed response.
 */
module Middleware {
  import opened Common
  import opened Text

  const LoginPath: string := "/login"
  const DashboardPath: string := "/dashboard"

  /** The guard's answer: a redirect to a path on the same origin, or the refreshed response. */
  datatype Decision = Redirect(location: string) | PassThrough

  /** The two awaited session calls, in the order they are issued. */
  datatype SessionCall = GetSession | GetUser

  /** One request as seen by the framework: skipped by the matcher, or guarded. */
  datatype Routing = Skipped | Guarded(calls: seq<SessionCall>, decision: Decision)

  /** The redirect decision, from whether a user was found and the path. */
  function Decide(user: Option<string>, pathname: string): Decision
  {
    if user.None? && StartsWith(pathname, DashboardPath) then Redirect(LoginPath)
    else if user.Some? && StartsWith(pathname, LoginPath) then Redirect(DashboardPath)
    else PassThrough
  }

  /** An unauthenticated request anywhere under "/dashboard" goes to "/login". */
  lemma UnauthenticatedDashboardGoesToLogin(pathname: string, id: string)
    ensures StartsWith(pathname, DashboardPath) ==> Decide(None, pathname) == Redirect(LoginPath)
    ensures Decide(None, DashboardPath + "/analysis/" + id) == Redirect(LoginPath)
  {
    var p := DashboardPath + "/analysis/" + id;
    assert p[..|DashboardPath|] == DashboardPath;
  }

  /** An authenticated request to anything starting "/login" goes to "/dashboard". */
  lemma AuthenticatedLoginGoesToDashboard(user: string, pathname: string)
    ensures StartsWith(pathname, LoginPath) ==> Decide(Some(user), pathname) == Redirect(DashboardPath)
  {
  }

  /** Everything else passes, "/" in particular with or without a user. */
  lemma OtherwisePassThrough(user: Option<string>, pathname: string)
    ensures Decide(user, pathname) == PassThrough
        <==> !(user.None? && StartsWith(pathname, DashboardPath)) && !(user.Some? && StartsWith(pathname, LoginPath))
    ensures Decide(user, "/") == PassThrough
  {
  }

  /**
   * The two redirect branches never both apply: one needs no user, the other
   * a user. So a redirect has exactly one cause, and its target tells which.
   */
  lemma RedirectBranchesExclusive(user: Option<string>, pathname: string)
    ensures Decide(user, pathname).Redirect? ==>
      (user.None? && StartsWith(pathname, DashboardPath)) != (user.Some? && StartsWith(pathname, LoginPath))
    ensures Decide(user, pathname).Redirect? ==>
      (Decide(user, pathname).location == LoginPath <==> user.None?)
  {
  }

  /**
   * The path filter of the middleware configuration: the pattern
   * "/((?!_next/static|_next/image|favicon.ico).*)" matched against the whole
   * path. The `.` of "favicon.ico" is a regular-expression wildcard.
   */
  function Matches(pathname: string): bool
  {
    |pathname| >= 1 && pathname[0] == '/' &&
    var rest := pathname[1..];
    !StartsWith(rest, "_next/static") && !StartsWith(rest, "_next/image") && !FaviconAhead(rest)
  }

  /** The lookahead alternative "favicon.ico", with its `.` matching any character. */
  predicate FaviconAhead(s: string)
  {
    |s| >= 11 && s[..7] == "favicon" && s[8..11] == "ico"
  }

  /** What the framework does with a request: the guard runs only on matched paths. */
  function Route(user: Option<string>, pathname: string): (r: Routing)
    ensures r.Skipped? <==> !Matches(pathname)
  {
    if Matches(pathname) then Guarded([GetSession, GetUser], Decide(user, pathname)) else Skipped
  }

  /** On every guarded request the session refresh is issued before the user lookup, once each. */
  lemma SessionRefreshPrecedesLookup(user: Option<string>, pathname: string)
    requires Matches(pathname)
    ensures Route(user, pathname).Guarded?
    ensures |Route(user, pathname).calls| == 2
    ensures Route(user, pathname).calls[0] == GetSession && Route(user, pathname).calls[1] == GetUser
  {
  }

  /** Paths under the three excluded prefixes never reach the guard. */
  lemma ExcludedPrefixesSkipped(rest: string)
    ensures !Matches("/" + "_next/static" + rest)
    ensures !Matches("/" + "_next/image" + rest)
    ensures !Matches("/" + "favicon.ico" + rest)
  {
    SkippedAfterSlash("_next/static", rest);
    SkippedAfterSlash("_next/image", rest);
    SkippedAfterSlash("favicon.ico", rest);
    var f := "favicon.ico" + rest;
    assert f[..7] == "favicon.ico"[..7] == "favicon";
    assert f[8..11] == "favicon.ico"[8..11] == "ico";
  }

  /** The part after the leading '/' of "/" + segment + rest, and how it starts. */
  lemma SkippedAfterSlash(segment: string, rest: string)
    ensures |"/" + segment + rest| >= 1 && ("/" + segment + rest)[0] == '/'
    ensures ("/" + segment + rest)[1..] == segment + rest
    ensures StartsWith(segment + rest, segment)
  {
    assert ("/" + segment + rest)[1..] == segment + rest;
    assert (segment + rest)[..|segment|] == segment;
  }

  /** Because the `.` is a wildcard, "/faviconXico" is skipped too, while "/favicon" is guarded. */
  lemma FaviconDotIsWildcard()
    ensures !Matches("/faviconXico")
    ensures Matches("/favicon")
  {
    assert "/faviconXico"[1..][..7] == "favicon";
    assert "/faviconXico"[1..][8..11] == "ico";
  }

  /** The pages the guard protects and redirects to all reach it. */
  lemma GuardedPages(id: string)
    ensures Matches("/") && Matches(LoginPath) && Matches(DashboardPath)
    ensures Matches(DashboardPath + "/analysis/" + id)
  {
    var p := DashboardPath + "/analysis/" + id;
    FirstCharRulesOut(p[1..]);
    FirstCharRulesOut(LoginPath[1..]);
    FirstCharRulesOut(DashboardPath[1..]);
  }

  /** A path whose first segment starts with neither '_' nor 'f' escapes all three exclusions. */
  lemma FirstCharRulesOut(rest: string)
    requires rest == [] || (rest[0] != '_' && rest[0] != 'f')
    ensures !StartsWith(rest, "_next/static") && !StartsWith(rest, "_next/image") && !FaviconAhead(rest)
  {
    if rest != [] {
      assert "_next/static"[0] == '_' && "_next/image"[0] == '_' && "favicon"[0] == 'f';
      assert |rest| >= 12 ==> rest[..12][0] == rest[0];
      assert |rest| >= 11 ==> rest[..11][0] == rest[0];
      assert |rest| >= 7 ==> rest[..7][0] == rest[0];
    }
  }

  /**
   * No redirect loop: a redirect target is itself a guarded path, and for the
   * same user state the guard lets it through.
   */
  lemma {:induction false} NoRedirectLoop(user: Option<string>, pathname: string)
    requires Decide(user, pathname).Redirect?
    ensures Matches(Decide(user, pathname).location)
    ensures Route(user, Decide(user, pathname).location) == Guarded([GetSession, GetUser], PassThrough)
  {
    GuardedPages("");
    assert !StartsWith(LoginPath, DashboardPath);
    assert LoginPath[..|LoginPath|] == LoginPath;
    assert !StartsWith(DashboardPath, LoginPath) by {
      assert DashboardPath[..|LoginPath|] != LoginPath by { assert DashboardPath[1] != LoginPath[1]; }
    }
  }
}
