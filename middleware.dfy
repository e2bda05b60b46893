/** The route guard (`src/middleware.ts`): which requests it sees, and where
    it sends them given whether a session exists. */
module Middleware {

  const ProtectedRoutes: seq<string> := ["/dashboard"]
  const AuthRoutes: seq<string> := ["/login"]

  /** `routes.some((route) => path.startsWith(route))`. */
  function SomePrefix(routes: seq<string>, path: string): (b: bool)
    ensures b <==> exists i :: 0 <= i < |routes| && routes[i] <= path
  {
    if routes == [] then false
    else routes[0] <= path || SomePrefix(routes[1..], path)
  }

  datatype Response = Next | Redirect(location: string)

  /** The guard: no session on a protected page goes to the login page, a
      session on the login page goes to the dashboard, all else passes. */
  function Guard(path: string, hasSession: bool): (r: Response)
    ensures r == Redirect("/login") <==> "/dashboard" <= path && !hasSession
    ensures r == Redirect("/dashboard") <==> "/login" <= path && hasSession
    ensures r == Next <==> !("/dashboard" <= path && !hasSession) && !("/login" <= path && hasSession)
  {
    if SomePrefix(ProtectedRoutes, path) && !hasSession then Redirect("/login")
    else if SomePrefix(AuthRoutes, path) && hasSession then Redirect("/dashboard")
    else Next
  }

  /** No path is both protected and a login page. */
  lemma RouteKindsExclusive(path: string)
    ensures !("/dashboard" <= path && "/login" <= path)
  {
    if "/dashboard" <= path {
      assert path[1] == 'd';
      if |path| >= 6 {
        assert path[..6][1] == path[1];
        assert path[..6] != "/login";
      }
    }
  }

  /** The alternatives of the matcher's negative lookahead. */
  const Excluded: seq<string> := ["_next/static", "_next/image", "favicon.ico", "public", "api"]

  /** `pattern` matches a prefix of `s`, `.` standing for any character. */
  predicate PatternPrefix(pattern: string, s: string) {
    |pattern| <= |s| && forall k :: 0 <= k < |pattern| ==> pattern[k] == '.' || pattern[k] == s[k]
  }

  /** Some alternative matches at the start of `s`. */
  function SomePattern(patterns: seq<string>, s: string): (b: bool)
    ensures b <==> exists i :: 0 <= i < |patterns| && PatternPrefix(patterns[i], s)
  {
    if patterns == [] then false
    else PatternPrefix(patterns[0], s) || SomePattern(patterns[1..], s)
  }

  /** `config.matcher`: `/` followed by anything that does not begin with an
      excluded alternative. */
  function Matched(path: string): (b: bool)
    ensures b <==> (|path| >= 1 && path[0] == '/' &&
                    forall i :: 0 <= i < |Excluded| ==> !PatternPrefix(Excluded[i], path[1..]))
  {
    |path| >= 1 && path[0] == '/' && !SomePattern(Excluded, path[1..])
  }

  /** Every protected page and every login page is seen by the guard. */
  lemma GuardedPagesMatched(path: string)
    requires "/dashboard" <= path || "/login" <= path
    ensures Matched(path)
  {
    assert path[1] == 'd' || path[1] == 'l';
  }

  /** Build assets, the favicon, public files and API routes (and anything
      else starting with those names) bypass the guard; the unescaped `.` in
      `favicon.ico` lets any character stand in for it. */
  lemma MatcherExclusions(rest: string)
    ensures !Matched("/_next/static" + rest)
    ensures !Matched("/_next/image" + rest)
    ensures !Matched("/favicon.ico" + rest)
    ensures !Matched("/api" + rest)
    ensures !Matched("/public" + rest)
    ensures !Matched("/favicon-ico" + rest)
  {
    assert ("/_next/static" + rest)[1..] == "_next/static" + rest;
    assert PatternPrefix(Excluded[0], "_next/static" + rest);
    assert ("/_next/image" + rest)[1..] == "_next/image" + rest;
    assert PatternPrefix(Excluded[1], "_next/image" + rest);
    assert ("/favicon.ico" + rest)[1..] == "favicon.ico" + rest;
    assert PatternPrefix(Excluded[2], "favicon.ico" + rest);
    assert ("/api" + rest)[1..] == "api" + rest;
    assert PatternPrefix(Excluded[4], "api" + rest);
    assert ("/public" + rest)[1..] == "public" + rest;
    assert PatternPrefix(Excluded[3], "public" + rest);
    assert ("/favicon-ico" + rest)[1..] == "favicon-ico" + rest;
    assert PatternPrefix(Excluded[2], "favicon-ico" + rest);
  }
}
