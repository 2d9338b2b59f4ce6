/** middleware.ts: the guard in front of the admin pages. `Handle` is the middleware
    function, `Authorized` the `authorized` callback, `Matched` the `config.matcher`
    list, and `Guard` the three as `withAuth` puts them together. */
module Middleware {
  import opened Common
  import opened Text
  import opened UriEncoding

  const LoginPath := "/admin/login"
  const DashboardPath := "/admin/dashboard"

  /** The prefixes matched as `/<prefix>/:path*`. */
  const GuardedPrefixes: seq<string> := [
    "/admin/dashboard", "/admin/services", "/admin/orders", "/admin/portfolio",
    "/admin/settings", "/admin/users", "/admin/about", "/admin/contact"]

  /** What the middleware does with a request. */
  datatype Decision =
    | Next
    | Redirect(location: string)
    /** `withAuth` refused the request and sends it to its sign-in page. */
    | SignIn(callback: string)
    /** The matcher does not select the path: the middleware does not run. */
    | Untouched

  /** `/<prefix>/:path*`: the prefix itself, or the prefix followed by more segments. */
  predicate MatchesPattern(path: string, prefix: string) {
    path == prefix || StartsWith(path, prefix + "/")
  }

  predicate Matched(path: string) {
    path == LoginPath || exists k :: 0 <= k < |GuardedPrefixes| && MatchesPattern(path, GuardedPrefixes[k])
  }

  /** The `from` parameter: the path, followed by the query string when there is one. */
  function From(path: string, search: string): (r: string)
    ensures search == "" ==> r == path
    ensures search != "" ==> r == path + search
  {
    if search != "" then path + search else path
  }

  /** The middleware function. `search` is `""` or starts with `?`. It lets a request
      through exactly when it is for the login page without a token or for another
      page with one; every other request is redirected, to the dashboard when it has
      a token and to the login page, with `from`, when it has none. */
  function Handle(path: string, search: string, token: bool): (d: Decision)
    ensures d.Next? || d.Redirect?
    ensures d.Next? <==> (StartsWith(path, LoginPath) <==> !token)
    ensures d.Redirect? && token ==> d.location == DashboardPath
    ensures d.Redirect? && !token ==> StartsWith(d.location, LoginPath + "?from=")
  {
    assert StartsWith(LoginPath + "?from=" + Encode(From(path, search)), LoginPath + "?from=") by {
      assert (LoginPath + "?from=" + Encode(From(path, search)))[..|LoginPath + "?from="|] == LoginPath + "?from=";
    }
    if StartsWith(path, LoginPath) then
      if token then Redirect(DashboardPath) else Next
    else if !token then Redirect(LoginPath + "?from=" + Encode(From(path, search)))
    else Next
  }

  /** The `authorized` callback. */
  predicate Authorized(path: string, token: bool) {
    path == LoginPath || token
  }

  /** No matched path other than the login page starts with `/admin/login`: every
      other pattern of the matcher begins with a different section name. */
  lemma LoginPrefixOnlyLogin(path: string)
    requires Matched(path) && path != LoginPath
    ensures !StartsWith(path, LoginPath)
  {
    var k :| 0 <= k < |GuardedPrefixes| && MatchesPattern(path, GuardedPrefixes[k]);
    var p := GuardedPrefixes[k];
    assert |p| > 7 && p[7] != 'l';
    if path != p {
      assert path[..|p| + 1] == p + "/";
      assert path[..|p| + 1][7] == path[7];
      assert (p + "/")[7] == p[7];
    }
    assert path[7] != LoginPath[7];
  }

  /** `withAuth(middleware, { callbacks: { authorized }, pages: { signIn } })` on the
      matched paths. An unmatched path is left alone. The sign-in page itself is passed
      through by `withAuth` before the callback or the middleware is consulted, with or
      without a token. Any other matched path without a token goes to the sign-in page,
      and one with a token is handed to the middleware, which lets it through: the
      composition never redirects. */
  function Guard(path: string, search: string, token: bool): (d: Decision)
    ensures d.Untouched? <==> !Matched(path)
    ensures d.SignIn? <==> Matched(path) && !token && path != LoginPath
    ensures d.SignIn? ==> d.callback == path + search
    ensures d.Next? <==> Matched(path) && (token || path == LoginPath)
    ensures !d.Redirect?
  {
    if !Matched(path) then Untouched
    else if path == LoginPath then Next
    else if !Authorized(path, token) then SignIn(path + search)
    else LoginPrefixOnlyLogin(path); Handle(path, search, token)
  }

  /** A signed-in request for the login page goes to the dashboard; one without a token
      is let through. */
  lemma LoginPage(path: string, search: string, token: bool)
    requires StartsWith(path, LoginPath)
    ensures token ==> Handle(path, search, token) == Redirect(DashboardPath)
    ensures !token ==> Handle(path, search, token) == Next
  {
  }

  /** Any other path without a token is sent to the login page with the original path
      and query in `from`, percent-encoded so that the login page decodes it back
      exactly; with a token the request proceeds. */
  lemma OtherPages(path: string, search: string, token: bool)
    requires !StartsWith(path, LoginPath)
    ensures !token ==> Handle(path, search, token) == Redirect(LoginPath + "?from=" + Encode(From(path, search)))
    ensures !token ==> Decode(Encode(From(path, search))) == Some(From(path, search))
    ensures token ==> Handle(path, search, token) == Next
  {
    DecodeEncode(From(path, search));
  }

  /** The encoded `from` holds no `&`, `=`, `#` or `?`, so it stays one query
      parameter. */
  lemma FromIsOneParameter(path: string, search: string)
    ensures forall k :: 0 <= k < |Encode(From(path, search))| ==>
      Encode(From(path, search))[k] !in {'&', '=', '#', '?', '/'}
  {
    EncodeAlphabet(From(path, search));
  }

  /** The callback decides which matched requests reach the middleware: on a matched
      path other than the sign-in page `withAuth` hands the request to `Handle` exactly
      when `Authorized` holds, and refuses it to the sign-in page otherwise. The
      sign-in page is let through without consulting the callback, so its
      `=== '/admin/login'` arm never decides anything. */
  lemma AuthorizedIff(path: string, search: string, token: bool)
    requires Matched(path)
    ensures path != LoginPath ==> (Guard(path, search, token) == Handle(path, search, token) <==> Authorized(path, token))
    ensures !Authorized(path, token) <==> Guard(path, search, token).SignIn?
    ensures path == LoginPath ==> Guard(path, search, token) == Next
  {
  }

  /** A signed-in request for the sign-in page is let through by `withAuth`, although
      the middleware, had it run, would have sent it to the dashboard. */
  lemma SignedInLoginNotRedirected(search: string)
    ensures Guard(LoginPath, search, true) == Next
    ensures Handle(LoginPath, search, true) == Redirect(DashboardPath)
  {
    assert StartsWith(LoginPath, LoginPath);
  }

  /** Behind `withAuth` both redirects of the middleware are dead: whenever the
      middleware runs on a matched request it lets the request through. */
  lemma MiddlewareRedirectsUnreachable(path: string, search: string, token: bool)
    requires Matched(path) && path != LoginPath && Authorized(path, token)
    ensures Guard(path, search, token) == Handle(path, search, token)
    ensures Handle(path, search, token) == Next
  {
    LoginPrefixOnlyLogin(path);
  }

  /** Only the admin sections and the login page are guarded; the registration page
      and the public site are not. */
  lemma MatcherExamples()
    ensures Matched("/admin/dashboard") && Matched("/admin/orders/123") && Matched(LoginPath)
    ensures !Matched("/admin/register") && !Matched("/") && !Matched("/admin/login/reset")
    ensures Guard("/admin/register", "", false) == Untouched
  {
    assert MatchesPattern("/admin/dashboard", GuardedPrefixes[0]);
    assert MatchesPattern("/admin/orders/123", GuardedPrefixes[2]);
    forall k | 0 <= k < |GuardedPrefixes|
      ensures !MatchesPattern("/admin/register", GuardedPrefixes[k])
      ensures !MatchesPattern("/", GuardedPrefixes[k])
      ensures !MatchesPattern("/admin/login/reset", GuardedPrefixes[k])
    {
      var p := GuardedPrefixes[k];
      assert |p| > 7 && p[7] != 'r' && p[7] != 'l';
      assert (p + "/")[7] == p[7];
      assert "/admin/register"[7] == 'r' && "/admin/login/reset"[7] == 'l';
      if |p| + 1 <= |"/admin/register"| {
        assert "/admin/register"[..|p| + 1][7] == 'r';
      }
      if |p| + 1 <= |"/admin/login/reset"| {
        assert "/admin/login/reset"[..|p| + 1][7] == 'l';
      }
    }
  }

  /** Behind `withAuth` the middleware only ever sees authorized requests, so its own
      "no token" redirect never happens: a request without a token is either for the
      sign-in page, which `withAuth` lets through, or is refused by the callback first. */
  lemma NoTokenRedirectUnreachable(path: string, search: string)
    requires Matched(path)
    ensures path == LoginPath ==> Guard(path, search, false) == Next
    ensures path != LoginPath ==> Guard(path, search, false) == SignIn(path + search)
    ensures !Guard(path, search, false).Redirect?
  {
  }
}
