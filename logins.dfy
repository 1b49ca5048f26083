/**
 * The sign-in flow of the two dashboards: where the login pages send the
 * user afterwards, the admin application's middleware with its token
 * cache, the admin login form, and the public site's middleware and mock
 * login.
 */
module LoginRedirects {
  import opened Base
  import opened Text

  /**
   * `redirect && allowed.includes(redirect) ? redirect : fallback`: only a
   * listed page is followed, anything else lands on the fallback.
   */
  function Target(redirect: Option<string>, allowed: seq<string>, fallback: string): (r: string)
    ensures redirect.Some? && redirect.value in allowed && redirect.value != "" ==> r == redirect.value
    ensures !(redirect.Some? && redirect.value in allowed) ==> r == fallback
    ensures r == fallback || r in allowed
  {
    if Truthy(redirect) && redirect.value in allowed then redirect.value else fallback
  }

  /** With a listed fallback, the login page always sends the user to a listed page. */
  lemma TargetIsListed(redirect: Option<string>, allowed: seq<string>, fallback: string)
    requires fallback in allowed
    ensures Target(redirect, allowed, fallback) in allowed
  {
  }

  /** The login toasts. */
  datatype Notice = SignedIn | LoginError(message: string)
}

/** `admin/src/middleware.ts`: the guard in front of the admin dashboard. */
module AdminMiddleware {
  import opened Base
  import opened Text

  // ---------------------------------------------------------------------
  // Which paths the middleware runs on

  /** A route matcher: one exact path, or `base/:path*` (the base and everything below it). */
  datatype Matcher = Exact(path: string) | Subtree(base: string)

  predicate Matches(m: Matcher, path: string) {
    match m
    case Exact(p) => path == p
    case Subtree(base) => path == base || StartsWith(path, base + "/")
  }

  const Matchers: seq<Matcher> := [
    Subtree("/dashboard"),
    Exact("/dashboard"),
    Subtree("/dashboard/categories"),
    Subtree("/dashboard/projects"),
    Subtree("/dashboard/servicesteps")]

  predicate Guarded(path: string) {
    exists i | 0 <= i < |Matchers| :: Matches(Matchers[i], path)
  }

  /** A string starting with `a + b` starts with `a`. */
  lemma StartsWithPrefix(s: string, a: string, b: string)
    requires StartsWith(s, a + b)
    ensures StartsWith(s, a)
  {
    assert s[..|a|] == (a + b)[..|a|];
  }

  /** A matcher for a sub-page of the dashboard only matches paths the first matcher already covers. */
  lemma SubPageCovered(path: string, page: string)
    requires Matches(Subtree("/dashboard/" + page), path)
    ensures Matches(Subtree("/dashboard"), path)
  {
    if path == "/dashboard/" + page {
      assert StartsWith(path, "/dashboard/");
    } else {
      assert "/dashboard/" + page + "/" == "/dashboard/" + (page + "/");
      StartsWithPrefix(path, "/dashboard/", page + "/");
    }
  }

  /**
   * The five matchers together guard exactly `/dashboard` and the paths
   * below it: the last four add nothing to the first.
   */
  lemma GuardedIsDashboard(path: string)
    ensures Guarded(path) <==> Matches(Subtree("/dashboard"), path)
  {
    if Guarded(path) {
      var i :| 0 <= i < |Matchers| && Matches(Matchers[i], path);
      if i == 2 {
        assert "/dashboard/categories" == "/dashboard/" + "categories";
        SubPageCovered(path, "categories");
      } else if i == 3 {
        assert "/dashboard/projects" == "/dashboard/" + "projects";
        SubPageCovered(path, "projects");
      } else if i == 4 {
        assert "/dashboard/servicesteps" == "/dashboard/" + "servicesteps";
        SubPageCovered(path, "servicesteps");
      }
    } else {
      assert !Matches(Matchers[0], path);
    }
  }

  // ---------------------------------------------------------------------
  // The verdict cache

  /** Verdicts are kept for five minutes. */
  const CacheTtlMs: int := 300000

  datatype CacheEntry = CacheEntry(isValid: bool, expiry: int)

  /** What the POST to the backend's verify endpoint came to. */
  datatype VerifyAnswer = Answered(ok: bool) | NetworkError

  /** The cached verdict for `token`, when it has not expired by `now`. */
  function Cached(entries: map<string, CacheEntry>, token: string, now: int): (r: Option<bool>)
    ensures r.Some? <==> token in entries && now < entries[token].expiry
    ensures r.Some? ==> r.value == entries[token].isValid
  {
    if token in entries && entries[token].expiry > now then Some(entries[token].isValid) else None
  }

  /** A fresh answer: valid only when the backend answered with a success status. */
  predicate Accepted(answer: VerifyAnswer) {
    answer.Answered? && answer.ok
  }

  /** `verifyToken`'s result: the cached verdict when there is one, else the fresh answer. */
  function Verdict(entries: map<string, CacheEntry>, token: string, now: int, answer: VerifyAnswer): (r: bool)
    ensures Cached(entries, token, now).Some? ==> r == Cached(entries, token, now).value
    ensures Cached(entries, token, now).None? ==> (r <==> Accepted(answer))
    ensures answer.NetworkError? && r ==> token in entries && entries[token].isValid
  {
    match Cached(entries, token, now)
    case Some(v) => v
    case None => Accepted(answer)
  }

  /** The module-level `tokenCache` map. */
  class TokenCache {
    var entries: map<string, CacheEntry>

    constructor()
      ensures entries == map[]
    {
      entries := map[];
    }

    /**
     * `verifyToken`: a verdict still fresh at `checkedAt` is served from the
     * cache without asking the backend; otherwise the backend's answer
     * (received at `answeredAt`) is returned and remembered for five
     * minutes, a network error counting as invalid.
     */
    method Verify(token: string, checkedAt: int, answeredAt: int, answer: VerifyAnswer) returns (valid: bool, askedBackend: bool)
      modifies this
      ensures askedBackend <==> Cached(old(entries), token, checkedAt).None?
      ensures valid == Verdict(old(entries), token, checkedAt, answer)
      ensures entries == if askedBackend then old(entries)[token := CacheEntry(valid, answeredAt + CacheTtlMs)]
                         else old(entries)
    {
      var cached := Cached(entries, token, checkedAt);
      if cached.Some? {
        return cached.value, false;
      }
      valid := answer.Answered? && answer.ok;
      entries := entries[token := CacheEntry(valid, answeredAt + CacheTtlMs)];
      askedBackend := true;
    }
  }

  /** A verdict just stored is served from the cache until its five minutes are up. */
  lemma StoredVerdictServed(entries: map<string, CacheEntry>, token: string, valid: bool, answeredAt: int, later: int)
    requires later < answeredAt + CacheTtlMs
    ensures Cached(entries[token := CacheEntry(valid, answeredAt + CacheTtlMs)], token, later) == Some(valid)
  {
  }

  /** Once the five minutes are up the backend is asked again. */
  lemma StoredVerdictExpires(entries: map<string, CacheEntry>, token: string, valid: bool, answeredAt: int, later: int)
    requires answeredAt + CacheTtlMs <= later
    ensures Cached(entries[token := CacheEntry(valid, answeredAt + CacheTtlMs)], token, later).None?
  {
  }

  // ---------------------------------------------------------------------
  // The middleware's response

  /** One `Set-Cookie` header of the response. */
  datatype SetCookie =
    | Expire(name: string)           // what `cookies.delete(name)` writes
    | RedirectCookie(path: string)   // `redirect=<path>; Path=/; HttpOnly`, the path kept unencoded

  datatype Response =
    | ToLogin(redirectParam: Option<string>, setCookies: seq<SetCookie>)
    | Next

  /** `headers.set("set-cookie", v)`: every earlier `Set-Cookie` header is replaced. */
  function SetHeader(headers: seq<SetCookie>, v: SetCookie): (r: seq<SetCookie>)
    ensures forall h :: h in r <==> h == v
  {
    [v]
  }

  /** Adding a header beside the ones already there, as `headers.append` does. */
  function AppendHeader(headers: seq<SetCookie>, v: SetCookie): (r: seq<SetCookie>)
    ensures forall h :: h in r <==> h in headers || h == v
  {
    headers + [v]
  }

  /**
   * The headers of the redirect for a rejected token as the middleware
   * writes them: the expiry of `auth_token`, then a `set` of the redirect
   * cookie, which replaces it: only the redirect cookie is left, and the
   * rejected token is never told to expire.
   */
  function RejectedHeadersAsWritten(pathname: string): (r: seq<SetCookie>)
    ensures forall h :: h in r <==> h == RedirectCookie(pathname)
  {
    SetHeader([Expire("auth_token")], RedirectCookie(pathname))
  }

  /** The evidently intended headers: the expiry and the redirect cookie side by side. */
  function RejectedHeaders(pathname: string): (r: seq<SetCookie>)
    ensures Expire("auth_token") in r && RedirectCookie(pathname) in r
    ensures forall h | h in r :: h == Expire("auth_token") || h == RedirectCookie(pathname)
  {
    AppendHeader([Expire("auth_token")], RedirectCookie(pathname))
  }

  /**
   * `middleware`: without an `auth_token` cookie the user is sent to the
   * login page with the path in `?redirect=`; a token the cache or the
   * backend rejects is sent to the login page with the path in a cookie
   * instead; because that cookie is `set` after the token's deletion, the
   * response carries no expiry of the token (Findings row 3). An accepted
   * token passes.
   */
  method Handle(cache: TokenCache, token: Option<string>, pathname: string,
                checkedAt: int, answeredAt: int, answer: VerifyAnswer) returns (response: Response)
    modifies cache
    ensures !Truthy(token) ==> response == ToLogin(Some(pathname), []) && cache.entries == old(cache.entries)
    ensures Truthy(token) ==>
      (response.Next? <==> Verdict(old(cache.entries), token.value, checkedAt, answer))
    ensures Truthy(token) && !response.Next? ==> response == ToLogin(None, RejectedHeadersAsWritten(pathname))
    ensures Truthy(token) && !response.Next? ==> Expire("auth_token") !in response.setCookies
    ensures Truthy(token) && Cached(old(cache.entries), token.value, checkedAt).Some? ==> cache.entries == old(cache.entries)
    ensures Truthy(token) && Cached(old(cache.entries), token.value, checkedAt).None? ==>
              cache.entries == old(cache.entries)[token.value := CacheEntry(response.Next?, answeredAt + CacheTtlMs)]
  {
    if !Truthy(token) {
      return ToLogin(Some(pathname), []);
    }
    var valid, _ := cache.Verify(token.value, checkedAt, answeredAt, answer);
    if !valid {
      return ToLogin(None, RejectedHeadersAsWritten(pathname));
    }
    response := Next;
  }
}

/** `admin/src/app/login/page.tsx`: the admin sign-in form. */
module AdminLogin {
  import opened Base
  import opened Text
  import opened LoginRedirects

  const Allowed: seq<string> := ["/dashboard", "/dashboard/contacts", "/dashboard/projects", "/dashboard/projects/new"]
  const Home: string := "/dashboard"

  const InvalidCredentials: string := "Invalid email or password"
  const ServerUnreachable: string := "Failed to connect to the server. Please try again later."

  /**
   * What the POST to the backend's login endpoint came to: a parsed JSON
   * body with the status, or a failure (network error or unreadable body).
   */
  datatype LoginReply = Replied(ok: bool, token: string, error: Option<string>) | Unreachable

  /** What the submit handler leaves behind. */
  datatype Outcome = Outcome(cookie: Option<string>, notice: Notice, navigateTo: Option<string>, isLoading: bool)

  /**
   * `onSubmit`: only a success sets the `auth_token` cookie and navigates,
   * to the requested page when it is listed and to the dashboard
   * otherwise; a refusal shows the backend's error or a fixed text, a
   * failure the connection text; the form is usable again either way.
   */
  function Submit(reply: LoginReply, redirect: Option<string>): (r: Outcome)
    ensures r.cookie.Some? <==> reply.Replied? && reply.ok
    ensures r.navigateTo.Some? <==> r.cookie.Some?
    ensures r.cookie.Some? ==> r.cookie.value == reply.token && r.notice == SignedIn
    ensures r.navigateTo.Some? ==> r.navigateTo.value in Allowed
    ensures reply.Replied? && reply.ok ==> r.navigateTo == Some(Target(redirect, Allowed, Home))
    ensures reply.Replied? && !reply.ok ==> r.notice == LoginError(OrElse(reply.error, InvalidCredentials))
    ensures reply.Unreachable? ==> r.notice == LoginError(ServerUnreachable)
    ensures !r.isLoading
  {
    match reply
    case Replied(ok, token, error) =>
      if ok then Outcome(Some(token), SignedIn, Some(Target(redirect, Allowed, Home)), false)
      else Outcome(None, LoginError(OrElse(error, InvalidCredentials)), None, false)
    case Unreachable => Outcome(None, LoginError(ServerUnreachable), None, false)
  }

  /**
   * The categories page is not listed, so a user sent to the login page
   * from it returns to the dashboard home.
   */
  lemma CategoriesPageNotRestored(token: string)
    ensures Submit(Replied(true, token, None), Some("/dashboard/categories")).navigateTo == Some(Home)
  {
  }

  /**
   * A rejected token reaches the login page without `?redirect=`, so
   * signing in again returns to the dashboard home.
   */
  lemma RejectedTokenReturnsHome(token: string)
    ensures Submit(Replied(true, token, None), None).navigateTo == Some(Home)
  {
  }
}

/** `frontend/src/middleware.ts`: the guard of the public site's admin area. */
module SiteMiddleware {
  import opened Base
  import opened Text

  const ProtectedRoutes: seq<string> := [
    "/admin/dashboard", "/admin/dashboard/contacts", "/admin/dashboard/projects", "/admin/dashboard/projects/new"]

  const LoginPath: string := "/admin/login"

  /** `protectedRoutes.some(route => pathname.startsWith(route))`. */
  predicate IsProtected(pathname: string) {
    exists i | 0 <= i < |ProtectedRoutes| :: StartsWith(pathname, ProtectedRoutes[i])
  }

  /** The longer routes only repeat the first: a path is protected exactly when it starts with `/admin/dashboard`. */
  lemma ProtectedIsDashboardPrefix(pathname: string)
    ensures IsProtected(pathname) <==> StartsWith(pathname, "/admin/dashboard")
  {
    if IsProtected(pathname) {
      var i :| 0 <= i < |ProtectedRoutes| && StartsWith(pathname, ProtectedRoutes[i]);
      var route := ProtectedRoutes[i];
      assert route[..|"/admin/dashboard"|] == "/admin/dashboard";
      assert pathname[..|"/admin/dashboard"|] == route[..|"/admin/dashboard"|];
    } else {
      assert !StartsWith(pathname, ProtectedRoutes[0]);
    }
  }

  /** The matcher `/admin/:path*`: `/admin` and everything below it. */
  predicate Matched(pathname: string) {
    pathname == "/admin" || StartsWith(pathname, "/admin/")
  }

  datatype Response = ToLogin(redirect: string) | Next

  /**
   * `middleware`: the login page always passes; a protected path without
   * an `auth_token` cookie goes to the login page with the path in
   * `?redirect=`; everything else passes.
   */
  function Handle(pathname: string, token: Option<string>): (r: Response)
    ensures pathname == LoginPath ==> r == Next
    ensures r.ToLogin? <==> pathname != LoginPath && StartsWith(pathname, "/admin/dashboard") && !Truthy(token)
    ensures r.ToLogin? ==> r.redirect == pathname
  {
    ProtectedIsDashboardPrefix(pathname);
    if pathname == LoginPath then Next
    else if IsProtected(pathname) && !Truthy(token) then ToLogin(pathname)
    else Next
  }

  /** Any cookie value at all lets a protected path through: the token is never checked. */
  lemma AnyTokenPasses(pathname: string, token: string)
    requires token != ""
    ensures Handle(pathname, Some(token)) == Next
  {
  }
}

/** `frontend/src/app/admin/login/page.tsx`: the public site's mock sign-in. */
module MockLogin {
  import opened Base
  import opened LoginRedirects

  const Allowed: seq<string> := [
    "/admin/dashboard", "/admin/dashboard/contacts", "/admin/dashboard/projects", "/admin/dashboard/projects/new"]
  const Home: string := "/admin/dashboard"

  const DemoEmail: string := "admin@example.com"
  const DemoPassword: string := "password"
  const MockToken: string := "mock-token"
  const WrongCredentials: string := "Invalid email or password. Try admin@example.com / password"

  /**
   * The form schema: a well-formed email (decided by the form library,
   * here an input) and a password of at least six characters.
   */
  predicate FormAccepts(emailWellFormed: bool, password: string) {
    emailWellFormed && |password| >= 6
  }

  datatype Outcome = Outcome(cookie: Option<string>, notice: Notice, navigateTo: Option<string>, isLoading: bool)

  /**
   * `onSubmit` once its delay has passed: only the demo credentials set the
   * mock token and navigate to a listed page; anything else shows the hint.
   */
  function Submit(email: string, password: string, redirect: Option<string>): (r: Outcome)
    ensures r.cookie.Some? <==> email == DemoEmail && password == DemoPassword
    ensures r.navigateTo.Some? <==> r.cookie.Some?
    ensures r.cookie.Some? ==> r.cookie.value == MockToken && r.notice == SignedIn
    ensures r.navigateTo.Some? ==> r.navigateTo.value == Target(redirect, Allowed, Home) && r.navigateTo.value in Allowed
    ensures r.cookie.None? ==> r.notice == LoginError(WrongCredentials)
    ensures !r.isLoading
  {
    if email == DemoEmail && password == DemoPassword then
      Outcome(Some(MockToken), SignedIn, Some(Target(redirect, Allowed, Home)), false)
    else
      Outcome(None, LoginError(WrongCredentials), None, false)
  }

  /** The demo password passes the form's length rule. */
  lemma DemoPasswordLongEnough(emailWellFormed: bool)
    requires emailWellFormed
    ensures FormAccepts(emailWellFormed, DemoPassword)
  {
  }
}
