/** cmd/api/middleware.go: composing middleware, the shape check of the
    Authorization header, the user guards and the CORS decision. */
module Middleware {
  import opened Wrappers
  import opened Strings
  import opened Permissions

  // ---------------------------------------------------------------------
  // chainMiddleware

  /** The handler each middleware wraps around the next: ms[0] outermost. */
  function Compose<H>(ms: seq<H -> H>, h: H): H
    decreases |ms|
  {
    if ms == [] then h else ms[0](Compose(ms[1..], h))
  }

  /** Composing a list in two parts wraps the first part around the second. */
  lemma {:induction false} ComposeAppend<H>(a: seq<H -> H>, b: seq<H -> H>, h: H)
    ensures Compose(a + b, h) == Compose(a, Compose(b, h))
    decreases |a|
  {
    if a == [] {
      assert a + b == b;
    } else {
      assert (a + b)[1..] == a[1..] + b;
      ComposeAppend(a[1..], b, h);
    }
  }

  /** chainMiddleware: no middleware gives the handler back; otherwise the
      last one wraps the handler and each earlier one wraps the result. */
  method ChainMiddleware<H>(mux: H, ms: seq<H -> H>) returns (handler: H)
    ensures handler == Compose(ms, mux)
    ensures ms == [] ==> handler == mux
  {
    if |ms| == 0 {
      return mux;
    }
    handler := ms[|ms| - 1](mux);
    assert handler == Compose(ms[|ms| - 1..], mux) by {
      assert ms[|ms| - 1..][1..] == [];
    }
    var i := |ms| - 2;
    while i >= 0
      invariant -1 <= i <= |ms| - 2
      invariant handler == Compose(ms[i + 1..], mux)
      decreases i
    {
      assert ms[i..][1..] == ms[i + 1..];
      handler := ms[i](handler);
      i := i - 1;
    }
    assert ms[0..] == ms;
  }

  /** A handler recording which middleware wrapped it, from the outside in. */
  datatype Trace = Inner | Wrapped(layer: nat, next: Trace)

  /** The n middlewares that each record their own position. */
  function Recorders(n: nat): (ms: seq<Trace -> Trace>)
    ensures |ms| == n
    ensures forall i :: 0 <= i < n ==> ms[i] == (t => Wrapped(i, t))
  {
    seq(n, i requires 0 <= i < n => (t => Wrapped(i, t)))
  }

  /** The wrapping order, from position k on: k is outermost, then k+1. */
  function Nesting(k: nat, n: nat): Trace
    decreases n - k
  {
    if k >= n then Inner else Wrapped(k, Nesting(k + 1, n))
  }

  /** A request passes through middleware[0] first, then middleware[1], and
      so on, and reaches the handler last. */
  lemma {:induction false} ChainOrder(n: nat, k: nat)
    requires k <= n
    ensures Compose(Recorders(n)[k..], Inner) == Nesting(k, n)
    decreases n - k
  {
    if k < n {
      assert Recorders(n)[k..][1..] == Recorders(n)[k + 1..];
      ChainOrder(n, k + 1);
    }
  }

  // ---------------------------------------------------------------------
  // authenticate

  /** What authenticate decides from the Authorization header alone: no
      header makes the request anonymous, a header that is not
      "Bearer <token>" is refused, and otherwise the token goes on to be
      checked (that check and the user lookup are not part of this model). */
  datatype AuthOutcome = Anonymous | InvalidCredentials | BearerToken(token: string)

  function AuthenticateHeader(header: string): (r: AuthOutcome)
    ensures r == Anonymous <==> header == ""
    ensures r.BearerToken? ==> header == "Bearer" + [' '] + r.token && ' ' !in r.token
  {
    if header == "" then Anonymous
    else
      var parts := Split(header, ' ');
      if |parts| != 2 || parts[0] != "Bearer" then InvalidCredentials
      else
        SplitTwoShape(header, ' ');
        BearerToken(parts[1])
  }

  /** Every "Bearer <token>" with a token without spaces reaches the token
      check with that token. */
  lemma AcceptsBearer(token: string)
    requires ' ' !in token
    ensures AuthenticateHeader("Bearer" + [' '] + token) == BearerToken(token)
  {
    assert ' ' !in "Bearer";
    SplitTwo("Bearer", ' ', token);
  }

  /** A header without exactly one space, or with another scheme, is refused. */
  lemma RejectsOtherShapes(header: string)
    requires header != ""
    requires Count(header, ' ') != 1 || Split(header, ' ')[0] != "Bearer"
    ensures AuthenticateHeader(header) == InvalidCredentials
  {
  }

  // ---------------------------------------------------------------------
  // requireAuthenticatedUser, requireActivatedUser, requirePermission

  /** The user stored in the request context: AnonymousUser or a real one. */
  datatype User = User(anonymous: bool, activated: bool, id: int)

  datatype GuardOutcome = Pass | AuthenticationRequired | InactiveAccount | NotPermitted | ServerError

  function RequireAuthenticatedUser(u: User): (r: GuardOutcome)
    ensures r == Pass <==> !u.anonymous
    ensures r != Pass ==> r == AuthenticationRequired
  {
    if u.anonymous then AuthenticationRequired else Pass
  }

  /** requireActivatedUser runs inside requireAuthenticatedUser, so an
      anonymous user is told to authenticate before activation is looked at. */
  function RequireActivatedUser(u: User): (r: GuardOutcome)
    ensures r == Pass <==> !u.anonymous && u.activated
    ensures u.anonymous ==> r == AuthenticationRequired
    ensures !u.anonymous && !u.activated ==> r == InactiveAccount
  {
    var outer := RequireAuthenticatedUser(u);
    if outer != Pass then outer
    else if !u.activated then InactiveAccount
    else Pass
  }

  /** requirePermission runs inside requireActivatedUser; the user's codes
      are looked up only after that (None: the lookup failed). */
  function RequirePermission(code: string, u: User, permissions: Option<seq<string>>): (r: GuardOutcome)
    ensures r == Pass <==> !u.anonymous && u.activated && permissions.Some? && code in permissions.value
    ensures RequireActivatedUser(u) != Pass ==> r == RequireActivatedUser(u)
    ensures RequireActivatedUser(u) == Pass && permissions.None? ==> r == ServerError
    ensures RequireActivatedUser(u) == Pass && permissions.Some? && code !in permissions.value ==> r == NotPermitted
  {
    var outer := RequireActivatedUser(u);
    if outer != Pass then outer
    else if permissions.None? then ServerError
    else if !Include(permissions.value, code) then NotPermitted
    else Pass
  }

  // ---------------------------------------------------------------------
  // enableCORS

  /** What enableCORS does with a request: pass it on untouched, pass it on
      with Access-Control-Allow-Origin set to the origin, answer a preflight
      with 200 and the allowed methods and headers, or answer 403. */
  datatype CorsOutcome =
    | PassThrough
    | Allowed(allowOrigin: string)
    | Preflight(allowOrigin: string, allowMethods: string, allowHeaders: string, maxAge: string)
    | Forbidden

  /** The headers of a preflight answer. */
  const PreflightMethods := "OPTIONS, GET, POST, PUT, PATCH, DELETE"
  const PreflightHeaders := "Authorization, Content-Type"
  const PreflightMaxAge := "3600"

  /** The preflight answer for an admitted origin. */
  function PreflightFor(origin: string): CorsOutcome
  {
    Preflight(origin, PreflightMethods, PreflightHeaders, PreflightMaxAge)
  }

  /** A trusted-origins entry admits the origin when it is "*" or the origin. */
  predicate Admits(trusted: string, origin: string)
  {
    trusted == "*" || trusted == origin
  }

  /** The scan over the trusted origins, stopping at the first that admits. */
  function AnyAdmits(trusted: seq<string>, origin: string): (b: bool)
    ensures b <==> exists i :: 0 <= i < |trusted| && Admits(trusted[i], origin)
    decreases |trusted|
  {
    if trusted == [] then false
    else if Admits(trusted[0], origin) then true
    else
      var b := AnyAdmits(trusted[1..], origin);
      assert b ==> exists i :: 0 <= i < |trusted| && Admits(trusted[i], origin) by {
        if b {
          var i :| 0 <= i < |trusted[1..]| && Admits(trusted[1..][i], origin);
          assert Admits(trusted[i + 1], origin);
        }
      }
      b
  }

  /** A preflight request: OPTIONS with an Access-Control-Request-Method. */
  predicate IsPreflight(httpMethod: string, requestMethod: string)
  {
    httpMethod == "OPTIONS" && requestMethod != ""
  }

  function EnableCors(origin: string, httpMethod: string, requestMethod: string, trusted: seq<string>): (r: CorsOutcome)
    ensures origin == "" ==> r == PassThrough
    ensures r.Allowed? || r.Preflight? ==> r.allowOrigin == origin
    ensures r.Preflight? ==>
      && r.allowMethods == "OPTIONS, GET, POST, PUT, PATCH, DELETE"
      && r.allowHeaders == "Authorization, Content-Type"
      && r.maxAge == "3600"
    ensures origin != "" && (exists i :: 0 <= i < |trusted| && Admits(trusted[i], origin)) ==>
      (r.Preflight? <==> IsPreflight(httpMethod, requestMethod))
      && (r.Preflight? || r == Allowed(origin))
    ensures origin != "" && (forall i :: 0 <= i < |trusted| ==> !Admits(trusted[i], origin)) ==> r == Forbidden
  {
    if origin == "" then PassThrough
    else if |trusted| > 0 && AnyAdmits(trusted, origin) then
      (if IsPreflight(httpMethod, requestMethod) then PreflightFor(origin) else Allowed(origin))
    else Forbidden
  }

  /** With no trusted origins every cross-origin request is refused. */
  lemma NoTrustedOriginsForbid(origin: string, httpMethod: string, requestMethod: string)
    requires origin != ""
    ensures EnableCors(origin, httpMethod, requestMethod, []) == Forbidden
  {
  }

  /** A "*" entry admits every origin. */
  lemma WildcardAdmitsAll(origin: string, httpMethod: string, requestMethod: string, trusted: seq<string>)
    requires origin != "" && "*" in trusted
    ensures EnableCors(origin, httpMethod, requestMethod, trusted).Allowed?
         || EnableCors(origin, httpMethod, requestMethod, trusted).Preflight?
  {
    var i :| 0 <= i < |trusted| && trusted[i] == "*";
    assert Admits(trusted[i], origin);
  }
}
