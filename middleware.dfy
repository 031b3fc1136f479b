/** The request middleware: anonymous requests to protected pages are sent to
    the login page, and requests with a valid session token carry the token's
    identity to the handlers in request headers. `jwtVerify` with the
    configured secret is the parameter `verify`. */
module Middleware {
  import opened Wrappers
  import opened JsText
  import opened Js
  import opened Identity

  const ProtectedRoutes: seq<string> := ["/dashboard", "/profile", "/api/protected", "/Admin/dashboard"]

  /** `routes.some(route => path.startsWith(route))` */
  function SomePrefix(path: string, routes: seq<string>): (b: bool)
    ensures b <==> exists i :: 0 <= i < |routes| && StartsWith(path, routes[i])
  {
    if routes == [] then false
    else if StartsWith(path, routes[0]) then true
    else
      var b := SomePrefix(path, routes[1..]);
      assert forall i :: 1 <= i < |routes| ==> routes[i] == routes[1..][i - 1];
      b
  }

  /** `isProtectedRoute(path)` */
  predicate IsProtectedRoute(path: string) {
    SomePrefix(path, ProtectedRoutes)
  }

  /** A path is protected exactly when it starts with one of the four routes,
      compared case-sensitively and character by character, so that
      "/dashboardX" is protected too while "/Dashboard" is not. */
  lemma ProtectedIff(path: string)
    ensures IsProtectedRoute(path) <==>
              StartsWith(path, "/dashboard") || StartsWith(path, "/profile")
              || StartsWith(path, "/api/protected") || StartsWith(path, "/Admin/dashboard")
  {
    assert ProtectedRoutes[0] == "/dashboard" && ProtectedRoutes[1] == "/profile";
    assert ProtectedRoutes[2] == "/api/protected" && ProtectedRoutes[3] == "/Admin/dashboard";
  }

  /** Protection is decided by a prefix alone: anything appended to a protected
      path is protected. */
  lemma ProtectedExtends(path: string, suffix: string)
    requires IsProtectedRoute(path)
    ensures IsProtectedRoute(path + suffix)
  {
    var i :| 0 <= i < |ProtectedRoutes| && StartsWith(path, ProtectedRoutes[i]);
    assert (path + suffix)[..|ProtectedRoutes[i]|] == path[..|ProtectedRoutes[i]|];
  }

  /** "/dashboardX" is protected; "/Dashboard" is not. */
  lemma DashboardVariants()
    ensures IsProtectedRoute("/dashboardX")
    ensures !IsProtectedRoute("/Dashboard")
  {
    ProtectedIff("/dashboardX");
    ProtectedIff("/Dashboard");
    assert "/dashboardX"[..|"/dashboard"|] == "/dashboard";
    assert "/Dashboard"[1] != "/dashboard"[1];
    assert "/Dashboard"[1] != "/profile"[1] && "/Dashboard"[1] != "/api/protected"[1] && "/Dashboard"[1] != "/Admin/dashboard"[1];
  }

  /** The request headers the handlers read, by lower-case name, as the Web
      `Headers` class stores them. Values are kept as given: the forwarded
      claims of the tokens the sign-in handlers issue are an id and an absent
      role, which `Headers.set` neither trims nor rejects. */
  type Headers = map<string, string>

  /** What the middleware does with the request. */
  datatype Decision =
    | Redirect(location: string)
      /** `NextResponse.next()`, with the replaced request headers when given */
    | Next(headers: Option<Headers>)

  /** `middleware(request)`: `token` is the `auth-token` cookie's value, `path`
      the requested path, `headers` the request's headers. A header value is the
      text of the claim, so a missing claim is sent as "undefined". */
  function Gate(token: Option<string>, path: string, headers: Headers, verify: string -> Option<Json>): (d: Decision)
    ensures d.Redirect? ==> d.location == "/Login"
  {
    var present := token.Some? && token.value != "";
    if !present && IsProtectedRoute(path) then Redirect("/Login")
    else if present && verify(token.value).Some? then
      var payload := verify(token.value).value;
      Next(Some(headers["x-user-id" := ToStr(Get(payload, "id"))]["x-user-role" := ToStr(Get(payload, "role"))]))
    else Next(None)
  }

  /** The three outcomes: anonymous on a protected path is redirected; a token
      that verifies continues with its identity in the headers; anything else,
      a token that fails to verify on a protected path included, continues
      unchanged. */
  lemma GateCases(token: Option<string>, path: string, headers: Headers, verify: string -> Option<Json>)
    ensures var present := token.Some? && token.value != "";
      && (Gate(token, path, headers, verify).Redirect? <==> !present && IsProtectedRoute(path))
      && ((Gate(token, path, headers, verify).Next? && Gate(token, path, headers, verify).headers.Some?)
          <==> present && verify(token.value).Some?)
      && ((Gate(token, path, headers, verify) == Next(None))
          <==> (present && verify(token.value).None?) || (!present && !IsProtectedRoute(path)))
  {
  }

  /** The forwarded headers keep every other request header and set the two
      identity headers from the verified payload. */
  lemma ForwardedHeaders(token: string, path: string, headers: Headers, verify: string -> Option<Json>)
    requires token != "" && verify(token).Some?
    ensures var d := Gate(Some(token), path, headers, verify);
      && d == Next(d.headers) && d.headers.Some?
      && d.headers.value["x-user-id"] == ToStr(Get(verify(token).value, "id"))
      && d.headers.value["x-user-role"] == ToStr(Get(verify(token).value, "role"))
      && forall k :: k in headers && k != "x-user-id" && k != "x-user-role" ==>
           k in d.headers.value && d.headers.value[k] == headers[k]
  {
  }

  /** The tokens the sign-in handlers issue carry no `role` claim, so a request
      that presents one is forwarded with the role header "undefined". */
  lemma IssuedTokensHaveNoRole(token: string, path: string, headers: Headers, verify: string -> Option<Json>, claims: Json)
    requires token != "" && verify(token) == Some(claims) && "role" !in claims
    ensures Gate(Some(token), path, headers, verify) == Next(Some(headers["x-user-id" := ToStr(Get(claims, "id"))]["x-user-role" := "undefined"]))
  {
  }
}
