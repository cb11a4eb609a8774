/** The route guard of the dashboard: which requests pass, which are sent
    to log in, and which are sent back to `/dashboard` for having the
    wrong role. The session token is reduced to the role it carries. */
module Middleware {
  import opened Seqs
  import opened Records

  datatype Decision =
    | Next                             // let the request through
    | RedirectLogin(callbackUrl: string)  // the guard's own redirect to /login?callbackUrl=...
    | RedirectDashboard                // redirect to /dashboard
    | SignInRequired(callbackUrl: string) // next-auth's redirect to its sign-in page

  predicate StartsWith(s: string, prefix: string) {
    |prefix| <= |s| && s[..|prefix|] == prefix
  }

  /** The pages anyone may open. */
  predicate IsPublic(path: string) {
    path == "/" || path == "/login" || path == "/register"
  }

  /** The dashboard area reserved to each role. */
  function AreaOf(role: Role): (prefix: string) {
    match role
    case Admin => "/dashboard/admin"
    case ShopOwner => "/dashboard/shop"
    case Customer => "/dashboard/user"
  }

  /** `path` lies in the area of some role other than `role`. */
  predicate InForeignArea(path: string, role: Role) {
    exists other: Role :: other != role && StartsWith(path, AreaOf(other))
  }

  /** The guard's own body, run once next-auth has let the request in. */
  function Guard(path: string, token: Option<Role>): (d: Decision)
    ensures IsPublic(path) ==> d == Next
    ensures d.RedirectLogin? <==> !IsPublic(path) && token.None?
    ensures d.RedirectLogin? ==> d.callbackUrl == path
    ensures d == RedirectDashboard <==> !IsPublic(path) && token.Some? && InForeignArea(path, token.value)
    ensures !d.SignInRequired?
  {
    if IsPublic(path) then Next
    else if token.None? then RedirectLogin(path)
    else if StartsWith(path, "/dashboard/admin") && token.value != Admin then
      assert StartsWith(path, AreaOf(Admin));
      RedirectDashboard
    else if StartsWith(path, "/dashboard/shop") && token.value != ShopOwner then
      assert StartsWith(path, AreaOf(ShopOwner));
      RedirectDashboard
    else if StartsWith(path, "/dashboard/user") && token.value != Customer then
      assert StartsWith(path, AreaOf(Customer));
      RedirectDashboard
    else Next
  }

  /** next-auth's `authorized` callback: public pages always, anything else only with a token. */
  function Authorized(path: string, token: Option<Role>): (ok: bool)
    ensures ok <==> !Guard(path, token).RedirectLogin?
  {
    if IsPublic(path) then true else token.Some?
  }

  /** The paths the guard is configured to run on: `/`, `/login`, `/register` and `/dashboard/:path*`. */
  function Matches(path: string): (m: bool)
    ensures IsPublic(path) ==> m
    ensures forall role :: StartsWith(path, AreaOf(role)) ==> m
  {
    path == "/" || path == "/login" || path == "/register"
      || path == "/dashboard" || StartsWith(path, "/dashboard/")
  }

  /** The whole pipeline of a request: the matcher, then next-auth's callback, then the guard's body. */
  function HandleRequest(path: string, token: Option<Role>): (d: Decision)
    ensures !Matches(path) ==> d == Next
    ensures d.SignInRequired? <==> Matches(path) && !IsPublic(path) && token.None?
    ensures d.SignInRequired? ==> d.callbackUrl == path
    ensures !d.RedirectLogin?
    ensures Matches(path) && IsPublic(path) ==> d == Next
    ensures Matches(path) && token.Some? ==> d == Guard(path, token)
    ensures d == RedirectDashboard <==> Matches(path) && !IsPublic(path) && token.Some? && InForeignArea(path, token.value)
  {
    if !Matches(path) then Next
    else if !Authorized(path, token) then SignInRequired(path)
    else Guard(path, token)
  }

  /** The callback and the guard's body agree on which requests lack a needed token, so the body's own
      login redirect is never reached once next-auth has let a request in. */
  lemma CallbackPrecedesLoginRedirect(path: string, token: Option<Role>)
    ensures Guard(path, token).RedirectLogin? <==> !Authorized(path, token)
  {
  }

  /** The three role areas do not overlap. */
  lemma AreasDisjoint(path: string, r1: Role, r2: Role)
    requires StartsWith(path, AreaOf(r1)) && StartsWith(path, AreaOf(r2))
    ensures r1 == r2
  {
    var a1, a2 := AreaOf(r1), AreaOf(r2);
    assert path[11] == a1[11] == a2[11];
  }

  /** Every role may open its own area. */
  lemma OwnAreaAllowed(path: string, role: Role)
    requires StartsWith(path, AreaOf(role))
    ensures Guard(path, Some(role)) == Next
  {
    forall other: Role | StartsWith(path, AreaOf(other)) ensures other == role {
      AreasDisjoint(path, other, role);
    }
    assert !IsPublic(path) by {
      assert |path| >= 15;
    }
  }

  /** `/dashboard` and every path outside the three areas are open to any role. */
  lemma UnguardedOpenToAll(path: string, role: Role)
    requires forall r: Role :: !StartsWith(path, AreaOf(r))
    ensures Guard(path, Some(role)) == Next
  {
  }

  /** A wrong-role redirect lands on `/dashboard`, which the pipeline then lets through for the same
      token; a login redirect lands on `/login`, which is public: neither redirect can loop. */
  lemma RedirectsDoNotLoop(path: string, token: Option<Role>)
    ensures HandleRequest(path, token) == RedirectDashboard ==> HandleRequest("/dashboard", token) == Next
    ensures Guard(path, token).RedirectLogin? ==> HandleRequest("/login", None) == Next
  {
    if HandleRequest(path, token) == RedirectDashboard {
      assert token.Some?;
      UnguardedOpenToAll("/dashboard", token.value);
    }
  }

  /** Area checks are textual prefixes: a path merely beginning with an area's name is guarded like the area. */
  lemma PrefixIsTextual()
    ensures Guard("/dashboard/shopping", Some(Customer)) == RedirectDashboard
  {
    assert StartsWith("/dashboard/shopping", AreaOf(ShopOwner));
  }

  /** The guard runs on the configured paths only: a path that merely begins like `/dashboard`, and the API
      routes, pass untouched even without a session. */
  lemma UnmatchedPathsPass()
    ensures HandleRequest("/dashboardx", None) == Next
    ensures HandleRequest("/api/orders", None) == Next
  {
    assert "/dashboardx"[..11] != "/dashboard/" by {
      assert "/dashboardx"[10] != "/dashboard/"[10];
    }
    assert "/api/orders"[..11] != "/dashboard/" by {
      assert "/api/orders"[1] != "/dashboard/"[1];
    }
  }
}
