/** The request middleware: which paths it skips, which it guards, and where
    it redirects a visitor with or without a session. */
module Middleware {
  import opened Wrappers

  /** The outcome of a remote call: it threw, or it returned a value. */
  datatype Remote<+T> = Threw | Returned(value: T)

  datatype Decision = Pass | Redirect(target: string)

  const LoginPath: string := "/login"
  const RegisterPath: string := "/register"
  const VendorDashboardPath: string := "/vendor-dashboard"
  const SupplierDashboardPath: string := "/supplier-dashboard"
  const ProfilePath: string := "/profile"

  /** The route prefixes that need a session. */
  const ProtectedRoutes: seq<string> := [VendorDashboardPath, SupplierDashboardPath, ProfilePath]

  /** Framework assets, API routes and anything that looks like a file name
      are passed through untouched. */
  predicate Skipped(path: string) {
    "/_next/" <= path || "/api/" <= path || '.' in path
  }

  /** Both connection settings are present and non-empty (an empty string
      is falsy in JavaScript). */
  predicate Configured(url: Option<string>, anonKey: Option<string>) {
    url.Some? && url.value != "" && anonKey.Some? && anonKey.value != ""
  }

  /** Some protected route is a prefix of the path. */
  predicate IsProtected(path: string) {
    exists k :: 0 <= k < |ProtectedRoutes| && ProtectedRoutes[k] <= path
  }

  predicate IsAuthPage(path: string) {
    path == LoginPath || path == RegisterPath
  }

  /** The dashboard for a profile's `user_type`: vendors get the vendor
      dashboard, every other value the supplier one. */
  function DashboardFor(userType: string): (r: string)
    ensures r == VendorDashboardPath <==> userType == "vendor"
    ensures r == VendorDashboardPath || r == SupplierDashboardPath
  {
    if userType == "vendor" then VendorDashboardPath else SupplierDashboardPath
  }

  /** The middleware's decision for a request path. `session` is the outcome
      of reading the session (whether one exists); `profile` is the outcome of
      the `user_type` lookup, consulted only for a signed-in visitor on an
      auth page. A throw anywhere lets the request pass. */
  function Decide(path: string, url: Option<string>, anonKey: Option<string>,
                  session: Remote<bool>, profile: Remote<Option<string>>): (r: Decision)
    ensures Skipped(path) ==> r == Pass
    ensures !Configured(url, anonKey) ==> r == Pass
    ensures session.Threw? ==> r == Pass
  {
    if Skipped(path) then Pass
    else if !Configured(url, anonKey) then Pass
    else match session
      case Threw => Pass
      case Returned(hasSession) =>
        if IsProtected(path) && !hasSession then Redirect(LoginPath)
        else if hasSession && IsAuthPage(path) then
          match profile
          case Threw => Pass
          case Returned(None) => Pass
          case Returned(Some(userType)) => Redirect(DashboardFor(userType))
        else Pass
  }

  /** A visitor is sent to the login page exactly when the middleware runs,
      the path is protected and there is no session. */
  lemma RedirectToLoginIff(path: string, url: Option<string>, anonKey: Option<string>,
                           session: Remote<bool>, profile: Remote<Option<string>>)
    ensures Decide(path, url, anonKey, session, profile) == Redirect(LoginPath) <==>
      !Skipped(path) && Configured(url, anonKey) && session == Returned(false) && IsProtected(path)
  {
    assert LoginPath != VendorDashboardPath && LoginPath != SupplierDashboardPath;
  }

  /** A visitor is sent to a dashboard exactly when the middleware runs, a
      session exists, the path is the login or register page and the
      profile lookup found a `user_type`; the dashboard matches that type. */
  lemma RedirectToDashboardIff(path: string, url: Option<string>, anonKey: Option<string>,
                               session: Remote<bool>, profile: Remote<Option<string>>, target: string)
    requires target != LoginPath
    ensures Decide(path, url, anonKey, session, profile) == Redirect(target) <==>
      && !Skipped(path) && Configured(url, anonKey) && session == Returned(true)
      && IsAuthPage(path) && profile.Returned? && profile.value.Some?
      && target == DashboardFor(profile.value.value)
  {
  }

  /** The protected prefixes are none of the auth pages, so no auth page is
      ever protected. */
  lemma AuthPagesUnprotected(path: string)
    requires IsAuthPage(path)
    ensures !IsProtected(path)
  {
    assert !(VendorDashboardPath <= LoginPath) && !(VendorDashboardPath <= RegisterPath);
    assert !(SupplierDashboardPath <= LoginPath) && !(SupplierDashboardPath <= RegisterPath);
    assert ProfilePath[1] != LoginPath[1] && ProfilePath[1] != RegisterPath[1];
  }

  /** No redirect loop: following a redirect with the same session (and any
      profile outcome) reaches a page the middleware lets through. */
  lemma NoRedirectLoop(path: string, url: Option<string>, anonKey: Option<string>,
                       session: Remote<bool>, profile: Remote<Option<string>>, profile': Remote<Option<string>>)
    requires Decide(path, url, anonKey, session, profile).Redirect?
    ensures Decide(Decide(path, url, anonKey, session, profile).target, url, anonKey, session, profile') == Pass
  {
    var target := Decide(path, url, anonKey, session, profile).target;
    if target == LoginPath {
      AuthPagesUnprotected(LoginPath);
      assert !Skipped(LoginPath);
    } else {
      assert target == VendorDashboardPath || target == SupplierDashboardPath;
      assert !IsAuthPage(target);
    }
  }

  /** The guard matches by prefix, so a path that merely begins with a
      protected route, such as "/profiles", is guarded as well. */
  lemma PrefixGuardsLongerPaths(url: Option<string>, anonKey: Option<string>, profile: Remote<Option<string>>)
    requires Configured(url, anonKey)
    ensures Decide("/profiles", url, anonKey, Returned(false), profile) == Redirect(LoginPath)
  {
    assert ProtectedRoutes[2] <= "/profiles";
    var p := "/profiles";
    assert forall k :: 0 <= k < |p| ==> p[k] != '.';
    assert p[1] != "/_next/"[1] && p[1] != "/api/"[1];
  }

  /** A signed-in visitor is never redirected away from a protected page. */
  lemma SessionNeverBouncedFromProtected(path: string, url: Option<string>, anonKey: Option<string>,
                                         profile: Remote<Option<string>>)
    requires IsProtected(path)
    ensures Decide(path, url, anonKey, Returned(true), profile) == Pass
  {
    if IsAuthPage(path) {
      AuthPagesUnprotected(path);
    }
  }
}
