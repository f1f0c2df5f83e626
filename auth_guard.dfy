// AuthGuard: may the session open a route at all? It asks the session
// whether it is authenticated (which may fill the current user from
// storage), then holds administrators back from the dashboard.
module AuthGuard {
  import opened Wrappers
  import opened Client
  import AuthService

  /**
   * canActivate after the session's answer `isAuth` and its current user:
   * unauthenticated goes to /login; an administrator opening a route whose
   * first path segment is "dashboard" goes to /admin; the rest passes.
   */
  function CanActivate(isAuth: bool, user: Option<ClientUser>, firstSegment: Option<string>): (r: GuardResult)
    ensures r.allow <==> r.navigateTo.None?
    ensures r.allow <==> isAuth && !(firstSegment == Some("dashboard") && user.Some? && user.value.role == Admin)
    ensures !isAuth ==> r.navigateTo == Some("/login")
    ensures isAuth && !r.allow ==> r.navigateTo == Some("/admin")
  {
    if !isAuth then GuardResult(false, Some("/login"))
    else if firstSegment == Some("dashboard") && user.Some? && user.value.role == Admin then GuardResult(false, Some("/admin"))
    else GuardResult(true, None)
  }

  /**
   * The guard on the session: it passes exactly when a non-empty token is
   * stored, a user is published or stored, and that user is not an
   * administrator opening the dashboard. A passing guard leaves the user
   * logged in.
   */
  method Guard(auth: AuthService.AuthService, firstSegment: Option<string>) returns (r: GuardResult)
    modifies auth
    ensures var user := if old(auth.current).Some? then old(auth.current) else old(auth.storedUser);
      r.allow <==>
        Client.Truthy(old(auth.token)) && user.Some? && !(firstSegment == Some("dashboard") && user.value.role == Admin)
    ensures r.allow ==> auth.IsLoggedIn()
    ensures auth.token == old(auth.token) && auth.storedUser == old(auth.storedUser)
  {
    var isAuth := auth.IsAuthenticated();
    r := CanActivate(isAuth, auth.current, firstSegment);
  }

  /** Right after a login with a non-empty token, every route but an administrator's dashboard passes. */
  method AfterLogin(auth: AuthService.AuthService, response: AuthService.AuthResponse, firstSegment: Option<string>)
    returns (r: GuardResult)
    requires response.token != ""
    modifies auth
    ensures r.allow <==> !(firstSegment == Some("dashboard") && response.role == Admin)
  {
    auth.Login(response);
    r := Guard(auth, firstSegment);
  }
}
