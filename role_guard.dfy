// RoleGuard: may the current user open a route that lists the roles it
// admits? The router's current URL (the page navigated away from) and the
// route's `roles` data are inputs; the navigation the guard starts when it
// refuses is part of its answer.
module RoleGuard {
  import opened Wrappers
  import opened Strings
  import opened Client
  import AuthService

  /**
   * canActivate: no user goes to /login; an administrator whose current URL
   * contains "/dashboard" goes to /admin; with a non-empty list the user's
   * role must be in it, or the administrator goes to /admin and anyone else
   * to /dashboard; an absent or empty list admits every user.
   */
  function CanActivate(user: Option<ClientUser>, routerUrl: string, roles: Option<seq<string>>): (r: GuardResult)
    ensures r.allow <==> r.navigateTo.None?
    ensures user.None? ==> r == GuardResult(false, Some("/login"))
    ensures r.allow <==>
      user.Some? && !(user.value.role == Admin && Contains(routerUrl, "/dashboard")) &&
      (roles.None? || |roles.value| == 0 || user.value.role in roles.value)
    ensures user.Some? && !r.allow ==> r.navigateTo == Some(if user.value.role == Admin then "/admin" else "/dashboard")
  {
    if user.None? then GuardResult(false, Some("/login"))
    else if user.value.role == Admin && Contains(routerUrl, "/dashboard") then GuardResult(false, Some("/admin"))
    else if roles.Some? && |roles.value| > 0 then
      if user.value.role in roles.value then GuardResult(true, None)
      else GuardResult(false, Some(if user.value.role == Admin then "/admin" else "/dashboard"))
    else GuardResult(true, None)
  }

  /**
   * On a route with a non-empty list the guard is the session's hasAnyRole,
   * except that an administrator is held back while on a dashboard URL.
   */
  lemma {:induction false} GuardIsHasAnyRole(auth: AuthService.AuthService, routerUrl: string, roles: seq<string>)
    requires |roles| > 0
    ensures CanActivate(auth.current, routerUrl, Some(roles)).allow <==>
      auth.HasAnyRole(roles) && !(auth.HasRole(Admin) && Contains(routerUrl, "/dashboard"))
  {
  }

  /** The routes for creating and editing courses and lessons: instructors and administrators only. */
  lemma {:induction false} AuthoringRoutes(user: ClientUser, routerUrl: string)
    requires !Contains(routerUrl, "/dashboard")
    ensures CanActivate(Some(user), routerUrl, Some([Instructor, Admin])).allow <==> user.role == Instructor || user.role == Admin
    ensures user.role == Student ==> CanActivate(Some(user), routerUrl, Some([Instructor, Admin])).navigateTo == Some("/dashboard")
  {
  }

  /** The guard never sends an administrator to /dashboard, nor anyone else to /admin. */
  lemma {:induction false} NoCrossRedirect(user: ClientUser, routerUrl: string, roles: Option<seq<string>>)
    ensures user.role == Admin ==> CanActivate(Some(user), routerUrl, roles).navigateTo != Some("/dashboard")
    ensures user.role != Admin ==> CanActivate(Some(user), routerUrl, roles).navigateTo != Some("/admin")
  {
  }
}
