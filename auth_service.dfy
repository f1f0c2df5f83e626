// AuthService: the client's session. Local storage holds the "token" and
// "user" keys; the current-user subject holds the user the components see.
// The HTTP calls are outside: each method here is what the service does
// with a successful response. The stored "user" text is modelled by the
// user it parses to (None when the key is absent or empty).
module AuthService {
  import opened Wrappers
  import opened Client

  /** The body of a successful login or registration. */
  datatype AuthResponse = AuthResponse(token: string, id: int, name: string, email: string, role: string)

  /** The user the service stores and publishes for a response. */
  function UserOf(response: AuthResponse): (u: ClientUser)
    ensures u.id == response.id && u.name == response.name && u.email == response.email && u.role == response.role
  {
    ClientUser(response.id, response.name, response.email, response.role)
  }

  class AuthService {
    /** localStorage "token". */
    var token: Option<string>
    /** localStorage "user", parsed. */
    var storedUser: Option<ClientUser>
    /** The current-user subject's value. */
    var current: Option<ClientUser>

    /** The subject shows what storage holds. */
    predicate Synced()
      reads this
    {
      current == storedUser
    }

    /** The constructor's loadUserFromStorage: the subject starts from the stored user, if any. */
    constructor(token: Option<string>, storedUser: Option<ClientUser>)
      ensures this.token == token && this.storedUser == storedUser && current == storedUser
      ensures Synced()
    {
      this.token, this.storedUser, current := token, storedUser, storedUser;
    }

    /** login's (and register's) success: both keys are written and the user is published. */
    method Login(response: AuthResponse)
      modifies this
      ensures token == Some(response.token)
      ensures storedUser == Some(UserOf(response)) && current == Some(UserOf(response))
      ensures Synced()
    {
      token := Some(response.token);
      storedUser := Some(UserOf(response));
      current := Some(UserOf(response));
    }

    /** register's success: stored and published exactly as a login. */
    method Register(response: AuthResponse)
      modifies this
      ensures token == Some(response.token)
      ensures storedUser == Some(UserOf(response)) && current == Some(UserOf(response))
      ensures Synced()
    {
      Login(response);
    }

    /** logout: both keys are removed and the subject is emptied. */
    method Logout()
      modifies this
      ensures token.None? && storedUser.None? && current.None?
      ensures Synced()
    {
      token, storedUser, current := None, None, None;
    }

    /**
     * isAuthenticated: an empty subject is first filled from storage; then
     * the answer is whether a non-empty token is stored and the subject
     * holds a user.
     */
    method IsAuthenticated() returns (b: bool)
      modifies this
      ensures token == old(token) && storedUser == old(storedUser)
      ensures current == (if old(current).None? then storedUser else old(current))
      ensures b <==> Truthy(token) && current.Some?
      ensures old(Synced()) ==> Synced()
    {
      if current.None? && storedUser.Some? {
        current := storedUser;
      }
      b := Truthy(token) && current.Some?;
    }

    /** hasRole: false without a user. */
    predicate HasRole(role: string)
      reads this
      ensures HasRole(role) ==> IsLoggedIn() && HasAnyRole([role])
    {
      current.Some? && current.value.role == role
    }

    /** hasAnyRole: the user's role is in the list; false without a user. */
    predicate HasAnyRole(roles: seq<string>)
      reads this
      ensures HasAnyRole(roles) ==> IsLoggedIn() && |roles| > 0
    {
      current.Some? && current.value.role in roles
    }

    /** isLoggedIn: a user is published, whatever the token. */
    predicate IsLoggedIn()
      reads this
      ensures Synced() ==> (IsLoggedIn() <==> storedUser.Some?)
    {
      current.Some?
    }

    /** updateProfile's success: the returned user is stored and published; the token stays. */
    method UpdateProfile(updated: ClientUser)
      modifies this
      ensures token == old(token)
      ensures storedUser == Some(updated) && current == Some(updated)
      ensures Synced()
    {
      storedUser := Some(updated);
      current := Some(updated);
    }
  }

  /** hasAnyRole is hasRole of some role in the list; the empty list admits no one. */
  lemma {:induction false} HasAnyRoleIsSomeHasRole(auth: AuthService, roles: seq<string>)
    ensures auth.HasAnyRole(roles) <==> exists i :: 0 <= i < |roles| && auth.HasRole(roles[i])
    ensures !auth.HasAnyRole([])
  {
    if auth.HasAnyRole(roles) {
      var i :| 0 <= i < |roles| && roles[i] == auth.current.value.role;
      assert auth.HasRole(roles[i]);
    }
  }

  /** A positive isAuthenticated leaves a user published: isLoggedIn follows. */
  method AuthenticatedIsLoggedIn(auth: AuthService) returns (b: bool)
    modifies auth
    ensures b ==> auth.IsLoggedIn()
    ensures b <==> Truthy(old(auth.token)) && (old(auth.current).Some? || old(auth.storedUser).Some?)
  {
    b := auth.IsAuthenticated();
  }

  /** After a login the session is authenticated exactly when the response's token is non-empty. */
  method LoginThenCheck(auth: AuthService, response: AuthResponse) returns (b: bool)
    modifies auth
    ensures b <==> response.token != ""
    ensures auth.current == Some(UserOf(response)) && auth.HasRole(response.role)
  {
    auth.Login(response);
    b := auth.IsAuthenticated();
  }

  /** After a logout no check passes: not authenticated, not logged in, no role. */
  method LogoutThenCheck(auth: AuthService, role: string) returns (b: bool)
    modifies auth
    ensures !b && !auth.IsLoggedIn() && !auth.HasRole(role)
  {
    auth.Logout();
    b := auth.IsAuthenticated();
  }
}
