// UserService: the user table and the ways the application changes it —
// registration, the administrator's edit, the profile edit, deletion — and
// the lookups that fail with a message. Password hashing, authentication
// and the security context are outside: the encoded password and the
// authenticated name are inputs.
module UserService {
  import opened Wrappers
  import opened Entities
  import opened Strings

  const EmailInUse := "Email is already in use!"
  const UserNotFound := "User not found"

  function NotFoundWithId(id: int): string
  {
    "User not found with id: " + IntToString(id)
  }

  /** The table's primary key. */
  predicate DistinctIds(users: seq<User>)
  {
    forall i, j :: 0 <= i < j < |users| ==> users[i].id != users[j].id
  }

  /** The unique `email` column. */
  predicate DistinctEmails(users: seq<User>)
  {
    forall i, j :: 0 <= i < j < |users| ==> users[i].email != users[j].email
  }

  /** userRepository.findByEmail: the row with that email, the first one in table order. */
  function FindByEmail(users: seq<User>, email: string): (r: Option<User>)
    ensures r.Some? ==> r.value in users && r.value.email == email
    ensures r.None? <==> forall u :: u in users ==> u.email != email
  {
    if |users| == 0 then None
    else if users[0].email == email then Some(users[0])
    else FindByEmail(users[1..], email)
  }

  /** The position of the row with that id, -1 when there is none. */
  function IndexOfId(users: seq<User>, id: int): (r: int)
    ensures -1 <= r < |users|
    ensures r >= 0 ==> users[r].id == id
    ensures r == -1 <==> forall u :: u in users ==> u.id != id
  {
    if |users| == 0 then -1
    else if users[0].id == id then 0
    else
      var k := IndexOfId(users[1..], id);
      if k == -1 then -1 else k + 1
  }

  /** getUserById: the row, or "User not found with id: <id>". */
  function GetUserById(users: seq<User>, id: int): (r: Result<User>)
    ensures r.Ok? ==> r.value in users && r.value.id == id
    ensures r.Err? <==> forall u :: u in users ==> u.id != id
    ensures r.Err? ==> r.error == NotFoundWithId(id)
  {
    match FindUser(users, id)
    case Some(u) => Ok(u)
    case None => Err(NotFoundWithId(id))
  }

  /** getCurrentUser: the row whose email is the authenticated name, or "User not found". */
  function GetCurrentUser(users: seq<User>, authName: string): (r: Result<User>)
    ensures r.Ok? ==> r.value in users && r.value.email == authName
    ensures r.Err? <==> forall u :: u in users ==> u.email != authName
    ensures r.Err? ==> r.error == UserNotFound
  {
    match FindByEmail(users, authName)
    case Some(u) => Ok(u)
    case None => Err(UserNotFound)
  }

  /** updateUser's edit: each field given replaces the stored one, the rest stays. */
  function Overwrite(u: User, name: Option<string>, email: Option<string>, role: Option<string>): (r: User)
    ensures r.id == u.id && r.password == u.password
    ensures name.None? ==> r.name == u.name
    ensures name.Some? ==> r.name == name.value
    ensures email.None? ==> r.email == u.email
    ensures email.Some? ==> r.email == email.value
    ensures role.None? ==> r.role == u.role
    ensures role.Some? ==> r.role == role.value
  {
    u.(name := if name.Some? then name.value else u.name,
       email := if email.Some? then email.value else u.email,
       role := if role.Some? then role.value else u.role)
  }

  /** An edit that gives nothing leaves the user as it was, and editing twice is editing once. */
  lemma {:induction false} OverwriteIdempotent(u: User, name: Option<string>, email: Option<string>, role: Option<string>)
    ensures Overwrite(u, None, None, None) == u
    ensures Overwrite(Overwrite(u, name, email, role), name, email, role) == Overwrite(u, name, email, role)
  {
  }

  /** A non-empty text that differs from the current one: what the profile edit acts on. */
  predicate Changes(given: Option<string>, current: string)
  {
    given.Some? && given.value != "" && given.value != current
  }

  /**
   * updateUserProfile's edit of `u`: the name when given, non-empty and
   * different; the email likewise, unless another user holds it, which
   * fails the whole edit. Role and password are never touched.
   */
  function ProfileEdit(users: seq<User>, u: User, name: Option<string>, email: Option<string>): (r: Result<User>)
    ensures r.Err? <==>
      Changes(email, u.email) && FindByEmail(users, email.value).Some? && FindByEmail(users, email.value).value.id != u.id
    ensures r.Err? ==> r.error == EmailInUse
    ensures r.Ok? ==> r.value.id == u.id && r.value.role == u.role && r.value.password == u.password
    ensures r.Ok? ==> r.value.name == (if Changes(name, u.name) then name.value else u.name)
    ensures r.Ok? ==> r.value.email == (if Changes(email, u.email) then email.value else u.email)
  {
    var named := if Changes(name, u.name) then u.(name := name.value) else u;
    if Changes(email, u.email) then
      var holder := FindByEmail(users, email.value);
      if holder.Some? && holder.value.id != u.id then Err(EmailInUse)
      else Ok(named.(email := email.value))
    else Ok(named)
  }

  /**
   * On a table with distinct ids and emails, the profile edit of a stored
   * user keeps the emails distinct: a new email is never one another row holds.
   */
  lemma {:induction false} ProfileEditKeepsEmailsUnique(users: seq<User>, k: int, name: Option<string>, email: Option<string>)
    requires 0 <= k < |users| && DistinctIds(users) && DistinctEmails(users)
    requires ProfileEdit(users, users[k], name, email).Ok?
    ensures DistinctEmails(users[k := ProfileEdit(users, users[k], name, email).value])
  {
    var u := users[k];
    var v := ProfileEdit(users, u, name, email).value;
    if Changes(email, u.email) {
      assert forall i :: 0 <= i < |users| && i != k ==> users[i].email != v.email;
    }
  }

  /** updateUser checks no uniqueness: giving one user another's email yields a duplicate. */
  lemma {:induction false} OverwriteMayDuplicateEmail()
    ensures var users := [User(1, "Ann", "ann@x.io", "h1", RoleStudent), User(2, "Bo", "bo@x.io", "h2", RoleStudent)];
      DistinctEmails(users) && !DistinctEmails(users[1 := Overwrite(users[1], None, Some("ann@x.io"), None)])
  {
    var users := [User(1, "Ann", "ann@x.io", "h1", RoleStudent), User(2, "Bo", "bo@x.io", "h2", RoleStudent)];
    var edited := users[1 := Overwrite(users[1], None, Some("ann@x.io"), None)];
    assert edited[0].email == edited[1].email;
  }

  /** The table without the row(s) of that id. */
  function WithoutId(users: seq<User>, id: int): (r: seq<User>)
    ensures forall u :: u in r <==> u in users && u.id != id
    ensures |r| <= |users|
  {
    if |users| == 0 then []
    else if users[0].id == id then WithoutId(users[1..], id)
    else [users[0]] + WithoutId(users[1..], id)
  }

  class UserService {
    /** The user table, in storage order. */
    var users: seq<User>
    /** The role table's names. */
    var roles: seq<string>
    /** The next identity value the table hands out. */
    var nextId: int

    ghost predicate Valid()
      reads this
    {
      DistinctIds(users) && (forall i :: 0 <= i < |users| ==> users[i].id < nextId)
    }

    constructor(roles: seq<string>)
      ensures users == [] && this.roles == roles && nextId == 1 && Valid()
    {
      users, this.roles, nextId := [], roles, 1;
    }

    /**
     * registerUser: an email already stored is refused, then a role the
     * role table does not know; otherwise a new row with a fresh id.
     */
    method RegisterUser(name: string, email: string, encodedPassword: string, role: string) returns (r: Result<User>)
      requires Valid()
      modifies this
      ensures Valid() && roles == old(roles)
      ensures FindByEmail(old(users), email).Some? ==> r == Err(EmailInUse) && users == old(users)
      ensures FindByEmail(old(users), email).None? && role !in roles ==>
        r == Err("Role not found: " + role) && users == old(users)
      ensures FindByEmail(old(users), email).None? && role in roles ==>
        r == Ok(User(old(nextId), name, email, encodedPassword, role)) && users == old(users) + [r.value]
      ensures DistinctEmails(old(users)) ==> DistinctEmails(users)
    {
      if FindByEmail(users, email).Some? {
        return Err(EmailInUse);
      }
      if role !in roles {
        return Err("Role not found: " + role);
      }
      var u := User(nextId, name, email, encodedPassword, role);
      users := users + [u];
      nextId := nextId + 1;
      return Ok(u);
    }

    /** deleteUser: the row goes; an unknown id is an error and nothing changes. */
    method DeleteUser(id: int) returns (error: Option<string>)
      requires Valid()
      modifies this
      ensures Valid() && roles == old(roles) && nextId == old(nextId)
      ensures error.None? <==> exists u :: u in old(users) && u.id == id
      ensures error.Some? ==> error == Some(NotFoundWithId(id)) && users == old(users)
      ensures error.None? ==> users == WithoutId(old(users), id)
    {
      if FindUser(users, id).None? {
        return Some(NotFoundWithId(id));
      }
      WithoutIdKeepsValid(users, id, nextId);
      users := WithoutId(users, id);
      return None;
    }

    /** updateUser: the administrator's edit of the row with that id. */
    method UpdateUser(id: int, name: Option<string>, email: Option<string>, role: Option<string>) returns (r: Result<User>)
      requires Valid()
      modifies this
      ensures Valid() && roles == old(roles) && nextId == old(nextId)
      ensures IndexOfId(old(users), id) == -1 ==> r == Err(NotFoundWithId(id)) && users == old(users)
      ensures IndexOfId(old(users), id) >= 0 ==>
        var k := IndexOfId(old(users), id);
        r == Ok(Overwrite(old(users)[k], name, email, role)) && users == old(users)[k := r.value]
    {
      var k := IndexOfId(users, id);
      if k == -1 {
        return Err(NotFoundWithId(id));
      }
      var u := Overwrite(users[k], name, email, role);
      users := users[k := u];
      return Ok(u);
    }

    /** updateUserProfile: the user's own edit of name and email. */
    method UpdateUserProfile(id: int, name: Option<string>, email: Option<string>) returns (r: Result<User>)
      requires Valid()
      modifies this
      ensures Valid() && roles == old(roles) && nextId == old(nextId)
      ensures IndexOfId(old(users), id) == -1 ==> r == Err(NotFoundWithId(id)) && users == old(users)
      ensures IndexOfId(old(users), id) >= 0 ==>
        var k := IndexOfId(old(users), id);
        r == ProfileEdit(old(users), old(users)[k], name, email) &&
        users == (if r.Ok? then old(users)[k := r.value] else old(users))
      ensures DistinctEmails(old(users)) ==> DistinctEmails(users)
    {
      var k := IndexOfId(users, id);
      if k == -1 {
        return Err(NotFoundWithId(id));
      }
      r := ProfileEdit(users, users[k], name, email);
      if r.Ok? {
        if DistinctEmails(users) {
          ProfileEditKeepsEmailsUnique(users, k, name, email);
        }
        users := users[k := r.value];
      }
    }
  }

  lemma {:induction false} WithoutIdKeepsValid(users: seq<User>, id: int, nextId: int)
    requires DistinctIds(users) && forall i :: 0 <= i < |users| ==> users[i].id < nextId
    ensures DistinctIds(WithoutId(users, id))
    ensures forall i :: 0 <= i < |WithoutId(users, id)| ==> WithoutId(users, id)[i].id < nextId
    decreases |users|
  {
    if |users| > 0 {
      var tail := users[1..];
      assert DistinctIds(tail) by {
        forall i, j | 0 <= i < j < |tail|
          ensures tail[i].id != tail[j].id
        {
          assert tail[i] == users[i + 1] && tail[j] == users[j + 1];
        }
      }
      WithoutIdKeepsValid(tail, id, nextId);
      var rest := WithoutId(tail, id);
      if users[0].id != id {
        var r := [users[0]] + rest;
        assert r == WithoutId(users, id);
        forall j | 0 <= j < |rest|
          ensures rest[j].id != users[0].id
        {
          assert rest[j] in tail;
        }
      }
    }
  }
}
