// ErrorInterceptor: what the client does with a failed HTTP call before
// the error travels on to the caller — the message it settles on, the toast
// it shows, and whether a 401 ends the session. The request's URL and the
// error are inputs; the toast is named by the notification it calls.
module ErrorInterceptor {
  import opened Wrappers
  import opened Strings
  import opened Client

  /** The HttpErrorResponse: a browser-side ErrorEvent, or a status with the body's `message`, if any. */
  datatype HttpError =
    | ClientSide(eventMessage: string)
    | ServerSide(status: int, bodyMessage: Option<string>)

  /** The notification shown, by the NotificationService method called. */
  datatype Toast =
    | NoToast
    | NetworkError
    | ShowError(message: string, title: string)
    | UnauthorizedError
    | NotFoundError
    | ServerError

  /**
   * The interceptor's effect: the message, the toast, whether the session
   * was logged out and sent to /login, and the error passed on.
   */
  datatype Outcome = Outcome(errorMessage: string, toast: Toast, logout: bool, navigateTo: Option<string>, rethrown: HttpError)

  const PublicEndpoints := ["/api/courses", "/api/lessons", "/api/video"]

  const DashboardProfileEndpoints := [
    "/api/student/dashboard",
    "/api/instructor/dashboard",
    "/api/admin/dashboard",
    "/api/enrollments/my-enrollments",
    "/api/certificates/my-certificates",
    "/api/certificates/student/my-certificates",
    "/api/instructor/courses",
    "/api/admin/users",
    "/api/admin/total-enrollments",
    "/api/enrollments/student/my-enrollments",
    "/api/courses/instructor/my-courses"
  ]

  /** The profile endpoint the session's updateProfile calls. */
  const ProfileEndpoint := "/api/auth/profile"

  /** `endpoints.some(e => url.includes(e))`. */
  function MatchesAny(url: string, endpoints: seq<string>): (r: bool)
    ensures r <==> exists i :: 0 <= i < |endpoints| && Contains(url, endpoints[i])
  {
    if |endpoints| == 0 then false
    else if Contains(url, endpoints[0]) then true
    else
      var rest := MatchesAny(url, endpoints[1..]);
      assert forall i :: 1 <= i < |endpoints| ==> endpoints[i] == endpoints[1..][i - 1];
      rest
  }

  /** isPublicEndpoint: the URL contains one of the public endpoints. */
  function IsPublicEndpoint(url: string): (r: bool)
    ensures r <==> exists i :: 0 <= i < |PublicEndpoints| && Contains(url, PublicEndpoints[i])
  {
    MatchesAny(url, PublicEndpoints)
  }

  /**
   * The interceptor, given the list of endpoints whose 401 is left to the
   * calling component. A 401 elsewhere (and not on a public endpoint) shows
   * the unauthorized toast, logs out and goes to /login. Each status has its
   * message; 400, 409, 422 and unlisted statuses prefer the body's message.
   */
  function Intercept(error: HttpError, url: string, graceful: seq<string>): (r: Outcome)
    ensures r.rethrown == error
    ensures r.logout <==> error.ServerSide? && error.status == 401 && !IsPublicEndpoint(url) && !MatchesAny(url, graceful)
    ensures r.navigateTo == (if r.logout then Some("/login") else None)
    ensures error.ClientSide? ==> r.errorMessage == error.eventMessage && r.toast == NetworkError
    ensures error.ServerSide? && error.status == 401 ==>
      r.errorMessage == "Unauthorized access" && r.toast == (if r.logout then UnauthorizedError else NoToast)
    ensures error.ServerSide? && error.status in {400, 409, 422} ==>
      r.toast == ShowError(r.errorMessage, StatusTitle(error.status)) && r.errorMessage == TextOr(error.bodyMessage, StatusDefault(error.status))
    ensures error.ServerSide? && error.status !in {400, 401, 403, 404, 409, 422, 500, 503} ==>
      r.toast == ShowError(r.errorMessage, "Error") && r.errorMessage == TextOr(error.bodyMessage, "Error " + IntToString(error.status))
    ensures error.ServerSide? && error.status == 403 ==> r.errorMessage == "Forbidden - You do not have permission" && r.toast == UnauthorizedError
    ensures error.ServerSide? && error.status == 404 ==> r.errorMessage == "Resource not found" && r.toast == NotFoundError
    ensures error.ServerSide? && error.status == 500 ==> r.errorMessage == "Internal server error" && r.toast == ServerError
    ensures error.ServerSide? && error.status == 503 ==>
      r.errorMessage == "Service unavailable" && r.toast == ShowError("Service is temporarily unavailable", "Service Unavailable")
  {
    match error
    case ClientSide(m) => Outcome(m, NetworkError, false, None, error)
    case ServerSide(status, body) =>
      if status == 400 || status == 409 || status == 422 then
        var m := TextOr(body, StatusDefault(status));
        Outcome(m, ShowError(m, StatusTitle(status)), false, None, error)
      else if status == 401 then
        if !IsPublicEndpoint(url) && !MatchesAny(url, graceful) then
          Outcome("Unauthorized access", UnauthorizedError, true, Some("/login"), error)
        else Outcome("Unauthorized access", NoToast, false, None, error)
      else if status == 403 then Outcome("Forbidden - You do not have permission", UnauthorizedError, false, None, error)
      else if status == 404 then Outcome("Resource not found", NotFoundError, false, None, error)
      else if status == 500 then Outcome("Internal server error", ServerError, false, None, error)
      else if status == 503 then
        Outcome("Service unavailable", ShowError("Service is temporarily unavailable", "Service Unavailable"), false, None, error)
      else
        var m := TextOr(body, "Error " + IntToString(status));
        Outcome(m, ShowError(m, "Error"), false, None, error)
  }

  /** The fixed message of 400, 409 and 422 when the body has none. */
  function StatusDefault(status: int): string
  {
    if status == 400 then "Bad Request" else if status == 409 then "Conflict - Resource already exists" else "Validation error"
  }

  /** The toast title of 400, 409 and 422. */
  function StatusTitle(status: int): string
  {
    if status == 400 then "Bad Request" else if status == 409 then "Conflict" else "Validation Error"
  }

  /** The interceptor as written, with its dashboard-and-profile list. */
  function InterceptAsWritten(error: HttpError, url: string): (r: Outcome)
    ensures r.logout <==>
      error.ServerSide? && error.status == 401 && !IsPublicEndpoint(url) && !MatchesAny(url, DashboardProfileEndpoints)
  {
    Intercept(error, url, DashboardProfileEndpoints)
  }

  /** The interceptor with the profile endpoint added to the list, which the method's name promises. */
  function InterceptCorrected(error: HttpError, url: string): (r: Outcome)
    ensures r.logout <==>
      error.ServerSide? && error.status == 401 && !IsPublicEndpoint(url) &&
      !MatchesAny(url, DashboardProfileEndpoints) && !Contains(url, ProfileEndpoint)
  {
    var graceful := DashboardProfileEndpoints + [ProfileEndpoint];
    assert graceful[|graceful| - 1] == ProfileEndpoint;
    assert forall i :: 0 <= i < |DashboardProfileEndpoints| ==> graceful[i] == DashboardProfileEndpoints[i];
    Intercept(error, url, graceful)
  }

  /** Only a 401 ends the session, and never one on a public endpoint. */
  lemma {:induction false} OnlyProtected401LogsOut(error: HttpError, url: string, graceful: seq<string>)
    ensures Intercept(error, url, graceful).logout ==> error == ServerSide(401, error.bodyMessage)
    ensures IsPublicEndpoint(url) ==> !Intercept(error, url, graceful).logout
  {
  }

  /**
   * The last dashboard entry never decides anything: a URL that contains it
   * contains "/api/courses" and is already public.
   */
  lemma {:induction false} MyCoursesIsPublic(url: string)
    requires Contains(url, "/api/courses/instructor/my-courses")
    ensures IsPublicEndpoint(url)
  {
    assert "/api/courses/instructor/my-courses"[..|"/api/courses"|] == "/api/courses";
    ContainsPrefixOf(url, "/api/courses/instructor/my-courses", "/api/courses");
    assert Contains(url, PublicEndpoints[0]);
  }

  /** `p` is not found in `s` when one of its characters appears nowhere in `s`. */
  lemma {:induction false} MissingChar(s: string, p: string, k: int)
    requires 0 <= k < |p| && p[k] !in s
    ensures !Contains(s, p)
  {
    forall i | 0 <= i < |s|
      ensures !OccursAt(s, p, i)
    {
      if i + |p| <= |s| {
        assert s[i..i + |p|][k] == s[i + k];
        assert s[i + k] in s;
      }
    }
  }

  /** `p` is not found in a shorter `s`. */
  lemma {:induction false} TooLong(s: string, p: string)
    requires |s| < |p|
    ensures !Contains(s, p)
  {
  }

  /** Every entry but the `k`th is longer than the URL, and the `k`th has a character the URL lacks: the URL matches none. */
  lemma {:induction false} NoneMatches(url: string, endpoints: seq<string>, k: int, j: int)
    requires 0 <= k < |endpoints| && 0 <= j < |endpoints[k]| && endpoints[k][j] !in url
    requires forall i :: 0 <= i < |endpoints| && i != k ==> |endpoints[i]| > |url|
    ensures !MatchesAny(url, endpoints)
  {
    MissingChar(url, endpoints[k], j);
    forall i | 0 <= i < |endpoints| && i != k
      ensures !Contains(url, endpoints[i])
    {
      TooLong(url, endpoints[i]);
    }
  }

  /** The characters the profile endpoint lacks. */
  lemma {:induction false} ProfileLacks()
    ensures |ProfileEndpoint| == 17
    ensures 'c' !in ProfileEndpoint && 's' !in ProfileEndpoint && 'v' !in ProfileEndpoint && 'm' !in ProfileEndpoint
  {
  }

  /** A URL without 'c', 's' and 'v' is not public: each public entry has one of them. */
  lemma {:induction false} NotPublic(url: string)
    requires 'c' !in url && 's' !in url && 'v' !in url
    ensures !IsPublicEndpoint(url)
  {
    MissingChar(url, PublicEndpoints[0], 5);
    MissingChar(url, PublicEndpoints[1], 7);
    MissingChar(url, PublicEndpoints[2], 5);
  }

  /** All dashboard entries but the eighth are longer than 17 characters. */
  lemma {:induction false} EntriesLong()
    ensures forall i :: 0 <= i < |DashboardProfileEndpoints| && i != 7 ==> |DashboardProfileEndpoints[i]| > 17
  {
  }

  /** The eighth dashboard entry, "/api/admin/users", has an 'm'. */
  lemma {:induction false} EntryWithM()
    ensures |DashboardProfileEndpoints| == 11 && DashboardProfileEndpoints[7][7] == 'm'
  {
  }

  /**
   * An entry with 'i' at index 3 that a path without 'i' in its first three
   * characters does not contain is not found in `origin + path` either, when
   * the origin has no 'i': an occurrence starting in the origin would need
   * the entry's 'i' at a place that holds none.
   */
  lemma {:induction false} NotAcrossOrigin(origin: string, path: string, e: string)
    requires 'i' !in origin && |path| >= 3 && 'i' !in path[..3]
    requires |e| >= 4 && e[3] == 'i' && !Contains(path, e)
    ensures !Contains(origin + path, e)
  {
    var u := origin + path;
    forall i | 0 <= i
      ensures !OccursAt(u, e, i)
    {
      if OccursAt(u, e, i) {
        assert u[i..i + |e|][3] == u[i + 3];
        if i >= |origin| {
          var j := i - |origin|;
          assert u[i..i + |e|] == path[j..j + |e|];
          ContainsAt(path, e, j);
        }
      }
    }
  }

  /** Every entry of both lists starts "/api", so has 'i' at index 3. */
  lemma {:induction false} EntriesHaveApi()
    ensures forall k :: 0 <= k < |PublicEndpoints| ==> |PublicEndpoints[k]| >= 4 && PublicEndpoints[k][3] == 'i'
    ensures forall k :: 0 <= k < |DashboardProfileEndpoints| ==>
      |DashboardProfileEndpoints[k]| >= 4 && DashboardProfileEndpoints[k][3] == 'i'
  {
  }

  /** The profile path starts "/ap", without an 'i'. */
  lemma {:induction false} ProfilePathStart()
    ensures |ProfileEndpoint| >= 3 && 'i' !in ProfileEndpoint[..3]
  {
    assert ProfileEndpoint[..3] == "/ap";
  }

  /** The profile path itself is on neither list. */
  lemma {:induction false} ProfilePathOnNoList()
    ensures !IsPublicEndpoint(ProfileEndpoint) && !MatchesAny(ProfileEndpoint, DashboardProfileEndpoints)
  {
    ProfileLacks();
    NotPublic(ProfileEndpoint);
    EntriesLong();
    EntryWithM();
    NoneMatches(ProfileEndpoint, DashboardProfileEndpoints, 7, 7);
  }

  /** An origin without 'i' before the profile path matches no public entry. */
  lemma {:induction false} OriginProfileNotPublic(origin: string)
    requires 'i' !in origin
    ensures !IsPublicEndpoint(origin + ProfileEndpoint)
  {
    ProfilePathOnNoList();
    ProfilePathStart();
    EntriesHaveApi();
    forall k | 0 <= k < |PublicEndpoints|
      ensures !Contains(origin + ProfileEndpoint, PublicEndpoints[k])
    {
      NotAcrossOrigin(origin, ProfileEndpoint, PublicEndpoints[k]);
    }
  }

  /** An origin without 'i' before the profile path matches no dashboard entry. */
  lemma {:induction false} OriginProfileNotListed(origin: string)
    requires 'i' !in origin
    ensures !MatchesAny(origin + ProfileEndpoint, DashboardProfileEndpoints)
  {
    ProfilePathOnNoList();
    ProfilePathStart();
    EntriesHaveApi();
    forall k | 0 <= k < |DashboardProfileEndpoints|
      ensures !Contains(origin + ProfileEndpoint, DashboardProfileEndpoints[k])
    {
      NotAcrossOrigin(origin, ProfileEndpoint, DashboardProfileEndpoints[k]);
    }
  }

  /**
   * As written, a 401 from the profile update logs the user out and leaves
   * for /login: the profile URL, after an origin such as
   * "http://localhost:8080", is on neither list.
   */
  lemma {:induction false} ProfileUpdateLogsOut(origin: string, body: Option<string>)
    requires 'i' !in origin
    ensures InterceptAsWritten(ServerSide(401, body), origin + ProfileEndpoint).logout
    ensures InterceptAsWritten(ServerSide(401, body), origin + ProfileEndpoint).navigateTo == Some("/login")
  {
    OriginProfileNotPublic(origin);
    OriginProfileNotListed(origin);
  }

  /** The development origin has no 'i', so its profile update logs out on a 401. */
  lemma {:induction false} LocalProfileUpdateLogsOut(body: Option<string>)
    ensures InterceptAsWritten(ServerSide(401, body), "http://localhost:8080" + ProfileEndpoint).logout
  {
    assert 'i' !in "http://localhost:8080";
    ProfileUpdateLogsOut("http://localhost:8080", body);
  }

  /** Corrected, a 401 on any URL of the profile endpoint is left to the profile page. */
  lemma {:induction false} ProfileUpdateKeepsSession(url: string, body: Option<string>)
    requires Contains(url, ProfileEndpoint)
    ensures !InterceptCorrected(ServerSide(401, body), url).logout
    ensures InterceptCorrected(ServerSide(401, body), url).toast == NoToast
  {
  }
}
