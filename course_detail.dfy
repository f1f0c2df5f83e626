// The client's course page: enrolment, the per-lesson lock and completion
// marks, and the certificate button. Every HTTP response arrives as a
// parameter of the handler that receives it; lookups that fail are stored
// as false, so a lesson is only shown open when the server said so.
module CourseDetail {
  import opened Wrappers
  import opened Client

  /** A lesson-lookup table after a run of responses: later entries overwrite earlier ones. */
  function Recorded(m: map<int, bool>, ids: seq<int>, values: seq<bool>): (r: map<int, bool>)
    requires |ids| == |values|
    ensures r.Keys == m.Keys + set k | k in ids
    decreases |ids|
  {
    if |ids| == 0 then m
    else
      var n := |ids| - 1;
      var prefix := Recorded(m, ids[..n], values[..n]);
      assert forall k :: k in ids <==> k in ids[..n] || k == ids[n];
      prefix[ids[n] := values[n]]
  }

  /** Every entry the run touched holds the value of some response for that lesson. */
  lemma {:induction false} RecordedComesFromResponses(m: map<int, bool>, ids: seq<int>, values: seq<bool>, k: int)
    requires |ids| == |values|
    ensures k in ids ==> exists j :: 0 <= j < |ids| && ids[j] == k && Recorded(m, ids, values)[k] == values[j]
    ensures k !in ids && k in m ==> Recorded(m, ids, values)[k] == m[k]
    decreases |ids|
  {
    if |ids| > 0 {
      var n := |ids| - 1;
      RecordedComesFromResponses(m, ids[..n], values[..n], k);
      if k != ids[n] && k in ids {
        var j :| 0 <= j < |ids| && ids[j] == k;
        assert ids[..n][j] == k;
        var j' :| 0 <= j' < n && ids[..n][j'] == k && Recorded(m, ids[..n], values[..n])[k] == values[..n][j'];
        assert ids[j'] == k && values[j'] == values[..n][j'];
      }
    }
  }

  /** What the lock map stores for one accessibility response: None is a failed request. */
  function AccessValue(response: Option<bool>): (b: bool)
    ensures b <==> response == Some(true)
  {
    response.Some? && response.value
  }

  /** What the completion map stores: `progress.isCompleted || false`, and false on error. */
  function CompletionValue(response: Option<Option<bool>>): (b: bool)
    ensures b <==> response == Some(Some(true))
  {
    response.Some? && response.value.Some? && response.value.value
  }

  function AccessValues(responses: seq<Option<bool>>): (r: seq<bool>)
    ensures |r| == |responses|
    ensures forall j :: 0 <= j < |r| ==> r[j] == AccessValue(responses[j])
  {
    if |responses| == 0 then [] else [AccessValue(responses[0])] + AccessValues(responses[1..])
  }

  function CompletionValues(responses: seq<Option<Option<bool>>>): (r: seq<bool>)
    ensures |r| == |responses|
    ensures forall j :: 0 <= j < |r| ==> r[j] == CompletionValue(responses[j])
  {
    if |responses| == 0 then [] else [CompletionValue(responses[0])] + CompletionValues(responses[1..])
  }

  /**
   * Fail-closed: a lesson whose every accessibility response failed or said
   * "no", or that was never looked up, reads as locked.
   */
  lemma {:induction false} LockedUnlessServerSaidOpen(m: map<int, bool>, ids: seq<int>, responses: seq<Option<bool>>, k: int)
    requires |ids| == |responses|
    requires forall j :: 0 <= j < |ids| && ids[j] == k ==> responses[j] != Some(true)
    requires k in m ==> !m[k]
    ensures var r := Recorded(m, ids, AccessValues(responses)); k in r ==> !r[k]
  {
    RecordedComesFromResponses(m, ids, AccessValues(responses), k);
  }

  /** The response to POST /enrollments: success or the HTTP status of the failure. */
  datatype EnrollResponse = EnrollOk | EnrollError(status: int)

  /** What enrollInCourse ends in. */
  datatype EnrollOutcome =
    | NoCourse            // nothing loaded yet
    | LoginRedirect       // not signed in, or the server answered 401
    | OnlyStudents        // warning; no request was made
    | Enrolled            // enrolled now
    | AlreadyEnrolled     // the server answered 400
    | EnrollFailed        // any other failure

  /** What checkEligibility and then getMyCertificates answered. */
  datatype EligibilityResponse =
    | EligibilityFailed
    | NotEligible
    | EligibleCertificatesFailed
    | EligibleWithCertificates(courseTitles: seq<string>)

  /** The error body of a failed POST /certificates request. */
  datatype ErrorBody = NoBody | TextBody(text: string) | ObjectBody(error: Option<string>)

  /** The message for a failed issuance: a text body, else the body's `error` field, else the default. */
  function IssueErrorMessage(body: ErrorBody): (m: string)
    ensures body.TextBody? && body.text != "" ==> m == body.text
    ensures body.ObjectBody? && Truthy(body.error) ==> m == body.error.value
    ensures body.NoBody? || (body.ObjectBody? && !Truthy(body.error)) ==>
      m == "Failed to issue certificate. Please try again."
  {
    match body
    case TextBody(t) => if t != "" then t else "Failed to issue certificate. Please try again."
    case ObjectBody(e) => if Truthy(e) then e.value else "Failed to issue certificate. Please try again."
    case NoBody => "Failed to issue certificate. Please try again."
  }

  class CourseDetailComponent {
    var course: Option<CourseView>
    var isEnrolling: bool
    var isInstructor: bool
    var lessonAccessibility: map<int, bool>
    var lessonCompletion: map<int, bool>
    var certificateEligible: bool
    var hasCertificate: bool
    var completionPercentage: real
    var checkingCertificate: bool
    var isEnrolled: bool

    /** The certificate button is never offered for a course that already has a certificate. */
    predicate CertificateFlagsConsistent()
      reads this
    {
      !(certificateEligible && hasCertificate)
    }

    constructor ()
      ensures course.None? && !isEnrolling && !isInstructor
      ensures lessonAccessibility == map[] && lessonCompletion == map[]
      ensures !certificateEligible && !hasCertificate && completionPercentage == 0.0
      ensures !checkingCertificate && !isEnrolled
      ensures CertificateFlagsConsistent()
    {
      course := None;
      isEnrolling, isInstructor := false, false;
      lessonAccessibility, lessonCompletion := map[], map[];
      certificateEligible, hasCertificate := false, false;
      completionPercentage := 0.0;
      checkingCertificate, isEnrolled := false, false;
    }

    /** checkUserRole: instructors and admins see the instructor view. */
    method CheckUserRole(user: Option<ClientUser>)
      modifies this
      ensures isInstructor <==> user.Some? && (user.value.role == Instructor || user.value.role == Admin)
      ensures course == old(course) && lessonAccessibility == old(lessonAccessibility)
      ensures lessonCompletion == old(lessonCompletion) && isEnrolled == old(isEnrolled)
      ensures certificateEligible == old(certificateEligible) && hasCertificate == old(hasCertificate)
      ensures completionPercentage == old(completionPercentage) && checkingCertificate == old(checkingCertificate)
      ensures isEnrolling == old(isEnrolling)
    {
      isInstructor := user.Some? && (user.value.role == Instructor || user.value.role == Admin);
    }

    /** isLessonAccessible: `lessonAccessibility.get(id) || false`. */
    function IsLessonAccessible(lessonId: int): (r: bool)
      reads this
      ensures lessonId !in lessonAccessibility ==> !r
      ensures r ==> lessonAccessibility[lessonId]
    {
      lessonId in lessonAccessibility && lessonAccessibility[lessonId]
    }

    /** isLessonCompleted: `lessonCompletion.get(id) || false`. */
    function IsLessonCompleted(lessonId: int): (r: bool)
      reads this
      ensures lessonId !in lessonCompletion ==> !r
      ensures r ==> lessonCompletion[lessonId]
    {
      lessonId in lessonCompletion && lessonCompletion[lessonId]
    }

    /**
     * loadLessonAccessibility: for each lesson of the course, in list order,
     * the two responses are stored under the lesson's id. `access[j]` and
     * `completion[j]` answer for the j-th lesson; None is a failed request.
     */
    method LoadLessonAccessibility(access: seq<Option<bool>>, completion: seq<Option<Option<bool>>>)
      requires course.Some? && course.value.lessonIds.Some? ==>
        |access| == |course.value.lessonIds.value| == |completion|
      modifies this
      ensures course == old(course) && isEnrolled == old(isEnrolled) && isInstructor == old(isInstructor)
      ensures course.None? || course.value.lessonIds.None? ==>
        lessonAccessibility == old(lessonAccessibility) && lessonCompletion == old(lessonCompletion)
      ensures course.Some? && course.value.lessonIds.Some? ==>
        lessonAccessibility == Recorded(old(lessonAccessibility), course.value.lessonIds.value, AccessValues(access))
        && lessonCompletion == Recorded(old(lessonCompletion), course.value.lessonIds.value, CompletionValues(completion))
      ensures certificateEligible == old(certificateEligible) && hasCertificate == old(hasCertificate)
      ensures completionPercentage == old(completionPercentage) && checkingCertificate == old(checkingCertificate)
      ensures isEnrolling == old(isEnrolling)
    {
      if course.None? || course.value.lessonIds.None? {
        return;
      }
      var ids := course.value.lessonIds.value;
      var accessMap := RecordAll(lessonAccessibility, ids, AccessValues(access));
      var completionMap := RecordAll(lessonCompletion, ids, CompletionValues(completion));
      lessonAccessibility, lessonCompletion := accessMap, completionMap;
    }

    /** The forEach over the lessons: one map update per lesson, in list order. */
    static method RecordAll(m: map<int, bool>, ids: seq<int>, values: seq<bool>) returns (r: map<int, bool>)
      requires |ids| == |values|
      ensures r == Recorded(m, ids, values)
    {
      r := m;
      var i := 0;
      while i < |ids|
        invariant 0 <= i <= |ids|
        invariant r == Recorded(m, ids[..i], values[..i])
      {
        assert ids[..i + 1][..i] == ids[..i];
        assert values[..i + 1][..i] == values[..i];
        r := r[ids[i] := values[i]];
        i := i + 1;
      }
      assert ids[..i] == ids && values[..i] == values;
    }

    /** navigateToLesson: only a student facing a locked lesson is stopped. */
    method NavigateToLesson(lessonId: int) returns (navigates: bool)
      ensures navigates <==> isInstructor || IsLessonAccessible(lessonId)
    {
      navigates := !(!isInstructor && !IsLessonAccessible(lessonId));
    }

    /**
     * checkCertificateEligibility after its responses: not eligible clears
     * both flags; eligible offers the button unless a certificate with this
     * course's title exists; a failed certificate list offers it; a failed
     * eligibility request leaves the flags alone.
     */
    method CheckCertificateEligibility(response: EligibilityResponse)
      modifies this
      ensures !checkingCertificate
      ensures response.EligibilityFailed? ==>
        certificateEligible == old(certificateEligible) && hasCertificate == old(hasCertificate)
      ensures response.NotEligible? ==> !certificateEligible && !hasCertificate
      ensures response.EligibleCertificatesFailed? ==> certificateEligible && !hasCertificate
      ensures response.EligibleWithCertificates? ==>
        (hasCertificate <==> course.Some? && course.value.title in response.courseTitles)
        && certificateEligible == !hasCertificate
      ensures !response.EligibilityFailed? ==> CertificateFlagsConsistent()
      ensures old(CertificateFlagsConsistent()) ==> CertificateFlagsConsistent()
      ensures course == old(course) && isEnrolled == old(isEnrolled) && isInstructor == old(isInstructor)
      ensures lessonAccessibility == old(lessonAccessibility) && lessonCompletion == old(lessonCompletion)
      ensures completionPercentage == old(completionPercentage) && isEnrolling == old(isEnrolling)
    {
      checkingCertificate := true;
      match response {
        case EligibilityFailed =>
        case NotEligible =>
          certificateEligible := false;
          hasCertificate := false;
        case EligibleCertificatesFailed =>
          certificateEligible := true;
          hasCertificate := false;
        case EligibleWithCertificates(titles) =>
          hasCertificate := course.Some? && course.value.title in titles;
          certificateEligible := !hasCertificate;
      }
      checkingCertificate := false;
    }

    /** loadCompletionPercentage: a response stores its capped completion; an error changes nothing. */
    method LoadCompletionPercentage(response: Option<Option<real>>)
      modifies this
      ensures response.Some? ==> completionPercentage == CapProgress(response.value)
      ensures response.None? ==> completionPercentage == old(completionPercentage)
      ensures 0.0 <= old(completionPercentage) <= 100.0 ==> 0.0 <= completionPercentage <= 100.0
      ensures course == old(course) && isEnrolled == old(isEnrolled) && isInstructor == old(isInstructor)
      ensures lessonAccessibility == old(lessonAccessibility) && lessonCompletion == old(lessonCompletion)
      ensures certificateEligible == old(certificateEligible) && hasCertificate == old(hasCertificate)
      ensures checkingCertificate == old(checkingCertificate) && isEnrolling == old(isEnrolling)
    {
      if response.Some? {
        completionPercentage := CapProgress(Some(RealOr(response.value, 0.0)));
      }
    }

    /** issueCertificate: success records the certificate; a failure returns the message to show. */
    method IssueCertificate(response: Result<string>, errorBody: ErrorBody) returns (message: Option<string>)
      modifies this
      ensures !checkingCertificate
      ensures response.Ok? ==> hasCertificate && !certificateEligible && message.None?
      ensures response.Err? ==>
        message == Some(IssueErrorMessage(errorBody))
        && certificateEligible == old(certificateEligible) && hasCertificate == old(hasCertificate)
      ensures old(CertificateFlagsConsistent()) ==> CertificateFlagsConsistent()
      ensures course == old(course) && isEnrolled == old(isEnrolled) && isInstructor == old(isInstructor)
      ensures lessonAccessibility == old(lessonAccessibility) && lessonCompletion == old(lessonCompletion)
      ensures completionPercentage == old(completionPercentage) && isEnrolling == old(isEnrolling)
    {
      // checkingCertificate is true only while the request is pending
      checkingCertificate := false;
      if response.Ok? {
        hasCertificate, certificateEligible := true, false;
        message := None;
      } else {
        message := Some(IssueErrorMessage(errorBody));
      }
    }

    /**
     * enrollInCourse: a course must be loaded, the user signed in and a
     * student before a request is made; a 400 answer means the student is
     * already enrolled.
     */
    method EnrollInCourse(authenticated: bool, user: Option<ClientUser>, response: EnrollResponse)
      returns (outcome: EnrollOutcome)
      modifies this
      ensures course.None? ==> outcome == NoCourse
      ensures course.Some? && !authenticated ==> outcome == LoginRedirect
      ensures course.Some? && authenticated && (user.None? || user.value.role != Student) ==> outcome == OnlyStudents
      ensures course.Some? && authenticated && user.Some? && user.value.role == Student ==>
        outcome == (match response
          case EnrollOk => Enrolled
          case EnrollError(s) => if s == 400 then AlreadyEnrolled else if s == 401 then LoginRedirect else EnrollFailed)
      ensures outcome == Enrolled || outcome == AlreadyEnrolled ==> isEnrolled
      ensures outcome != Enrolled && outcome != AlreadyEnrolled ==> isEnrolled == old(isEnrolled)
      ensures outcome == NoCourse || outcome == OnlyStudents || (outcome == LoginRedirect && !authenticated) ==>
        isEnrolling == old(isEnrolling)
      ensures (outcome == Enrolled || outcome == AlreadyEnrolled || outcome == EnrollFailed
               || (outcome == LoginRedirect && authenticated)) ==> !isEnrolling
      ensures course == old(course) && isInstructor == old(isInstructor)
      ensures lessonAccessibility == old(lessonAccessibility) && lessonCompletion == old(lessonCompletion)
      ensures certificateEligible == old(certificateEligible) && hasCertificate == old(hasCertificate)
      ensures completionPercentage == old(completionPercentage) && checkingCertificate == old(checkingCertificate)
    {
      if course.None? {
        return NoCourse;
      }
      if !authenticated {
        return LoginRedirect;
      }
      if user.None? || user.value.role != Student {
        return OnlyStudents;
      }
      isEnrolling := true;
      match response {
        case EnrollOk =>
          isEnrolled := true;
          outcome := Enrolled;
        case EnrollError(s) =>
          if s == 400 {
            isEnrolled := true;
            outcome := AlreadyEnrolled;
          } else if s == 401 {
            outcome := LoginRedirect;
          } else {
            outcome := EnrollFailed;
          }
      }
      isEnrolling := false;
    }
  }
}
