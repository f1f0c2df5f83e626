// CertificateService: certificates are issued once per (student, course),
// only at 80 % average lesson completion, with a "SH-yyyyMMdd-XXXXXXXX"
// number and a link under the frontend's base URL. The clock, the UUID,
// the request URL and the new row's id are inputs; the e-mail notification
// cannot change the outcome and is not modelled.
module CertificateService {
  import opened Wrappers
  import opened Strings
  import opened Entities
  import VideoProgressRepository

  const CertificationThreshold: real := 80.0
  const FallbackBaseUrl := "http://localhost:4200"

  // ---------------------------------------------------------------------
  // Base URL of certificate links

  /** The request URL with ":8080" and both schemes removed, in that order. */
  function RequestHost(url: string): string
  {
    RemoveAll(RemoveAll(RemoveAll(url, ":8080"), "http://"), "https://")
  }

  /**
   * getBaseUrl: a non-empty configured URL wins; otherwise the host of the
   * current request, with the dev-server port for localhost and 127.0.0.1;
   * without a request (None also stands for the exception the lookup
   * throws outside a request) the local dev server.
   */
  function GetBaseUrl(configured: Option<string>, requestUrl: Option<string>): (r: string)
    ensures Truthy(configured) ==> r == configured.value
    ensures !Truthy(configured) && !Truthy(requestUrl) ==> r == FallbackBaseUrl
    ensures !Truthy(configured) ==> StartsWith(r, "http://")
  {
    if Truthy(configured) then configured.value
    else if Truthy(requestUrl) then
      var host := RequestHost(requestUrl.value);
      if host == "localhost" || StartsWith(host, "127.0.0.1") then "http://" + host + ":4200"
      else "http://" + host
    else FallbackBaseUrl
  }

  predicate Truthy(s: Option<string>)
  {
    s.Some? && s.value != ""
  }

  /** Removing both schemes from a scheme-less host with no ':' changes nothing. */
  lemma {:induction false} SchemesAbsent(h: string)
    requires ':' !in h
    ensures RemoveAll(h, "http://") == h && RemoveAll(h, "https://") == h
  {
    MissingCharNotContained(h, "http://", 4);
    MissingCharNotContained(h, "https://", 5);
    RemoveAbsent(h, "http://");
    RemoveAbsent(h, "https://");
  }

  /** The backend's own address "http://host:8080" yields the bare host. */
  lemma {:induction false} RequestHostOfBackendUrl(h: string)
    requires ':' !in h
    ensures RequestHost("http://" + h + ":8080") == h
  {
    var p := "http://" + h;
    var s := p + ":8080";
    forall i | 0 <= i < |p| ensures !OccursAt(s, ":8080", i) {
      if i == 4 {
        assert s[5] == '/';
      } else if i < 7 {
        assert s[i] != ':';
      } else {
        assert s[i] == h[i - 7];
      }
    }
    RemoveAllKeepsPrefix(p, ":8080", ":8080");
    assert RemoveAll(":8080", ":8080") == RemoveAll("", ":8080") == "";
    assert RemoveAll(s, ":8080") == p;
    assert p[..7] == "http://" && p[7..] == h;
    assert RemoveAll(p, "http://") == RemoveAll(h, "http://");
    SchemesAbsent(h);
  }

  /**
   * A request served on the backend's port 8080: localhost and 127.0.0.1
   * go to the dev server's port 4200, any other host to its default port.
   */
  lemma {:induction false} BaseUrlFromBackendRequest(h: string)
    requires ':' !in h
    ensures GetBaseUrl(None, Some("http://" + h + ":8080")) ==
      if h == "localhost" || StartsWith(h, "127.0.0.1") then "http://" + h + ":4200" else "http://" + h
  {
    RequestHostOfBackendUrl(h);
  }

  // ---------------------------------------------------------------------
  // Certificate numbers

  /** The calendar day LocalDateTime.now() falls on. */
  datatype Day = Day(year: nat, month: nat, day: nat)

  predicate ValidDay(d: Day)
  {
    1 <= d.year <= 9999 && 1 <= d.month <= 12 && 1 <= d.day <= 31
  }

  /** The pattern "yyyyMMdd". */
  function DateStamp(d: Day): (r: string)
    ensures AllDigits(r)
    ensures ValidDay(d) ==> |r| == 8
  {
    NatToStringLength(d.year, 4);
    NatToStringLength(d.month, 2);
    NatToStringLength(d.day, 2);
    assert Pow10(2) == 100 && Pow10(4) == 10000;
    var r := ZeroPad(d.year, 4) + ZeroPad(d.month, 2) + ZeroPad(d.day, 2);
    assert forall k :: 0 <= k < |r| ==> IsDigit(r[k]);
    r
  }

  /**
   * "SH-" + yyyyMMdd + "-" + the first 8 characters of a UUID in upper case;
   * a UUID's text is always 36 characters long.
   */
  function CertificateNumber(d: Day, uuid: string): (r: string)
    requires |uuid| >= 8
    ensures ValidDay(d) ==> |r| == 20
    ensures ValidDay(d) ==> r[..3] == "SH-" && AllDigits(r[3..11]) && r[11] == '-'
    ensures ValidDay(d) ==> forall k :: 12 <= k < 20 ==> !('a' <= r[k] <= 'z')
  {
    var stamp := DateStamp(d);
    var r := "SH-" + stamp + "-" + ToUpper(uuid[..8]);
    assert ValidDay(d) ==> r[3..11] == stamp && r[12..] == ToUpper(uuid[..8]);
    r
  }

  // ---------------------------------------------------------------------
  // Issuing

  /** The inputs Java draws from the clock, UUID.randomUUID and the database. */
  datatype Stamp = Stamp(id: int, issuedAt: string, day: Day, uuid: string)

  predicate Completed(completion: Option<real>)
  {
    completion.Some? && completion.value >= CertificationThreshold
  }

  /**
   * The not-completed error; `rendered` is Java's text for the average
   * (Double.toString), which the model takes as given.
   */
  function NotCompletedMessage(completion: Option<real>, rendered: string): string
  {
    "Course not completed. Completion: " + (if completion.Some? then rendered + "%" else "0%")
      + ". Required: 80.0%"
  }

  function NewCertificate(studentId: int, courseId: int, completion: real, baseUrl: string, s: Stamp): Certificate
    requires |s.uuid| >= 8
  {
    var number := CertificateNumber(s.day, s.uuid);
    Certificate(s.id, studentId, courseId, s.issuedAt, number, baseUrl + "/certificate/" + number, completion)
  }

  /**
   * issueCertificate: the existing certificate for the pair if there is
   * one; else "Course not found"; else the not-completed error unless the
   * unclamped average is at least 80; else a new certificate.
   */
  function Issue(certs: seq<Certificate>, courses: seq<Course>, studentId: int, courseId: int,
                 completion: Option<real>, baseUrl: string, s: Stamp, rendered: string): (r: Result<Certificate>)
    requires |s.uuid| >= 8
    ensures FindCertificate(certs, studentId, courseId).Some? ==>
      r == Ok(FindCertificate(certs, studentId, courseId).value)
    ensures r.Ok? <==>
      (FindCertificate(certs, studentId, courseId).Some?
       || (FindCourse(courses, courseId).Some? && Completed(completion)))
    ensures r.Ok? ==> r.value.studentId == studentId && r.value.courseId == courseId
    ensures FindCertificate(certs, studentId, courseId).None? && FindCourse(courses, courseId).None? ==>
      r == Err("Course not found")
    ensures FindCertificate(certs, studentId, courseId).None? && FindCourse(courses, courseId).Some?
            && !Completed(completion) ==>
      r == Err(NotCompletedMessage(completion, rendered))
  {
    var existing := FindCertificate(certs, studentId, courseId);
    if existing.Some? then Ok(existing.value)
    else if FindCourse(courses, courseId).None? then Err("Course not found")
    else if !Completed(completion) then Err(NotCompletedMessage(completion, rendered))
    else Ok(NewCertificate(studentId, courseId, completion.value, baseUrl, s))
  }

  /** The certificate table after an issue call: only a new certificate is stored. */
  function AfterIssue(certs: seq<Certificate>, studentId: int, courseId: int, r: Result<Certificate>): seq<Certificate>
  {
    if FindCertificate(certs, studentId, courseId).None? && r.Ok? then certs + [r.value] else certs
  }

  /**
   * checkCertificateEligibility: true when a certificate exists, otherwise
   * when the average is non-null and at least 80.
   */
  function CheckCertificateEligibility(certs: seq<Certificate>, studentId: int, courseId: int,
                                       completion: Option<real>): (r: bool)
    ensures r <==> FindCertificate(certs, studentId, courseId).Some? || Completed(completion)
  {
    if FindCertificate(certs, studentId, courseId).Some? then true
    else completion.Some? && completion.value >= CertificationThreshold
  }

  /** Issuing succeeds exactly for eligible students of an existing course (or a held certificate). */
  lemma {:induction false} IssueSucceedsIffEligible(certs: seq<Certificate>, courses: seq<Course>, studentId: int, courseId: int,
                                 completion: Option<real>, baseUrl: string, s: Stamp, rendered: string)
    requires |s.uuid| >= 8
    requires FindCourse(courses, courseId).Some?
    ensures Issue(certs, courses, studentId, courseId, completion, baseUrl, s, rendered).Ok?
      <==> CheckCertificateEligibility(certs, studentId, courseId, completion)
  {
  }

  /** FindCertificate reaches an appended certificate only when nothing before it matches. */
  lemma {:induction false} FindAfterAppend(certs: seq<Certificate>, c: Certificate, studentId: int, courseId: int)
    ensures FindCertificate(certs + [c], studentId, courseId) ==
      if FindCertificate(certs, studentId, courseId).Some? then FindCertificate(certs, studentId, courseId)
      else if c.studentId == studentId && c.courseId == courseId then Some(c)
      else None
  {
    if |certs| > 0 {
      assert (certs + [c])[1..] == certs[1..] + [c];
      FindAfterAppend(certs[1..], c, studentId, courseId);
    }
  }

  /** Issuing never stores a second certificate for a (student, course) pair. */
  lemma {:induction false} IssueKeepsOnePerPair(certs: seq<Certificate>, courses: seq<Course>, studentId: int, courseId: int,
                             completion: Option<real>, baseUrl: string, s: Stamp, rendered: string)
    requires |s.uuid| >= 8
    requires OneCertificatePerPair(certs)
    ensures OneCertificatePerPair(AfterIssue(certs, studentId, courseId,
      Issue(certs, courses, studentId, courseId, completion, baseUrl, s, rendered)))
  {
    var r := Issue(certs, courses, studentId, courseId, completion, baseUrl, s, rendered);
    if FindCertificate(certs, studentId, courseId).None? && r.Ok? {
      AppendKeepsOnePerPair(certs, r.value);
    }
  }

  /** Appending a certificate for a pair that has none keeps the pairs unique. */
  lemma {:induction false} AppendKeepsOnePerPair(t: seq<Certificate>, x: Certificate)
    requires OneCertificatePerPair(t) && FindCertificate(t, x.studentId, x.courseId).None?
    ensures OneCertificatePerPair(t + [x])
  {
    var t' := t + [x];
    forall i, j | 0 <= i < j < |t'|
      ensures t'[i].studentId != t'[j].studentId || t'[i].courseId != t'[j].courseId
    {
      if j == |t| {
        assert t'[i] in t;
      }
    }
  }


  /**
   * Issuing twice is issuing once: the second call, with any fresh clock and
   * UUID, returns the first call's certificate and stores nothing.
   */
  lemma {:induction false} IssueIdempotent(certs: seq<Certificate>, courses: seq<Course>, studentId: int, courseId: int,
                        completion: Option<real>, baseUrl: string, s1: Stamp, s2: Stamp, rendered: string)
    requires |s1.uuid| >= 8 && |s2.uuid| >= 8
    ensures var r1 := Issue(certs, courses, studentId, courseId, completion, baseUrl, s1, rendered);
      var t1 := AfterIssue(certs, studentId, courseId, r1);
      r1.Ok? ==>
        Issue(t1, courses, studentId, courseId, completion, baseUrl, s2, rendered) == r1
        && AfterIssue(t1, studentId, courseId, Issue(t1, courses, studentId, courseId, completion, baseUrl, s2, rendered)) == t1
  {
    var r1 := Issue(certs, courses, studentId, courseId, completion, baseUrl, s1, rendered);
    if r1.Ok? && FindCertificate(certs, studentId, courseId).None? {
      FindAfterAppend(certs, r1.value, studentId, courseId);
    }
  }

  /** Once a certificate is issued, the student counts as eligible for that course. */
  lemma {:induction false} EligibleOnceIssued(certs: seq<Certificate>, courses: seq<Course>, studentId: int, courseId: int,
                           completion: Option<real>, baseUrl: string, s: Stamp, rendered: string)
    requires |s.uuid| >= 8
    ensures var r := Issue(certs, courses, studentId, courseId, completion, baseUrl, s, rendered);
      r.Ok? ==> CheckCertificateEligibility(AfterIssue(certs, studentId, courseId, r), studentId, courseId, None)
  {
    var r := Issue(certs, courses, studentId, courseId, completion, baseUrl, s, rendered);
    if r.Ok? && FindCertificate(certs, studentId, courseId).None? {
      FindAfterAppend(certs, r.value, studentId, courseId);
    }
  }

  /** The service with the certificate table it writes. */
  class CertificateService {
    var certificates: seq<Certificate>
    const configuredBaseUrl: Option<string>

    constructor(certs: seq<Certificate>, configured: Option<string>)
      ensures certificates == certs && configuredBaseUrl == configured
    {
      certificates := certs;
      configuredBaseUrl := configured;
    }

    /**
     * issueCertificate for the signed-in `student`; the completion is the
     * repository's unclamped course average.
     */
    method IssueCertificate(student: User, courseId: int, courses: seq<Course>,
                            progress: VideoProgressRepository.Table, lessons: seq<Lesson>,
                            requestUrl: Option<string>, s: Stamp, rendered: string)
      returns (r: Result<Certificate>)
      requires |s.uuid| >= 8
      modifies this
      ensures r == Issue(old(certificates), courses, student.id, courseId,
        VideoProgressRepository.CalculateCourseProgress(progress, lessons, student.id, courseId),
        GetBaseUrl(configuredBaseUrl, requestUrl), s, rendered)
      ensures certificates == AfterIssue(old(certificates), student.id, courseId, r)
    {
      var existing := FindCertificate(certificates, student.id, courseId);
      if existing.Some? {
        return Ok(existing.value);
      }
      if FindCourse(courses, courseId).None? {
        return Err("Course not found");
      }
      var completion := VideoProgressRepository.CalculateCourseProgress(progress, lessons, student.id, courseId);
      if completion.None? || completion.value < CertificationThreshold {
        return Err(NotCompletedMessage(completion, rendered));
      }
      var certificate := NewCertificate(student.id, courseId, completion.value,
        GetBaseUrl(configuredBaseUrl, requestUrl), s);
      certificates := certificates + [certificate];
      r := Ok(certificate);
    }
  }
}
