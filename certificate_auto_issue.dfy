// CertificateAutoIssueService: after a lesson is completed, every course the
// student is enrolled in and has no certificate for gets one once the
// course average reaches 80 %. A failure for one course (no course row, no
// enrollment row) is swallowed and the loop goes on with the next course.
// Number, link and base URL are built exactly as in CertificateService.
module CertificateAutoIssueService {
  import opened Wrappers
  import opened Entities
  import opened VideoProgressRepository
  import CertificateService

  /** The tables the loop reads but does not write. */
  datatype Db = Db(courses: seq<Course>, enrollments: seq<Enrollment>, progress: Table, lessons: seq<Lesson>)

  /** enrollmentRepository.findByStudentId(studentId) mapped to course ids, in table order. */
  function EnrolledCourseIds(enrollments: seq<Enrollment>, studentId: int): (r: seq<int>)
    ensures forall c :: c in r <==> exists e :: e in enrollments && e.studentId == studentId && e.courseId == c
  {
    if |enrollments| == 0 then []
    else
      var rest := EnrolledCourseIds(enrollments[1..], studentId);
      assert forall e :: e in enrollments <==> e == enrollments[0] || e in enrollments[1..];
      if enrollments[0].studentId == studentId then [enrollments[0].courseId] + rest else rest
  }

  function Completion(db: Db, studentId: int, courseId: int): Option<real>
  {
    CalculateCourseProgress(db.progress, db.lessons, studentId, courseId)
  }

  /** A course the loop issues for when it has no certificate yet. */
  predicate Qualifies(db: Db, studentId: int, courseId: int)
  {
    CertificateService.Completed(Completion(db, studentId, courseId))
    && FindCourse(db.courses, courseId).Some?
    && FindEnrollment(db.enrollments, studentId, courseId).Some?
  }

  predicate ValidStamps(stamps: seq<CertificateService.Stamp>)
  {
    forall i :: 0 <= i < |stamps| ==> |stamps[i].uuid| >= 8
  }

  /**
   * One pass of the loop body for `courseId`: skipped when a certificate
   * exists; otherwise, at 80 % or more, the private issueCertificate either
   * stores a new certificate or swallows "Course not found" / "Enrollment
   * not found".
   */
  function Step(certs: seq<Certificate>, db: Db, studentId: int, courseId: int,
                baseUrl: string, s: CertificateService.Stamp): (r: seq<Certificate>)
    requires |s.uuid| >= 8
    ensures FindCertificate(certs, studentId, courseId).Some? || !Qualifies(db, studentId, courseId) ==> r == certs
    ensures FindCertificate(certs, studentId, courseId).None? && Qualifies(db, studentId, courseId) ==>
      r == certs + [CertificateService.NewCertificate(studentId, courseId,
        Completion(db, studentId, courseId).value, baseUrl, s)]
  {
    if FindCertificate(certs, studentId, courseId).Some? then certs
    else
      var completion := Completion(db, studentId, courseId);
      if completion.Some? && completion.value >= CertificateService.CertificationThreshold then
        if FindCourse(db.courses, courseId).None? then certs
        else if FindEnrollment(db.enrollments, studentId, courseId).None? then certs
        else certs + [CertificateService.NewCertificate(studentId, courseId, completion.value, baseUrl, s)]
      else certs
  }

  /** The certificate table after the loop has processed `courseIds`, stamp i for course i. */
  function AutoIssued(certs: seq<Certificate>, db: Db, studentId: int, courseIds: seq<int>,
                      baseUrl: string, stamps: seq<CertificateService.Stamp>): seq<Certificate>
    requires |stamps| == |courseIds| && ValidStamps(stamps)
    decreases |courseIds|
  {
    if |courseIds| == 0 then certs
    else
      var n := |courseIds| - 1;
      Step(AutoIssued(certs, db, studentId, courseIds[..n], baseUrl, stamps[..n]),
           db, studentId, courseIds[n], baseUrl, stamps[n])
  }

  /** The loop's last pass, and what holds of the passes before it. */
  lemma {:induction false} Unfold(certs: seq<Certificate>, db: Db, studentId: int, courseIds: seq<int>, baseUrl: string,
               stamps: seq<CertificateService.Stamp>)
    requires |stamps| == |courseIds| > 0 && ValidStamps(stamps)
    ensures ValidStamps(stamps[..|courseIds| - 1]) && |stamps[|courseIds| - 1].uuid| >= 8
    ensures forall x :: x in courseIds[..|courseIds| - 1] ==> x in courseIds
    ensures courseIds == courseIds[..|courseIds| - 1] + [courseIds[|courseIds| - 1]]
    ensures AutoIssued(certs, db, studentId, courseIds, baseUrl, stamps) ==
      Step(AutoIssued(certs, db, studentId, courseIds[..|courseIds| - 1], baseUrl, stamps[..|courseIds| - 1]),
           db, studentId, courseIds[|courseIds| - 1], baseUrl, stamps[|courseIds| - 1])
  {
  }

  /** A pass leaves the table alone or appends one qualifying certificate of this student for this course. */
  lemma {:induction false} StepShape(t: seq<Certificate>, db: Db, studentId: int, c: int, baseUrl: string, s: CertificateService.Stamp)
    requires |s.uuid| >= 8
    ensures var t' := Step(t, db, studentId, c, baseUrl, s);
      t' == t ||
      (FindCertificate(t, studentId, c).None? && Qualifies(db, studentId, c) &&
       |t'| == |t| + 1 && t'[..|t|] == t && t'[|t|].studentId == studentId && t'[|t|].courseId == c)
  {
    var t' := Step(t, db, studentId, c, baseUrl, s);
    if t' != t {
      assert t'[..|t|] == t;
    }
  }

  /**
   * The loop only appends, and only certificates of this student for
   * listed courses that qualify.
   */
  lemma {:induction false} AutoIssueOnlyAddsQualifying(certs: seq<Certificate>, db: Db, studentId: int,
                                                      courseIds: seq<int>, baseUrl: string,
                                                      stamps: seq<CertificateService.Stamp>)
    requires |stamps| == |courseIds| && ValidStamps(stamps)
    ensures var t := AutoIssued(certs, db, studentId, courseIds, baseUrl, stamps);
      |certs| <= |t| && t[..|certs|] == certs
      && forall k :: |certs| <= k < |t| ==>
           t[k].studentId == studentId && t[k].courseId in courseIds && Qualifies(db, studentId, t[k].courseId)
    decreases |courseIds|
  {
    if |courseIds| > 0 {
      var n := |courseIds| - 1;
      Unfold(certs, db, studentId, courseIds, baseUrl, stamps);
      AutoIssueOnlyAddsQualifying(certs, db, studentId, courseIds[..n], baseUrl, stamps[..n]);
      var t := AutoIssued(certs, db, studentId, courseIds[..n], baseUrl, stamps[..n]);
      var c := courseIds[n];
      StepShape(t, db, studentId, c, baseUrl, stamps[n]);
      var t' := Step(t, db, studentId, c, baseUrl, stamps[n]);
      forall k | |certs| <= k < |t'|
        ensures t'[k].studentId == studentId && t'[k].courseId in courseIds && Qualifies(db, studentId, t'[k].courseId)
      {
        if k < |t| {
          assert t'[k] == t[k] by {
            assert t'[..|t|] == t;
          }
        }
      }
      assert t'[..|certs|] == certs by {
        assert t'[..|t|] == t;
        assert t[..|certs|] == certs;
      }
    }
  }

  /** The loop keeps the table's one-certificate-per-(student, course) constraint. */
  lemma {:induction false} AutoIssueKeepsOnePerPair(certs: seq<Certificate>, db: Db, studentId: int,
                                                   courseIds: seq<int>, baseUrl: string,
                                                   stamps: seq<CertificateService.Stamp>)
    requires |stamps| == |courseIds| && ValidStamps(stamps)
    requires OneCertificatePerPair(certs)
    ensures OneCertificatePerPair(AutoIssued(certs, db, studentId, courseIds, baseUrl, stamps))
    decreases |courseIds|
  {
    if |courseIds| > 0 {
      var n := |courseIds| - 1;
      Unfold(certs, db, studentId, courseIds, baseUrl, stamps);
      AutoIssueKeepsOnePerPair(certs, db, studentId, courseIds[..n], baseUrl, stamps[..n]);
      var t := AutoIssued(certs, db, studentId, courseIds[..n], baseUrl, stamps[..n]);
      var c := courseIds[n];
      if FindCertificate(t, studentId, c).None? && Qualifies(db, studentId, c) {
        var x := CertificateService.NewCertificate(studentId, c, Completion(db, studentId, c).value, baseUrl, stamps[n]);
        CertificateService.AppendKeepsOnePerPair(t, x);
      }
    }
  }

  /** A pass never loses a certificate the table already has for a pair. */
  lemma {:induction false} StepKeepsFound(t: seq<Certificate>, db: Db, studentId: int, c: int, baseUrl: string,
                       s: CertificateService.Stamp, courseId: int)
    requires |s.uuid| >= 8 && FindCertificate(t, studentId, courseId).Some?
    ensures FindCertificate(Step(t, db, studentId, c, baseUrl, s), studentId, courseId).Some?
  {
    StepShape(t, db, studentId, c, baseUrl, s);
    var t' := Step(t, db, studentId, c, baseUrl, s);
    if t' != t {
      assert t' == t + [t'[|t|]];
      CertificateService.FindAfterAppend(t, t'[|t|], studentId, courseId);
    }
  }

  /** A pass for a qualifying course leaves the table with a certificate for it. */
  lemma {:induction false} StepFinds(t: seq<Certificate>, db: Db, studentId: int, courseId: int, baseUrl: string, s: CertificateService.Stamp)
    requires |s.uuid| >= 8 && Qualifies(db, studentId, courseId)
    ensures FindCertificate(Step(t, db, studentId, courseId, baseUrl, s), studentId, courseId).Some?
  {
    if FindCertificate(t, studentId, courseId).None? {
      StepShape(t, db, studentId, courseId, baseUrl, s);
      var t' := Step(t, db, studentId, courseId, baseUrl, s);
      assert t' == t + [t'[|t|]];
      CertificateService.FindAfterAppend(t, t'[|t|], studentId, courseId);
    }
  }

  /**
   * No qualifying course is missed: after the loop, each listed course that
   * qualifies has a certificate, whatever failed for the other courses.
   */
  lemma {:induction false} AutoIssueCoversQualifying(certs: seq<Certificate>, db: Db, studentId: int,
                                                    courseIds: seq<int>, baseUrl: string,
                                                    stamps: seq<CertificateService.Stamp>, courseId: int)
    requires |stamps| == |courseIds| && ValidStamps(stamps)
    requires courseId in courseIds && Qualifies(db, studentId, courseId)
    ensures FindCertificate(AutoIssued(certs, db, studentId, courseIds, baseUrl, stamps), studentId, courseId).Some?
    decreases |courseIds|
  {
    var n := |courseIds| - 1;
    Unfold(certs, db, studentId, courseIds, baseUrl, stamps);
    var t := AutoIssued(certs, db, studentId, courseIds[..n], baseUrl, stamps[..n]);
    if courseIds[n] == courseId {
      StepFinds(t, db, studentId, courseId, baseUrl, stamps[n]);
    } else {
      assert courseId in courseIds[..n];
      AutoIssueCoversQualifying(certs, db, studentId, courseIds[..n], baseUrl, stamps[..n], courseId);
      StepKeepsFound(t, db, studentId, courseIds[n], baseUrl, stamps[n], courseId);
    }
  }

  /** Running the loop a second time, with any fresh stamps, issues nothing. */
  lemma {:induction false} AutoIssueTwiceAddsNothing(certs: seq<Certificate>, db: Db, studentId: int,
                                                    courseIds: seq<int>, baseUrl: string,
                                                    stamps1: seq<CertificateService.Stamp>,
                                                    prefix: seq<int>, stamps2: seq<CertificateService.Stamp>)
    requires |stamps1| == |courseIds| && ValidStamps(stamps1)
    requires |stamps2| == |prefix| && ValidStamps(stamps2)
    requires forall c :: c in prefix ==> c in courseIds
    ensures var t := AutoIssued(certs, db, studentId, courseIds, baseUrl, stamps1);
      AutoIssued(t, db, studentId, prefix, baseUrl, stamps2) == t
    decreases |prefix|
  {
    var t := AutoIssued(certs, db, studentId, courseIds, baseUrl, stamps1);
    if |prefix| > 0 {
      var n := |prefix| - 1;
      Unfold(t, db, studentId, prefix, baseUrl, stamps2);
      AutoIssueTwiceAddsNothing(certs, db, studentId, courseIds, baseUrl, stamps1, prefix[..n], stamps2[..n]);
      if Qualifies(db, studentId, prefix[n]) {
        AutoIssueCoversQualifying(certs, db, studentId, courseIds, baseUrl, stamps1, prefix[n]);
      }
    }
  }

  /** The service with the certificate table it writes. */
  class CertificateAutoIssueService {
    var certificates: seq<Certificate>
    const configuredBaseUrl: Option<string>

    constructor(certs: seq<Certificate>, configured: Option<string>)
      ensures certificates == certs && configuredBaseUrl == configured
    {
      certificates := certs;
      configuredBaseUrl := configured;
    }

    /**
     * checkAndIssueCertificates: one pass over the student's enrolled
     * courses, with stamp i drawn for the i-th course.
     */
    method CheckAndIssueCertificates(studentId: int, db: Db, requestUrl: Option<string>,
                                     stamps: seq<CertificateService.Stamp>)
      requires |stamps| == |EnrolledCourseIds(db.enrollments, studentId)| && ValidStamps(stamps)
      modifies this
      ensures certificates == AutoIssued(old(certificates), db, studentId,
        EnrolledCourseIds(db.enrollments, studentId), CertificateService.GetBaseUrl(configuredBaseUrl, requestUrl), stamps)
    {
      var courseIds := EnrolledCourseIds(db.enrollments, studentId);
      var baseUrl := CertificateService.GetBaseUrl(configuredBaseUrl, requestUrl);
      var i := 0;
      while i < |courseIds|
        invariant 0 <= i <= |courseIds|
        invariant certificates == AutoIssued(old(certificates), db, studentId, courseIds[..i], baseUrl, stamps[..i])
      {
        assert courseIds[..i + 1][..i] == courseIds[..i] && stamps[..i + 1][..i] == stamps[..i];
        Unfold(old(certificates), db, studentId, courseIds[..i + 1], baseUrl, stamps[..i + 1]);
        CheckCourse(studentId, courseIds[i], db, baseUrl, stamps[i]);
        i := i + 1;
      }
      assert courseIds[..i] == courseIds && stamps[..i] == stamps;
    }

    /** The loop body for one course: skip it when certified, else issue at 80 % or more. */
    method CheckCourse(studentId: int, courseId: int, db: Db, baseUrl: string, s: CertificateService.Stamp)
      requires |s.uuid| >= 8
      modifies this
      ensures certificates == Step(old(certificates), db, studentId, courseId, baseUrl, s)
    {
      if FindCertificate(certificates, studentId, courseId).None? {
        var completion := CalculateCourseProgress(db.progress, db.lessons, studentId, courseId);
        if completion.Some? && completion.value >= CertificateService.CertificationThreshold {
          IssueCertificate(studentId, courseId, completion.value, db, baseUrl, s);
        }
      }
    }

    /**
     * The private issueCertificate: stores a certificate when the course
     * and the enrollment exist; otherwise the exception is swallowed and
     * nothing changes.
     */
    method IssueCertificate(studentId: int, courseId: int, completion: real, db: Db,
                            baseUrl: string, s: CertificateService.Stamp)
      requires |s.uuid| >= 8
      modifies this
      ensures certificates ==
        if FindCourse(db.courses, courseId).Some? && FindEnrollment(db.enrollments, studentId, courseId).Some?
        then old(certificates) + [CertificateService.NewCertificate(studentId, courseId, completion, baseUrl, s)]
        else old(certificates)
    {
      if FindCourse(db.courses, courseId).None? {
        return;
      }
      var enrollment := FindEnrollment(db.enrollments, studentId, courseId);
      if enrollment.None? {
        return;
      }
      certificates := certificates + [CertificateService.NewCertificate(enrollment.value.studentId, courseId, completion, baseUrl, s)];
    }

    /** autoIssueCertificatesForAllStudents has an empty body. */
    method AutoIssueCertificatesForAllStudents()
      ensures certificates == old(certificates)
    {
    }
  }
}
