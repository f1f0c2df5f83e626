// LessonController: who may see a lesson's stored video links presigned,
// and the instructor-only edits of the lesson table. The current user
// (getCurrentUser, failing with a message), the enrollment table and the
// object store's presigner are inputs; the course's lessons, ordered by
// lessonOrder, are taken as the repository returns them.
module LessonController {
  import opened Wrappers
  import opened Entities
  import opened Strings
  import S3Service
  import EnrollmentService

  const AccessDenied := "Access denied. Instructor role required."
  const Deleted := "Lesson deleted successfully"

  /** The answers of the lesson endpoints. */
  datatype Reply =
    | OkLesson(lesson: Lesson)
    | OkLessons(lessons: seq<Lesson>)
    | OkText(text: string)
    | NotFound
    | BadRequest(body: string)

  /** What generatePresignedUrl needs: java.net.URL's parse, the videos bucket, the store's signer. */
  datatype Presigner = Presigner(
    parse: string -> Option<S3Service.UrlParts>,
    videosBucket: string,
    sign: S3Service.S3Object -> Option<string>)

  function Presign(p: Presigner, url: string): string
  {
    S3Service.GeneratePresignedUrl(url, p.parse(url), p.videosBucket, p.sign)
  }

  predicate IsHttp(v: string)
  {
    StartsWith(v, "https://") || StartsWith(v, "http://")
  }

  predicate Privileged(role: string)
  {
    role == RoleInstructor || role == RoleAdmin
  }

  /** canAccess: instructors and administrators always, anyone else when enrolled in the course. */
  function CanAccess(user: User, courseId: int, enrollments: seq<Enrollment>): (r: bool)
    ensures r <==> Privileged(user.role) || EnrollmentService.IsEnrolled(enrollments, courseId, user.id)
  {
    if Privileged(user.role) then true
    else EnrollmentService.IsCurrentUserEnrolledInCourse(enrollments, courseId, Ok(user))
  }

  /** One link field as shown: presigned when the viewer may access it and it is an http(s) URL. */
  function PresignField(field: Option<string>, canAccess: bool, p: Presigner): (r: Option<string>)
    ensures !canAccess || field.None? || !IsHttp(field.value) ==> r == field
    ensures canAccess && field.Some? && IsHttp(field.value) ==> r == Some(Presign(p, field.value))
  {
    if canAccess && field.Some? && IsHttp(field.value) then Some(Presign(p, field.value)) else field
  }

  /** The lesson as shown: only its two link fields can differ from the stored row. */
  function Shown(lesson: Lesson, canAccess: bool, p: Presigner): (r: Lesson)
    ensures r.id == lesson.id && r.courseId == lesson.courseId && r.title == lesson.title
    ensures r.description == lesson.description && r.videoDuration == lesson.videoDuration
    ensures r.lessonOrder == lesson.lessonOrder
    ensures r.videoFilename == PresignField(lesson.videoFilename, canAccess, p)
    ensures r.videoUrl == PresignField(lesson.videoUrl, canAccess, p)
    ensures !canAccess ==> r == lesson
  {
    lesson.(videoFilename := PresignField(lesson.videoFilename, canAccess, p),
            videoUrl := PresignField(lesson.videoUrl, canAccess, p))
  }

  /** The loop of getLessonsByCourse: every lesson's links rewritten in place when the viewer may access them. */
  method PresignAll(lessons: seq<Lesson>, canAccess: bool, p: Presigner) returns (shown: seq<Lesson>)
    ensures |shown| == |lessons|
    ensures forall i :: 0 <= i < |lessons| ==> shown[i] == Shown(lessons[i], canAccess, p)
  {
    shown := lessons;
    if canAccess {
      var i := 0;
      while i < |shown|
        invariant 0 <= i <= |shown| == |lessons|
        invariant forall k :: 0 <= k < i ==> shown[k] == Shown(lessons[k], true, p)
        invariant forall k :: i <= k < |shown| ==> shown[k] == lessons[k]
      {
        shown := shown[i := Shown(shown[i], true, p)];
        i := i + 1;
      }
    }
  }

  /**
   * getLessonsByCourse: the current user must be known; the course's
   * lessons come back with links presigned for a viewer with access.
   */
  method GetLessonsByCourse(courseId: int, courseLessons: seq<Lesson>, current: Result<User>,
                            enrollments: seq<Enrollment>, p: Presigner) returns (r: Reply)
    ensures current.Err? ==> r == BadRequest("Error: " + current.error)
    ensures current.Ok? ==> r.OkLessons? && |r.lessons| == |courseLessons|
    ensures current.Ok? ==> forall i :: 0 <= i < |courseLessons| ==>
      r.lessons[i] == Shown(courseLessons[i], CanAccess(current.value, courseId, enrollments), p)
  {
    if current.Err? {
      return BadRequest("Error: " + current.error);
    }
    var shown := PresignAll(courseLessons, CanAccess(current.value, courseId, enrollments), p);
    return OkLessons(shown);
  }

  /** createLesson, updateLesson, deleteLesson: an unknown user or one who is not instructor or administrator is refused. */
  function RoleGate(current: Result<User>): (r: Option<string>)
    ensures r.None? <==> current.Ok? && Privileged(current.value.role)
    ensures current.Err? ==> r == Some("Error: " + current.error)
    ensures current.Ok? && !Privileged(current.value.role) ==> r == Some(AccessDenied)
  {
    match current
    case Err(e) => Some("Error: " + e)
    case Ok(u) => if Privileged(u.role) then None else Some(AccessDenied)
  }

  /** updateLesson's copy: title, description, both links, duration and order from the edit; id and course stay. */
  function CopyEdits(existing: Lesson, edits: Lesson): (r: Lesson)
    ensures r.id == existing.id && r.courseId == existing.courseId
    ensures r.title == edits.title && r.description == edits.description
    ensures r.videoUrl == edits.videoUrl && r.videoFilename == edits.videoFilename
    ensures r.videoDuration == edits.videoDuration && r.lessonOrder == edits.lessonOrder
  {
    Lesson(existing.id, existing.courseId, edits.title, edits.description, edits.videoUrl,
      edits.videoFilename, edits.videoDuration, edits.lessonOrder)
  }

  /** Copying an edit is idempotent, and copying a row onto itself changes nothing. */
  lemma {:induction false} CopyEditsIdempotent(existing: Lesson, edits: Lesson)
    ensures CopyEdits(CopyEdits(existing, edits), edits) == CopyEdits(existing, edits)
    ensures CopyEdits(existing, existing) == existing
  {
  }

  /** The position of the row with that id, -1 when there is none. */
  function IndexOfLesson(lessons: seq<Lesson>, id: int): (r: int)
    ensures -1 <= r < |lessons|
    ensures r >= 0 ==> lessons[r].id == id && forall k :: 0 <= k < r ==> lessons[k].id != id
    ensures r == -1 <==> forall l :: l in lessons ==> l.id != id
  {
    if |lessons| == 0 then -1
    else if lessons[0].id == id then 0
    else
      var k := IndexOfLesson(lessons[1..], id);
      if k == -1 then -1 else k + 1
  }

  /** The table without the row(s) of that id. */
  function WithoutLesson(lessons: seq<Lesson>, id: int): (r: seq<Lesson>)
    ensures forall l :: l in r <==> l in lessons && l.id != id
  {
    if |lessons| == 0 then []
    else if lessons[0].id == id then WithoutLesson(lessons[1..], id)
    else [lessons[0]] + WithoutLesson(lessons[1..], id)
  }

  /** An enrolled student asking for a lesson whose link is a stored object's URL gets that object's signature. */
  lemma {:induction false} EnrolledStudentGetsSignedVideo(lesson: Lesson, student: User, enrollments: seq<Enrollment>, p: Presigner,
                                       bucket: string, region: string, key: string)
    requires student.role == RoleStudent && EnrollmentService.IsEnrolled(enrollments, lesson.courseId, student.id)
    requires '.' !in bucket && key != ""
    requires lesson.videoUrl == Some("https://" + bucket + ".s3." + region + "/" + key)
    requires p.parse(lesson.videoUrl.value) == Some(S3Service.UrlParts(bucket + ".s3." + region, "/" + key))
    requires p.sign(S3Service.S3Object(bucket, key)).Some?
    ensures Shown(lesson, CanAccess(student, lesson.courseId, enrollments), p).videoUrl ==
      p.sign(S3Service.S3Object(bucket, key))
  {
    S3Service.VirtualHostedRoundTrip(bucket, region, key, p.videosBucket);
    assert IsHttp(lesson.videoUrl.value) by {
      assert lesson.videoUrl.value[..8] == "https://";
    }
  }

  class LessonController {
    /** The lesson table, in storage order. */
    var lessons: seq<Lesson>
    /** The next identity value the table hands out. */
    var nextId: int

    constructor(lessons: seq<Lesson>, nextId: int)
      ensures this.lessons == lessons && this.nextId == nextId
    {
      this.lessons, this.nextId := lessons, nextId;
    }

    /**
     * getLessonById: 404 for an unknown id (before the user is looked up),
     * then the current user must be known; the lesson comes back with its
     * links presigned when that user may access its course.
     */
    function GetLessonById(lessonId: int, current: Result<User>, enrollments: seq<Enrollment>, p: Presigner): (r: Reply)
      reads this
      ensures FindLesson(lessons, lessonId).None? <==> r == NotFound
      ensures FindLesson(lessons, lessonId).Some? && current.Err? ==> r == BadRequest("Error: " + current.error)
      ensures FindLesson(lessons, lessonId).Some? && current.Ok? ==>
        r == OkLesson(Shown(FindLesson(lessons, lessonId).value,
          CanAccess(current.value, FindLesson(lessons, lessonId).value.courseId, enrollments), p))
    {
      match FindLesson(lessons, lessonId)
      case None => NotFound
      case Some(lesson) =>
        match current
        case Err(e) => BadRequest("Error: " + e)
        case Ok(u) => OkLesson(Shown(lesson, CanAccess(u, lesson.courseId, enrollments), p))
    }

    /** createLesson: the body is stored as a new row of the given course. */
    method CreateLesson(courseId: int, body: Lesson, current: Result<User>) returns (r: Reply)
      modifies this
      ensures RoleGate(current).Some? ==>
        r == BadRequest(RoleGate(current).value) && lessons == old(lessons) && nextId == old(nextId)
      ensures RoleGate(current).None? ==>
        r == OkLesson(body.(id := old(nextId), courseId := courseId)) &&
        lessons == old(lessons) + [r.lesson] && nextId == old(nextId) + 1
    {
      var refusal := RoleGate(current);
      if refusal.Some? {
        return BadRequest(refusal.value);
      }
      var saved := body.(id := nextId, courseId := courseId);
      lessons := lessons + [saved];
      nextId := nextId + 1;
      return OkLesson(saved);
    }

    /** updateLesson: the gate, then 404 for an unknown id, else the edit copied onto the stored row. */
    method UpdateLesson(lessonId: int, edits: Lesson, current: Result<User>) returns (r: Reply)
      modifies this
      ensures nextId == old(nextId)
      ensures RoleGate(current).Some? ==> r == BadRequest(RoleGate(current).value) && lessons == old(lessons)
      ensures RoleGate(current).None? && IndexOfLesson(old(lessons), lessonId) == -1 ==>
        r == NotFound && lessons == old(lessons)
      ensures RoleGate(current).None? && IndexOfLesson(old(lessons), lessonId) >= 0 ==>
        var k := IndexOfLesson(old(lessons), lessonId);
        r == OkLesson(CopyEdits(old(lessons)[k], edits)) && lessons == old(lessons)[k := r.lesson]
    {
      var refusal := RoleGate(current);
      if refusal.Some? {
        return BadRequest(refusal.value);
      }
      var k := IndexOfLesson(lessons, lessonId);
      if k == -1 {
        return NotFound;
      }
      var saved := CopyEdits(lessons[k], edits);
      lessons := lessons[k := saved];
      return OkLesson(saved);
    }

    /** deleteLesson: the gate, then the row goes. */
    method DeleteLesson(lessonId: int, current: Result<User>) returns (r: Reply)
      modifies this
      ensures nextId == old(nextId)
      ensures RoleGate(current).Some? ==> r == BadRequest(RoleGate(current).value) && lessons == old(lessons)
      ensures RoleGate(current).None? ==> r == OkText(Deleted) && lessons == WithoutLesson(old(lessons), lessonId)
      ensures forall l :: l in lessons ==> l in old(lessons)
    {
      var refusal := RoleGate(current);
      if refusal.Some? {
        return BadRequest(refusal.value);
      }
      lessons := WithoutLesson(lessons, lessonId);
      return OkText(Deleted);
    }
  }
}
