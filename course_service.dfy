// CourseService: the course table with its ownership rule (a course is
// changed or deleted by its instructor or an administrator), the
// administrator's partial edit, the deletion that removes the course's
// certificates first, and the listing that never fails. The current user,
// the lesson lookups and the instructor rows are inputs.
module CourseService {
  import opened Wrappers
  import opened Entities

  const CourseNotFound := "Course not found"
  const NotYourCourseToUpdate := "You can only update your own courses"
  const NotYourCourseToDelete := "You can only delete your own courses"
  const UnknownInstructor := "Unknown Instructor"
  /** The failure of `course.getInstructor().getId()` on a course without instructor. */
  const MissingInstructor := "null"

  /** CourseResponse.InstructorInfo. */
  datatype InstructorInfo = InstructorInfo(id: Option<int>, name: string, email: Option<string>)

  /** CourseResponse. */
  datatype CourseResponse = CourseResponse(
    id: int, title: string, description: string, thumbnail: Option<string>,
    lessonCount: nat, instructor: InstructorInfo)

  const Unknown := InstructorInfo(None, UnknownInstructor, None)

  /**
   * One element of getAllCourses. A course without instructor shows the
   * unknown instructor; an instructor reference with no row behind it makes
   * the lazy load throw, which falls back to the unknown instructor and no
   * lessons. A lesson lookup that throws (`None`) counts as no lessons.
   */
  function Summary(c: Course, users: seq<User>, lessonCount: Option<nat>): (r: CourseResponse)
    ensures r.id == c.id && r.title == c.title && r.description == c.description && r.thumbnail == c.thumbnail
    ensures r.instructor.name == UnknownInstructor || r.instructor.id == c.instructorId
    ensures c.instructorId.None? ==> r.instructor == Unknown && r.lessonCount == (if lessonCount.Some? then lessonCount.value else 0)
    ensures c.instructorId.Some? && FindUser(users, c.instructorId.value).None? ==> r.instructor == Unknown && r.lessonCount == 0
    ensures c.instructorId.Some? && FindUser(users, c.instructorId.value).Some? ==>
      var u := FindUser(users, c.instructorId.value).value;
      r.instructor == InstructorInfo(Some(u.id), u.name, Some(u.email)) &&
      r.lessonCount == (if lessonCount.Some? then lessonCount.value else 0)
  {
    var count := if lessonCount.Some? then lessonCount.value else 0;
    if c.instructorId.None? then CourseResponse(c.id, c.title, c.description, c.thumbnail, count, Unknown)
    else
      match FindUser(users, c.instructorId.value)
      case None => CourseResponse(c.id, c.title, c.description, c.thumbnail, 0, Unknown)
      case Some(u) => CourseResponse(c.id, c.title, c.description, c.thumbnail, count, InstructorInfo(Some(u.id), u.name, Some(u.email)))
  }

  /**
   * getAllCourses: one summary per stored course, in table order; the
   * empty list when the table cannot be read (`None`).
   */
  function GetAllCourses(courses: Option<seq<Course>>, users: seq<User>, lessonCount: int -> Option<nat>): (r: seq<CourseResponse>)
    ensures courses.None? ==> r == []
    ensures courses.Some? ==> |r| == |courses.value|
    ensures courses.Some? ==> forall i :: 0 <= i < |r| ==>
      r[i] == Summary(courses.value[i], users, lessonCount(courses.value[i].id))
  {
    if courses.None? then [] else Summaries(courses.value, users, lessonCount)
  }

  function Summaries(courses: seq<Course>, users: seq<User>, lessonCount: int -> Option<nat>): (r: seq<CourseResponse>)
    ensures |r| == |courses|
    ensures forall i :: 0 <= i < |r| ==> r[i] == Summary(courses[i], users, lessonCount(courses[i].id))
  {
    if |courses| == 0 then []
    else [Summary(courses[0], users, lessonCount(courses[0].id))] + Summaries(courses[1..], users, lessonCount)
  }

  /**
   * The ownership rule of updateCourse and deleteCourse: the course's own
   * instructor or an administrator. The instructor's id is read first, so a
   * course without instructor fails even for an administrator.
   */
  function Permission(c: Course, user: User, refusal: string): (r: Option<string>)
    ensures r.None? <==> c.instructorId.Some? && (c.instructorId.value == user.id || user.role == RoleAdmin)
    ensures c.instructorId.None? ==> r == Some(MissingInstructor)
    ensures c.instructorId.Some? && r.Some? ==> r == Some(refusal)
  {
    if c.instructorId.None? then Some(MissingInstructor)
    else if c.instructorId.value != user.id && user.role != RoleAdmin then Some(refusal)
    else None
  }

  /** The position of the row with that id, -1 when there is none. */
  function IndexOfCourse(courses: seq<Course>, id: int): (r: int)
    ensures -1 <= r < |courses|
    ensures r >= 0 ==> courses[r].id == id
    ensures r == -1 <==> forall c :: c in courses ==> c.id != id
  {
    if |courses| == 0 then -1
    else if courses[0].id == id then 0
    else
      var k := IndexOfCourse(courses[1..], id);
      if k == -1 then -1 else k + 1
  }

  /** The administrator's edit: each field given replaces the stored one; the thumbnail is never touched. */
  function AdminEdit(c: Course, title: Option<string>, description: Option<string>, instructorId: Option<int>): (r: Course)
    ensures r.id == c.id && r.thumbnail == c.thumbnail && r.lessons == c.lessons
    ensures r.title == (if title.Some? then title.value else c.title)
    ensures r.description == (if description.Some? then description.value else c.description)
    ensures r.instructorId == (if instructorId.Some? then instructorId else c.instructorId)
  {
    c.(title := if title.Some? then title.value else c.title,
       description := if description.Some? then description.value else c.description,
       instructorId := if instructorId.Some? then instructorId else c.instructorId)
  }

  /** The edit that gives nothing changes nothing, and the edit is idempotent. */
  lemma {:induction false} AdminEditIdempotent(c: Course, title: Option<string>, description: Option<string>, instructorId: Option<int>)
    ensures AdminEdit(c, None, None, None) == c
    ensures AdminEdit(AdminEdit(c, title, description, instructorId), title, description, instructorId) ==
      AdminEdit(c, title, description, instructorId)
  {
  }

  function WithoutCourse(courses: seq<Course>, id: int): (r: seq<Course>)
    ensures forall c :: c in r <==> c in courses && c.id != id
  {
    if |courses| == 0 then []
    else if courses[0].id == id then WithoutCourse(courses[1..], id)
    else [courses[0]] + WithoutCourse(courses[1..], id)
  }

  /** certificateRepository.deleteByCourseId: every certificate of the course goes, the others stay. */
  function WithoutCertificatesOf(certs: seq<Certificate>, courseId: int): (r: seq<Certificate>)
    ensures forall c :: c in r <==> c in certs && c.courseId != courseId
  {
    if |certs| == 0 then []
    else if certs[0].courseId == courseId then WithoutCertificatesOf(certs[1..], courseId)
    else [certs[0]] + WithoutCertificatesOf(certs[1..], courseId)
  }

  class CourseService {
    /** The course table, in storage order. */
    var courses: seq<Course>
    /** The certificate table, in storage order. */
    var certificates: seq<Certificate>
    /** The next identity value the course table hands out. */
    var nextId: int

    ghost predicate Valid()
      reads this
    {
      forall i :: 0 <= i < |courses| ==> courses[i].id < nextId
    }

    /** The identity generator is ahead of every stored id. */
    constructor(courses: seq<Course>, certificates: seq<Certificate>, nextId: int)
      requires forall i :: 0 <= i < |courses| ==> courses[i].id < nextId
      ensures this.courses == courses && this.certificates == certificates && this.nextId == nextId
      ensures Valid()
    {
      this.courses, this.certificates, this.nextId := courses, certificates, nextId;
    }

    /** createCourse: a new course owned by the current user, without lessons. */
    method CreateCourse(title: string, description: string, thumbnail: Option<string>, current: Result<User>)
      returns (r: Result<Course>)
      requires Valid()
      modifies this
      ensures Valid() && certificates == old(certificates)
      ensures current.Err? ==> r == Err(current.error) && courses == old(courses) && nextId == old(nextId)
      ensures current.Ok? ==>
        r == Ok(Course(old(nextId), title, description, thumbnail, Some(current.value.id), None)) &&
        courses == old(courses) + [r.value]
    {
      if current.Err? {
        return Err(current.error);
      }
      var c := Course(nextId, title, description, thumbnail, Some(current.value.id), None);
      courses := courses + [c];
      nextId := nextId + 1;
      return Ok(c);
    }

    /**
     * updateCourse (request form): an unknown course, an unknown user or a
     * user who is neither its instructor nor an administrator fail; otherwise
     * title, description and thumbnail are replaced and nothing else.
     */
    method UpdateCourse(id: int, title: string, description: string, thumbnail: Option<string>, current: Result<User>)
      returns (r: Result<Course>)
      requires Valid()
      modifies this
      ensures Valid()
      ensures nextId == old(nextId) && certificates == old(certificates)
      ensures r.Err? ==> courses == old(courses)
      ensures IndexOfCourse(old(courses), id) == -1 ==> r == Err(CourseNotFound)
      ensures IndexOfCourse(old(courses), id) >= 0 && current.Err? ==> r == Err(current.error)
      ensures IndexOfCourse(old(courses), id) >= 0 && current.Ok? ==>
        var k := IndexOfCourse(old(courses), id);
        var refusal := Permission(old(courses)[k], current.value, NotYourCourseToUpdate);
        (refusal.Some? ==> r == Err(refusal.value)) &&
        (refusal.None? ==>
          r == Ok(old(courses)[k].(title := title, description := description, thumbnail := thumbnail)) &&
          courses == old(courses)[k := r.value])
      ensures r.Ok? ==>
        current.Ok? && r.value.instructorId.Some? &&
        (r.value.instructorId.value == current.value.id || current.value.role == RoleAdmin)
    {
      var k := IndexOfCourse(courses, id);
      if k == -1 {
        return Err(CourseNotFound);
      }
      if current.Err? {
        return Err(current.error);
      }
      var refusal := Permission(courses[k], current.value, NotYourCourseToUpdate);
      if refusal.Some? {
        return Err(refusal.value);
      }
      var c := courses[k].(title := title, description := description, thumbnail := thumbnail);
      courses := courses[k := c];
      return Ok(c);
    }

    /**
     * deleteCourse: the same checks; then the course's certificates are
     * deleted and the course after them.
     */
    method DeleteCourse(id: int, current: Result<User>) returns (error: Option<string>)
      requires Valid()
      modifies this
      ensures Valid()
      ensures nextId == old(nextId)
      ensures error.Some? ==> courses == old(courses) && certificates == old(certificates)
      ensures IndexOfCourse(old(courses), id) == -1 ==> error == Some(CourseNotFound)
      ensures IndexOfCourse(old(courses), id) >= 0 && current.Err? ==> error == Some(current.error)
      ensures IndexOfCourse(old(courses), id) >= 0 && current.Ok? ==>
        error == Permission(old(courses)[IndexOfCourse(old(courses), id)], current.value, NotYourCourseToDelete)
      ensures error.None? ==>
        courses == WithoutCourse(old(courses), id) && certificates == WithoutCertificatesOf(old(certificates), id)
      ensures error.None? ==> forall c :: c in certificates ==> c.courseId != id
    {
      var k := IndexOfCourse(courses, id);
      if k == -1 {
        return Some(CourseNotFound);
      }
      if current.Err? {
        return Some(current.error);
      }
      error := Permission(courses[k], current.value, NotYourCourseToDelete);
      if error.Some? {
        return;
      }
      certificates := WithoutCertificatesOf(certificates, id);
      courses := WithoutCourse(courses, id);
    }

    /** updateCourse (administrator form): the partial edit of a stored course. */
    method AdminUpdateCourse(id: int, title: Option<string>, description: Option<string>, instructorId: Option<int>)
      returns (r: Result<Course>)
      requires Valid()
      modifies this
      ensures Valid()
      ensures nextId == old(nextId) && certificates == old(certificates)
      ensures IndexOfCourse(old(courses), id) == -1 ==> r == Err(CourseNotFound) && courses == old(courses)
      ensures IndexOfCourse(old(courses), id) >= 0 ==>
        var k := IndexOfCourse(old(courses), id);
        r == Ok(AdminEdit(old(courses)[k], title, description, instructorId)) && courses == old(courses)[k := r.value]
    {
      var k := IndexOfCourse(courses, id);
      if k == -1 {
        return Err(CourseNotFound);
      }
      var c := AdminEdit(courses[k], title, description, instructorId);
      courses := courses[k := c];
      return Ok(c);
    }
  }
}
