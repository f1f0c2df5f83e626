// EnrollmentService: the enrollment table, which the service keeps at one
// row per (course, student) pair by checking before it inserts, and the
// queries over it. The current user (getCurrentUser, which fails with a
// message when the authenticated name has no row) is an input.
module EnrollmentService {
  import opened Wrappers
  import opened Entities
  import opened Strings

  const CourseNotFound := "Course not found"
  const AlreadyEnrolled := "You are already enrolled in this course"

  /** existsByCourseIdAndStudentId. */
  predicate IsEnrolled(enrollments: seq<Enrollment>, courseId: int, studentId: int)
  {
    exists e :: e in enrollments && e.courseId == courseId && e.studentId == studentId
  }

  /** At most one row per (course, student) pair. */
  predicate OnePerPair(enrollments: seq<Enrollment>)
  {
    forall i, j :: 0 <= i < j < |enrollments| ==>
      enrollments[i].courseId != enrollments[j].courseId || enrollments[i].studentId != enrollments[j].studentId
  }

  /** isCurrentUserEnrolledInCourse: the lookup for the current user, false when there is none. */
  function IsCurrentUserEnrolledInCourse(enrollments: seq<Enrollment>, courseId: int, current: Result<User>): (r: bool)
    ensures r <==> current.Ok? && IsEnrolled(enrollments, courseId, current.value.id)
  {
    match current
    case Err(_) => false
    case Ok(u) => FindEnrollment(enrollments, u.id, courseId).Some?
  }

  /** findByStudentId / getEnrollmentsByStudent: the student's rows, in table order. */
  function EnrollmentsByStudent(enrollments: seq<Enrollment>, studentId: int): (r: seq<Enrollment>)
    ensures forall e :: e in r <==> e in enrollments && e.studentId == studentId
    ensures |r| <= |enrollments|
  {
    if |enrollments| == 0 then []
    else
      var rest := EnrollmentsByStudent(enrollments[1..], studentId);
      if enrollments[0].studentId == studentId then [enrollments[0]] + rest else rest
  }

  /** findByCourse / countByCourseId: the course's rows, in table order. */
  function EnrollmentsByCourse(enrollments: seq<Enrollment>, courseId: int): (r: seq<Enrollment>)
    ensures forall e :: e in r <==> e in enrollments && e.courseId == courseId
    ensures |r| <= |enrollments|
  {
    if |enrollments| == 0 then []
    else
      var rest := EnrollmentsByCourse(enrollments[1..], courseId);
      if enrollments[0].courseId == courseId then [enrollments[0]] + rest else rest
  }

  /** getEnrollmentsByCourseId: the course's rows, or an error naming a course that is not stored. */
  function GetEnrollmentsByCourseId(enrollments: seq<Enrollment>, courses: seq<Course>, courseId: int): (r: Result<seq<Enrollment>>)
    ensures r.Err? <==> FindCourse(courses, courseId).None?
    ensures r.Err? ==> r.error == "Course not found with id: " + IntToString(courseId)
    ensures r.Ok? ==> forall e :: e in r.value <==> e in enrollments && e.courseId == courseId
  {
    if FindCourse(courses, courseId).None? then Err("Course not found with id: " + IntToString(courseId))
    else Ok(EnrollmentsByCourse(enrollments, courseId))
  }

  /** With one row per pair, a student's row in a course is the one the lookup by pair finds. */
  lemma {:induction false} OnlyRowOfPair(enrollments: seq<Enrollment>, e: Enrollment)
    requires OnePerPair(enrollments) && e in enrollments
    ensures FindEnrollment(enrollments, e.studentId, e.courseId) == Some(e)
  {
    var f := FindEnrollment(enrollments, e.studentId, e.courseId).value;
    var i :| 0 <= i < |enrollments| && enrollments[i] == e;
    var j :| 0 <= j < |enrollments| && enrollments[j] == f;
    assert i == j;
  }

  class EnrollmentService {
    /** The enrollment table, in storage order. */
    var enrollments: seq<Enrollment>
    /** The next identity value the table hands out. */
    var nextId: int

    ghost predicate Valid()
      reads this
    {
      OnePerPair(enrollments) && forall i :: 0 <= i < |enrollments| ==> enrollments[i].id < nextId
    }

    constructor()
      ensures enrollments == [] && nextId == 1 && Valid()
    {
      enrollments, nextId := [], 1;
    }

    /**
     * enrollStudent: the course must exist, then the current user must be
     * known, then the pair must not be enrolled yet; the new row starts
     * with progress 0.
     */
    method EnrollStudent(courseId: int, courses: seq<Course>, current: Result<User>) returns (r: Result<Enrollment>)
      requires Valid()
      modifies this
      ensures Valid()
      ensures FindCourse(courses, courseId).None? ==> r == Err(CourseNotFound)
      ensures FindCourse(courses, courseId).Some? && current.Err? ==> r == Err(current.error)
      ensures FindCourse(courses, courseId).Some? && current.Ok? && IsEnrolled(old(enrollments), courseId, current.value.id) ==>
        r == Err(AlreadyEnrolled)
      ensures r.Err? ==> enrollments == old(enrollments) && nextId == old(nextId)
      ensures r.Ok? <==>
        FindCourse(courses, courseId).Some? && current.Ok? && !IsEnrolled(old(enrollments), courseId, current.value.id)
      ensures r.Ok? ==>
        r.value == Enrollment(old(nextId), courseId, current.value.id, 0) && enrollments == old(enrollments) + [r.value]
      ensures r.Ok? ==> IsEnrolled(enrollments, courseId, current.value.id)
    {
      if FindCourse(courses, courseId).None? {
        return Err(CourseNotFound);
      }
      if current.Err? {
        return Err(current.error);
      }
      var student := current.value;
      if FindEnrollment(enrollments, student.id, courseId).Some? {
        return Err(AlreadyEnrolled);
      }
      var e := Enrollment(nextId, courseId, student.id, 0);
      enrollments := enrollments + [e];
      nextId := nextId + 1;
      assert enrollments[|enrollments| - 1] == e;
      return Ok(e);
    }
  }

  /** Enrolling twice in a row: the second attempt is refused and changes nothing. */
  method EnrollTwice(s: EnrollmentService, courseId: int, courses: seq<Course>, current: Result<User>)
    returns (first: Result<Enrollment>, second: Result<Enrollment>)
    requires s.Valid()
    modifies s
    ensures first.Ok? ==> second == Err(AlreadyEnrolled) && s.enrollments == old(s.enrollments) + [first.value]
  {
    first := s.EnrollStudent(courseId, courses, current);
    second := s.EnrollStudent(courseId, courses, current);
  }
}
