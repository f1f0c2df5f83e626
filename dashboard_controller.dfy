// DashboardController: the three role dashboards and the public statistics
// the server computes from the user, course, enrollment, progress and
// certificate tables. The signed-in user is a parameter: None stands for
// UserService.getCurrentUser throwing "User not found".
module DashboardController {
  import opened Wrappers
  import opened Entities
  import Strings
  import Sorting
  import VideoProgressRepository
  import VideoProgressService

  /** A ResponseEntity: 200 with a body, or 400 / 401 with a text body. */
  datatype Reply<T> = Success(body: T) | BadRequest(message: string) | Unauthorized(message: string)

  const UserNotFound := "User not found"
  const AuthFailed := "Authentication failed. Please login again."
  const AdminDenied := "Access denied. Admin role required."
  const InstructorDenied := "Access denied. Instructor role required."
  const StudentDenied := "Access denied. Student role required."
  /**
   * The message of the exception a course without an instructor raises
   * when its name is read; the JVM's own wording is not modelled.
   */
  const NullDetail := "null"

  // ---------------------------------------------------------------------
  // Admin dashboard

  /** `allUsers.stream().filter(u -> roleName.equals(role)).count()`. */
  function CountRole(users: seq<User>, role: string): (r: nat)
    ensures r <= |users|
  {
    if |users| == 0 then 0
    else (if users[0].role == role then 1 else 0) + CountRole(users[1..], role)
  }

  /**
   * The three role counts never exceed the number of users, and they add
   * up to it exactly when every user holds one of the three roles.
   */
  lemma {:induction false} RoleCountsSum(users: seq<User>)
    ensures CountRole(users, RoleAdmin) + CountRole(users, RoleInstructor) + CountRole(users, RoleStudent) <= |users|
    ensures (forall u :: u in users ==> u.role == RoleAdmin || u.role == RoleInstructor || u.role == RoleStudent) ==>
      CountRole(users, RoleAdmin) + CountRole(users, RoleInstructor) + CountRole(users, RoleStudent) == |users|
  {
    if |users| > 0 {
      RoleCountsSum(users[1..]);
      assert forall u :: u in users[1..] ==> u in users;
    }
  }

  function UserId(u: User): int { u.id }

  /** `sorted by id descending, limit(5)`: the five newest accounts. */
  function RecentUsers(users: seq<User>): (r: seq<User>)
    ensures |r| == if |users| < 5 then |users| else 5
    ensures Sorting.SortedDesc(r, UserId)
    ensures forall u :: u in r ==> u in users
  {
    var sorted := Sorting.SortDesc(users, UserId);
    var n := if |users| < 5 then |users| else 5;
    forall u | u in sorted[..n] ensures u in users {
      assert u in multiset(sorted);
    }
    sorted[..n]
  }

  /** A user left out of the recent list has an id no larger than any listed one. */
  lemma {:induction false} RecentUsersAreNewest(users: seq<User>, u: User)
    requires u in users && u !in RecentUsers(users)
    ensures forall v :: v in RecentUsers(users) ==> u.id <= v.id
  {
    Sorting.TopOfSortedDesc(users, UserId, 5, u);
  }

  datatype UserSummary = UserSummary(name: string, email: string, role: string)

  function Summaries(us: seq<User>): (r: seq<UserSummary>)
    ensures |r| == |us|
    ensures forall i :: 0 <= i < |us| ==> r[i] == UserSummary(us[i].name, us[i].email, us[i].role)
  {
    if |us| == 0 then [] else [UserSummary(us[0].name, us[0].email, us[0].role)] + Summaries(us[1..])
  }

  datatype CourseSummary = CourseSummary(title: string, instructor: string)

  /** `course.getInstructor().getName()`; None where that dereferences null. */
  function InstructorName(c: Course, users: seq<User>): Option<string>
  {
    if c.instructorId.None? then None
    else match FindUser(users, c.instructorId.value)
      case None => None
      case Some(u) => Some(u.name)
  }

  /**
   * `map(title, instructor name).limit(k)`: the stream is lazy, so only the
   * first `k` courses are mapped and only their instructors can fail.
   */
  function TopCourses(courses: seq<Course>, users: seq<User>, k: nat): (r: Result<seq<CourseSummary>>)
    ensures r.Ok? <==> forall i :: 0 <= i < |courses| && i < k ==> InstructorName(courses[i], users).Some?
    ensures r.Ok? ==> |r.value| == (if |courses| < k then |courses| else k)
    ensures r.Ok? ==> forall i :: 0 <= i < |r.value| ==>
      r.value[i].title == courses[i].title && InstructorName(courses[i], users) == Some(r.value[i].instructor)
    ensures r.Err? ==> r.error == NullDetail
  {
    if k == 0 || |courses| == 0 then Ok([])
    else match InstructorName(courses[0], users)
      case None => Err(NullDetail)
      case Some(name) =>
        match TopCourses(courses[1..], users, k - 1)
        case Err(e) => Err(e)
        case Ok(rest) => Ok([CourseSummary(courses[0].title, name)] + rest)
  }

  function LessonCount(c: Course): nat
  {
    if c.lessons.Some? then |c.lessons.value| else 0
  }

  /** `mapToInt(lessons != null ? lessons.size() : 0).sum()`. */
  function LessonTotal(courses: seq<Course>): (r: nat)
    ensures r == 0 <==> forall c :: c in courses ==> LessonCount(c) == 0
    ensures forall c :: c in courses ==> LessonCount(c) <= r
  {
    if |courses| == 0 then 0
    else
      assert forall c :: c in courses ==> c == courses[0] || c in courses[1..];
      LessonCount(courses[0]) + LessonTotal(courses[1..])
  }

  datatype Distribution = Distribution(admin: nat, instructor: nat, student: nat, total: nat)

  datatype AdminDashboard = AdminDashboard(
    totalUsers: nat,
    totalCourses: nat,
    totalEnrollments: nat,
    recentUsers: seq<UserSummary>,
    topCourses: seq<CourseSummary>,
    userDistribution: Distribution,
    lessons: nat)

  /** getAdminDashboard. */
  function GetAdminDashboard(current: Option<User>, users: seq<User>, courses: seq<Course>, enrollments: seq<Enrollment>)
    : (r: Reply<AdminDashboard>)
    ensures current.None? ==> r == BadRequest("Error: " + UserNotFound)
    ensures current.Some? && current.value.role != RoleAdmin ==> r == BadRequest(AdminDenied)
    ensures r.Success? <==> current.Some? && current.value.role == RoleAdmin && TopCourses(courses, users, 5).Ok?
    ensures r.BadRequest? ==> r.message == AdminDenied || Strings.StartsWith(r.message, "Error: ")
    ensures r.Success? ==>
      var d := r.body;
      d.totalUsers == |users| && d.totalCourses == |courses| && d.totalEnrollments == |enrollments| &&
      |d.recentUsers| <= 5 && |d.topCourses| <= 5 &&
      d.userDistribution.total == |users| &&
      d.userDistribution.admin + d.userDistribution.instructor + d.userDistribution.student <= |users| &&
      d.lessons == LessonTotal(courses) &&
      d.recentUsers == Summaries(RecentUsers(users)) && d.topCourses == TopCourses(courses, users, 5).value
  {
    if current.None? then BadRequest("Error: " + UserNotFound)
    else if current.value.role != RoleAdmin then BadRequest(AdminDenied)
    else match TopCourses(courses, users, 5)
      case Err(e) => BadRequest("Error: " + e)
      case Ok(top) =>
        RoleCountsSum(users);
        Success(AdminDashboard(
          |users|, |courses|, |enrollments|,
          Summaries(RecentUsers(users)),
          top,
          Distribution(CountRole(users, RoleAdmin), CountRole(users, RoleInstructor), CountRole(users, RoleStudent), |users|),
          LessonTotal(courses)))
  }

  // ---------------------------------------------------------------------
  // Instructor dashboard

  /** CourseRepository.findByInstructor. */
  function CoursesOf(courses: seq<Course>, instructorId: int): (r: seq<Course>)
    ensures forall c :: c in r <==> c in courses && c.instructorId == Some(instructorId)
  {
    if |courses| == 0 then []
    else
      assert forall c :: c in courses ==> c == courses[0] || c in courses[1..];
      (if courses[0].instructorId == Some(instructorId) then [courses[0]] else []) + CoursesOf(courses[1..], instructorId)
  }

  /** The ids of a list of courses, added one course at a time. */
  function CourseIds(cs: seq<Course>): (r: set<int>)
    ensures forall id :: id in r <==> exists c :: c in cs && c.id == id
  {
    if |cs| == 0 then {}
    else
      var n := |cs| - 1;
      assert forall c :: c in cs ==> c == cs[n] || c in cs[..n];
      assert forall c :: c in cs[..n] ==> c in cs;
      CourseIds(cs[..n]) + {cs[n].id}
  }

  /** EnrollmentRepository.countByCourseId. */
  function CountInCourse(enrollments: seq<Enrollment>, courseId: int): (r: nat)
    ensures r <= |enrollments|
  {
    if |enrollments| == 0 then 0
    else (if enrollments[0].courseId == courseId then 1 else 0) + CountInCourse(enrollments[1..], courseId)
  }

  /** EnrollmentRepository.countByCourseIn. */
  function CountInCourses(enrollments: seq<Enrollment>, ids: set<int>): (r: nat)
    ensures r <= |enrollments|
  {
    if |enrollments| == 0 then 0
    else
      var n := |enrollments| - 1;
      CountInCourses(enrollments[..n], ids) + (if enrollments[n].courseId in ids then 1 else 0)
  }

  /** The student ids of the enrollments in the given courses. */
  function StudentsIn(enrollments: seq<Enrollment>, ids: set<int>): (r: set<int>)
    ensures forall s :: s in r <==> exists e :: e in enrollments && e.courseId in ids && e.studentId == s
  {
    if |enrollments| == 0 then {}
    else
      var n := |enrollments| - 1;
      var e := enrollments[n];
      assert forall x :: x in enrollments ==> x == e || x in enrollments[..n];
      assert forall x :: x in enrollments[..n] ==> x in enrollments;
      StudentsIn(enrollments[..n], ids) + (if e.courseId in ids then {e.studentId} else {})
  }

  /** Each distinct student needs at least one enrollment of their own. */
  lemma {:induction false} StudentsAtMostEnrollments(enrollments: seq<Enrollment>, ids: set<int>)
    ensures |StudentsIn(enrollments, ids)| <= CountInCourses(enrollments, ids)
  {
    if |enrollments| > 0 {
      StudentsAtMostEnrollments(enrollments[..|enrollments| - 1], ids);
    }
  }

  lemma {:induction false} StudentsInUnion(enrollments: seq<Enrollment>, a: set<int>, b: set<int>)
    ensures StudentsIn(enrollments, a + b) == StudentsIn(enrollments, a) + StudentsIn(enrollments, b)
  {
    if |enrollments| > 0 {
      StudentsInUnion(enrollments[..|enrollments| - 1], a, b);
    }
  }

  datatype CourseWithCount = CourseWithCount(course: Course, enrollmentCount: nat)

  function WithCounts(cs: seq<Course>, enrollments: seq<Enrollment>): (r: seq<CourseWithCount>)
    ensures |r| == |cs|
    ensures forall i :: 0 <= i < |cs| ==> r[i].course == cs[i] && r[i].enrollmentCount == CountInCourse(enrollments, cs[i].id)
  {
    if |cs| == 0 then [] else [CourseWithCount(cs[0], CountInCourse(enrollments, cs[0].id))] + WithCounts(cs[1..], enrollments)
  }

  datatype InstructorDashboard = InstructorDashboard(myCourses: seq<CourseWithCount>, totalEnrollments: nat, totalStudents: nat)

  /** The nested loops that add every enrolled student id of every course to a HashSet. */
  method DistinctStudents(myCourses: seq<Course>, enrollments: seq<Enrollment>) returns (students: set<int>)
    ensures students == StudentsIn(enrollments, CourseIds(myCourses))
  {
    students := {};
    var i := 0;
    while i < |myCourses|
      invariant 0 <= i <= |myCourses|
      invariant students == StudentsIn(enrollments, CourseIds(myCourses[..i]))
    {
      var courseId := myCourses[i].id;
      var j := 0;
      while j < |enrollments|
        invariant 0 <= j <= |enrollments|
        invariant students == StudentsIn(enrollments, CourseIds(myCourses[..i])) + StudentsIn(enrollments[..j], {courseId})
      {
        assert enrollments[..j + 1][..j] == enrollments[..j];
        if enrollments[j].courseId == courseId {
          students := students + {enrollments[j].studentId};
        }
        j := j + 1;
      }
      assert enrollments[..j] == enrollments;
      assert myCourses[..i + 1][..i] == myCourses[..i];
      assert CourseIds(myCourses[..i + 1]) == CourseIds(myCourses[..i]) + {courseId};
      StudentsInUnion(enrollments, CourseIds(myCourses[..i]), {courseId});
      i := i + 1;
    }
    assert myCourses[..i] == myCourses;
  }

  /** getInstructorDashboard. */
  method GetInstructorDashboard(current: Option<User>, courses: seq<Course>, enrollments: seq<Enrollment>)
    returns (r: Reply<InstructorDashboard>)
    ensures current.None? ==> r == Unauthorized(AuthFailed)
    ensures current.Some? && current.value.role != RoleInstructor && current.value.role != RoleAdmin ==>
      r == BadRequest(InstructorDenied)
    ensures current.Some? && (current.value.role == RoleInstructor || current.value.role == RoleAdmin) ==>
      var mine := CoursesOf(courses, current.value.id);
      r == Success(InstructorDashboard(
        WithCounts(mine, enrollments),
        CountInCourses(enrollments, CourseIds(mine)),
        |StudentsIn(enrollments, CourseIds(mine))|))
  {
    if current.None? {
      return Unauthorized(AuthFailed);
    }
    var user := current.value;
    if user.role != RoleInstructor && user.role != RoleAdmin {
      return BadRequest(InstructorDenied);
    }
    var mine := CoursesOf(courses, user.id);
    var students := DistinctStudents(mine, enrollments);
    r := Success(InstructorDashboard(WithCounts(mine, enrollments), CountInCourses(enrollments, CourseIds(mine)), |students|));
  }

  /**
   * On every instructor dashboard the distinct students never outnumber
   * the enrollments, and a student is counted iff they are enrolled in one
   * of the instructor's own courses.
   */
  lemma {:induction false} InstructorTotals(user: User, courses: seq<Course>, enrollments: seq<Enrollment>, s: int)
    ensures var mine := CoursesOf(courses, user.id);
      |StudentsIn(enrollments, CourseIds(mine))| <= CountInCourses(enrollments, CourseIds(mine)) &&
      (s in StudentsIn(enrollments, CourseIds(mine)) <==>
        exists e, c :: e in enrollments && c in courses && c.instructorId == Some(user.id) && e.courseId == c.id && e.studentId == s)
  {
    var mine := CoursesOf(courses, user.id);
    StudentsAtMostEnrollments(enrollments, CourseIds(mine));
  }

  // ---------------------------------------------------------------------
  // Student dashboard

  /**
   * `calculatedProgress.intValue()`: the clamped course progress truncated
   * to an integer (non-negative, so truncation is the floor).
   */
  function EnrollmentProgress(t: VideoProgressRepository.Table, lessons: seq<Lesson>, studentId: int, courseId: int): (r: int)
    ensures 0 <= r <= 100
    ensures var avg := VideoProgressRepository.CalculateCourseProgress(t, lessons, studentId, courseId);
      (avg.None? ==> r == 0) &&
      (avg.Some? && 0.0 <= avg.value <= 100.0 ==> r as real <= avg.value < r as real + 1.0)
  {
    VideoProgressService.CalculateCourseProgress(t, lessons, studentId, courseId).Floor
  }

  datatype StudentEnrollment = StudentEnrollment(id: int, courseId: int, progress: int)

  /** findByStudent, each row carrying its computed progress. */
  function StudentEnrollments(enrollments: seq<Enrollment>, t: VideoProgressRepository.Table, lessons: seq<Lesson>, studentId: int)
    : (r: seq<StudentEnrollment>)
    ensures forall x :: x in r ==> 0 <= x.progress <= 100
    ensures forall x :: x in r ==> exists e :: e in enrollments && e.studentId == studentId && e.id == x.id && e.courseId == x.courseId
    ensures forall e :: e in enrollments && e.studentId == studentId ==>
      StudentEnrollment(e.id, e.courseId, EnrollmentProgress(t, lessons, studentId, e.courseId)) in r
  {
    if |enrollments| == 0 then []
    else
      var e := enrollments[0];
      assert forall x :: x in enrollments ==> x == e || x in enrollments[1..];
      var rest := StudentEnrollments(enrollments[1..], t, lessons, studentId);
      if e.studentId == studentId then [StudentEnrollment(e.id, e.courseId, EnrollmentProgress(t, lessons, studentId, e.courseId))] + rest
      else rest
  }

  /** CertificateRepository.findByStudentId. */
  function CertificatesOf(certs: seq<Certificate>, studentId: int): (r: seq<Certificate>)
    ensures forall c :: c in r <==> c in certs && c.studentId == studentId
  {
    if |certs| == 0 then []
    else
      assert forall c :: c in certs ==> c == certs[0] || c in certs[1..];
      (if certs[0].studentId == studentId then [certs[0]] else []) + CertificatesOf(certs[1..], studentId)
  }

  datatype StudentDashboard = StudentDashboard(myEnrolledCourses: seq<StudentEnrollment>, certificates: seq<Certificate>)

  /** getStudentDashboard. */
  function GetStudentDashboard(current: Option<User>, enrollments: seq<Enrollment>, t: VideoProgressRepository.Table,
                               lessons: seq<Lesson>, certs: seq<Certificate>): (r: Reply<StudentDashboard>)
    ensures current.None? ==> r == Unauthorized(AuthFailed)
    ensures current.Some? && current.value.role != RoleStudent && current.value.role != RoleAdmin ==> r == BadRequest(StudentDenied)
    ensures r.Success? <==> current.Some? && (current.value.role == RoleStudent || current.value.role == RoleAdmin)
    ensures r.Success? ==>
      (forall x :: x in r.body.myEnrolledCourses ==> 0 <= x.progress <= 100) &&
      (forall c :: c in r.body.certificates <==> c in certs && c.studentId == current.value.id)
  {
    if current.None? then Unauthorized(AuthFailed)
    else if current.value.role != RoleStudent && current.value.role != RoleAdmin then BadRequest(StudentDenied)
    else Success(StudentDashboard(
      StudentEnrollments(enrollments, t, lessons, current.value.id),
      CertificatesOf(certs, current.value.id)))
  }

  // ---------------------------------------------------------------------
  // Public statistics

  datatype PublicStats = PublicStats(totalStudents: nat, totalInstructors: nat, totalCourses: nat)

  /**
   * getPublicStats. `users` is None when the user table cannot be read;
   * the fallback then reports the course count alone.
   */
  function GetPublicStats(users: Option<seq<User>>, courses: seq<Course>): (r: PublicStats)
    ensures r.totalCourses == |courses|
    ensures users.None? ==> r.totalStudents == 0 && r.totalInstructors == 0
    ensures users.Some? ==> r.totalStudents + r.totalInstructors <= |users.value|
    ensures users.Some? && (forall u :: u in users.value ==> u.role == RoleStudent) ==> r.totalStudents == |users.value|
  {
    match users
    case None => PublicStats(0, 0, |courses|)
    case Some(us) =>
      RoleCountsSum(us);
      AllOneRole(us, RoleStudent);
      PublicStats(CountRole(us, RoleStudent), CountRole(us, RoleInstructor), |courses|)
  }

  lemma {:induction false} AllOneRole(users: seq<User>, role: string)
    ensures (forall u :: u in users ==> u.role == role) ==> CountRole(users, role) == |users|
  {
    if |users| > 0 {
      assert forall u :: u in users[1..] ==> u in users;
      AllOneRole(users[1..], role);
    }
  }
}
