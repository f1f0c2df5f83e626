// The server's persistent entities as values. A database table becomes a
// sequence of rows in storage order; a nullable column becomes an Option.
// Timestamps are kept as their ISO text, which orders like the instants.
module Entities {
  import opened Wrappers

  const RoleAdmin := "ADMIN"
  const RoleInstructor := "INSTRUCTOR"
  const RoleStudent := "STUDENT"

  datatype User = User(id: int, name: string, email: string, password: string, role: string)

  datatype Course = Course(
    id: int,
    title: string,
    description: string,
    thumbnail: Option<string>,
    instructorId: Option<int>,
    /** the ids in the course's `lessons` association; None when the list is null */
    lessons: Option<seq<int>>)

  datatype Lesson = Lesson(
    id: int,
    courseId: int,
    title: string,
    description: string,
    videoUrl: Option<string>,
    videoFilename: Option<string>,
    videoDuration: Option<int>,
    lessonOrder: int)

  datatype Enrollment = Enrollment(id: int, courseId: int, studentId: int, progress: int)

  datatype Certificate = Certificate(
    id: int,
    studentId: int,
    courseId: int,
    issuedDate: string,
    certificateNumber: string,
    certificateUrl: string,
    completionPercentage: real)

  /** LessonService.getLessonById: the row with that primary key. */
  function FindLesson(lessons: seq<Lesson>, id: int): (r: Option<Lesson>)
    ensures r.Some? ==> r.value in lessons && r.value.id == id
    ensures r.None? ==> forall l :: l in lessons ==> l.id != id
  {
    if |lessons| == 0 then None
    else if lessons[0].id == id then Some(lessons[0])
    else FindLesson(lessons[1..], id)
  }

  function FindCourse(courses: seq<Course>, id: int): (r: Option<Course>)
    ensures r.Some? ==> r.value in courses && r.value.id == id
    ensures r.None? ==> forall c :: c in courses ==> c.id != id
  {
    if |courses| == 0 then None
    else if courses[0].id == id then Some(courses[0])
    else FindCourse(courses[1..], id)
  }

  function FindUser(users: seq<User>, id: int): (r: Option<User>)
    ensures r.Some? ==> r.value in users && r.value.id == id
    ensures r.None? ==> forall u :: u in users ==> u.id != id
  {
    if |users| == 0 then None
    else if users[0].id == id then Some(users[0])
    else FindUser(users[1..], id)
  }

  /** The certificate table's unique (student_id, course_id) constraint. */
  predicate OneCertificatePerPair(certs: seq<Certificate>)
  {
    forall i, j :: 0 <= i < j < |certs| ==>
      certs[i].studentId != certs[j].studentId || certs[i].courseId != certs[j].courseId
  }

  /** CertificateRepository.findByStudentIdAndCourseId. */
  function FindCertificate(certs: seq<Certificate>, studentId: int, courseId: int): (r: Option<Certificate>)
    ensures r.Some? ==> r.value in certs && r.value.studentId == studentId && r.value.courseId == courseId
    ensures r.None? ==> forall c :: c in certs ==> c.studentId != studentId || c.courseId != courseId
  {
    if |certs| == 0 then None
    else if certs[0].studentId == studentId && certs[0].courseId == courseId then Some(certs[0])
    else FindCertificate(certs[1..], studentId, courseId)
  }

  /** EnrollmentRepository.findByStudentIdAndCourseId. */
  function FindEnrollment(enrollments: seq<Enrollment>, studentId: int, courseId: int): (r: Option<Enrollment>)
    ensures r.Some? ==> r.value in enrollments && r.value.studentId == studentId && r.value.courseId == courseId
    ensures r.None? ==> forall e :: e in enrollments ==> e.studentId != studentId || e.courseId != courseId
  {
    if |enrollments| == 0 then None
    else if enrollments[0].studentId == studentId && enrollments[0].courseId == courseId then Some(enrollments[0])
    else FindEnrollment(enrollments[1..], studentId, courseId)
  }
}
