// What the Angular client shares: the signed-in user as the client stores
// it, and the JavaScript operators the components rely on. A JSON number
// is an int or a real as the use demands; `null` and `undefined` are None.
module Client {
  import opened Wrappers

  const Student := "STUDENT"
  const Instructor := "INSTRUCTOR"
  const Admin := "ADMIN"

  /** The user object the client keeps in local storage. */
  datatype ClientUser = ClientUser(id: int, name: string, email: string, role: string)

  /**
   * The client's Course object, reduced to the fields the components read.
   * `instructorName` is None when the instructor is null; `lessonIds` when
   * the response carries no lesson list.
   */
  datatype CourseView = CourseView(
    id: int,
    title: string,
    description: string,
    instructorName: Option<string>,
    lessonIds: Option<seq<int>>,
    difficulty: Option<string>,
    category: Option<string>,
    enrollmentCount: Option<int>,
    createdAt: Option<string>)

  /** A route guard's answer: whether the route may activate, and where the guard navigated instead. */
  datatype GuardResult = GuardResult(allow: bool, navigateTo: Option<string>)

  /** A browser File: its name, its MIME type (`file.type`) and its size in bytes. */
  datatype FileInfo = FileInfo(name: string, mimeType: string, size: int)

  /** JavaScript `x || d` on a nullable number: null and 0 are falsy. */
  function NumOr(x: Option<int>, d: int): (r: int)
    ensures x.Some? && x.value != 0 ==> r == x.value
    ensures x.None? || x.value == 0 ==> r == d
  {
    if x.Some? && x.value != 0 then x.value else d
  }

  /** JavaScript `x || d` on a nullable real number. */
  function RealOr(x: Option<real>, d: real): (r: real)
    ensures x.Some? && x.value != 0.0 ==> r == x.value
    ensures x.None? || x.value == 0.0 ==> r == d
  {
    if x.Some? && x.value != 0.0 then x.value else d
  }

  /** JavaScript `s || d` on a nullable string: null and "" are falsy. */
  function TextOr(s: Option<string>, d: string): (r: string)
    ensures s.Some? && s.value != "" ==> r == s.value
    ensures s.None? || s.value == "" ==> r == d
  {
    if s.Some? && s.value != "" then s.value else d
  }

  /** A string that is present and non-empty, i.e. truthy. */
  predicate Truthy(s: Option<string>)
  {
    s.Some? && s.value != ""
  }

  /** JavaScript `a % b` on integers: the remainder takes the sign of `a`. */
  function JsRem(a: int, b: int): (r: int)
    requires b > 0
    ensures a >= 0 ==> 0 <= r < b
    ensures a < 0 ==> -b < r <= 0
    ensures a >= 0 ==> r == a % b
  {
    if a >= 0 then a % b else -((-a) % b)
  }

  /** Math.floor on a real. */
  function Floor(x: real): (r: int)
    ensures r as real <= x < r as real + 1.0
  {
    x.Floor
  }

  /** Math.ceil on a real. */
  function Ceil(x: real): (r: int)
    ensures r as real - 1.0 < x <= r as real
  {
    if x.Floor as real == x then x.Floor else x.Floor + 1
  }

  /** Math.round: halves round up, towards positive infinity. */
  function Round(x: real): (r: int)
    ensures x - 0.5 < r as real <= x + 0.5
  {
    (x + 0.5).Floor
  }

  /**
   * capProgress, `Math.min(Math.max(progress || 0, 0), 100)`: a null
   * progress reads as 0 and the value is clamped to [0, 100].
   */
  function CapProgress(progress: Option<real>): (r: real)
    ensures 0.0 <= r <= 100.0
    ensures progress.None? ==> r == 0.0
    ensures progress.Some? && 0.0 <= progress.value <= 100.0 ==> r == progress.value
    ensures progress.Some? && progress.value > 100.0 ==> r == 100.0
    ensures progress.Some? && progress.value < 0.0 ==> r == 0.0
  {
    var p := RealOr(progress, 0.0);
    var lower := if p > 0.0 then p else 0.0;
    if lower < 100.0 then lower else 100.0
  }

  /** Capping a capped value changes nothing. */
  lemma {:induction false} CapProgressIdempotent(progress: Option<real>)
    ensures CapProgress(Some(CapProgress(progress))) == CapProgress(progress)
  {
  }
}
