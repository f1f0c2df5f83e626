// The lesson page of the Angular client. Its state is a small machine over
// `videoProgress`, `isLessonCompleted` and `nextButtonEnabled`: the
// completion flag is a one-way latch raised at the same duration-dependent
// threshold the server uses, and the "next" button is never disabled while
// the lesson counts as completed. HTTP responses arrive as parameters of
// the handler methods; the lessons are the server's JSON, i.e. Entities.Lesson.
module LessonDetail {
  import opened Wrappers
  import opened Strings
  import opened Entities
  import opened Client
  import VideoProgressEntity
  import VideoProgressService

  /** The body of GET /video-progress/{lessonId}; either field may be null. */
  datatype ProgressResponse = ProgressResponse(completionPercentage: Option<real>, isCompleted: Option<bool>)

  /** The body of the POST /video-progress request. */
  datatype ProgressReport = ProgressReport(lessonId: int, watchedDuration: int)

  /** What navigateToLesson does: route to a lesson, stay put, or refuse. */
  datatype Navigation = Navigate(lessonId: int) | Stay | Denied

  /** `lesson?.videoDuration || 0`: a missing lesson or duration reads as 0 s. */
  function DurationOf(lesson: Option<Lesson>): int
  {
    if lesson.Some? then NumOr(lesson.value.videoDuration, 0) else 0
  }

  /** The auto-completion threshold in percent: 50 for a video of 20 s or more, else 90. */
  function CompletionThreshold(lesson: Option<Lesson>): (t: real)
    ensures t == 50.0 || t == 90.0
    ensures t == 50.0 <==> DurationOf(lesson) >= 20
  {
    if DurationOf(lesson) >= 20 then 50.0 else 90.0
  }

  /** The client's threshold is the server's, read in the same duration. */
  lemma {:induction false} SameThresholdAsServer(lesson: Lesson)
    ensures CompletionThreshold(Some(lesson)) * 100.0
      == VideoProgressService.Threshold(VideoProgressService.DurationOr(Some(lesson), 0)) as real
  {
  }

  /** `lesson.videoDuration || 600`: the watched time posted on auto-completion. */
  function ReportedDuration(lesson: Lesson): (d: int)
    ensures lesson.videoDuration.Some? && lesson.videoDuration.value != 0 ==> d == lesson.videoDuration.value
    ensures lesson.videoDuration.None? || lesson.videoDuration.value == 0 ==> d == 600
  {
    NumOr(lesson.videoDuration, 600)
  }

  /**
   * The report posted on auto-completion creates a completed record on the
   * server, unless the lesson's duration is 0 (see the lemma below).
   */
  lemma {:induction false} AutoCompletionReportCompletes(lesson: Lesson, studentId: int)
    requires lesson.videoDuration.None? || lesson.videoDuration.value > 0
    ensures var r := VideoProgressService.UpdatedProgress(None, Some(lesson), true, studentId, lesson.id, ReportedDuration(lesson));
      r.Ok? && r.value.completed
  {
    var d := ReportedDuration(lesson);
    assert VideoProgressService.DurationOr(Some(lesson), d) == d;
    VideoProgressEntity.FullPercentMeansAlmostAll(d, d);
    var created := VideoProgressEntity.Recomputed(VideoProgressEntity.ProgressRow(studentId, lesson.id, d, Some(d), 0, false));
    assert created.percentage == VideoProgressEntity.FullPercent && created.total == Some(d);
  }

  /**
   * A lesson whose duration is 0 posts 600 s, but the server keeps the
   * lesson's 0 as the total, so its record stays at 0 % and not completed.
   */
  lemma {:induction false} AutoCompletionOfZeroLengthLesson()
    ensures var lesson := Lesson(5, 1, "Intro", "", None, None, Some(0), 1);
      var r := VideoProgressService.UpdatedProgress(None, Some(lesson), true, 3, 5, ReportedDuration(lesson));
      r.Ok? && r.value.watched == 600 && r.value.total == Some(0) && !r.value.completed
  {
  }

  /**
   * navigateToLesson for a student: an earlier lesson is always open, the
   * current one is a no-op, the next one only once this one is completed,
   * and anything further is refused.
   */
  function StudentNavigation(currentOrder: int, targetOrder: int, completed: bool, lessonId: int): (r: Navigation)
    ensures r != Denied ==> targetOrder <= currentOrder + 1
    ensures r.Navigate? ==> r.lessonId == lessonId && targetOrder != currentOrder
    ensures r.Navigate? && targetOrder > currentOrder ==> completed
    ensures r == Stay <==> targetOrder == currentOrder
    ensures targetOrder < currentOrder ==> r == Navigate(lessonId)
    ensures targetOrder == currentOrder + 1 && completed ==> r == Navigate(lessonId)
  {
    if targetOrder < currentOrder then Navigate(lessonId)
    else if targetOrder == currentOrder then Stay
    else if targetOrder == currentOrder + 1 && completed then Navigate(lessonId)
    else Denied
  }

  /** `courseLessons.find(l => l.id === id)?.lessonOrder || 0`. */
  function TargetOrder(courseLessons: seq<Lesson>, lessonId: int): (o: int)
    ensures FindLesson(courseLessons, lessonId).None? ==> o == 0
  {
    var t := FindLesson(courseLessons, lessonId);
    if t.Some? then t.value.lessonOrder else 0
  }

  /** An id missing from the course list has order 0 and so counts as an earlier lesson. */
  lemma {:induction false} UnknownTargetCountsAsEarlier(courseLessons: seq<Lesson>, currentOrder: int, completed: bool, lessonId: int)
    requires forall l :: l in courseLessons ==> l.id != lessonId
    requires currentOrder > 0
    ensures StudentNavigation(currentOrder, TargetOrder(courseLessons, lessonId), completed, lessonId) == Navigate(lessonId)
  {
  }

  /** `findIndex(l => l.id === id)`: the first index holding the id, or -1. */
  function FindIndex(lessons: seq<Lesson>, id: int): (i: int)
    ensures -1 <= i < |lessons|
    ensures i >= 0 ==> lessons[i].id == id && forall k :: 0 <= k < i ==> lessons[k].id != id
    ensures i == -1 ==> forall k :: 0 <= k < |lessons| ==> lessons[k].id != id
  {
    if |lessons| == 0 then -1
    else if lessons[0].id == id then 0
    else
      var k := FindIndex(lessons[1..], id);
      if k == -1 then -1 else k + 1
  }

  /**
   * getNextLesson: the lesson after the current one in the course list. A
   * current lesson missing from the list gives index -1, hence the first lesson.
   */
  function NextLesson(lesson: Option<Lesson>, courseLessons: seq<Lesson>): (r: Option<Lesson>)
    ensures lesson.None? || |courseLessons| == 0 ==> r.None?
    ensures r.Some? ==> r.value in courseLessons
    ensures (lesson.Some? && |courseLessons| > 0
             && forall k :: 0 <= k < |courseLessons| ==> courseLessons[k].id != lesson.value.id)
      ==> r == Some(courseLessons[0])
    ensures lesson.Some? && r.Some? && r.value != courseLessons[0] ==>
      exists k :: 1 <= k < |courseLessons| && r.value == courseLessons[k] && courseLessons[k - 1].id == lesson.value.id
    ensures lesson.Some? && |courseLessons| > 0 && FindIndex(courseLessons, lesson.value.id) == |courseLessons| - 1 ==> r.None?
    ensures lesson.Some? && 0 <= FindIndex(courseLessons, lesson.value.id) < |courseLessons| - 1 ==>
      r == Some(courseLessons[FindIndex(courseLessons, lesson.value.id) + 1])
  {
    if lesson.None? || |courseLessons| == 0 then None
    else
      var i := FindIndex(courseLessons, lesson.value.id);
      if i < |courseLessons| - 1 then Some(courseLessons[i + 1]) else None
  }

  /** getPreviousLesson: the lesson before the current one, none for the first or an unknown one. */
  function PreviousLesson(lesson: Option<Lesson>, courseLessons: seq<Lesson>): (r: Option<Lesson>)
    ensures lesson.None? || |courseLessons| == 0 ==> r.None?
    ensures lesson.Some? && (forall k :: 0 <= k < |courseLessons| ==> courseLessons[k].id != lesson.value.id) ==> r.None?
    ensures r.Some? ==>
      exists k :: 0 <= k < |courseLessons| - 1 && r.value == courseLessons[k] && courseLessons[k + 1].id == lesson.value.id
    ensures lesson.Some? && FindIndex(courseLessons, lesson.value.id) == 0 ==> r.None?
    ensures lesson.Some? && FindIndex(courseLessons, lesson.value.id) > 0 ==>
      r == Some(courseLessons[FindIndex(courseLessons, lesson.value.id) - 1])
  {
    if lesson.None? || |courseLessons| == 0 then None
    else
      var i := FindIndex(courseLessons, lesson.value.id);
      if i > 0 then Some(courseLessons[i - 1]) else None
  }

  predicate UniqueIds(lessons: seq<Lesson>)
  {
    forall i, j :: 0 <= i < j < |lessons| ==> lessons[i].id != lessons[j].id
  }

  /** With distinct ids, "next" and "previous" step between neighbours and undo each other. */
  lemma {:induction false} NextAndPreviousAreNeighbours(courseLessons: seq<Lesson>, i: int)
    requires UniqueIds(courseLessons)
    requires 0 <= i < |courseLessons| - 1
    ensures NextLesson(Some(courseLessons[i]), courseLessons) == Some(courseLessons[i + 1])
    ensures PreviousLesson(Some(courseLessons[i + 1]), courseLessons) == Some(courseLessons[i])
  {
    assert FindIndex(courseLessons, courseLessons[i].id) == i;
    assert FindIndex(courseLessons, courseLessons[i + 1].id) == i + 1;
  }

  /**
   * getFormattedDuration with JavaScript's operators: `Math.floor` of the
   * quotient and a remainder that keeps the sign of the dividend.
   */
  function FormattedDuration(seconds: int): (r: string)
    ensures |r| >= 2 && r[|r| - 1] == 's'
  {
    var hours := seconds / 3600;
    var minutes := JsRem(seconds, 3600) / 60;
    var secs := JsRem(seconds, 60);
    if hours > 0 then IntToString(hours) + "h " + IntToString(minutes) + "m " + IntToString(secs) + "s"
    else if minutes > 0 then IntToString(minutes) + "m " + IntToString(secs) + "s"
    else IntToString(secs) + "s"
  }

  /** The duration text of h hours, m minutes and s seconds, leading zero units left out. */
  function ClockText(h: int, m: int, s: int): string
  {
    if h > 0 then IntToString(h) + "h " + IntToString(m) + "m " + IntToString(s) + "s"
    else if m > 0 then IntToString(m) + "m " + IntToString(s) + "s"
    else IntToString(s) + "s"
  }

  /** The arithmetic splits a non-negative duration into its hours, minutes and seconds. */
  lemma {:induction false} FormattedDurationSplits(seconds: int, h: nat, m: nat, s: nat)
    requires m < 60 && s < 60 && seconds == h * 3600 + m * 60 + s
    ensures FormattedDuration(seconds) == ClockText(h, m, s)
  {
    var rest := m * 60 + s;
    DivMod(seconds, 3600, h, rest);
    DivMod(rest, 60, m, s);
    DivMod(seconds, 60, h * 60 + m, s);
    assert JsRem(seconds, 3600) / 60 == m;
    assert JsRem(seconds, 60) == s;
  }

  /** Division with remainder has one answer. */
  lemma {:induction false} DivMod(n: int, b: int, q: int, r: int)
    requires b > 0 && 0 <= r < b && n == q * b + r
    ensures n / b == q && n % b == r
  {
    var q1, r1 := n / b, n % b;
    assert (q - q1) * b == r1 - r by {
      assert q * b - q1 * b == (q - q1) * b;
    }
    if q1 < q {
      MulAtLeast(q - q1, b);
    } else if q < q1 {
      MulAtLeast(q1 - q, b);
    }
  }

  lemma {:induction false} MulAtLeast(k: int, b: int)
    requires k >= 1 && b > 0
    ensures k * b >= b
  {
  }

  /** The page's state. */
  class LessonDetailComponent {
    var lesson: Option<Lesson>
    var courseLessons: seq<Lesson>
    var isLoading: bool
    var error: Option<string>
    var videoProgress: real
    var isLessonCompleted: bool
    var nextButtonEnabled: bool

    /** A completed lesson always has its "next" button enabled. */
    predicate Valid()
      reads this
    {
      isLessonCompleted ==> nextButtonEnabled
    }

    constructor ()
      ensures lesson.None? && courseLessons == [] && isLoading && error.None?
      ensures videoProgress == 0.0 && !isLessonCompleted && !nextButtonEnabled
      ensures Valid()
    {
      lesson, courseLessons := None, [];
      isLoading, error := true, None;
      videoProgress, isLessonCompleted, nextButtonEnabled := 0.0, false, false;
    }

    /** loadLesson: the progress state is reset before anything is fetched. */
    method LoadLesson()
      modifies this
      ensures isLoading && error.None?
      ensures videoProgress == 0.0 && !isLessonCompleted && !nextButtonEnabled
      ensures lesson == old(lesson) && courseLessons == old(courseLessons)
      ensures Valid()
    {
      isLoading := true;
      error := None;
      videoProgress := 0.0;
      isLessonCompleted := false;
      nextButtonEnabled := false;
    }

    /**
     * A lesson body arrived (from the anonymous or the authenticated
     * request). `loadRest` says whether the course, its lessons and the
     * progress are requested next.
     */
    method LessonArrived(body: Option<Lesson>) returns (loadRest: bool)
      modifies this
      ensures lesson == body
      ensures loadRest <==> body.Some? && body.value.courseId != 0
      ensures loadRest ==> isLoading == old(isLoading) && error == old(error)
      ensures !loadRest ==> !isLoading && error == Some("Lesson data is incomplete. Missing course information.")
      ensures courseLessons == old(courseLessons) && videoProgress == old(videoProgress)
      ensures isLessonCompleted == old(isLessonCompleted) && nextButtonEnabled == old(nextButtonEnabled)
    {
      lesson := body;
      if body.Some? && body.value.courseId != 0 {
        loadRest := true;
      } else {
        error := Some("Lesson data is incomplete. Missing course information.");
        isLoading := false;
        loadRest := false;
      }
    }

    /** Both lesson requests failed; the second one's HTTP status picks the message. */
    method LessonFailed(lessonId: int, status: int)
      modifies this
      ensures !isLoading && error == Some(LessonLoadError(lessonId, status))
      ensures lesson == old(lesson) && courseLessons == old(courseLessons) && videoProgress == old(videoProgress)
      ensures isLessonCompleted == old(isLessonCompleted) && nextButtonEnabled == old(nextButtonEnabled)
    {
      error := Some(LessonLoadError(lessonId, status));
      isLoading := false;
    }

    /** The course's lessons arrived; they are kept sorted by lessonOrder. */
    method CourseLessonsArrived(lessons: seq<Lesson>)
      modifies this
      ensures VideoProgressService.SortedByOrder(courseLessons)
      ensures multiset(courseLessons) == multiset(lessons)
      ensures !isLoading
      ensures lesson == old(lesson) && error == old(error) && videoProgress == old(videoProgress)
      ensures isLessonCompleted == old(isLessonCompleted) && nextButtonEnabled == old(nextButtonEnabled)
    {
      courseLessons := VideoProgressService.SortByOrder(lessons);
      isLoading := false;
    }

    /**
     * loadVideoProgress. `user` is the signed-in user; `response` is the
     * body returned by the authenticated or else the anonymous request,
     * None when both failed. `requested` says whether any request was made.
     */
    method LoadVideoProgress(user: Option<ClientUser>, response: Option<ProgressResponse>) returns (requested: bool)
      modifies this
      ensures requested <==> user.Some? && user.value.role == Student
      ensures !requested ==>
        nextButtonEnabled && videoProgress == old(videoProgress) && isLessonCompleted == old(isLessonCompleted)
      ensures requested && response.Some? ==>
        videoProgress == RealOr(response.value.completionPercentage, 0.0)
        && isLessonCompleted == (response.value.isCompleted == Some(true))
        && nextButtonEnabled == isLessonCompleted
      ensures requested && response.None? ==> videoProgress == 0.0 && !isLessonCompleted && !nextButtonEnabled
      ensures lesson == old(lesson) && courseLessons == old(courseLessons)
      ensures isLoading == old(isLoading) && error == old(error)
      ensures Valid()
    {
      if user.None? || user.value.role != Student {
        nextButtonEnabled := true;
        return false;
      }
      nextButtonEnabled := false;
      videoProgress := 0.0;
      isLessonCompleted := false;
      requested := true;
      match response {
        case Some(p) =>
          videoProgress := RealOr(p.completionPercentage, 0.0);
          isLessonCompleted := p.isCompleted == Some(true);
          nextButtonEnabled := isLessonCompleted;
        case None =>
          videoProgress := 0.0;
          isLessonCompleted := false;
          nextButtonEnabled := false;
      }
    }

    /**
     * onVideoProgressUpdate: the player reports `progress` percent. The
     * first crossing of the threshold completes the lesson and, with a token
     * and a lesson, returns the report to post; below the threshold the
     * button follows the completion flag.
     */
    method OnVideoProgressUpdate(progress: real, hasToken: bool) returns (report: Option<ProgressReport>)
      requires Valid()
      modifies this
      ensures videoProgress == progress
      ensures old(isLessonCompleted) ==> isLessonCompleted
      ensures isLessonCompleted <==> old(isLessonCompleted) || progress >= CompletionThreshold(lesson)
      ensures nextButtonEnabled <==> old(isLessonCompleted) || progress >= CompletionThreshold(lesson)
      ensures report.Some? <==>
        progress >= CompletionThreshold(lesson) && !old(isLessonCompleted) && hasToken && lesson.Some?
      ensures report.Some? ==> report.value == ProgressReport(lesson.value.id, ReportedDuration(lesson.value))
      ensures lesson == old(lesson) && courseLessons == old(courseLessons)
      ensures isLoading == old(isLoading) && error == old(error)
      ensures Valid()
    {
      videoProgress := progress;
      var threshold := if DurationOf(lesson) >= 20 then 50.0 else 90.0;
      report := None;
      if progress >= threshold && !isLessonCompleted {
        nextButtonEnabled := true;
        isLessonCompleted := true;
        if hasToken && lesson.Some? {
          report := Some(ProgressReport(lesson.value.id, NumOr(lesson.value.videoDuration, 600)));
        }
      } else if progress < threshold {
        nextButtonEnabled := isLessonCompleted;
      }
    }

    /**
     * markLessonAsComplete: without a lesson or a token nothing happens;
     * otherwise the completion is posted and, whether the request succeeds
     * or fails, the page shows the lesson completed at 100 %.
     */
    method MarkLessonAsComplete(hasToken: bool) returns (posted: Option<int>)
      modifies this
      ensures lesson.None? || !hasToken ==>
        posted.None? && videoProgress == old(videoProgress) && isLessonCompleted == old(isLessonCompleted)
        && nextButtonEnabled == old(nextButtonEnabled)
      ensures lesson.Some? && hasToken ==>
        posted == Some(lesson.value.id) && videoProgress == 100.0 && isLessonCompleted && nextButtonEnabled
      ensures lesson == old(lesson) && courseLessons == old(courseLessons)
      ensures isLoading == old(isLoading) && error == old(error)
      ensures old(Valid()) ==> Valid()
    {
      if lesson.None? || !hasToken {
        return None;
      }
      posted := Some(lesson.value.id);
      isLessonCompleted := true;
      nextButtonEnabled := true;
      videoProgress := 100.0;
    }

    /** navigateToLesson: students are gated by lesson order, everyone else may go anywhere. */
    method NavigateToLesson(user: Option<ClientUser>, lessonId: int) returns (nav: Navigation)
      ensures user.Some? && user.value.role == Student ==>
        nav == StudentNavigation(if lesson.Some? then lesson.value.lessonOrder else 0,
                                 TargetOrder(courseLessons, lessonId), isLessonCompleted, lessonId)
      ensures user.None? || user.value.role != Student ==> nav == Navigate(lessonId)
    {
      var currentOrder := if lesson.Some? then lesson.value.lessonOrder else 0;
      var target := FindLesson(courseLessons, lessonId);
      var targetOrder := if target.Some? then target.value.lessonOrder else 0;
      if user.Some? && user.value.role == Student {
        if targetOrder < currentOrder {
          nav := Navigate(lessonId);
        } else if targetOrder == currentOrder {
          nav := Stay;
        } else if targetOrder == currentOrder + 1 && isLessonCompleted {
          nav := Navigate(lessonId);
        } else {
          nav := Denied;
        }
      } else {
        nav := Navigate(lessonId);
      }
    }
  }

  /** The message shown when neither lesson request succeeded. */
  function LessonLoadError(lessonId: int, status: int): (r: string)
    ensures status == 404 ==> StartsWith(r, LessonNotFoundPrefix + IntToString(lessonId))
    ensures status == 401 <==> r == LoginToAccess
    ensures status != 404 && status != 401 ==> r == LessonLoadFailed
  {
    assert LessonNotFoundPrefix[0] == 'L' && LoginToAccess[0] == 'P';
    if status == 404 then LessonNotFoundPrefix + IntToString(lessonId) + " not found. Please check the lesson URL."
    else if status == 401 then LoginToAccess
    else LessonLoadFailed
  }

  const LessonNotFoundPrefix := "Lesson with ID "
  const LoginToAccess := "Please login to access this lesson."
  const LessonLoadFailed := "Failed to load lesson details. Please try again."

}
