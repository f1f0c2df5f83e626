// VideoProgressService: folds watched-seconds reports into the progress
// table, marks lessons completed, and derives sequential lesson unlocking.
// The lesson and user tables are read-only inputs; the progress table is
// the service's state.
module VideoProgressService {
  import opened Wrappers
  import opened Strings
  import opened Entities
  import opened VideoProgressEntity
  import opened VideoProgressRepository

  /** The completion threshold in hundredths: 50 % for a video of 20 s or more, else 90 %. */
  function Threshold(total: int): (t: int)
    ensures t == 5000 || t == 9000
    ensures t == 5000 <==> total >= 20
  {
    if total >= 20 then 5000 else 9000
  }

  /** `lesson.map(Lesson::getVideoDuration).orElse(fallback)`: a null duration maps to empty. */
  function DurationOr(lesson: Option<Lesson>, fallback: int): int
  {
    if lesson.Some? && lesson.value.videoDuration.Some? then lesson.value.videoDuration.value else fallback
  }

  predicate NullOrZero(total: Option<int>)
  {
    total.None? || total.value == 0
  }

  /** Lines 60-71: the flag may only be raised, when the percentage meets the threshold. */
  function ApplyThreshold(p: ProgressRow): (r: ProgressRow)
    ensures r.studentId == p.studentId && r.lessonId == p.lessonId
    ensures r.watched == p.watched && r.total == p.total && r.percentage == p.percentage
    ensures r.completed <==> p.completed || p.percentage >= Threshold(if p.total.Some? then p.total.value else 0)
  {
    var total := if p.total.Some? then p.total.value else 0;
    if p.percentage >= Threshold(total) then p.(completed := true) else p
  }

  function UserNotFound(id: int): string
  {
    "User not found with id: " + IntToString(id)
  }

  /**
   * Lines 35-47 on an existing record: a larger watched value replaces the
   * stored one, then a null or zero total is filled from the lesson and, if
   * still zero, from the report; each setter recomputes.
   */
  function Reported(p0: ProgressRow, lesson: Option<Lesson>, watched: int): (r: ProgressRow)
    ensures r.studentId == p0.studentId && r.lessonId == p0.lessonId
    ensures r.watched == if watched > p0.watched then watched else p0.watched
    ensures !NullOrZero(p0.total) ==> r.total == p0.total
    ensures NullOrZero(p0.total) ==>
      r.total == Some(if DurationOr(lesson, watched) != 0 then DurationOr(lesson, watched) else watched)
  {
    var p1 := if watched > p0.watched then Recomputed(p0.(watched := watched)) else p0;
    var p2 := if NullOrZero(p1.total) then Recomputed(p1.(total := Some(DurationOr(lesson, watched)))) else p1;
    if NullOrZero(p2.total) then Recomputed(p2.(total := Some(watched))) else p2
  }

  /**
   * updateProgress on values: `existing` is the stored record for the pair,
   * `lesson` the lesson lookup, `userExists` whether getUserById succeeds.
   */
  function UpdatedProgress(existing: Option<ProgressRow>, lesson: Option<Lesson>, userExists: bool,
                           studentId: int, lessonId: int, watched: int): (r: Result<ProgressRow>)
    requires existing.Some? ==> IsPair(existing.value, studentId, lessonId)
    ensures existing.Some? ==> r.Ok?
    ensures existing.None? ==> (r.Ok? <==> userExists && lesson.Some?)
    ensures existing.None? && !userExists ==> r == Err(UserNotFound(studentId))
    ensures existing.None? && userExists && lesson.None? ==> r == Err("Lesson not found")
    ensures r.Ok? ==> IsPair(r.value, studentId, lessonId)
    // watchedDuration only grows
    ensures r.Ok? && existing.Some? ==>
      r.value.watched == if watched > existing.value.watched then watched else existing.value.watched
    ensures r.Ok? && existing.None? ==> r.value.watched == watched
    // a set total is never replaced
    ensures r.Ok? && existing.Some? && !NullOrZero(existing.value.total) ==> r.value.total == existing.value.total
    // the flag with a positive total is exactly the duration-dependent threshold
    ensures r.Ok? && HasPositiveTotal(r.value.total) ==>
      r.value.percentage == Percentage(r.value.watched, r.value.total.value)
      && r.value.completed == (r.value.percentage >= Threshold(r.value.total.value))
  {
    if existing.Some? then
      Ok(ApplyThreshold(Recomputed(Reported(existing.value, lesson, watched))))
    else if !userExists then Err(UserNotFound(studentId))
    else if lesson.None? then Err("Lesson not found")
    else
      var created := Recomputed(ProgressRow(studentId, lessonId, watched, Some(DurationOr(lesson, watched)), 0, false));
      Ok(ApplyThreshold(Recomputed(created)))
  }

  /**
   * What the stored flag means after an update: with a positive total, the
   * record is completed exactly when watched/total reaches 49.995 % (videos
   * of at least 20 s) or 89.995 % (shorter ones), the points where the
   * four-place HALF_UP rounding reaches the threshold.
   */
  lemma {:induction false} CompletionRule(existing: Option<ProgressRow>, lesson: Option<Lesson>, userExists: bool,
                       studentId: int, lessonId: int, watched: int)
    requires existing.Some? ==> IsPair(existing.value, studentId, lessonId)
    ensures var r := UpdatedProgress(existing, lesson, userExists, studentId, lessonId, watched);
      r.Ok? && HasPositiveTotal(r.value.total) ==>
        r.value.completed == (20000 * r.value.watched >= (2 * Threshold(r.value.total.value) - 1) * r.value.total.value)
  {
    var r := UpdatedProgress(existing, lesson, userExists, studentId, lessonId, watched);
    if r.Ok? && HasPositiveTotal(r.value.total) {
      PercentageAtLeast(r.value.watched, r.value.total.value, Threshold(r.value.total.value));
    }
  }

  /** An existing record whose total is null or 0 takes the lesson's duration, else the reported seconds. */
  lemma {:induction false} TotalFilledFromLesson(existing: ProgressRow, lesson: Option<Lesson>, userExists: bool,
                              studentId: int, lessonId: int, watched: int)
    requires IsPair(existing, studentId, lessonId) && NullOrZero(existing.total)
    ensures var r := UpdatedProgress(Some(existing), lesson, userExists, studentId, lessonId, watched).value;
      r.total == Some(if DurationOr(lesson, watched) != 0 then DurationOr(lesson, watched) else watched)
  {
  }

  /**
   * markLessonCompleted on values. An already completed record is saved
   * unchanged; otherwise the flag is set and the percentage forced to 100 %
   * without touching the durations. A new record watches the whole lesson,
   * whose length defaults to 600 s when the duration is null.
   */
  function MarkedCompleted(existing: Option<ProgressRow>, lesson: Option<Lesson>, userExists: bool,
                           studentId: int, lessonId: int): (r: Result<ProgressRow>)
    requires existing.Some? ==> IsPair(existing.value, studentId, lessonId)
    ensures existing.Some? ==> r.Ok?
    ensures existing.None? ==> (r.Ok? <==> userExists && lesson.Some?)
    ensures existing.None? && !userExists ==> r == Err(UserNotFound(studentId))
    ensures existing.None? && userExists && lesson.None? ==> r == Err("Lesson not found")
    ensures r.Ok? ==> r.value.completed && IsPair(r.value, studentId, lessonId)
    ensures existing.Some? && existing.value.completed ==> r == Ok(existing.value)
    ensures existing.Some? && !existing.value.completed ==>
      r.value.percentage == FullPercent && r.value.watched == existing.value.watched
      && r.value.total == existing.value.total
    ensures r.Ok? && existing.None? ==>
      r.value.percentage == FullPercent && r.value.total == Some(r.value.watched)
      && r.value.watched == DurationOr(lesson, 600)
  {
    if existing.Some? then
      var p := existing.value;
      if p.completed then Ok(p) else Ok(p.(completed := true, percentage := FullPercent))
    else if !userExists then Err(UserNotFound(studentId))
    else if lesson.None? then Err("Lesson not found")
    else
      var t := DurationOr(lesson, 600);
      var created := Recomputed(ProgressRow(studentId, lessonId, t, Some(t), 0, false));
      Ok(created.(completed := true, percentage := FullPercent))
  }

  /** Marking twice is marking once. */
  lemma {:induction false} MarkIdempotent(existing: Option<ProgressRow>, lesson: Option<Lesson>, userExists: bool,
                       studentId: int, lessonId: int)
    requires existing.Some? ==> IsPair(existing.value, studentId, lessonId)
    ensures var r := MarkedCompleted(existing, lesson, userExists, studentId, lessonId);
      r.Ok? ==> MarkedCompleted(Some(r.value), lesson, userExists, studentId, lessonId) == r
  {
  }

  /**
   * The flag is recomputed, not latched: a lesson marked completed while
   * its record shows 10 of 100 s watched loses the flag at the next report
   * of 10 s.
   */
  lemma {:induction false} MarkedCompletionCanBeCleared()
    ensures var lesson := Some(Lesson(7, 1, "Intro", "", None, None, Some(100), 1));
      var before := ProgressRow(3, 7, 10, Some(100), 1000, false);
      var marked := MarkedCompleted(Some(before), lesson, true, 3, 7);
      marked.Ok? && marked.value.completed
      && UpdatedProgress(Some(marked.value), lesson, true, 3, 7, 10) == Ok(before)
  {
    var lesson := Some(Lesson(7, 1, "Intro", "", None, None, Some(100), 1));
    var before := ProgressRow(3, 7, 10, Some(100), 1000, false);
    assert Percentage(10, 100) == 1000 by {
      assert RoundHalfUp(100000, 100) == 1000;
    }
  }

  /** calculateCourseProgress: the repository average clamped to [0, 100]; null reads as 0. */
  function CalculateCourseProgress(t: Table, lessons: seq<Lesson>, studentId: int, courseId: int): (r: real)
    ensures 0.0 <= r <= 100.0
    ensures var avg := VideoProgressRepository.CalculateCourseProgress(t, lessons, studentId, courseId);
      (avg.None? ==> r == 0.0) && (avg.Some? && 0.0 <= avg.value <= 100.0 ==> r == avg.value)
  {
    match VideoProgressRepository.CalculateCourseProgress(t, lessons, studentId, courseId)
    case None => 0.0
    case Some(p) => if p < 0.0 then 0.0 else if p > 100.0 then 100.0 else p
  }

  // ---------------------------------------------------------------------
  // Sequential unlocking

  predicate SortedByOrder(s: seq<Lesson>)
  {
    forall i, j :: 0 <= i < j < |s| ==> s[i].lessonOrder <= s[j].lessonOrder
  }

  /** Insert before the first lesson of larger or equal order. */
  function InsertByOrder(l: Lesson, s: seq<Lesson>): (r: seq<Lesson>)
    ensures multiset(r) == multiset(s) + multiset{l}
  {
    if |s| == 0 || l.lessonOrder <= s[0].lessonOrder then [l] + s
    else
      assert s == [s[0]] + s[1..];
      [s[0]] + InsertByOrder(l, s[1..])
  }

  lemma {:induction false} InsertLowerBound(l: Lesson, s: seq<Lesson>, b: int)
    requires b <= l.lessonOrder
    requires forall k :: 0 <= k < |s| ==> b <= s[k].lessonOrder
    ensures forall k :: 0 <= k < |InsertByOrder(l, s)| ==> b <= InsertByOrder(l, s)[k].lessonOrder
  {
    if |s| > 0 && l.lessonOrder > s[0].lessonOrder {
      InsertLowerBound(l, s[1..], b);
    }
  }

  lemma {:induction false} SortedCons(a: Lesson, s: seq<Lesson>)
    requires SortedByOrder(s)
    requires forall k :: 0 <= k < |s| ==> a.lessonOrder <= s[k].lessonOrder
    ensures SortedByOrder([a] + s)
  {
  }

  lemma {:induction false} InsertKeepsSorted(l: Lesson, s: seq<Lesson>)
    requires SortedByOrder(s)
    ensures SortedByOrder(InsertByOrder(l, s))
  {
    if |s| == 0 || l.lessonOrder <= s[0].lessonOrder {
      SortedCons(l, s);
    } else {
      var rest := InsertByOrder(l, s[1..]);
      InsertKeepsSorted(l, s[1..]);
      InsertLowerBound(l, s[1..], s[0].lessonOrder);
      SortedCons(s[0], rest);
    }
  }

  /** A stable sort by lessonOrder, as List.sort with Integer.compare. */
  function SortByOrder(s: seq<Lesson>): (r: seq<Lesson>)
    ensures SortedByOrder(r)
    ensures multiset(r) == multiset(s)
  {
    if |s| == 0 then []
    else
      assert s == [s[0]] + s[1..];
      var rest := SortByOrder(s[1..]);
      InsertKeepsSorted(s[0], rest);
      InsertByOrder(s[0], rest)
  }

  function FilterCourse(lessons: seq<Lesson>, courseId: int): (r: seq<Lesson>)
    ensures forall l :: l in r <==> l in lessons && l.courseId == courseId
  {
    if |lessons| == 0 then []
    else if lessons[0].courseId == courseId then [lessons[0]] + FilterCourse(lessons[1..], courseId)
    else FilterCourse(lessons[1..], courseId)
  }

  /** LessonService.getLessonsByCourseId: the course's lessons ordered by lessonOrder. */
  function CourseLessons(lessons: seq<Lesson>, courseId: int): (r: seq<Lesson>)
    ensures SortedByOrder(r)
    ensures forall l :: l in r <==> l in lessons && l.courseId == courseId
  {
    var f := FilterCourse(lessons, courseId);
    var r := SortByOrder(f);
    assert forall l :: l in r <==> l in multiset(f);
    r
  }

  /** `stream().filter(order == o).findFirst()`. */
  function FirstWithOrder(s: seq<Lesson>, order: int): (r: Option<Lesson>)
    ensures r.Some? ==> r.value in s && r.value.lessonOrder == order
    ensures r.None? ==> forall l :: l in s ==> l.lessonOrder != order
  {
    if |s| == 0 then None
    else if s[0].lessonOrder == order then Some(s[0])
    else FirstWithOrder(s[1..], order)
  }

  predicate RecordCompleted(t: Table, studentId: int, lessonId: int)
  {
    var p := FindByStudentIdAndLessonId(t, studentId, lessonId);
    p.Some? && p.value.completed
  }

  /**
   * isLessonAccessible: a missing lesson is locked, lesson 1 is open, any
   * other lesson is open when the course's first lesson of the previous
   * order has a completed record for the student.
   */
  function IsLessonAccessible(t: Table, lessons: seq<Lesson>, studentId: int, lessonId: int): (r: bool)
    ensures FindLesson(lessons, lessonId).None? ==> !r
    ensures FindLesson(lessons, lessonId).Some? && FindLesson(lessons, lessonId).value.lessonOrder == 1 ==> r
    ensures r && FindLesson(lessons, lessonId).value.lessonOrder != 1 ==>
      var l := FindLesson(lessons, lessonId).value;
      exists p :: p in lessons && p.courseId == l.courseId && p.lessonOrder == l.lessonOrder - 1
        && RecordCompleted(t, studentId, p.id)
  {
    match FindLesson(lessons, lessonId)
    case None => false
    case Some(l) =>
      if l.lessonOrder == 1 then true
      else
        match FirstWithOrder(CourseLessons(lessons, l.courseId), l.lessonOrder - 1)
        case None => false
        case Some(prev) => RecordCompleted(t, studentId, prev.id)
  }

  /** No two lessons of one course share an order. */
  predicate UniqueOrders(lessons: seq<Lesson>)
  {
    forall a, b :: a in lessons && b in lessons && a.courseId == b.courseId && a.lessonOrder == b.lessonOrder ==> a == b
  }

  /** With distinct orders per course, accessibility is exactly "the previous lesson is completed". */
  lemma {:induction false} AccessibleIffPreviousCompleted(t: Table, lessons: seq<Lesson>, studentId: int, l: Lesson)
    requires UniqueOrders(lessons) && l in lessons && l.lessonOrder != 1
    requires FindLesson(lessons, l.id) == Some(l)
    ensures IsLessonAccessible(t, lessons, studentId, l.id) <==>
      exists p :: p in lessons && p.courseId == l.courseId && p.lessonOrder == l.lessonOrder - 1
        && RecordCompleted(t, studentId, p.id)
  {
    if p :| (p in lessons && p.courseId == l.courseId && p.lessonOrder == l.lessonOrder - 1
             && RecordCompleted(t, studentId, p.id)) {
      var f := FirstWithOrder(CourseLessons(lessons, l.courseId), l.lessonOrder - 1);
      assert p in CourseLessons(lessons, l.courseId);
      assert f.Some? && f.value == p;
    }
  }

  /** A lesson getNextAccessibleLesson may return. */
  predicate OpenAndUnfinished(t: Table, lessons: seq<Lesson>, studentId: int, l: Lesson)
  {
    IsLessonAccessible(t, lessons, studentId, l.id) && !RecordCompleted(t, studentId, l.id)
  }

  /**
   * getNextAccessibleLesson: in lesson order, the first lesson that is
   * accessible and not completed, or none.
   */
  method GetNextAccessibleLesson(t: Table, lessons: seq<Lesson>, studentId: int, courseId: int)
    returns (r: Option<Lesson>)
    ensures var sorted := CourseLessons(lessons, courseId);
      r.Some? ==>
        exists k :: 0 <= k < |sorted| && sorted[k] == r.value
                    && forall j :: 0 <= j < k ==> !OpenAndUnfinished(t, lessons, studentId, sorted[j])
    ensures r.Some? ==> OpenAndUnfinished(t, lessons, studentId, r.value)
    ensures var sorted := CourseLessons(lessons, courseId);
      r.None? ==> forall j :: 0 <= j < |sorted| ==> !OpenAndUnfinished(t, lessons, studentId, sorted[j])
  {
    var courseLessons := CourseLessons(lessons, courseId);
    r := FirstOpenAndUnfinished(t, lessons, studentId, courseLessons);
  }

  /** The loop of getNextAccessibleLesson over the sorted lessons. */
  method FirstOpenAndUnfinished(t: Table, lessons: seq<Lesson>, studentId: int, sorted: seq<Lesson>)
    returns (r: Option<Lesson>)
    ensures r.Some? ==>
      exists k :: 0 <= k < |sorted| && sorted[k] == r.value
                  && forall j :: 0 <= j < k ==> !OpenAndUnfinished(t, lessons, studentId, sorted[j])
    ensures r.Some? ==> OpenAndUnfinished(t, lessons, studentId, r.value)
    ensures r.None? ==> forall j :: 0 <= j < |sorted| ==> !OpenAndUnfinished(t, lessons, studentId, sorted[j])
  {
    var i := 0;
    while i < |sorted|
      invariant 0 <= i <= |sorted|
      invariant forall j :: 0 <= j < i ==> !OpenAndUnfinished(t, lessons, studentId, sorted[j])
    {
      var lesson := sorted[i];
      var accessible := IsLessonAccessible(t, lessons, studentId, lesson.id);
      if accessible {
        var progress := FindByStudentIdAndLessonId(t, studentId, lesson.id);
        if progress.None? || !progress.value.completed {
          assert OpenAndUnfinished(t, lessons, studentId, sorted[i]);
          return Some(lesson);
        }
      }
      i := i + 1;
    }
    return None;
  }

  /** The service object; `progress` is the video_progress table. */
  class Service {
    var progress: Table

    constructor (rows: Table)
      ensures progress == rows
    {
      progress := rows;
    }

    /** updateProgress: load or create the record, apply the setters, save it. */
    method UpdateProgress(studentId: int, lessonId: int, watched: int, lessons: seq<Lesson>, users: seq<User>)
      returns (r: Result<ProgressRow>)
      modifies this
      ensures r == UpdatedProgress(FindByStudentIdAndLessonId(old(progress), studentId, lessonId),
                                   FindLesson(lessons, lessonId), FindUser(users, studentId).Some?,
                                   studentId, lessonId, watched)
      ensures r.Ok? ==> progress == Save(old(progress), r.value)
      ensures r.Err? ==> progress == old(progress)
    {
      var existing := FindByStudentIdAndLessonId(progress, studentId, lessonId);
      var p: VideoProgress;
      if existing.Some? {
        p := new VideoProgress.Load(existing.value);
        ApplyReport(p, lessonId, watched, lessons);
      } else {
        var lessonOpt := FindLesson(lessons, lessonId);
        var totalDuration := DurationOr(lessonOpt, watched);
        if FindUser(users, studentId).None? {
          return Err(UserNotFound(studentId));
        }
        if lessonOpt.None? {
          return Err("Lesson not found");
        }
        p := new VideoProgress(studentId, lessonId, watched, Some(totalDuration));
      }
      MarkIfThresholdMet(p);
      progress := Save(progress, p.Row());
      r := Ok(p.Row());
    }

    /** Lines 35-47: the setters applied to a loaded record. */
    static method ApplyReport(p: VideoProgress, lessonId: int, watched: int, lessons: seq<Lesson>)
      modifies p
      ensures p.Row() == Reported(old(p.Row()), FindLesson(lessons, lessonId), watched)
    {
      if watched > p.watchedDuration {
        p.SetWatchedDuration(watched);
      }
      if p.totalDuration.None? || p.totalDuration.value == 0 {
        var lesson := FindLesson(lessons, lessonId);
        p.SetTotalDuration(Some(DurationOr(lesson, watched)));
      }
      if p.totalDuration.None? || p.totalDuration.value == 0 {
        p.SetTotalDuration(Some(watched));
      }
    }

    /** Lines 58-71: recompute, then raise the flag when the threshold is met. */
    static method MarkIfThresholdMet(p: VideoProgress)
      modifies p
      ensures p.Row() == ApplyThreshold(Recomputed(old(p.Row())))
    {
      p.CalculateCompletionPercentage();
      var completionPercentage := p.completionPercentage;
      var totalDuration := if p.totalDuration.Some? then p.totalDuration.value else 0;
      if totalDuration >= 20 {
        if completionPercentage >= 5000 {
          p.SetIsCompleted(true);
        }
      } else {
        if completionPercentage >= 9000 {
          p.SetIsCompleted(true);
        }
      }
    }

    /** markLessonCompleted: set the flag and 100 % unless already completed, then save. */
    method MarkLessonCompleted(studentId: int, lessonId: int, lessons: seq<Lesson>, users: seq<User>)
      returns (r: Result<ProgressRow>)
      modifies this
      ensures r == MarkedCompleted(FindByStudentIdAndLessonId(old(progress), studentId, lessonId),
                                   FindLesson(lessons, lessonId), FindUser(users, studentId).Some?,
                                   studentId, lessonId)
      ensures r.Ok? ==> progress == Save(old(progress), r.value)
      ensures r.Err? ==> progress == old(progress)
    {
      var existing := FindByStudentIdAndLessonId(progress, studentId, lessonId);
      var videoProgress: VideoProgress;
      if existing.Some? {
        videoProgress := new VideoProgress.Load(existing.value);
        if !videoProgress.isCompleted {
          videoProgress.SetIsCompleted(true);
          videoProgress.SetCompletionPercentage(FullPercent);
        }
      } else {
        var lessonOpt := FindLesson(lessons, lessonId);
        var totalDuration := DurationOr(lessonOpt, 600);
        if FindUser(users, studentId).None? {
          return Err(UserNotFound(studentId));
        }
        if lessonOpt.None? {
          return Err("Lesson not found");
        }
        videoProgress := new VideoProgress(studentId, lessonId, totalDuration, Some(totalDuration));
        videoProgress.SetIsCompleted(true);
        videoProgress.SetCompletionPercentage(FullPercent);
      }
      progress := Save(progress, videoProgress.Row());
      r := Ok(videoProgress.Row());
    }
  }
}
