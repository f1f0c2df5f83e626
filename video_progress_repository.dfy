// The video_progress table and the queries VideoProgressRepository declares.
// The table is the sequence of its rows in storage order.
module VideoProgressRepository {
  import opened Wrappers
  import opened Entities
  import opened VideoProgressEntity

  type Table = seq<ProgressRow>

  predicate SamePair(a: ProgressRow, b: ProgressRow)
  {
    a.studentId == b.studentId && a.lessonId == b.lessonId
  }

  predicate IsPair(r: ProgressRow, studentId: int, lessonId: int)
  {
    r.studentId == studentId && r.lessonId == lessonId
  }

  /** At most one record per (student, lesson), as the Optional lookup presumes. */
  predicate UniquePairs(t: Table)
  {
    forall i, j :: 0 <= i < j < |t| ==> !SamePair(t[i], t[j])
  }

  /** findByStudentIdAndLessonId. */
  function FindByStudentIdAndLessonId(t: Table, studentId: int, lessonId: int): (r: Option<ProgressRow>)
    ensures r.Some? ==> r.value in t && IsPair(r.value, studentId, lessonId)
    ensures r.None? ==> forall x :: x in t ==> !IsPair(x, studentId, lessonId)
  {
    if |t| == 0 then None
    else if IsPair(t[0], studentId, lessonId) then Some(t[0])
    else FindByStudentIdAndLessonId(t[1..], studentId, lessonId)
  }

  /**
   * save: the record found for the same (student, lesson) pair is
   * overwritten in place; a record for a new pair is appended.
   */
  function Save(t: Table, row: ProgressRow): (r: Table)
    ensures row in r
    ensures forall x :: x in r ==> x == row || x in t
    ensures forall x :: x in t && !SamePair(x, row) ==> x in r
  {
    if |t| == 0 then [row]
    else if SamePair(t[0], row) then
      assert forall x :: x in t[1..] ==> x in t;
      [row] + t[1..]
    else [t[0]] + Save(t[1..], row)
  }

  /** Saving keeps at most one record per pair. */
  lemma {:induction false} SaveKeepsPairsUnique(t: Table, row: ProgressRow)
    requires UniquePairs(t)
    ensures UniquePairs(Save(t, row))
  {
    if |t| > 0 && !SamePair(t[0], row) {
      var rest := Save(t[1..], row);
      SaveKeepsPairsUnique(t[1..], row);
      forall x | x in rest ensures !SamePair(t[0], x) {
        if x != row {
          var k :| 0 <= k < |t[1..]| && t[1..][k] == x;
          assert t[k + 1] == x;
        }
      }
      UniqueCons(t[0], rest);
    } else if |t| > 0 {
      forall i, j | 0 <= i < j < |t| ensures !SamePair(Save(t, row)[i], Save(t, row)[j]) {
        assert i > 0 ==> Save(t, row)[i] == t[i];
        assert Save(t, row)[j] == t[j];
      }
    }
  }

  lemma {:induction false} UniqueCons(x: ProgressRow, t: Table)
    requires UniquePairs(t)
    requires forall y :: y in t ==> !SamePair(x, y)
    ensures UniquePairs([x] + t)
  {
    var u := [x] + t;
    forall i, j | 0 <= i < j < |u| ensures !SamePair(u[i], u[j]) {
      if i == 0 {
        assert u[j] == t[j - 1];
      } else {
        assert u[i] == t[i - 1] && u[j] == t[j - 1];
      }
    }
  }

  lemma {:induction false} SaveThenFind(t: Table, row: ProgressRow)
    ensures FindByStudentIdAndLessonId(Save(t, row), row.studentId, row.lessonId) == Some(row)
  {
    if |t| > 0 && !SamePair(t[0], row) {
      SaveThenFind(t[1..], row);
    }
  }

  /** Saving one record leaves the lookup of every other pair as it was. */
  lemma {:induction false} SaveKeepsOtherPairs(t: Table, row: ProgressRow, studentId: int, lessonId: int)
    requires !IsPair(row, studentId, lessonId)
    ensures FindByStudentIdAndLessonId(Save(t, row), studentId, lessonId) == FindByStudentIdAndLessonId(t, studentId, lessonId)
  {
    if |t| > 0 && !SamePair(t[0], row) {
      SaveKeepsOtherPairs(t[1..], row, studentId, lessonId);
    }
  }

  /** findByStudentId: the student's records in storage order. */
  function FindByStudentId(t: Table, studentId: int): (r: Table)
    ensures |r| <= |t|
    ensures forall x :: x in r <==> x in t && x.studentId == studentId
  {
    if |t| == 0 then []
    else if t[0].studentId == studentId then [t[0]] + FindByStudentId(t[1..], studentId)
    else FindByStudentId(t[1..], studentId)
  }

  /** findCompletedLessonsByStudent: the student's records whose flag is set. */
  function FindCompletedLessonsByStudent(t: Table, studentId: int): (r: Table)
    ensures |r| <= |t|
    ensures forall x :: x in r <==> x in t && x.studentId == studentId && x.completed
  {
    if |t| == 0 then []
    else if t[0].studentId == studentId && t[0].completed then [t[0]] + FindCompletedLessonsByStudent(t[1..], studentId)
    else FindCompletedLessonsByStudent(t[1..], studentId)
  }

  /** The lesson row a record joins to belongs to the course. */
  predicate InCourse(lessons: seq<Lesson>, r: ProgressRow, courseId: int)
  {
    var l := FindLesson(lessons, r.lessonId);
    l.Some? && l.value.courseId == courseId
  }

  /** findByStudentIdAndCourseId: the join of records with their lesson. */
  function FindByStudentIdAndCourseId(t: Table, lessons: seq<Lesson>, studentId: int, courseId: int): (r: Table)
    ensures |r| <= |t|
    ensures forall x :: x in r <==> x in t && x.studentId == studentId && InCourse(lessons, x, courseId)
  {
    if |t| == 0 then []
    else if t[0].studentId == studentId && InCourse(lessons, t[0], courseId) then
      [t[0]] + FindByStudentIdAndCourseId(t[1..], lessons, studentId, courseId)
    else FindByStudentIdAndCourseId(t[1..], lessons, studentId, courseId)
  }

  function SumPercentages(t: Table): int
  {
    if |t| == 0 then 0 else t[0].percentage + SumPercentages(t[1..])
  }

  /**
   * calculateCourseProgress: AVG(completionPercentage) in percent over the
   * student's records for lessons of the course; SQL's AVG of no rows is null.
   * Lessons the student never opened have no record and do not count.
   */
  function CalculateCourseProgress(t: Table, lessons: seq<Lesson>, studentId: int, courseId: int): (r: Option<real>)
    ensures r.None? <==> forall x :: x in t ==> !(x.studentId == studentId && InCourse(lessons, x, courseId))
  {
    var rows := FindByStudentIdAndCourseId(t, lessons, studentId, courseId);
    if |rows| == 0 then None
    else
      assert rows[0] in rows;
      Some(SumPercentages(rows) as real / |rows| as real / 100.0)
  }

  predicate PercentagesInRange(t: Table)
  {
    forall x :: x in t ==> 0 <= x.percentage <= FullPercent
  }

  lemma {:induction false} SumBounds(t: Table)
    requires PercentagesInRange(t)
    ensures 0 <= SumPercentages(t) <= FullPercent * |t|
  {
    if |t| > 0 {
      assert forall x :: x in t[1..] ==> x in t;
      SumBounds(t[1..]);
    }
  }

  lemma {:induction false} DivideBound(s: real, n: real, b: real)
    requires n > 0.0 && s <= b * n
    ensures s / n <= b
  {
    assert s / n * n == s;
  }

  /** When every stored percentage lies in [0, 100 %], so does the average. */
  lemma {:induction false} AverageInRange(t: Table, lessons: seq<Lesson>, studentId: int, courseId: int)
    requires PercentagesInRange(t)
    ensures var r := CalculateCourseProgress(t, lessons, studentId, courseId);
      r.Some? ==> 0.0 <= r.value <= 100.0
  {
    var rows := FindByStudentIdAndCourseId(t, lessons, studentId, courseId);
    if |rows| > 0 {
      SumBounds(rows);
      var n := |rows| as real;
      var s := SumPercentages(rows) as real;
      DivideBound(s, n, 10000.0);
      assert 0.0 <= s / n;
    }
  }
}
