// The VideoProgress entity: one student's viewing record for one lesson.
// The completion percentage is a BigDecimal percent with four decimals whose
// value always has at most two significant decimals, so the model keeps it
// as an integer number of hundredths of a percent (10000 is 100 %).
module VideoProgressEntity {
  import opened Wrappers

  /** 100 % in hundredths of a percent. */
  const FullPercent: int := 10000

  /** A saved record, as a value. `total` is None when the column is null. */
  datatype ProgressRow = ProgressRow(
    studentId: int,
    lessonId: int,
    watched: int,
    total: Option<int>,
    percentage: int,
    completed: bool)

  predicate HasPositiveTotal(total: Option<int>)
  {
    total.Some? && total.value > 0
  }

  /**
   * BigDecimal division with RoundingMode.HALF_UP to an integer: the nearest
   * integer to n / d, ties rounded away from zero.
   */
  function RoundHalfUp(n: int, d: int): (q: int)
    requires d > 0
    ensures n >= 0 ==> 2 * n - d < 2 * q * d <= 2 * n + d
    ensures n < 0 ==> 2 * n - d <= 2 * q * d < 2 * n + d
  {
    if n >= 0 then (2 * n + d) / (2 * d) else -((2 * -n + d) / (2 * d))
  }

  /**
   * watched / total rounded HALF_UP to four decimal places, times 100,
   * capped at 100 %, in hundredths of a percent.
   */
  function Percentage(watched: int, total: int): (p: int)
    requires total > 0
    ensures p <= FullPercent
    ensures watched >= 0 ==> p >= 0
    ensures p < FullPercent ==> p == RoundHalfUp(watched * 10000, total)
  {
    var q := RoundHalfUp(watched * 10000, total);
    if q > FullPercent then FullPercent else q
  }

  lemma {:induction false} MulLeft(a: int, b: int, c: int)
    requires c > 0 && a <= b
    ensures a * c <= b * c
  {
  }

  /**
   * The percentage reaches k hundredths exactly when watched/total is at
   * least (k - 1/2) / 10000: that is where HALF_UP rounding tips over.
   */
  lemma {:induction false} PercentageAtLeast(watched: int, total: int, k: int)
    requires total > 0 && 1 <= k <= FullPercent
    ensures Percentage(watched, total) >= k <==> 20000 * watched >= (2 * k - 1) * total
  {
    var n := watched * 10000;
    var q := RoundHalfUp(n, total);
    var p := Percentage(watched, total);
    if p >= k {
      assert q >= k;
      MulLeft(k, q, total);
      if n < 0 {
        assert false;
      }
      assert 2 * k * total <= 2 * q * total <= 2 * n + total;
    }
    if 20000 * watched >= (2 * k - 1) * total {
      assert n >= 0;
      if q < k {
        MulLeft(q, k - 1, total);
        assert false;
      }
    }
  }

  /** After a recompute with a positive total, `completed` means 100 %. */
  lemma {:induction false} FullPercentMeansAlmostAll(watched: int, total: int)
    requires total > 0
    ensures Percentage(watched, total) == FullPercent <==> 20000 * watched >= 19999 * total
  {
    PercentageAtLeast(watched, total, FullPercent);
  }

  /** calculateCompletionPercentage on a saved value. */
  function Recomputed(r: ProgressRow): (s: ProgressRow)
    ensures s.studentId == r.studentId && s.lessonId == r.lessonId
    ensures s.watched == r.watched && s.total == r.total
    ensures !HasPositiveTotal(r.total) ==> s == r
    ensures HasPositiveTotal(r.total) ==>
      s.percentage == Percentage(r.watched, r.total.value) && s.completed == (s.percentage >= FullPercent)
  {
    if HasPositiveTotal(r.total) then
      var p := Percentage(r.watched, r.total.value);
      r.(percentage := p, completed := p >= FullPercent)
    else r
  }

  lemma {:induction false} RecomputeIdempotent(r: ProgressRow)
    ensures Recomputed(Recomputed(r)) == Recomputed(r)
  {
  }

  /**
   * A record with a positive total whose percentage and flag came from a
   * recompute: the flag then says exactly "watched to the end".
   */
  predicate Calculated(r: ProgressRow)
  {
    HasPositiveTotal(r.total) && r.percentage == Percentage(r.watched, r.total.value)
      && r.completed == (20000 * r.watched >= 19999 * r.total.value)
  }

  lemma {:induction false} RecomputedIsCalculated(r: ProgressRow)
    requires HasPositiveTotal(r.total)
    ensures Calculated(Recomputed(r))
  {
    FullPercentMeansAlmostAll(r.watched, r.total.value);
  }

  /**
   * The entity object. Its setters for the two durations re-run the
   * percentage calculation; the setters for the percentage and the flag
   * store what they are given.
   */
  class VideoProgress {
    var studentId: int
    var lessonId: int
    var watchedDuration: int
    var totalDuration: Option<int>
    var completionPercentage: int
    var isCompleted: bool

    function Row(): ProgressRow
      reads this
    {
      ProgressRow(studentId, lessonId, watchedDuration, totalDuration, completionPercentage, isCompleted)
    }

    /** The no-argument constructor: the field initialisers' defaults. */
    constructor Empty()
      ensures Row() == ProgressRow(0, 0, 0, Some(0), 0, false)
    {
      studentId, lessonId := 0, 0;
      watchedDuration := 0;
      totalDuration := Some(0);
      completionPercentage := 0;
      isCompleted := false;
    }

    /** The four-argument constructor: defaults, then the given values, then a recompute. */
    constructor (student: int, lesson: int, watched: int, total: Option<int>)
      ensures Row() == Recomputed(ProgressRow(student, lesson, watched, total, 0, false))
    {
      studentId, lessonId := student, lesson;
      watchedDuration := watched;
      totalDuration := total;
      completionPercentage := 0;
      isCompleted := false;
      new;
      CalculateCompletionPercentage();
    }

    /** The persistence layer materialising a stored record. */
    constructor Load(r: ProgressRow)
      ensures Row() == r
    {
      studentId, lessonId := r.studentId, r.lessonId;
      watchedDuration, totalDuration := r.watched, r.total;
      completionPercentage, isCompleted := r.percentage, r.completed;
    }

    method CalculateCompletionPercentage()
      modifies this
      ensures Row() == Recomputed(old(Row()))
    {
      if totalDuration.Some? && totalDuration.value > 0 {
        var q := RoundHalfUp(watchedDuration * 10000, totalDuration.value);
        completionPercentage := if q > FullPercent then FullPercent else q;
        isCompleted := completionPercentage >= FullPercent;
      }
    }

    method SetWatchedDuration(w: int)
      modifies this
      ensures Row() == Recomputed(old(Row()).(watched := w))
    {
      watchedDuration := w;
      CalculateCompletionPercentage();
    }

    method SetTotalDuration(t: Option<int>)
      modifies this
      ensures Row() == Recomputed(old(Row()).(total := t))
    {
      totalDuration := t;
      CalculateCompletionPercentage();
    }

    method SetCompletionPercentage(p: int)
      modifies this
      ensures Row() == old(Row()).(percentage := p)
    {
      completionPercentage := p;
    }

    method SetIsCompleted(b: bool)
      modifies this
      ensures Row() == old(Row()).(completed := b)
    {
      isCompleted := b;
    }
  }
}
