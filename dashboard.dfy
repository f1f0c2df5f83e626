// DashboardComponent: the per-role dashboard. A student's enrollments fall
// into completed (progress 100), in-progress (strictly between 0 and 100)
// and not-started (0) buckets; the donut chart shows the non-empty buckets,
// an instructor's chart the five most-enrolled courses, an admin's chart
// the completed / active / inactive enrollment split.
module Dashboard {
  import opened Wrappers
  import opened Client
  import opened Sorting

  /** An enrollment as the student dashboard lists it; progress may be null. */
  datatype EnrollmentView = EnrollmentView(courseId: int, progress: Option<real>)

  /** An instructor's course as the dashboard lists it. */
  datatype CourseStat = CourseStat(id: int, title: string, enrollmentCount: Option<int>)

  /** The dashboard response; each role's view reads its own fields. */
  datatype DashboardData = DashboardData(
    myEnrolledCourses: Option<seq<EnrollmentView>>,
    myCourses: Option<seq<CourseStat>>,
    totalEnrollments: Option<int>,
    activeEnrollments: Option<int>,
    completedEnrollments: Option<int>)

  /** A chart's parallel label, value and colour arrays. */
  datatype ChartData = ChartData(labels: seq<string>, data: seq<int>, colors: seq<string>)

  datatype ChartType = Donut | Bar

  const Placeholder := ChartData(["No Enrollments"], [1], ["#e5e7eb"])
  const NoData := ChartData(["No Data"], [1], ["#e5e7eb"])
  const Palette := ["#FF6B6B", "#4ECDC4", "#45B7D1", "#96CEB4", "#FFEAA7",
                    "#DDA0DD", "#98D8C8", "#F7DC6F", "#BB8FCE", "#85C1E9",
                    "#F8C471", "#82E0AA"]

  predicate WellFormed(c: ChartData)
  {
    |c.labels| == |c.data| == |c.colors|
  }

  // ---------------------------------------------------------------------
  // Progress figures

  /** getCourseStatus: exactly 0, exactly 100, anything else. */
  function CourseStatus(progress: real): (r: string)
    ensures r == "not-started" <==> progress == 0.0
    ensures r == "completed" <==> progress == 100.0
    ensures r == "in-progress" <==> progress != 0.0 && progress != 100.0
  {
    if progress == 0.0 then "not-started"
    else if progress == 100.0 then "completed"
    else "in-progress"
  }

  predicate IsCompleted(e: EnrollmentView) { e.progress == Some(100.0) }
  predicate IsInProgress(e: EnrollmentView) { e.progress.Some? && 0.0 < e.progress.value < 100.0 }
  predicate IsNotStarted(e: EnrollmentView) { e.progress == Some(0.0) }

  function CountCompleted(s: seq<EnrollmentView>): (r: nat)
    ensures r <= |s|
  {
    if |s| == 0 then 0 else (if IsCompleted(s[0]) then 1 else 0) + CountCompleted(s[1..])
  }

  function CountInProgress(s: seq<EnrollmentView>): (r: nat)
    ensures r <= |s|
  {
    if |s| == 0 then 0 else (if IsInProgress(s[0]) then 1 else 0) + CountInProgress(s[1..])
  }

  function CountNotStarted(s: seq<EnrollmentView>): (r: nat)
    ensures r <= |s|
  {
    if |s| == 0 then 0 else (if IsNotStarted(s[0]) then 1 else 0) + CountNotStarted(s[1..])
  }

  /** Progress reported by the server: present and within [0, 100]. */
  predicate InRange(e: EnrollmentView)
  {
    e.progress.Some? && 0.0 <= e.progress.value <= 100.0
  }

  /** The three buckets agree with getCourseStatus on in-range progress. */
  lemma {:induction false} StatusMatchesBuckets(e: EnrollmentView)
    requires InRange(e)
    ensures CourseStatus(e.progress.value) == "completed" <==> IsCompleted(e)
    ensures CourseStatus(e.progress.value) == "in-progress" <==> IsInProgress(e)
    ensures CourseStatus(e.progress.value) == "not-started" <==> IsNotStarted(e)
  {
  }

  /** With in-range progress every enrollment lands in exactly one bucket. */
  lemma {:induction false} BucketsPartition(s: seq<EnrollmentView>)
    requires forall i :: 0 <= i < |s| ==> InRange(s[i])
    ensures CountCompleted(s) + CountInProgress(s) + CountNotStarted(s) == |s|
  {
    if |s| > 0 {
      BucketsPartition(s[1..]);
    }
  }

  /** The summand of calculateOverallProgress: `Math.min(progress || 0, 100)`. */
  function CappedProgress(e: EnrollmentView): (r: real)
    ensures r <= 100.0
    ensures e.progress.None? || e.progress.value >= 0.0 ==> r >= 0.0
  {
    var p := RealOr(e.progress, 0.0);
    if p < 100.0 then p else 100.0
  }

  function SumCapped(s: seq<EnrollmentView>): (r: real)
    ensures r <= 100.0 * |s| as real
  {
    if |s| == 0 then 0.0 else CappedProgress(s[0]) + SumCapped(s[1..])
  }

  lemma {:induction false} SumCappedNonNegative(s: seq<EnrollmentView>)
    requires forall i :: 0 <= i < |s| ==> s[i].progress.None? || s[i].progress.value >= 0.0
    ensures SumCapped(s) >= 0.0
  {
    if |s| > 0 {
      SumCappedNonNegative(s[1..]);
    }
  }

  /**
   * calculateOverallProgress: for a student with an enrollment list, the
   * rounded mean of the capped progress values, capped again at 100; 0 for
   * everyone else and for an empty list.
   */
  function OverallProgress(role: Option<string>, enrolled: Option<seq<EnrollmentView>>): (r: int)
    ensures r <= 100
    ensures role != Some(Student) || enrolled.None? || |enrolled.value| == 0 ==> r == 0
  {
    if role == Some(Student) && enrolled.Some? then
      var s := enrolled.value;
      var result := if |s| > 0 then Round(SumCapped(s) / |s| as real) else 0;
      if result < 100 then result else 100
    else 0
  }

  lemma {:induction false} MeanBounds(total: real, n: real, hi: real)
    requires n > 0.0 && 0.0 <= total <= hi * n
    ensures 0.0 <= total / n <= hi
  {
    assert total / n * n == total;
  }

  /**
   * The mean never exceeds 100, so the final cap never changes the result;
   * with no negative progress the result is a percentage.
   */
  lemma {:induction false} OverallProgressIsMean(enrolled: seq<EnrollmentView>)
    requires |enrolled| > 0
    requires forall i :: 0 <= i < |enrolled| ==> enrolled[i].progress.None? || enrolled[i].progress.value >= 0.0
    ensures OverallProgress(Some(Student), Some(enrolled)) == Round(SumCapped(enrolled) / |enrolled| as real)
    ensures 0 <= OverallProgress(Some(Student), Some(enrolled)) <= 100
  {
    SumCappedNonNegative(enrolled);
    MeanPercent(SumCapped(enrolled), |enrolled|);
  }

  lemma {:induction false} MeanPercent(total: real, n: nat)
    requires n > 0 && 0.0 <= total <= 100.0 * n as real
    ensures 0 <= Round(total / n as real) <= 100
  {
    MeanBounds(total, n as real, 100.0);
  }

  /**
   * getCompletionPercentage: completed courses over `length || 1`, as a
   * rounded percentage.
   */
  function CompletionPercentage(completedCourses: int, enrolled: Option<seq<EnrollmentView>>): (r: int)
    ensures completedCourses == 0 ==> r == 0
    ensures enrolled.Some? && |enrolled.value| > 0 && completedCourses == |enrolled.value| ==> r == 100
  {
    var total := NumOr(if enrolled.Some? then Some(|enrolled.value|) else None, 1);
    assert total > 0 && (completedCourses == total ==> completedCourses as real / total as real == 1.0);
    Round(completedCourses as real / total as real * 100.0)
  }

  /** With the completed count taken from the list, the percentage is within [0, 100]. */
  lemma {:induction false} CompletionPercentageInRange(enrolled: Option<seq<EnrollmentView>>, completedCourses: int)
    requires 0 <= completedCourses
    requires enrolled.Some? ==> completedCourses <= |enrolled.value|
    requires enrolled.None? ==> completedCourses <= 1
    ensures 0 <= CompletionPercentage(completedCourses, enrolled) <= 100
  {
    var total := NumOr(if enrolled.Some? then Some(|enrolled.value|) else None, 1);
    MeanBounds(completedCourses as real, total as real, 1.0);
    assert 0.0 <= completedCourses as real / total as real * 100.0 <= 100.0;
  }

  /** The sum of `enrollmentCount || 0` over the courses. */
  function SumCounts(s: seq<CourseStat>): (r: int)
    ensures (forall i :: 0 <= i < |s| ==> Count(s[i]) >= 0) ==> r >= 0
  {
    if |s| == 0 then 0 else Count(s[0]) + SumCounts(s[1..])
  }

  /** With no negative count, the total is at least each course's count. */
  lemma {:induction false} SumCountsCoversEach(s: seq<CourseStat>, i: int)
    requires forall k :: 0 <= k < |s| ==> Count(s[k]) >= 0
    requires 0 <= i < |s|
    ensures Count(s[i]) <= SumCounts(s)
  {
    if i > 0 {
      assert forall k :: 0 <= k < |s| - 1 ==> s[1..][k] == s[k + 1];
      SumCountsCoversEach(s[1..], i - 1);
    }
  }

  /** calculateTotalEnrollments: the instructor's courses' enrollments; 0 for anyone else. */
  function TotalEnrollments(role: Option<string>, data: Option<DashboardData>): (r: int)
    ensures role != Some(Instructor) || data.None? || data.value.myCourses.None? ==> r == 0
  {
    if role == Some(Instructor) && data.Some? && data.value.myCourses.Some? then SumCounts(data.value.myCourses.value)
    else 0
  }

  /** calculateAverageStudentsPerCourse: the instructor's mean enrollments per course, rounded to one decimal. */
  function AverageStudentsPerCourse(role: Option<string>, data: Option<DashboardData>): (r: real)
    ensures role != Some(Instructor) || data.None? || data.value.myCourses.None? ==> r == 0.0
    ensures data.Some? && data.value.myCourses == Some([]) ==> r == 0.0
  {
    if role == Some(Instructor) && data.Some? && data.value.myCourses.Some? then
      var n := |data.value.myCourses.value|;
      if n == 0 then 0.0
      else Round(TotalEnrollments(role, data) as real / n as real * 10.0) as real / 10.0
    else 0.0
  }

  /** The one-decimal average lies within 0.05 of the exact mean of the counts. */
  lemma {:induction false} AverageNearMean(courses: seq<CourseStat>, rest: DashboardData)
    requires |courses| > 0 && rest.myCourses == Some(courses)
    ensures var mean := SumCounts(courses) as real / |courses| as real;
      mean - 0.05 < AverageStudentsPerCourse(Some(Instructor), Some(rest)) <= mean + 0.05
  {
    var x := SumCounts(courses) as real / |courses| as real * 10.0;
    assert x - 0.5 < Round(x) as real <= x + 0.5;
  }

  // ---------------------------------------------------------------------
  // Charts

  function Push(c: ChartData, name: string, value: int, color: string): ChartData
  {
    ChartData(c.labels + [name], c.data + [value], c.colors + [color])
  }

  /** The student's donut: the non-empty buckets in a fixed order, or the placeholder. */
  function StudentChart(completed: int, inProgress: int, notStarted: int): (r: ChartData)
    ensures WellFormed(r)
    ensures forall i :: 0 <= i < |r.data| ==> r.data[i] > 0
    ensures r == Placeholder <==> completed <= 0 && inProgress <= 0 && notStarted <= 0
    ensures "Completed" in r.labels <==> completed > 0
    ensures "In Progress" in r.labels <==> inProgress > 0
    ensures "Not Started" in r.labels <==> notStarted > 0
  {
    var c0 := ChartData([], [], []);
    var c1 := if completed > 0 then Push(c0, "Completed", completed, "#FF6B6B") else c0;
    var c2 := if inProgress > 0 then Push(c1, "In Progress", inProgress, "#4ECDC4") else c1;
    var c3 := if notStarted > 0 then Push(c2, "Not Started", notStarted, "#45B7D1") else c2;
    assert |c3.data| > 0 ==> c3.labels[0] != "No Enrollments";
    if |c3.data| == 0 then Placeholder else c3
  }

  function SumData(d: seq<int>): int
  {
    if |d| == 0 then 0 else d[0] + SumData(d[1..])
  }

  /** On in-range progress the student's slices add up to the number of enrollments. */
  lemma {:induction false} StudentChartCountsEveryEnrollment(s: seq<EnrollmentView>)
    requires |s| > 0
    requires forall i :: 0 <= i < |s| ==> InRange(s[i])
    ensures SumData(StudentChart(CountCompleted(s), CountInProgress(s), CountNotStarted(s)).data) == |s|
  {
    var a, b, c := CountCompleted(s), CountInProgress(s), CountNotStarted(s);
    assert a + b + c == |s| by {
      BucketsPartition(s);
    }
    StudentChartSum(a, b, c);
  }

  /** The non-empty buckets' values add up to the total. */
  lemma {:induction false} StudentChartSum(a: int, b: int, c: int)
    requires a >= 0 && b >= 0 && c >= 0 && a + b + c > 0
    ensures SumData(StudentChart(a, b, c).data) == a + b + c
  {
    var c0 := ChartData([], [], []);
    var c1 := if a > 0 then Push(c0, "Completed", a, "#FF6B6B") else c0;
    var c2 := if b > 0 then Push(c1, "In Progress", b, "#4ECDC4") else c1;
    var c3 := if c > 0 then Push(c2, "Not Started", c, "#45B7D1") else c2;
    assert SumData(c0.data) == 0;
    if a > 0 { SumDataAppend(c0.data, [a]); }
    if b > 0 { SumDataAppend(c1.data, [b]); }
    if c > 0 { SumDataAppend(c2.data, [c]); }
    assert SumData(c3.data) == a + b + c;
    assert |c3.data| > 0;
  }

  lemma {:induction false} SumDataAppend(x: seq<int>, y: seq<int>)
    ensures SumData(x + y) == SumData(x) + SumData(y)
  {
    if |x| > 0 {
      assert (x + y)[1..] == x[1..] + y;
      SumDataAppend(x[1..], y);
    } else {
      assert x + y == y;
    }
  }

  /** A course title shortened to 20 characters plus "..." when longer. */
  function ChartLabel(title: string): (r: string)
    ensures |r| <= 23
    ensures |title| <= 20 ==> r == title
    ensures |title| > 20 ==> |r| == 23 && r[..20] == title[..20] && r[20..] == "..."
  {
    if |title| > 20 then title[..20] + "..." else title
  }

  predicate Enrolled(c: CourseStat)
  {
    c.enrollmentCount.Some? && c.enrollmentCount.value > 0
  }

  function EnrolledOnly(s: seq<CourseStat>): (r: seq<CourseStat>)
    ensures forall c :: c in r <==> c in s && Enrolled(c)
    ensures forall i :: 0 <= i < |r| ==> Enrolled(r[i])
  {
    if |s| == 0 then []
    else if Enrolled(s[0]) then [s[0]] + EnrolledOnly(s[1..])
    else EnrolledOnly(s[1..])
  }

  function Count(c: CourseStat): int
  {
    if c.enrollmentCount.Some? then c.enrollmentCount.value else 0
  }

  /**
   * The instructor chart's courses: those with enrollments, most enrolled
   * first, at most five.
   */
  function TopCourses(courses: seq<CourseStat>): (r: seq<CourseStat>)
    ensures |r| <= 5
    ensures forall c :: c in r ==> c in courses && Enrolled(c)
  {
    var f := EnrolledOnly(courses);
    var sorted := SortDesc(f, Count);
    SortDescMembers(f, Count);
    var n := if 5 < |f| then 5 else |f|;
    assert forall c :: c in sorted[..n] ==> c in sorted;
    sorted[..n]
  }

  /**
   * The chart's courses are the most enrolled: in descending order, and any
   * enrolled course left out has no more enrollments than each one shown.
   */
  lemma {:induction false} TopCoursesAreMostEnrolled(courses: seq<CourseStat>)
    ensures SortedDesc(TopCourses(courses), Count)
    ensures forall c :: c in courses && Enrolled(c) && c !in TopCourses(courses) ==>
      forall y :: y in TopCourses(courses) ==> Count(c) <= Count(y)
  {
    var f := EnrolledOnly(courses);
    var sorted := SortDesc(f, Count);
    var n := if 5 < |f| then 5 else |f|;
    assert TopCourses(courses) == sorted[..n];
    forall c | c in courses && Enrolled(c) && c !in sorted[..n]
      ensures forall y :: y in sorted[..n] ==> Count(c) <= Count(y)
    {
      TopOfSortedDesc(f, Count, 5, c);
    }
  }

  /** The label, value and colour pushed for the i-th top course. */
  function CourseSlices(top: seq<CourseStat>, from: nat): (r: ChartData)
    ensures WellFormed(r) && |r.data| == |top|
    ensures forall i :: 0 <= i < |top| ==> r.labels[i] == ChartLabel(top[i].title)
    ensures forall i :: 0 <= i < |top| ==> r.data[i] == Count(top[i])
    ensures forall i :: 0 <= i < |top| ==> r.colors[i] == Palette[(from + i) % |Palette|]
    decreases |top|
  {
    if |top| == 0 then ChartData([], [], [])
    else
      var rest := CourseSlices(top[1..], from + 1);
      var r := ChartData([ChartLabel(top[0].title)] + rest.labels, [Count(top[0])] + rest.data,
                         [Palette[from % |Palette|]] + rest.colors);
      assert forall i :: 1 <= i < |top| ==> r.labels[i] == rest.labels[i - 1];
      assert forall i :: 1 <= i < |top| ==> r.data[i] == rest.data[i - 1];
      assert forall i :: 1 <= i < |top| ==> r.colors[i] == rest.colors[i - 1];
      r
  }

  /** generateInstructorDonutChartData as a value. */
  function InstructorChart(courses: Option<seq<CourseStat>>): (r: ChartData)
    ensures WellFormed(r)
    ensures |r.data| <= 5
    ensures forall i :: 0 <= i < |r.data| ==> r.data[i] > 0
  {
    if courses.None? then NoData
    else
      var top := TopCourses(courses.value);
      assert forall i :: 0 <= i < |top| ==> top[i] in top;
      if |top| == 0 then Placeholder else CourseSlices(top, 0)
  }

  /** The admin's split; "Inactive" is total − active − completed, shown only when positive. */
  function AdminChart(data: Option<DashboardData>): (r: ChartData)
    ensures WellFormed(r)
    ensures forall i :: 0 <= i < |r.data| ==> r.data[i] > 0
    ensures data.Some? ==>
      ("Inactive" in r.labels <==>
        NumOr(data.value.totalEnrollments, 0) - NumOr(data.value.activeEnrollments, 0)
          - NumOr(data.value.completedEnrollments, 0) > 0)
  {
    if data.None? then NoData
    else
      var total := NumOr(data.value.totalEnrollments, 0);
      var active := NumOr(data.value.activeEnrollments, 0);
      var completed := NumOr(data.value.completedEnrollments, 0);
      var c0 := ChartData([], [], []);
      var c1 := if completed > 0 then Push(c0, "Completed", completed, "#96CEB4") else c0;
      var c2 := if active > 0 then Push(c1, "Active", active, "#FFEAA7") else c1;
      var inactive := total - active - completed;
      var c3 := if inactive > 0 then Push(c2, "Inactive", inactive, "#DDA0DD") else c2;
      if |c3.data| == 0 then Placeholder else c3
  }

  function Toggled(t: ChartType): ChartType
  {
    if t == Donut then Bar else Donut
  }

  lemma {:induction false} ToggleTwice(t: ChartType)
    ensures Toggled(Toggled(t)) == t && Toggled(t) != t
  {
  }

  class DashboardComponent {
    var role: Option<string>
    var dashboardData: Option<DashboardData>
    var completedCourses: int
    var chartType: ChartType
    var donutChartData: ChartData
    var barChartData: seq<int>

    constructor(role: Option<string>)
      ensures this.role == role && dashboardData.None? && completedCourses == 0
      ensures chartType == Donut && barChartData == [0, 0, 0]
      ensures donutChartData == ChartData(["Loading..."], [1], ["#e5e7eb"])
    {
      this.role := role;
      dashboardData := None;
      completedCourses := 0;
      chartType := Donut;
      donutChartData := ChartData(["Loading..."], [1], ["#e5e7eb"]);
      barChartData := [0, 0, 0];
    }

    /**
     * The dashboard response for the user's role: the data is stored, a
     * student's completed count refreshed and the chart rebuilt; an error
     * clears the data and a 401 also logs out.
     */
    method DashboardLoaded(response: Result<DashboardData>, status: int) returns (logout: bool)
      modifies this
      ensures role == old(role) && chartType == old(chartType)
      ensures response.Err? ==> dashboardData.None? && logout == (status == 401)
      ensures response.Err? ==> donutChartData == old(donutChartData) && completedCourses == old(completedCourses)
      ensures response.Ok? ==> dashboardData == Some(response.value) && !logout
    {
      logout := false;
      if response.Err? {
        logout := status == 401;
        dashboardData := None;
        return;
      }
      dashboardData := Some(response.value);
      if role == Some(Student) {
        CalculateCompletedCourses();
      }
      UpdateDonutChartData();
    }

    /** calculateCompletedCourses: enrollments at exactly 100; kept when there is no list. */
    method CalculateCompletedCourses()
      modifies this
      ensures dashboardData == old(dashboardData) && role == old(role) && chartType == old(chartType)
      ensures donutChartData == old(donutChartData) && barChartData == old(barChartData)
      ensures completedCourses ==
        if dashboardData.Some? && dashboardData.value.myEnrolledCourses.Some?
        then CountCompleted(dashboardData.value.myEnrolledCourses.value)
        else old(completedCourses)
    {
      if dashboardData.Some? && dashboardData.value.myEnrolledCourses.Some? {
        completedCourses := CountCompleted(dashboardData.value.myEnrolledCourses.value);
      }
    }

    /** updateDonutChartData: the builder for the user's role; other roles change nothing. */
    method UpdateDonutChartData()
      modifies this
      ensures dashboardData == old(dashboardData) && role == old(role) && chartType == old(chartType)
      ensures completedCourses == old(completedCourses)
      ensures role == Some(Student) ==> donutChartData == StudentDonut(dashboardData, completedCourses)
      ensures role == Some(Instructor) ==>
        donutChartData == InstructorChart(if dashboardData.Some? then dashboardData.value.myCourses else None)
      ensures role == Some(Admin) ==> donutChartData == AdminChart(dashboardData)
      ensures role != Some(Student) && role != Some(Instructor) && role != Some(Admin) ==>
        donutChartData == old(donutChartData)
      ensures role != Some(Student) ==> barChartData == old(barChartData)
    {
      if role == Some(Student) {
        GenerateStudentDonutChartData();
      } else if role == Some(Instructor) {
        donutChartData := InstructorChart(if dashboardData.Some? then dashboardData.value.myCourses else None);
      } else if role == Some(Admin) {
        donutChartData := AdminChart(dashboardData);
      }
    }

    /** generateStudentDonutChartData, pushing one slice per non-empty bucket. */
    method GenerateStudentDonutChartData()
      modifies this
      ensures dashboardData == old(dashboardData) && role == old(role) && chartType == old(chartType)
      ensures completedCourses == old(completedCourses)
      ensures donutChartData == StudentDonut(dashboardData, completedCourses)
      ensures barChartData == StudentBars(dashboardData, completedCourses)
    {
      if dashboardData.Some? && dashboardData.value.myEnrolledCourses.Some? {
        var s := dashboardData.value.myEnrolledCourses.value;
        var completed := completedCourses;
        var inProgress := CountInProgress(s);
        var notStarted := CountNotStarted(s);
        var labels: seq<string> := [];
        var data: seq<int> := [];
        var colors: seq<string> := [];
        if completed > 0 {
          labels, data, colors := labels + ["Completed"], data + [completed], colors + ["#FF6B6B"];
        }
        if inProgress > 0 {
          labels, data, colors := labels + ["In Progress"], data + [inProgress], colors + ["#4ECDC4"];
        }
        if notStarted > 0 {
          labels, data, colors := labels + ["Not Started"], data + [notStarted], colors + ["#45B7D1"];
        }
        if |data| == 0 {
          labels, data, colors := labels + ["No Enrollments"], data + [1], colors + ["#e5e7eb"];
        }
        donutChartData := ChartData(labels, data, colors);
        barChartData := [completed, inProgress, notStarted];
      } else {
        donutChartData := NoData;
        barChartData := [0, 0, 0];
      }
    }

    /** toggleChartType: donut and bar alternate. */
    method ToggleChartType()
      modifies this
      ensures chartType == Toggled(old(chartType))
      ensures dashboardData == old(dashboardData) && donutChartData == old(donutChartData)
      ensures barChartData == old(barChartData) && completedCourses == old(completedCourses)
      ensures role == old(role)
    {
      chartType := if chartType == Donut then Bar else Donut;
    }
  }

  /** The student's donut for the stored data and completed count. */
  function StudentDonut(data: Option<DashboardData>, completedCourses: int): ChartData
  {
    if data.Some? && data.value.myEnrolledCourses.Some? then
      var s := data.value.myEnrolledCourses.value;
      StudentChart(completedCourses, CountInProgress(s), CountNotStarted(s))
    else NoData
  }

  /** The bar chart's completed / in-progress / not-started values. */
  function StudentBars(data: Option<DashboardData>, completedCourses: int): seq<int>
  {
    if data.Some? && data.value.myEnrolledCourses.Some? then
      var s := data.value.myEnrolledCourses.value;
      [completedCourses, CountInProgress(s), CountNotStarted(s)]
    else [0, 0, 0]
  }
}
