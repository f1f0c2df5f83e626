// CoursesComponent: the public course catalog with its search box,
// difficulty and category filters, "newest" / "popular" ordering and the
// hero statistics. `new Date(text).getTime()` is a parameter `time`.
module Courses {
  import opened Wrappers
  import opened Strings
  import Client
  import Sorting

  type CourseView = Client.CourseView

  /** One filter of filterCourses. */
  datatype Test = Mentions(term: string) | HasDifficulty(difficulty: string) | HasCategory(category: string)

  predicate Passes(c: CourseView, t: Test)
  {
    match t
    case Mentions(term) =>
      var q := ToLower(term);
      Contains(ToLower(c.title), q) ||
      (c.instructorName.Some? && Contains(ToLower(c.instructorName.value), q)) ||
      Contains(ToLower(c.description), q) ||
      (c.category.Some? && Contains(ToLower(c.category.value), q))
    case HasDifficulty(d) => c.difficulty == Some(d)
    case HasCategory(k) => c.category == Some(k)
  }

  /** `s.filter(p)`: the elements that pass, in order. */
  function Filter<T>(s: seq<T>, p: T -> bool): (r: seq<T>)
    ensures |r| <= |s|
  {
    if |s| == 0 then [] else (if p(s[0]) then [s[0]] else []) + Filter(s[1..], p)
  }

  lemma {:induction false} FilterAppend<T>(a: seq<T>, b: seq<T>, p: T -> bool)
    ensures Filter(a + b, p) == Filter(a, p) + Filter(b, p)
  {
    if |a| == 0 {
      assert a + b == b;
    } else {
      var h := if p(a[0]) then [a[0]] else [];
      assert (a + b)[0] == a[0] && (a + b)[1..] == a[1..] + b;
      assert Filter(a + b, p) == h + Filter(a[1..] + b, p);
      FilterAppend(a[1..], b, p);
      assert h + (Filter(a[1..], p) + Filter(b, p)) == (h + Filter(a[1..], p)) + Filter(b, p);
    }
  }

  /** `filtered.filter(course => passes)`. */
  function Keep(s: seq<CourseView>, t: Test): (r: seq<CourseView>)
    ensures |r| <= |s|
  {
    Filter(s, c => Passes(c, t))
  }

  lemma {:induction false} KeepAppend(a: seq<CourseView>, b: seq<CourseView>, t: Test)
    ensures Keep(a + b, t) == Keep(a, t) + Keep(b, t)
  {
    FilterAppend(a, b, c => Passes(c, t));
  }

  /** A course the catalog shows: every filter that is set lets it through. */
  predicate Matches(c: CourseView, term: string, difficulty: string, category: string)
  {
    (term == "" || Passes(c, Mentions(term))) &&
    (difficulty == "" || Passes(c, HasDifficulty(difficulty))) &&
    (category == "" || Passes(c, HasCategory(category)))
  }

  /** The matching courses in catalog order. */
  function MatchingCourses(courses: seq<CourseView>, term: string, difficulty: string, category: string): (r: seq<CourseView>)
    ensures forall c :: c in r <==> c in courses && Matches(c, term, difficulty, category)
    ensures |r| <= |courses|
  {
    if |courses| == 0 then []
    else
      assert forall c :: c in courses ==> c == courses[0] || c in courses[1..];
      (if Matches(courses[0], term, difficulty, category) then [courses[0]] else []) +
      MatchingCourses(courses[1..], term, difficulty, category)
  }

  /** One step of filterCourses: the filter when it is set, else the list as it is. */
  function Stage(s: seq<CourseView>, isSet: bool, t: Test): seq<CourseView>
  {
    if isSet then Keep(s, t) else s
  }

  /** filterCourses as written: search, then difficulty, then category, each only when set. */
  function Staged(courses: seq<CourseView>, term: string, difficulty: string, category: string): seq<CourseView>
  {
    var a := Stage(courses, term != "", Mentions(term));
    var b := Stage(a, difficulty != "", HasDifficulty(difficulty));
    Stage(b, category != "", HasCategory(category))
  }

  lemma {:induction false} StageAppend(x: seq<CourseView>, y: seq<CourseView>, isSet: bool, t: Test)
    ensures Stage(x + y, isSet, t) == Stage(x, isSet, t) + Stage(y, isSet, t)
  {
    if isSet {
      KeepAppend(x, y, t);
    }
  }

  lemma {:induction false} StagedAppend(x: seq<CourseView>, y: seq<CourseView>, term: string, difficulty: string, category: string)
    ensures Staged(x + y, term, difficulty, category) == Staged(x, term, difficulty, category) + Staged(y, term, difficulty, category)
  {
    var ax, ay := Stage(x, term != "", Mentions(term)), Stage(y, term != "", Mentions(term));
    StageAppend(x, y, term != "", Mentions(term));
    var bx, b2 := Stage(ax, difficulty != "", HasDifficulty(difficulty)), Stage(ay, difficulty != "", HasDifficulty(difficulty));
    StageAppend(ax, ay, difficulty != "", HasDifficulty(difficulty));
    StageAppend(bx, b2, category != "", HasCategory(category));
  }

  /** Filtering one test at a time gives exactly the matching courses, in order. */
  lemma {:induction false} StagedMatches(courses: seq<CourseView>, term: string, difficulty: string, category: string)
    ensures Staged(courses, term, difficulty, category) == MatchingCourses(courses, term, difficulty, category)
  {
    if |courses| > 0 {
      var c := courses[0];
      assert courses == [c] + courses[1..];
      StagedAppend([c], courses[1..], term, difficulty, category);
      StagedMatches(courses[1..], term, difficulty, category);
      assert [c][1..] == [];
    }
  }

  /** The "newest" key: the creation time, 0 when there is none. */
  function NewestKey(time: string -> int): CourseView -> int
  {
    (c: CourseView) => if c.createdAt.Some? && c.createdAt.value != "" then time(c.createdAt.value) else 0
  }

  /** The "popular" key: `enrollmentCount || 0`. */
  function PopularKey(c: CourseView): int
  {
    Client.NumOr(c.enrollmentCount, 0)
  }

  /**
   * sortCourses: a stable sort, largest key first, for "newest" and
   * "popular"; any other criterion keeps the order.
   */
  function SortedCourses(s: seq<CourseView>, criterion: string, time: string -> int): (r: seq<CourseView>)
    ensures multiset(r) == multiset(s) && |r| == |s|
    ensures criterion == "newest" ==> Sorting.SortedDesc(r, NewestKey(time))
    ensures criterion == "popular" ==> Sorting.SortedDesc(r, PopularKey)
    ensures criterion != "newest" && criterion != "popular" ==> r == s
  {
    if criterion == "newest" then Sorting.SortDesc(s, NewestKey(time))
    else if criterion == "popular" then Sorting.SortDesc(s, PopularKey)
    else s
  }

  /** The filter state is active iff some filter is set or the order is not the default. */
  function ActiveFilters(term: string, difficulty: string, category: string, sortBy: string): (r: bool)
    ensures r <==> term != "" || difficulty != "" || category != "" || sortBy != "newest"
  {
    !(term == "" && difficulty == "" && category == "" && sortBy == "newest")
  }

  const LoadFailed := "Failed to load courses. Please try again."

  /** The hero counts as the statistics endpoint returns them. */
  datatype Stats = Stats(totalStudents: Option<int>, totalInstructors: Option<int>)

  class CoursesComponent {
    var courses: seq<CourseView>
    var filteredCourses: seq<CourseView>
    var isLoading: bool
    var error: Option<string>
    var searchTerm: string
    var selectedDifficulty: string
    var selectedCategory: string
    var sortBy: string
    var totalCourses: int
    var totalStudents: int
    var totalInstructors: int

    constructor()
      ensures courses == [] && filteredCourses == [] && isLoading && error.None?
      ensures searchTerm == "" && selectedDifficulty == "" && selectedCategory == "" && sortBy == "newest"
      ensures totalCourses == 0 && totalStudents == 0 && totalInstructors == 0
    {
      courses, filteredCourses, isLoading, error := [], [], true, None;
      searchTerm, selectedDifficulty, selectedCategory, sortBy := "", "", "", "newest";
      totalCourses, totalStudents, totalInstructors := 0, 0, 0;
    }

    /** The search box, the two filters and the order are as they were. */
    twostate predicate SettingsUnchanged()
      reads this
    {
      searchTerm == old(searchTerm) && selectedDifficulty == old(selectedDifficulty) &&
      selectedCategory == old(selectedCategory) && sortBy == old(sortBy)
    }

    /** The hero counts of students and instructors are as they were. */
    twostate predicate StatsUnchanged()
      reads this
    {
      totalStudents == old(totalStudents) && totalInstructors == old(totalInstructors)
    }

    /** The shown list is the matching courses in the chosen order. */
    predicate Shows(time: string -> int)
      reads this
    {
      filteredCourses == SortedCourses(MatchingCourses(courses, searchTerm, selectedDifficulty, selectedCategory), sortBy, time)
    }

    /** filterCourses: the matching courses, then sorted by the current criterion. */
    method FilterCourses(time: string -> int)
      modifies this
      ensures filteredCourses == SortedCourses(MatchingCourses(courses, searchTerm, selectedDifficulty, selectedCategory), sortBy, time)
      ensures courses == old(courses) && isLoading == old(isLoading) && error == old(error)
      ensures SettingsUnchanged()
      ensures totalCourses == old(totalCourses) && StatsUnchanged()
    {
      var filtered := courses;
      if searchTerm != "" {
        filtered := Keep(filtered, Mentions(searchTerm));
      }
      if selectedDifficulty != "" {
        filtered := Keep(filtered, HasDifficulty(selectedDifficulty));
      }
      if selectedCategory != "" {
        filtered := Keep(filtered, HasCategory(selectedCategory));
      }
      StagedMatches(courses, searchTerm, selectedDifficulty, selectedCategory);
      filteredCourses := filtered;
      var sorted := SortCourses(None, time);
    }

    /**
     * sortCourses: `sortBy || this.sortBy` picks the criterion; the shown
     * list is sorted in place and returned.
     */
    method SortCourses(criterion: Option<string>, time: string -> int) returns (r: seq<CourseView>)
      modifies this
      ensures filteredCourses == SortedCourses(old(filteredCourses), Client.TextOr(criterion, sortBy), time)
      ensures r == filteredCourses
      ensures courses == old(courses) && isLoading == old(isLoading) && error == old(error)
      ensures SettingsUnchanged()
      ensures totalCourses == old(totalCourses) && StatsUnchanged()
    {
      filteredCourses := SortedCourses(filteredCourses, Client.TextOr(criterion, sortBy), time);
      r := filteredCourses;
    }

    /** clearFilters: every filter off, newest first, and the list rebuilt. */
    method ClearFilters(time: string -> int)
      modifies this
      ensures searchTerm == "" && selectedDifficulty == "" && selectedCategory == "" && sortBy == "newest"
      ensures filteredCourses == SortedCourses(courses, "newest", time)
      ensures !HasActiveFilters()
      ensures courses == old(courses) && isLoading == old(isLoading) && error == old(error)
      ensures totalCourses == old(totalCourses) && StatsUnchanged()
    {
      searchTerm, selectedDifficulty, selectedCategory, sortBy := "", "", "", "newest";
      FilterCourses(time);
      ClearedKeepsAll(courses);
    }

    /** hasActiveFilters. */
    function HasActiveFilters(): (r: bool)
      reads this
      ensures !r ==> MatchingCourses(courses, searchTerm, selectedDifficulty, selectedCategory) == courses
    {
      ClearedKeepsAll(courses);
      ActiveFilters(searchTerm, selectedDifficulty, selectedCategory, sortBy)
    }

    /**
     * loadCourses with the response: a list replaces the catalog, is counted
     * and filtered; a failure empties both lists and sets the error.
     */
    method LoadCourses(response: Option<seq<CourseView>>, time: string -> int)
      modifies this
      ensures !isLoading
      ensures response.Some? ==>
        courses == response.value && totalCourses == |courses| && error.None? && Shows(time)
      ensures response.None? ==>
        courses == [] && filteredCourses == [] && error == Some(LoadFailed) &&
        totalCourses == old(totalCourses)
      ensures SettingsUnchanged()
      ensures StatsUnchanged()
    {
      isLoading, error := true, None;
      if response.Some? {
        Loaded(response.value, time);
      } else {
        LoadFailure();
      }
    }

    /** The success path of loadCourses. */
    method Loaded(list: seq<CourseView>, time: string -> int)
      modifies this
      requires error.None?
      ensures !isLoading && error.None?
      ensures courses == list && totalCourses == |list| && Shows(time)
      ensures SettingsUnchanged()
      ensures StatsUnchanged()
    {
      courses := list;
      totalCourses := |courses|;
      FilterCourses(time);
      isLoading := false;
    }

    /** The error path of loadCourses. */
    method LoadFailure()
      modifies this
      ensures !isLoading && error == Some(LoadFailed)
      ensures courses == [] && filteredCourses == [] && totalCourses == old(totalCourses)
      ensures SettingsUnchanged()
      ensures StatsUnchanged()
    {
      error := Some(LoadFailed);
      courses := [];
      filteredCourses := [];
      isLoading := false;
    }

    /**
     * loadStats: the public statistics, else the admin statistics for an
     * administrator, else zero; `x || 0` on each count.
     */
    method LoadStats(publicStats: Option<Stats>, user: Option<Client.ClientUser>, adminStats: Option<Stats>)
      modifies this
      ensures publicStats.Some? ==>
        totalStudents == Client.NumOr(publicStats.value.totalStudents, 0) &&
        totalInstructors == Client.NumOr(publicStats.value.totalInstructors, 0)
      ensures publicStats.None? && user.Some? && user.value.role == Client.Admin && adminStats.Some? ==>
        totalStudents == Client.NumOr(adminStats.value.totalStudents, 0) &&
        totalInstructors == Client.NumOr(adminStats.value.totalInstructors, 0)
      ensures publicStats.None? && (user.None? || user.value.role != Client.Admin || adminStats.None?) ==>
        totalStudents == 0 && totalInstructors == 0
      ensures courses == old(courses) && filteredCourses == old(filteredCourses) && totalCourses == old(totalCourses)
      ensures isLoading == old(isLoading) && error == old(error)
      ensures SettingsUnchanged()
    {
      if publicStats.Some? {
        totalStudents := Client.NumOr(publicStats.value.totalStudents, 0);
        totalInstructors := Client.NumOr(publicStats.value.totalInstructors, 0);
      } else if user.Some? && user.value.role == Client.Admin {
        if adminStats.Some? {
          totalStudents := Client.NumOr(adminStats.value.totalStudents, 0);
          totalInstructors := Client.NumOr(adminStats.value.totalInstructors, 0);
        } else {
          totalStudents, totalInstructors := 0, 0;
        }
      } else {
        totalStudents, totalInstructors := 0, 0;
      }
    }
  }

  /** With every filter cleared the catalog keeps every course. */
  lemma {:induction false} ClearedKeepsAll(courses: seq<CourseView>)
    ensures MatchingCourses(courses, "", "", "") == courses
  {
    if |courses| > 0 {
      ClearedKeepsAll(courses[1..]);
      assert courses == [courses[0]] + courses[1..];
    }
  }
}
