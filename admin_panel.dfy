// AdminPanelComponent: the administrator's user and course tables, their
// search boxes and ten-row pages, the page-number strip, local removal after
// a successful delete, and the CSV exports.
module AdminPanel {
  import opened Wrappers
  import opened Strings
  import Client

  /** A user row as the admin user list returns it. */
  datatype AdminUser = AdminUser(
    id: int,
    name: Option<string>,
    email: Option<string>,
    roleName: Option<string>,
    createdAt: Option<string>)

  /** The overview cards: recent users and top courses with display defaults. */
  datatype UserCard = UserCard(name: string, email: string, role: string)
  datatype CourseCard = CourseCard(title: string, instructor: string)

  /** The result of a delete request as the toast shows it. */
  datatype Notice = NoNotice | Deleted | NotAuthorized | Failed(message: string)

  const PageSize := 10
  const MaxPagesToShow := 7

  function Max(a: int, b: int): int { if a >= b then a else b }
  function Min(a: int, b: int): int { if a <= b then a else b }

  /** `Math.ceil(n / pageSize)`. */
  function PageCount(n: nat): (r: nat)
    ensures n == 0 ==> r == 0
    ensures n > 0 ==> (r - 1) * PageSize < n <= r * PageSize
  {
    (n + PageSize - 1) / PageSize
  }

  // ---------------------------------------------------------------------
  // Page-number strip

  /** The integers a, a+1, ..., b (empty when b < a). */
  function Span(a: int, b: int): (r: seq<int>)
    ensures |r| == if b < a then 0 else b - a + 1
    ensures forall i :: 0 <= i < |r| ==> r[i] == a + i
    decreases b - a
  {
    if b < a then [] else Span(a, b - 1) + [b]
  }

  function FirstGuess(currentPage: int): int
  {
    Max(1, currentPage - MaxPagesToShow / 2)
  }

  function WindowEnd(totalPages: int, currentPage: int): int
  {
    Min(totalPages, FirstGuess(currentPage) + MaxPagesToShow - 1)
  }

  /** The first page shown, moved left when the window runs into the last page. */
  function WindowStart(totalPages: int, currentPage: int): int
  {
    var start := FirstGuess(currentPage);
    var end := WindowEnd(totalPages, currentPage);
    if end - start < MaxPagesToShow - 1 then Max(1, end - MaxPagesToShow + 1) else start
  }

  /**
   * getPageNumbers: consecutive ascending pages inside [1, totalPages],
   * min(7, totalPages) of them, always including the current page when it
   * is a real page.
   */
  function PageWindow(totalPages: int, currentPage: int): (r: seq<int>)
    ensures totalPages >= 0 ==> |r| == Min(MaxPagesToShow, totalPages)
    ensures forall i :: 0 <= i < |r| ==> 1 <= r[i] <= totalPages
    ensures forall i :: 0 <= i < |r| - 1 ==> r[i + 1] == r[i] + 1
    ensures 1 <= currentPage <= totalPages ==> currentPage in r
  {
    var start := WindowStart(totalPages, currentPage);
    var end := WindowEnd(totalPages, currentPage);
    var r := Span(start, end);
    assert 1 <= currentPage <= totalPages ==> r[currentPage - start] == currentPage;
    r
  }

  // ---------------------------------------------------------------------
  // Search

  predicate MentionsTerm(u: AdminUser, term: string)
  {
    (u.name.Some? && Contains(ToLower(u.name.value), ToLower(term))) ||
    (u.email.Some? && Contains(ToLower(u.email.value), ToLower(term)))
  }

  /** The user search: a set term must occur in name or email, a set role must match. */
  predicate UserMatches(u: AdminUser, term: string, role: string)
  {
    (term == "" || MentionsTerm(u, term)) && (role == "" || u.roleName == Some(role))
  }

  /** The users that match, in their original order. */
  function MatchingUsers(users: seq<AdminUser>, term: string, role: string): (r: seq<AdminUser>)
    ensures forall u :: u in r <==> u in users && UserMatches(u, term, role)
    ensures |r| <= |users|
  {
    if |users| == 0 then []
    else
      assert forall u :: u in users ==> u == users[0] || u in users[1..];
      (if UserMatches(users[0], term, role) then [users[0]] else []) + MatchingUsers(users[1..], term, role)
  }

  /** `filter(name or email includes term)`. */
  function WithTerm(users: seq<AdminUser>, term: string): seq<AdminUser>
  {
    if |users| == 0 then []
    else (if MentionsTerm(users[0], term) then [users[0]] else []) + WithTerm(users[1..], term)
  }

  /** `filter(role?.roleName === role)`. */
  function WithRole(users: seq<AdminUser>, role: string): seq<AdminUser>
  {
    if |users| == 0 then []
    else (if users[0].roleName == Some(role) then [users[0]] else []) + WithRole(users[1..], role)
  }

  /** The search as written, one filter after the other, each only when its input is set. */
  function SearchedUsers(users: seq<AdminUser>, term: string, role: string): seq<AdminUser>
  {
    var byTerm := if term == "" then users else WithTerm(users, term);
    if role == "" then byTerm else WithRole(byTerm, role)
  }

  /** Filtering in two passes keeps exactly the users the combined test keeps, in order. */
  lemma {:induction false} SearchedUsersMatch(users: seq<AdminUser>, term: string, role: string)
    ensures SearchedUsers(users, term, role) == MatchingUsers(users, term, role)
  {
    if |users| > 0 {
      SearchedUsersMatch(users[1..], term, role);
      var u := users[0];
      var rest := users[1..];
      var byTerm := if term == "" then users else WithTerm(users, term);
      var restByTerm := if term == "" then rest else WithTerm(rest, term);
      var head := if term == "" || MentionsTerm(u, term) then [u] else [];
      assert byTerm == head + restByTerm by {
        if term == "" { assert users == [u] + rest; }
      }
      if role != "" {
        WithRoleAppend(head, restByTerm, role);
      }
    }
  }

  lemma {:induction false} WithRoleAppend(a: seq<AdminUser>, b: seq<AdminUser>, role: string)
    ensures WithRole(a + b, role) == WithRole(a, role) + WithRole(b, role)
  {
    if |a| > 0 {
      WithRoleAppend(a[1..], b, role);
      assert (a + b)[1..] == a[1..] + b;
    } else {
      assert a + b == b;
    }
  }

  predicate MentionsCourse(c: Client.CourseView, term: string)
  {
    Contains(ToLower(c.title), ToLower(term)) ||
    (c.instructorName.Some? && Contains(ToLower(c.instructorName.value), ToLower(term)))
  }

  /** searchCourses: title or instructor name contains the term; an empty term keeps every course. */
  function MatchingCourses(courses: seq<Client.CourseView>, term: string): (r: seq<Client.CourseView>)
    ensures forall c :: c in r <==> c in courses && (term == "" || MentionsCourse(c, term))
    ensures term == "" ==> r == courses
    ensures |r| <= |courses|
  {
    if |courses| == 0 then []
    else
      assert forall c :: c in courses ==> c == courses[0] || c in courses[1..];
      assert courses == [courses[0]] + courses[1..];
      (if term == "" || MentionsCourse(courses[0], term) then [courses[0]] else []) + MatchingCourses(courses[1..], term)
  }

  // ---------------------------------------------------------------------
  // Local removal after a delete

  function UserKey(u: AdminUser): int { u.id }
  function CourseKey(c: Client.CourseView): int { c.id }

  /** `list.filter(x => x.id !== id)`. */
  function WithoutId<T(!new)>(s: seq<T>, id: int, key: T -> int): (r: seq<T>)
    ensures forall x :: x in r <==> x in s && key(x) != id
    ensures |r| <= |s|
  {
    if |s| == 0 then []
    else
      assert forall x :: x in s ==> x == s[0] || x in s[1..];
      (if key(s[0]) != id then [s[0]] else []) + WithoutId(s[1..], id, key)
  }

  /** Removing an id that is already gone changes nothing. */
  lemma {:induction false} WithoutIdTwice<T(!new)>(s: seq<T>, id: int, key: T -> int)
    ensures WithoutId(WithoutId(s, id, key), id, key) == WithoutId(s, id, key)
  {
    if |s| > 0 {
      WithoutIdTwice(s[1..], id, key);
      var rest := WithoutId(s[1..], id, key);
      if key(s[0]) != id {
        assert WithoutId(s, id, key) == [s[0]] + rest;
        assert ([s[0]] + rest)[1..] == rest;
        assert WithoutId([s[0]] + rest, id, key) == [s[0]] + WithoutId(rest, id, key);
      } else {
        assert WithoutId(s, id, key) == rest;
      }
    }
  }

  function UserCardOf(u: AdminUser): UserCard
  {
    UserCard(Client.TextOr(u.name, "Unknown User"), Client.TextOr(u.email, "No email"), Client.TextOr(u.roleName, "STUDENT"))
  }

  function UserCards(us: seq<AdminUser>): (r: seq<UserCard>)
    ensures |r| == |us| && forall i :: 0 <= i < |us| ==> r[i] == UserCardOf(us[i])
  {
    if |us| == 0 then [] else [UserCardOf(us[0])] + UserCards(us[1..])
  }

  /** `users.slice(-5).map(...)`: the last five rows of the list, with display defaults. */
  function LastUserCards(users: seq<AdminUser>): (r: seq<UserCard>)
    ensures |r| == Min(5, |users|)
    ensures forall i :: 0 <= i < |r| ==> r[i] == UserCardOf(users[|users| - |r| + i])
  {
    UserCards(users[|users| - Min(5, |users|)..])
  }

  function CourseCardOf(c: Client.CourseView): CourseCard
  {
    CourseCard(if c.title != "" then c.title else "Unknown Course", Client.TextOr(c.instructorName, "Unknown Instructor"))
  }

  function CourseCards(cs: seq<Client.CourseView>): (r: seq<CourseCard>)
    ensures |r| == |cs| && forall i :: 0 <= i < |cs| ==> r[i] == CourseCardOf(cs[i])
  {
    if |cs| == 0 then [] else [CourseCardOf(cs[0])] + CourseCards(cs[1..])
  }

  /** `courses.slice(0, 5).map(...)`: the first five courses, with display defaults. */
  function FirstCourseCards(courses: seq<Client.CourseView>): (r: seq<CourseCard>)
    ensures |r| == Min(5, |courses|)
    ensures forall i :: 0 <= i < |r| ==> r[i] == CourseCardOf(courses[i])
  {
    CourseCards(courses[..Min(5, |courses|)])
  }

  /** The error toast of a failed delete: 401, 403, anything else. */
  function DeleteFailure(status: int, what: string): (r: Notice)
    ensures status == 401 <==> r == NotAuthorized
    ensures status == 403 ==> r == Failed("Admin role required to delete " + what + ".")
    ensures status != 401 && status != 403 ==> r == Failed("Failed to delete " + DropLastS(what) + ". Please try again.")
  {
    if status == 401 then NotAuthorized
    else if status == 403 then Failed("Admin role required to delete " + what + ".")
    else Failed("Failed to delete " + DropLastS(what) + ". Please try again.")
  }

  /** "users" to "user", "courses" to "course". */
  function DropLastS(what: string): string
  {
    if |what| > 0 then what[..|what| - 1] else what
  }

  // ---------------------------------------------------------------------
  // CSV export

  function Quote(cell: string): string
  {
    "\"" + cell + "\""
  }

  function QuoteAll(cells: seq<string>): (r: seq<string>)
    ensures |r| == |cells| && forall k :: 0 <= k < |cells| ==> r[k] == Quote(cells[k])
  {
    if |cells| == 0 then [] else [Quote(cells[0])] + QuoteAll(cells[1..])
  }

  /** `row.map(cell => '"' + cell + '"').join(',')`. */
  function QuotedRow(cells: seq<string>): string
  {
    Join(QuoteAll(cells), ',')
  }

  function QuotedRows(rows: seq<seq<string>>): (r: seq<string>)
    ensures |r| == |rows| && forall k :: 0 <= k < |rows| ==> r[k] == QuotedRow(rows[k])
  {
    if |rows| == 0 then [] else [QuotedRow(rows[0])] + QuotedRows(rows[1..])
  }

  /** `[headers.join(','), ...quoted rows].join('\n')`. */
  function Csv(headers: seq<string>, rows: seq<seq<string>>): string
  {
    Join([Join(headers, ',')] + QuotedRows(rows), '\n')
  }

  predicate NoNewline(cells: seq<string>)
  {
    forall k :: 0 <= k < |cells| ==> '\n' !in cells[k]
  }

  /**
   * A CSV whose cells hold no line break has one line for the headers and
   * then exactly one line per row, each the row's cells quoted and joined
   * by commas.
   */
  lemma {:induction false} CsvLines(headers: seq<string>, rows: seq<seq<string>>)
    requires NoNewline(headers)
    requires forall i :: 0 <= i < |rows| ==> NoNewline(rows[i])
    ensures Pieces(Csv(headers, rows), '\n') == [Join(headers, ',')] + QuotedRows(rows)
  {
    var lines := [Join(headers, ',')] + QuotedRows(rows);
    JoinAvoids(headers, ',', '\n');
    forall k | 0 <= k < |rows| ensures '\n' !in QuotedRow(rows[k]) {
      var q := QuoteAll(rows[k]);
      forall m | 0 <= m < |q| ensures '\n' !in q[m] {
        assert q[m] == "\"" + rows[k][m] + "\"";
      }
      JoinAvoids(q, ',', '\n');
    }
    forall k | 0 <= k < |lines| ensures '\n' !in lines[k] {
      if k > 0 {
        assert lines[k] == QuotedRow(rows[k - 1]);
      }
    }
    PiecesJoin(lines, '\n');
  }

  const UserHeaders := ["ID", "Name", "Email", "Role", "Created Date"]
  const CourseHeaders := ["ID", "Title", "Description", "Difficulty", "Instructor", "Created Date"]

  /** `x.id || ''`: the id as text, empty for the falsy id 0. */
  function IdCell(id: int): (r: string)
    ensures '\n' !in r
  {
    if id == 0 then ""
    else
      var t := IntToString(id);
      assert id > 0 ==> t == NatToString(id);
      assert id < 0 ==> t == "-" + NatToString(-id);
      t
  }

  function UserCells(u: AdminUser): seq<string>
  {
    [IdCell(u.id), Client.TextOr(u.name, ""), Client.TextOr(u.email, ""),
     Client.TextOr(u.roleName, "STUDENT"), Client.TextOr(u.createdAt, "")]
  }

  function UserRows(users: seq<AdminUser>): (r: seq<seq<string>>)
    ensures |r| == |users| && forall i :: 0 <= i < |users| ==> r[i] == UserCells(users[i])
  {
    if |users| == 0 then [] else [UserCells(users[0])] + UserRows(users[1..])
  }

  /** convertUsersToCSV. */
  function UsersCsv(users: seq<AdminUser>): string
  {
    Csv(UserHeaders, UserRows(users))
  }

  /** `s.replace(/"/g, '""')`: every quote doubled. */
  function EscapeQuotes(s: string): (r: string)
    ensures |r| >= |s|
  {
    if |s| == 0 then ""
    else (if s[0] == '"' then "\"\"" else [s[0]]) + EscapeQuotes(s[1..])
  }

  /** Reading an escaped cell back: each doubled quote stands for one quote. */
  function UnescapeQuotes(s: string): string
    decreases |s|
  {
    if |s| == 0 then ""
    else if |s| >= 2 && s[0] == '"' && s[1] == '"' then "\"" + UnescapeQuotes(s[2..])
    else [s[0]] + UnescapeQuotes(s[1..])
  }

  /** The escaping loses nothing: a CSV reader recovers the original text. */
  lemma {:induction false} UnescapeEscape(s: string)
    ensures UnescapeQuotes(EscapeQuotes(s)) == s
  {
    if |s| > 0 {
      UnescapeEscape(s[1..]);
      var e := EscapeQuotes(s);
      if s[0] == '"' {
        assert e == "\"\"" + EscapeQuotes(s[1..]);
        assert e[2..] == EscapeQuotes(s[1..]);
      } else {
        assert e == [s[0]] + EscapeQuotes(s[1..]);
        assert e[1..] == EscapeQuotes(s[1..]);
      }
      assert [s[0]] + s[1..] == s;
    }
  }

  function CourseCells(c: Client.CourseView): seq<string>
  {
    [IdCell(c.id), c.title, EscapeQuotes(c.description), Client.TextOr(c.difficulty, ""),
     Client.TextOr(c.instructorName, ""), Client.TextOr(c.createdAt, "")]
  }

  function CourseRows(courses: seq<Client.CourseView>): (r: seq<seq<string>>)
    ensures |r| == |courses| && forall i :: 0 <= i < |courses| ==> r[i] == CourseCells(courses[i])
  {
    if |courses| == 0 then [] else [CourseCells(courses[0])] + CourseRows(courses[1..])
  }

  /** convertCoursesToCSV. */
  function CoursesCsv(courses: seq<Client.CourseView>): string
  {
    Csv(CourseHeaders, CourseRows(courses))
  }

  /** `'\n'` occurs in the escaped text only where it occurs in the original. */
  lemma {:induction false} EscapeKeepsNewlines(s: string)
    requires '\n' !in s
    ensures '\n' !in EscapeQuotes(s)
  {
    if |s| > 0 {
      EscapeKeepsNewlines(s[1..]);
    }
  }

  predicate NoNewlineText(s: Option<string>)
  {
    s.None? || '\n' !in s.value
  }

  predicate NoNewlineRows(rows: seq<seq<string>>)
  {
    forall i :: 0 <= i < |rows| ==> NoNewline(rows[i])
  }

  /** The lines of a CSV whose cells hold no line break, one by one. */
  lemma {:induction false} CsvLineByLine(headers: seq<string>, rows: seq<seq<string>>)
    requires NoNewline(headers) && NoNewlineRows(rows)
    ensures var lines := Pieces(Csv(headers, rows), '\n');
      |lines| == |rows| + 1 && lines[0] == Join(headers, ',') &&
      forall i :: 0 <= i < |rows| ==> lines[i + 1] == QuotedRow(rows[i])
  {
    CsvLines(headers, rows);
  }

  lemma {:induction false} UserCellsNoNewline(u: AdminUser)
    requires NoNewlineText(u.name) && NoNewlineText(u.email) && NoNewlineText(u.roleName) && NoNewlineText(u.createdAt)
    ensures NoNewline(UserCells(u))
  {
    var cells := UserCells(u);
    assert '\n' !in "STUDENT";
    forall k | 0 <= k < |cells| ensures '\n' !in cells[k] {
    }
  }

  /** The user export has a header line and one line per user, when no field holds a line break. */
  lemma {:induction false} UsersCsvLines(users: seq<AdminUser>)
    requires forall u :: u in users ==>
      NoNewlineText(u.name) && NoNewlineText(u.email) && NoNewlineText(u.roleName) && NoNewlineText(u.createdAt)
    ensures var lines := Pieces(UsersCsv(users), '\n');
      |lines| == |users| + 1 && lines[0] == Join(UserHeaders, ',') &&
      forall i :: 0 <= i < |users| ==> lines[i + 1] == QuotedRow(UserCells(users[i]))
  {
    var rows := UserRows(users);
    forall i | 0 <= i < |rows| ensures NoNewline(rows[i]) {
      assert users[i] in users;
      UserCellsNoNewline(users[i]);
    }
    assert NoNewline(UserHeaders);
    CsvLineByLine(UserHeaders, rows);
  }

  lemma {:induction false} CourseCellsNoNewline(c: Client.CourseView)
    requires '\n' !in c.title && '\n' !in c.description && NoNewlineText(c.difficulty)
    requires NoNewlineText(c.instructorName) && NoNewlineText(c.createdAt)
    ensures NoNewline(CourseCells(c))
  {
    var cells := CourseCells(c);
    EscapeKeepsNewlines(c.description);
    forall k | 0 <= k < |cells| ensures '\n' !in cells[k] {
    }
  }

  /** The course export likewise; a description's quotes are doubled, never its line breaks. */
  lemma {:induction false} CoursesCsvLines(courses: seq<Client.CourseView>)
    requires forall c :: c in courses ==>
      '\n' !in c.title && '\n' !in c.description && NoNewlineText(c.difficulty) &&
      NoNewlineText(c.instructorName) && NoNewlineText(c.createdAt)
    ensures var lines := Pieces(CoursesCsv(courses), '\n');
      |lines| == |courses| + 1 && lines[0] == Join(CourseHeaders, ',') &&
      forall i :: 0 <= i < |courses| ==> lines[i + 1] == QuotedRow(CourseCells(courses[i]))
  {
    var rows := CourseRows(courses);
    forall i | 0 <= i < |rows| ensures NoNewline(rows[i]) {
      assert courses[i] in courses;
      CourseCellsNoNewline(courses[i]);
    }
    assert NoNewline(CourseHeaders);
    CsvLineByLine(CourseHeaders, rows);
  }

  // ---------------------------------------------------------------------
  // The component

  class AdminPanelComponent {
    var users: seq<AdminUser>
    var filteredUsers: seq<AdminUser>
    var userSearchTerm: string
    var userFilterRole: string
    var userCurrentPage: int
    var userTotalPages: int

    var courses: seq<Client.CourseView>
    var filteredCourses: seq<Client.CourseView>
    var courseSearchTerm: string
    var courseCurrentPage: int
    var courseTotalPages: int

    var totalUsers: int
    var totalCourses: int
    var recentUsers: seq<UserCard>
    var topCourses: seq<CourseCard>

    constructor()
      ensures users == [] && filteredUsers == [] && userSearchTerm == "" && userFilterRole == ""
      ensures userCurrentPage == 1 && userTotalPages == 1
      ensures courses == [] && filteredCourses == [] && courseSearchTerm == ""
      ensures courseCurrentPage == 1 && courseTotalPages == 1
      ensures totalUsers == 0 && totalCourses == 0 && recentUsers == [] && topCourses == []
    {
      users, filteredUsers, userSearchTerm, userFilterRole := [], [], "", "";
      userCurrentPage, userTotalPages := 1, 1;
      courses, filteredCourses, courseSearchTerm := [], [], "";
      courseCurrentPage, courseTotalPages := 1, 1;
      totalUsers, totalCourses, recentUsers, topCourses := 0, 0, [], [];
    }

    twostate predicate UserSideUnchanged()
      reads this
    {
      users == old(users) && filteredUsers == old(filteredUsers) && userSearchTerm == old(userSearchTerm) &&
      userFilterRole == old(userFilterRole) && userCurrentPage == old(userCurrentPage) &&
      userTotalPages == old(userTotalPages) && totalUsers == old(totalUsers) && recentUsers == old(recentUsers)
    }

    twostate predicate CourseSideUnchanged()
      reads this
    {
      courses == old(courses) && filteredCourses == old(filteredCourses) &&
      courseSearchTerm == old(courseSearchTerm) && courseCurrentPage == old(courseCurrentPage) &&
      courseTotalPages == old(courseTotalPages) && totalCourses == old(totalCourses) && topCourses == old(topCourses)
    }

    /** loadUsers: `users || []`, shown unfiltered. */
    method LoadUsers(response: Option<seq<AdminUser>>)
      modifies this
      ensures users == (if response.Some? then response.value else []) && filteredUsers == users
      ensures userTotalPages == PageCount(|users|)
      ensures userSearchTerm == old(userSearchTerm) && userFilterRole == old(userFilterRole)
      ensures userCurrentPage == old(userCurrentPage) && totalUsers == old(totalUsers) && recentUsers == old(recentUsers)
      ensures CourseSideUnchanged()
    {
      users := if response.Some? then response.value else [];
      filteredUsers := users;
      userTotalPages := PageCount(|filteredUsers|);
    }

    /** loadCourses: `courses || []`, shown unfiltered. */
    method LoadCourses(response: Option<seq<Client.CourseView>>)
      modifies this
      ensures courses == (if response.Some? then response.value else []) && filteredCourses == courses
      ensures courseTotalPages == PageCount(|courses|)
      ensures courseSearchTerm == old(courseSearchTerm) && courseCurrentPage == old(courseCurrentPage)
      ensures totalCourses == old(totalCourses) && topCourses == old(topCourses)
      ensures UserSideUnchanged()
    {
      courses := if response.Some? then response.value else [];
      filteredCourses := courses;
      courseTotalPages := PageCount(|filteredCourses|);
    }

    /** searchUsers: filter, recount the pages, back to page 1. */
    method SearchUsers()
      modifies this
      ensures filteredUsers == MatchingUsers(users, userSearchTerm, userFilterRole)
      ensures userTotalPages == PageCount(|filteredUsers|) && userCurrentPage == 1
      ensures users == old(users) && userSearchTerm == old(userSearchTerm) && userFilterRole == old(userFilterRole)
      ensures totalUsers == old(totalUsers) && recentUsers == old(recentUsers)
      ensures CourseSideUnchanged()
    {
      var filtered := users;
      if userSearchTerm != "" {
        filtered := WithTerm(filtered, userSearchTerm);
      }
      if userFilterRole != "" {
        filtered := WithRole(filtered, userFilterRole);
      }
      SearchedUsersMatch(users, userSearchTerm, userFilterRole);
      filteredUsers := filtered;
      userTotalPages := PageCount(|filteredUsers|);
      userCurrentPage := 1;
    }

    /** filterUsersByRole: set the role filter and search again. */
    method FilterUsersByRole(role: string)
      modifies this
      ensures userFilterRole == role
      ensures filteredUsers == MatchingUsers(users, userSearchTerm, role)
      ensures userTotalPages == PageCount(|filteredUsers|) && userCurrentPage == 1
      ensures users == old(users) && userSearchTerm == old(userSearchTerm)
      ensures totalUsers == old(totalUsers) && recentUsers == old(recentUsers)
      ensures CourseSideUnchanged()
    {
      userFilterRole := role;
      userCurrentPage := 1;
      SearchUsers();
    }

    /** searchCourses: filter by title or instructor, recount, back to page 1. */
    method SearchCourses()
      modifies this
      ensures filteredCourses == MatchingCourses(courses, courseSearchTerm)
      ensures courseTotalPages == PageCount(|filteredCourses|) && courseCurrentPage == 1
      ensures courses == old(courses) && courseSearchTerm == old(courseSearchTerm)
      ensures totalCourses == old(totalCourses) && topCourses == old(topCourses)
      ensures UserSideUnchanged()
    {
      var filtered := courses;
      if courseSearchTerm != "" {
        filtered := MatchingCourses(filtered, courseSearchTerm);
      }
      filteredCourses := filtered;
      courseTotalPages := PageCount(|filteredCourses|);
      courseCurrentPage := 1;
    }

    /**
     * deleteUser once the confirmation dialog answered `confirmed` and the
     * request ended with `failure` (None on success): on success exactly
     * that id leaves both lists and the counts follow.
     */
    method DeleteUser(id: int, confirmed: bool, failure: Option<int>) returns (notice: Notice)
      modifies this
      ensures !confirmed ==> notice == NoNotice && UserSideUnchanged()
      ensures confirmed && failure.Some? ==> notice == DeleteFailure(failure.value, "users") && UserSideUnchanged()
      ensures confirmed && failure.None? ==> notice == Deleted && UserRemoved(id)
      ensures CourseSideUnchanged()
    {
      if confirmed && failure.None? {
        RemoveUser(id);
        notice := Deleted;
      } else if confirmed {
        notice := DeleteFailure(failure.value, "users");
      } else {
        notice := NoNotice;
      }
    }

    /** The local update after a successful user delete. */
    twostate predicate UserRemoved(id: int)
      reads this
    {
      users == WithoutId(old(users), id, UserKey) &&
      filteredUsers == WithoutId(old(filteredUsers), id, UserKey) &&
      userTotalPages == PageCount(|filteredUsers|) &&
      totalUsers == |users| && recentUsers == LastUserCards(users) &&
      userSearchTerm == old(userSearchTerm) && userFilterRole == old(userFilterRole) &&
      userCurrentPage == old(userCurrentPage)
    }

    method RemoveUser(id: int)
      modifies this
      ensures UserRemoved(id)
      ensures CourseSideUnchanged()
    {
      DropUserRows(id);
      RefreshUserCards();
    }

    /** Remove the user from the local lists. */
    method DropUserRows(id: int)
      modifies this
      ensures users == WithoutId(old(users), id, UserKey)
      ensures filteredUsers == WithoutId(old(filteredUsers), id, UserKey)
      ensures userTotalPages == PageCount(|filteredUsers|)
      ensures userSearchTerm == old(userSearchTerm) && userFilterRole == old(userFilterRole)
      ensures userCurrentPage == old(userCurrentPage)
      ensures CourseSideUnchanged()
    {
      users := WithoutId(users, id, UserKey);
      filteredUsers := WithoutId(filteredUsers, id, UserKey);
      userTotalPages := PageCount(|filteredUsers|);
    }

    /** Recount the users and rebuild the recent-user cards. */
    method RefreshUserCards()
      modifies this
      ensures totalUsers == |users| && recentUsers == LastUserCards(users)
      ensures users == old(users) && filteredUsers == old(filteredUsers) && userTotalPages == old(userTotalPages)
      ensures userSearchTerm == old(userSearchTerm) && userFilterRole == old(userFilterRole)
      ensures userCurrentPage == old(userCurrentPage)
      ensures CourseSideUnchanged()
    {
      totalUsers := |users|;
      recentUsers := LastUserCards(users);
    }

    /** deleteCourse, the same for the course lists. */
    method DeleteCourse(id: int, confirmed: bool, failure: Option<int>) returns (notice: Notice)
      modifies this
      ensures !confirmed ==> notice == NoNotice && CourseSideUnchanged()
      ensures confirmed && failure.Some? ==> notice == DeleteFailure(failure.value, "courses") && CourseSideUnchanged()
      ensures confirmed && failure.None? ==> notice == Deleted && CourseRemoved(id)
      ensures UserSideUnchanged()
    {
      if confirmed && failure.None? {
        RemoveCourse(id);
        notice := Deleted;
      } else if confirmed {
        notice := DeleteFailure(failure.value, "courses");
      } else {
        notice := NoNotice;
      }
    }

    /** The local update after a successful course delete. */
    twostate predicate CourseRemoved(id: int)
      reads this
    {
      courses == WithoutId(old(courses), id, CourseKey) &&
      filteredCourses == WithoutId(old(filteredCourses), id, CourseKey) &&
      courseTotalPages == PageCount(|filteredCourses|) &&
      totalCourses == |courses| && topCourses == FirstCourseCards(courses) &&
      courseSearchTerm == old(courseSearchTerm) && courseCurrentPage == old(courseCurrentPage)
    }

    method RemoveCourse(id: int)
      modifies this
      ensures CourseRemoved(id)
      ensures UserSideUnchanged()
    {
      DropCourseRows(id);
      RefreshCourseCards();
    }

    /** Remove the course from the local lists. */
    method DropCourseRows(id: int)
      modifies this
      ensures courses == WithoutId(old(courses), id, CourseKey)
      ensures filteredCourses == WithoutId(old(filteredCourses), id, CourseKey)
      ensures courseTotalPages == PageCount(|filteredCourses|)
      ensures courseSearchTerm == old(courseSearchTerm) && courseCurrentPage == old(courseCurrentPage)
      ensures UserSideUnchanged()
    {
      courses := WithoutId(courses, id, CourseKey);
      filteredCourses := WithoutId(filteredCourses, id, CourseKey);
      courseTotalPages := PageCount(|filteredCourses|);
    }

    /** Recount the courses and rebuild the top-course cards. */
    method RefreshCourseCards()
      modifies this
      ensures totalCourses == |courses| && topCourses == FirstCourseCards(courses)
      ensures courses == old(courses) && filteredCourses == old(filteredCourses) && courseTotalPages == old(courseTotalPages)
      ensures courseSearchTerm == old(courseSearchTerm) && courseCurrentPage == old(courseCurrentPage)
      ensures UserSideUnchanged()
    {
      totalCourses := |courses|;
      topCourses := FirstCourseCards(courses);
    }

    /** goToPage: only the counter of the chosen table moves. */
    method GoToPage(page: int, userTable: bool)
      modifies this
      ensures userTable ==> userCurrentPage == page && courseCurrentPage == old(courseCurrentPage)
      ensures !userTable ==> courseCurrentPage == page && userCurrentPage == old(userCurrentPage)
      ensures users == old(users) && filteredUsers == old(filteredUsers) && userTotalPages == old(userTotalPages)
      ensures courses == old(courses) && filteredCourses == old(filteredCourses) && courseTotalPages == old(courseTotalPages)
      ensures userSearchTerm == old(userSearchTerm) && userFilterRole == old(userFilterRole) && courseSearchTerm == old(courseSearchTerm)
      ensures totalUsers == old(totalUsers) && totalCourses == old(totalCourses)
      ensures recentUsers == old(recentUsers) && topCourses == old(topCourses)
    {
      if userTable {
        userCurrentPage := page;
      } else {
        courseCurrentPage := page;
      }
    }

    /** getPageNumbers: the loop that pushes each page of the window. */
    method GetPageNumbers(totalPages: int, currentPage: int) returns (pages: seq<int>)
      ensures pages == PageWindow(totalPages, currentPage)
    {
      var start := Max(1, currentPage - MaxPagesToShow / 2);
      var end := Min(totalPages, start + MaxPagesToShow - 1);
      if end - start < MaxPagesToShow - 1 {
        start := Max(1, end - MaxPagesToShow + 1);
      }
      pages := [];
      var i := start;
      while i <= end
        invariant start <= i <= Max(end + 1, start)
        invariant pages == Span(start, i - 1)
        decreases end - i
      {
        pages := pages + [i];
        i := i + 1;
      }
    }
  }
}
