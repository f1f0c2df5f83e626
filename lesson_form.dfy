// LessonFormComponent: the instructor's form for creating and editing a
// lesson. Its payload mapping, its validators, the duration and
// reading-time helpers, and the create/update submission with the server's
// answer given as a parameter.
module LessonForm {
  import opened Wrappers
  import opened Strings
  import Client
  import Forms

  // ---------------------------------------------------------------------
  // The form value and its validators

  /** The value of the form; an empty number input is `None`. */
  datatype LessonFormValue = LessonFormValue(
    title: string, description: string, content: string, videoUrl: string,
    duration: Option<int>, order: Option<int>, isPublished: bool)

  const InitialForm := LessonFormValue("", "", "", "", Some(0), Some(1), false)

  /** The names of the form's controls. */
  const Controls: set<string> := {"title", "description", "content", "videoUrl", "duration", "order", "isPublished"}

  /** The errors of the control named `name`, or `None` when there is no such control. */
  function ControlErrors(f: LessonFormValue, name: string): (r: Option<Forms.Errors>)
    ensures r.Some? <==> name in Controls
  {
    if name == "title" then Some(Forms.TextErrors(f.title, true, Some(3), Some(100)))
    else if name == "description" then Some(Forms.TextErrors(f.description, true, Some(10), Some(500)))
    else if name == "content" then Some(Forms.TextErrors(f.content, true, Some(50), None))
    else if name == "duration" then Some(Forms.NumberErrors(f.duration, true, Some(1), Some(300)))
    else if name == "order" then Some(Forms.NumberErrors(f.order, true, Some(1), None))
    else if name == "videoUrl" || name == "isPublished" then Some(Forms.NoErrors)
    else None
  }

  /** `lessonForm.valid`: no control has an error. */
  predicate FormValid(f: LessonFormValue)
  {
    forall name | name in Controls :: ControlErrors(f, name) == Some(Forms.NoErrors)
  }

  /** The validators accept exactly these ranges. */
  lemma {:induction false} FormValidRanges(f: LessonFormValue)
    ensures FormValid(f) <==>
      3 <= Utf16Length(f.title) <= 100 && 10 <= Utf16Length(f.description) <= 500 && Utf16Length(f.content) >= 50 &&
      f.duration.Some? && 1 <= f.duration.value <= 300 &&
      f.order.Some? && f.order.value >= 1
  {
    if FormValid(f) {
      assert ControlErrors(f, "title") == Some(Forms.NoErrors);
      assert ControlErrors(f, "description") == Some(Forms.NoErrors);
      assert ControlErrors(f, "content") == Some(Forms.NoErrors);
      assert ControlErrors(f, "duration") == Some(Forms.NoErrors);
      assert ControlErrors(f, "order") == Some(Forms.NoErrors);
    }
  }

  /** getFieldLabel: the caption of a control, or its name when it has none. */
  function FieldLabel(name: string): (r: string)
    ensures name !in Controls ==> r == name
  {
    if name == "title" then "Title"
    else if name == "description" then "Description"
    else if name == "content" then "Content"
    else if name == "videoUrl" then "Video URL"
    else if name == "duration" then "Duration"
    else if name == "order" then "Order"
    else if name == "isPublished" then "Published"
    else name
  }

  /** getFieldError: the message of the first failing check of a touched control. */
  function FieldError(f: LessonFormValue, touched: set<string>, name: string): (r: string)
    ensures r == "" <==> name !in touched || ControlErrors(f, name) in {None, Some(Forms.NoErrors)}
  {
    match ControlErrors(f, name)
    case None => ""
    case Some(e) => Forms.FieldMessage(FieldLabel(name), e, name in touched)
  }

  // ---------------------------------------------------------------------
  // The request payload

  /** The body sent to create or update a lesson; durations in seconds. */
  datatype LessonPayload = LessonPayload(
    title: string, description: string, videoUrl: string, videoFilename: string,
    videoDuration: int, lessonOrder: int)

  /**
   * The payload built from the form value. The form has no `videoFilename`
   * control, so the form value never carries one and the file name is the
   * uploaded one or "".
   */
  function PayloadOf(f: LessonFormValue, uploaded: Option<string>): (p: LessonPayload)
    ensures p.title == f.title && p.description == f.description && p.videoUrl == f.videoUrl
    ensures p.videoFilename == Client.TextOr(uploaded, "")
    ensures f.duration.None? || f.duration.value == 0 ==> p.videoDuration == 0
    ensures f.duration.Some? ==> p.videoDuration == f.duration.value * 60
    ensures f.order.None? || f.order.value == 0 ==> p.lessonOrder == 1
  {
    LessonPayload(
      f.title, f.description,
      Client.TextOr(Some(f.videoUrl), Client.TextOr(Some(f.videoUrl), "")),
      Client.TextOr(uploaded, ""),
      Client.NumOr(f.duration, 0) * 60,
      Client.NumOr(f.order, 1))
  }

  /** For a valid form the payload carries the minutes as whole minutes of seconds and the order as given. */
  lemma {:induction false} ValidPayload(f: LessonFormValue, uploaded: Option<string>)
    requires FormValid(f)
    ensures 60 <= PayloadOf(f, uploaded).videoDuration <= 18000
    ensures PayloadOf(f, uploaded).videoDuration % 60 == 0
    ensures PayloadOf(f, uploaded).videoDuration / 60 == f.duration.value
    ensures PayloadOf(f, uploaded).lessonOrder == f.order.value >= 1
  {
    FormValidRanges(f);
  }

  // ---------------------------------------------------------------------
  // formatDuration

  /** formatDuration: "N minutes" below an hour, else "Hh" or "Hh Mm". */
  function FormatDuration(minutes: int): (r: string)
    ensures minutes < 60 ==> r == IntToString(minutes) + " minutes"
  {
    if minutes < 60 then IntToString(minutes) + " minutes"
    else
      var hours := minutes / 60;
      var rest := minutes % 60;
      if rest > 0 then NatToString(hours) + "h " + NatToString(rest) + "m"
      else NatToString(hours) + "h"
  }

  /** Reads back a text in the shape formatDuration writes. */
  function ReadDuration(s: string): Option<int>
  {
    var k := DigitRun(s);
    if k == 0 then None else ReadUnits(DigitsValue(s[..k]), s[k..])
  }

  /** The rest of such a text after its leading number `n`. */
  function ReadUnits(n: nat, tail: string): Option<int>
  {
    if tail == " minutes" then Some(n)
    else if tail == "h" then Some(n * 60)
    else if |tail| >= 4 && tail[..2] == "h " && tail[|tail| - 1] == 'm' && AllDigits(tail[2..|tail| - 1]) then
      Some(n * 60 + DigitsValue(tail[2..|tail| - 1]))
    else None
  }

  /** The digits of `n` followed by a text that does not start with a digit split back apart. */
  lemma {:induction false} DigitsThen(n: nat, tail: string)
    requires |tail| > 0 && !IsDigit(tail[0])
    ensures var s := NatToString(n) + tail;
      DigitRun(s) == |NatToString(n)| && s[..DigitRun(s)] == NatToString(n) && s[DigitRun(s)..] == tail
  {
    var d := NatToString(n);
    var s := d + tail;
    assert s[..|d|] == d;
    assert s[|d|] == tail[0];
    assert s[|d|..] == tail;
  }

  /** Below an hour, the minutes are read back. */
  lemma {:induction false} MinutesRead(minutes: nat)
    requires minutes < 60
    ensures ReadDuration(NatToString(minutes) + " minutes") == Some(minutes)
  {
    DigitsThen(minutes, " minutes");
    DigitsOfNat(minutes);
  }

  /** A whole number of hours is read back. */
  lemma {:induction false} HoursRead(hours: nat)
    ensures ReadDuration(NatToString(hours) + "h") == Some(hours * 60)
  {
    DigitsThen(hours, "h");
    DigitsOfNat(hours);
  }

  /** Hours and remaining minutes are read back. */
  lemma {:induction false} HoursMinutesRead(hours: nat, rest: nat)
    ensures ReadDuration(NatToString(hours) + "h " + NatToString(rest) + "m") == Some(hours * 60 + rest)
  {
    var tail := "h " + NatToString(rest) + "m";
    assert NatToString(hours) + "h " + NatToString(rest) + "m" == NatToString(hours) + tail;
    DigitsThen(hours, tail);
    DigitsOfNat(hours);
    MinutesUnits(hours, rest);
  }

  lemma {:induction false} MinutesUnits(hours: nat, rest: nat)
    ensures ReadUnits(hours, "h " + NatToString(rest) + "m") == Some(hours * 60 + rest)
  {
    var m := NatToString(rest);
    var tail := "h " + m + "m";
    assert tail[..2] == "h ";
    assert tail[2..|tail| - 1] == m;
    DigitsOfNat(rest);
  }

  /** formatDuration loses nothing: its text determines the minutes. */
  lemma {:induction false} FormatDurationReads(minutes: nat)
    ensures ReadDuration(FormatDuration(minutes)) == Some(minutes)
  {
    if minutes < 60 {
      MinutesRead(minutes);
    } else if minutes % 60 > 0 {
      HoursMinutesRead(minutes / 60, minutes % 60);
    } else {
      HoursRead(minutes / 60);
    }
  }

  // ---------------------------------------------------------------------
  // Word count and reading time

  /** The characters matched by `\s` in a JavaScript regular expression. */
  predicate IsSpace(c: char)
  {
    var n := c as int;
    n == 0x20 || 0x09 <= n <= 0x0D || n == 0xA0 || n == 0x1680 || 0x2000 <= n <= 0x200A ||
    n == 0x2028 || n == 0x2029 || n == 0x202F || n == 0x205F || n == 0x3000 || n == 0xFEFF
  }

  predicate NoSpace(s: string)
  {
    forall k :: 0 <= k < |s| ==> !IsSpace(s[k])
  }

  /** `s` without its leading whitespace. */
  function SkipSpaces(s: string): (r: string)
    ensures |r| <= |s| && (|r| == 0 || !IsSpace(r[0]))
    ensures r == s[|s| - |r|..]
  {
    if |s| > 0 && IsSpace(s[0]) then SkipSpaces(s[1..]) else s
  }

  /**
   * `s.split(/\s+/)`: the pieces between maximal runs of whitespace. No
   * piece holds whitespace and only the first and the last can be empty.
   */
  function Words(s: string): (r: seq<string>)
    ensures |r| >= 1
    ensures forall k :: 0 <= k < |r| ==> NoSpace(r[k])
    ensures forall k :: 0 < k < |r| - 1 ==> |r[k]| > 0
    ensures |s| > 0 && !IsSpace(s[0]) ==> |r[0]| > 0
    decreases |s|
  {
    if |s| == 0 then [""]
    else if IsSpace(s[0]) then
      var t := SkipSpaces(s[1..]);
      var w := Words(t);
      [""] + w
    else
      var w := Words(s[1..]);
      [[s[0]] + w[0]] + w[1..]
  }

  /** The characters of `s` that are not whitespace. */
  function NonSpace(s: string): (r: string)
  {
    if |s| == 0 then "" else (if IsSpace(s[0]) then "" else [s[0]]) + NonSpace(s[1..])
  }

  function Concat(parts: seq<string>): string
  {
    if |parts| == 0 then "" else parts[0] + Concat(parts[1..])
  }

  lemma {:induction false} SkipSpacesNonSpace(s: string)
    ensures NonSpace(SkipSpaces(s)) == NonSpace(s)
    decreases |s|
  {
    if |s| > 0 && IsSpace(s[0]) {
      SkipSpacesNonSpace(s[1..]);
    }
  }

  /** Put back together, the pieces are the text with its whitespace removed. */
  lemma {:induction false} WordsConcat(s: string)
    ensures Concat(Words(s)) == NonSpace(s)
    decreases |s|
  {
    if |s| > 0 {
      if IsSpace(s[0]) {
        var t := SkipSpaces(s[1..]);
        WordsConcat(t);
        SkipSpacesNonSpace(s[1..]);
        assert Concat([""] + Words(t)) == "" + Concat(Words(t)) by {
          assert ([""] + Words(t))[1..] == Words(t);
        }
      } else {
        var w := Words(s[1..]);
        WordsConcat(s[1..]);
        var r := [[s[0]] + w[0]] + w[1..];
        assert r[1..] == w[1..];
        assert Concat(w) == w[0] + Concat(w[1..]);
        assert Concat(r) == [s[0]] + w[0] + Concat(w[1..]);
      }
    }
  }

  /** getWordCount. */
  function WordCount(content: string): (r: nat)
    ensures r >= 1
  {
    |Words(content)|
  }

  /** getEstimatedReadingTime: `Math.ceil(words / 200)` minutes. */
  function ReadingTime(content: string): (r: int)
    ensures (r - 1) * 200 < WordCount(content) <= r * 200
    ensures r >= 1
  {
    (WordCount(content) + 199) / 200
  }

  // ---------------------------------------------------------------------
  // The component

  /** The request a submission sends, if any. */
  datatype LessonRequest = NoRequest | Create(courseId: int, payload: LessonPayload) | Update(lessonId: int, payload: LessonPayload)

  const CourseIdRequired := "Course ID is required"
  const LessonIdRequired := "Lesson ID is required for update"
  const CreateFailed := "Failed to create lesson. Please try again."
  const UpdateFailed := "Failed to update lesson. Please try again."
  const Created := "Lesson created successfully!"
  const Updated := "Lesson updated successfully!"

  /** The component. A route id of 0 stands for a missing one. */
  class LessonFormComponent {
    var form: LessonFormValue
    var touched: set<string>
    var isEditMode: bool
    var lessonId: int
    var courseId: int
    var loading: bool
    var error: Option<string>
    var success: Option<string>
    var uploadedVideoFilename: Option<string>

    constructor()
      ensures form == InitialForm && touched == {} && !isEditMode
      ensures lessonId == 0 && courseId == 0 && !loading
      ensures error.None? && success.None? && uploadedVideoFilename.None?
    {
      form, touched, isEditMode := InitialForm, {}, false;
      lessonId, courseId, loading := 0, 0, false;
      error, success, uploadedVideoFilename := None, None, None;
    }

    /**
     * ngOnInit with the route's ids: edit mode iff a lesson id is given,
     * and an error when the course cannot be loaded.
     */
    method Init(courseIdParam: int, lessonIdParam: int, courseLoaded: bool)
      modifies this
      ensures courseId == courseIdParam && lessonId == lessonIdParam
      ensures isEditMode <==> lessonIdParam != 0
      ensures courseIdParam != 0 && !courseLoaded ==> error == Some("Failed to load course information")
      ensures courseIdParam == 0 || courseLoaded ==> error == old(error)
      ensures form == old(form) && touched == old(touched) && loading == old(loading)
      ensures success == old(success) && uploadedVideoFilename == old(uploadedVideoFilename)
    {
      courseId := courseIdParam;
      lessonId := lessonIdParam;
      isEditMode := lessonId != 0;
      if courseId != 0 && !courseLoaded {
        error := Some("Failed to load course information");
      }
    }

    /** getFieldError on the current form. */
    function GetFieldError(name: string): string
      reads this
    {
      FieldError(form, touched, name)
    }

    /** isFieldInvalid: the control has an error and was touched. */
    function IsFieldInvalid(name: string): (r: bool)
      reads this
      ensures r <==> name in touched && ControlErrors(form, name).Some? && ControlErrors(form, name) != Some(Forms.NoErrors)
    {
      name in touched && match ControlErrors(form, name)
        case None => false
        case Some(e) => e != Forms.NoErrors
    }

    /**
     * onSubmit with the server's answer `saved`: an invalid form only marks
     * every control touched; a valid one creates or updates the lesson.
     */
    method OnSubmit(saved: bool) returns (req: LessonRequest)
      modifies this
      ensures !FormValid(form) ==>
        req == NoRequest && touched == Controls && loading == old(loading) &&
        error == old(error) && success == old(success)
      ensures FormValid(form) && !isEditMode && courseId == 0 ==>
        req == NoRequest && error == Some(CourseIdRequired) && success.None? && !loading
      ensures FormValid(form) && isEditMode && lessonId == 0 ==>
        req == NoRequest && error == Some(LessonIdRequired) && success.None? && !loading
      ensures FormValid(form) && !isEditMode && courseId != 0 ==>
        req == Create(courseId, PayloadOf(form, uploadedVideoFilename)) && !loading &&
        (if saved then success == Some(Created) && error.None? else error == Some(CreateFailed) && success.None?)
      ensures FormValid(form) && isEditMode && lessonId != 0 ==>
        req == Update(lessonId, PayloadOf(form, uploadedVideoFilename)) && !loading &&
        (if saved then success == Some(Updated) && error.None? else error == Some(UpdateFailed) && success.None?)
      ensures FormValid(form) ==> touched == old(touched)
      ensures form == old(form) && isEditMode == old(isEditMode) && courseId == old(courseId) && lessonId == old(lessonId)
      ensures uploadedVideoFilename == old(uploadedVideoFilename)
    {
      if FormValid(form) {
        loading, error, success := true, None, None;
        if isEditMode {
          req := UpdateLesson(saved);
        } else {
          req := CreateLesson(saved);
        }
      } else {
        touched := Controls;
        req := NoRequest;
      }
    }

    /** createLesson: requires a course id, then posts the payload. */
    method CreateLesson(saved: bool) returns (req: LessonRequest)
      modifies this
      ensures courseId == 0 ==> req == NoRequest && error == Some(CourseIdRequired) && success == old(success)
      ensures courseId != 0 ==>
        req == Create(courseId, PayloadOf(form, uploadedVideoFilename)) &&
        (if saved then success == Some(Created) && error == old(error) else error == Some(CreateFailed) && success == old(success))
      ensures !loading
      ensures form == old(form) && touched == old(touched) && isEditMode == old(isEditMode)
      ensures courseId == old(courseId) && lessonId == old(lessonId) && uploadedVideoFilename == old(uploadedVideoFilename)
    {
      if courseId == 0 {
        error := Some(CourseIdRequired);
        loading := false;
        return NoRequest;
      }
      req := Create(courseId, PayloadOf(form, uploadedVideoFilename));
      loading := false;
      if saved {
        success := Some(Created);
      } else {
        error := Some(CreateFailed);
      }
    }

    /** updateLesson: requires a lesson id, then puts the payload. */
    method UpdateLesson(saved: bool) returns (req: LessonRequest)
      modifies this
      ensures lessonId == 0 ==> req == NoRequest && error == Some(LessonIdRequired) && success == old(success)
      ensures lessonId != 0 ==>
        req == Update(lessonId, PayloadOf(form, uploadedVideoFilename)) &&
        (if saved then success == Some(Updated) && error == old(error) else error == Some(UpdateFailed) && success == old(success))
      ensures !loading
      ensures form == old(form) && touched == old(touched) && isEditMode == old(isEditMode)
      ensures courseId == old(courseId) && lessonId == old(lessonId) && uploadedVideoFilename == old(uploadedVideoFilename)
    {
      if lessonId == 0 {
        error := Some(LessonIdRequired);
        loading := false;
        return NoRequest;
      }
      req := Update(lessonId, PayloadOf(form, uploadedVideoFilename));
      loading := false;
      if saved {
        success := Some(Updated);
      } else {
        error := Some(UpdateFailed);
      }
    }

    /**
     * onVideoUploaded: the value is remembered as the uploaded file; an
     * http-prefixed value also becomes the video URL, anything else clears it.
     * The `videoFilename` the handler patches names no control, so it is dropped.
     */
    method OnVideoUploaded(urlOrFilename: string)
      modifies this
      ensures uploadedVideoFilename == Some(urlOrFilename)
      ensures urlOrFilename != "" && StartsWith(urlOrFilename, "http") ==> form == old(form).(videoUrl := urlOrFilename)
      ensures !(urlOrFilename != "" && StartsWith(urlOrFilename, "http")) ==> form == old(form).(videoUrl := "")
      ensures touched == old(touched) && isEditMode == old(isEditMode) && courseId == old(courseId) && lessonId == old(lessonId)
      ensures loading == old(loading) && error == old(error) && success == old(success)
    {
      if urlOrFilename != "" && StartsWith(urlOrFilename, "http") {
        form := form.(videoUrl := urlOrFilename);
        uploadedVideoFilename := Some(urlOrFilename);
      } else {
        uploadedVideoFilename := Some(urlOrFilename);
        form := form.(videoUrl := "");
      }
    }
  }
}
