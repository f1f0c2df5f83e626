// The client's video player. It picks where the video comes from, reports
// the watched percentage to the lesson page on every time update, and saves
// the watched seconds to the server at most once per 5000 ms. Media times
// are exact reals; the clock (`Date.now`) and the presence of a token are
// parameters.
module VideoPlayer {
  import opened Wrappers
  import opened Strings
  import opened Client

  /** PROGRESS_SAVE_INTERVAL in milliseconds. */
  const SaveInterval: int := 5000

  /** Where loadVideo takes the video from. */
  datatype VideoSource =
    | Direct(url: string)        // an absolute URL, played as is
    | Fetch(filename: string)    // GET /video/{filename}, anonymously and then with the token
    | NoFile                     // nothing to play

  predicate IsHttp(s: Option<string>)
  {
    Truthy(s) && StartsWith(s.value, "http")
  }

  /**
   * loadVideo's precedence: an http URL in `videoUrl`, then an http URL in
   * `videoFilename`, then a missing filename is an error, else the file is
   * fetched from the server by name.
   */
  function ChooseSource(videoUrl: Option<string>, videoFilename: Option<string>): (r: VideoSource)
    ensures IsHttp(videoUrl) ==> r == Direct(videoUrl.value)
    ensures !IsHttp(videoUrl) && IsHttp(videoFilename) ==> r == Direct(videoFilename.value)
    ensures r == NoFile <==> !IsHttp(videoUrl) && !Truthy(videoFilename)
    ensures r.Fetch? ==> Truthy(videoFilename) && r.filename == videoFilename.value && !StartsWith(r.filename, "http")
  {
    if IsHttp(videoUrl) then Direct(videoUrl.value)
    else if IsHttp(videoFilename) then Direct(videoFilename.value)
    else if !Truthy(videoFilename) then NoFile
    else Fetch(videoFilename.value)
  }

  const AuthRequired := "Authentication required. Please login to view this video."
  const VideoNotFound := "Video file not found. Please contact the instructor."
  const AccessDenied := "Access denied. You may not have permission to view this video."
  const ConnectionFailed := "Failed to load video. Please check your connection."

  /** handleVideoError: the message for the HTTP status of the failed request. */
  function VideoErrorMessage(status: int): (r: string)
    ensures r == AuthRequired <==> status == 401
    ensures r == VideoNotFound <==> status == 404
    ensures r == AccessDenied <==> status == 403
  {
    if status == 401 then AuthRequired
    else if status == 404 then VideoNotFound
    else if status == 403 then AccessDenied
    else ConnectionFailed
  }

  /** Only the three statuses the player explains get their own message. */
  lemma {:induction false} OtherStatusesShowConnectionMessage(status: int)
    ensures VideoErrorMessage(status) == ConnectionFailed
      <==> status != 401 && status != 404 && status != 403
  {
  }

  /** The percentage emitted on each time update: currentTime / duration · 100, or 0 without a duration. */
  function Percent(currentTime: real, duration: real): (p: real)
    ensures duration > 0.0 && 0.0 <= currentTime <= duration ==> 0.0 <= p <= 100.0
    ensures duration <= 0.0 ==> p == 0.0
  {
    if duration > 0.0 then currentTime / duration * 100.0 else 0.0
  }

  /** The throttle on one time update: (whether a save is attempted, the new lastProgressSave). */
  function ThrottleStep(last: int, now: int, lessonId: int, currentTime: real): (r: (bool, int))
    ensures r.0 <==> lessonId != 0 && currentTime > 0.0 && now - last >= SaveInterval
    ensures r.0 ==> r.1 == now
    ensures !r.0 ==> r.1 == last
  {
    if lessonId != 0 && currentTime > 0.0 && now - last >= SaveInterval then (true, now) else (false, last)
  }

  /** One time update as the clock and the media position at that moment. */
  datatype Tick = Tick(now: int, currentTime: real)

  /** The clock readings at which the throttle lets a save through, over a run of time updates. */
  function SaveTimes(last: int, lessonId: int, ticks: seq<Tick>): seq<int>
    decreases |ticks|
  {
    if |ticks| == 0 then []
    else
      var step := ThrottleStep(last, ticks[0].now, lessonId, ticks[0].currentTime);
      (if step.0 then [ticks[0].now] else []) + SaveTimes(step.1, lessonId, ticks[1..])
  }

  /** Each time in `s` is at least 5000 ms after the one before it, the first after `last`. */
  predicate Spaced(last: int, s: seq<int>)
  {
    (|s| > 0 ==> s[0] - last >= SaveInterval)
    && forall k :: 0 <= k < |s| - 1 ==> s[k + 1] - s[k] >= SaveInterval
  }

  lemma {:induction false} SpacedCons(last: int, t: int, rest: seq<int>)
    requires t - last >= SaveInterval && Spaced(t, rest)
    ensures Spaced(last, [t] + rest)
  {
    var s := [t] + rest;
    forall k | 0 <= k < |s| - 1 ensures s[k + 1] - s[k] >= SaveInterval {
      if k > 0 {
        assert s[k] == rest[k - 1] && s[k + 1] == rest[k];
      }
    }
  }

  /**
   * Any two successive save attempts are at least 5000 ms apart, and the
   * first is at least 5000 ms after the previous save.
   */
  lemma {:induction false} SavesAreSpaced(last: int, lessonId: int, ticks: seq<Tick>)
    ensures Spaced(last, SaveTimes(last, lessonId, ticks))
    decreases |ticks|
  {
    if |ticks| > 0 {
      var step := ThrottleStep(last, ticks[0].now, lessonId, ticks[0].currentTime);
      var rest := SaveTimes(step.1, lessonId, ticks[1..]);
      SavesAreSpaced(step.1, lessonId, ticks[1..]);
      if step.0 {
        SpacedCons(last, ticks[0].now, rest);
        assert SaveTimes(last, lessonId, ticks) == [ticks[0].now] + rest;
      } else {
        assert SaveTimes(last, lessonId, ticks) == rest;
      }
    }
  }

  /** JavaScript `x % 60` on a real: the remainder keeps the sign of x. */
  function RealRem60(x: real): (r: real)
    ensures x >= 0.0 ==> 0.0 <= r < 60.0
  {
    var q := if x >= 0.0 then (x / 60.0).Floor else -((-x) / 60.0).Floor;
    x - 60.0 * q as real
  }

  /**
   * formatTime: whole minutes, a colon, and the whole seconds padded to two
   * digits. A position in the video reads as digits, ':' and two digits.
   */
  function FormatTime(seconds: real): (r: string)
    ensures 0.0 <= seconds ==> |r| >= 4 && r[|r| - 3] == ':' && IsDigit(r[|r| - 2]) && IsDigit(r[|r| - 1])
  {
    var mins := Floor(seconds / 60.0);
    var secs := Floor(RealRem60(seconds));
    MinutesSecondsShape(mins, secs);
    IntToString(mins) + ":" + PadStart2(IntToString(secs))
  }

  lemma {:induction false} MinutesSecondsShape(mins: int, secs: int)
    ensures 0 <= mins && 0 <= secs < 60 ==>
      var r := IntToString(mins) + ":" + PadStart2(IntToString(secs));
      |r| >= 4 && r[|r| - 3] == ':' && IsDigit(r[|r| - 2]) && IsDigit(r[|r| - 1])
  {
    if mins < 0 || secs < 0 || secs >= 60 {
      return;
    }
    var m := NatToString(mins);
    var sd := NatToString(secs);
    if secs >= 10 {
      assert sd == NatToString(secs / 10) + [DigitChar(secs % 10)];
    }
    assert |sd| <= 2;
    var p := PadStart2(sd);
    assert forall k :: 0 <= k < 2 ==> IsDigit(p[k]);
    var r := m + ":" + p;
    assert r[|r| - 2] == p[0] && r[|r| - 1] == p[1];
  }

  /** The two decimal digits of a number below 100. */
  function TwoDigits(n: nat): string
    requires n < 100
  {
    [DigitChar(n / 10), DigitChar(n % 10)]
  }

  /** A position of m minutes, s seconds and a fraction f is shown as "m:ss". */
  lemma {:induction false} FormatTimeShowsMinutesAndSeconds(m: nat, s: nat, f: real)
    requires s < 60 && 0.0 <= f < 1.0
    ensures FormatTime((m * 60 + s) as real + f) == NatToString(m) + ":" + TwoDigits(s)
  {
    var x := (m * 60 + s) as real + f;
    FormatTimeParts(x);
    SplitMinutes(m, s, f);
    PadTwoDigits(s);
  }

  lemma {:induction false} FormatTimeParts(x: real)
    ensures FormatTime(x) == IntToString(Floor(x / 60.0)) + ":" + PadStart2(IntToString(Floor(RealRem60(x))))
  {
  }

  lemma {:induction false} SplitMinutes(m: nat, s: nat, f: real)
    requires s < 60 && 0.0 <= f < 1.0
    ensures Floor(((m * 60 + s) as real + f) / 60.0) == m
    ensures Floor(RealRem60((m * 60 + s) as real + f)) == s
  {
    var x := (m * 60 + s) as real + f;
    assert x / 60.0 == m as real + (s as real + f) / 60.0;
    assert (x / 60.0).Floor == m;
    assert RealRem60(x) == s as real + f;
  }

  lemma {:induction false} PadTwoDigits(s: nat)
    requires s < 60
    ensures PadStart2(IntToString(s)) == TwoDigits(s)
  {
    if s < 10 {
      assert NatToString(s) == [DigitChar(s)];
    } else {
      assert NatToString(s) == NatToString(s / 10) + [DigitChar(s % 10)];
      assert NatToString(s / 10) == [DigitChar(s / 10)];
    }
  }

  class VideoPlayerComponent {
    var videoFilename: Option<string>
    var videoUrl: Option<string>
    /** The lesson input; 0 when unset. */
    var lessonId: int
    var actualVideoUrl: string
    var isLoading: bool
    var error: string
    var currentTime: real
    var duration: real
    var isPlaying: bool
    var lastProgressSave: int

    constructor (filename: Option<string>, url: Option<string>, lesson: int)
      ensures videoFilename == filename && videoUrl == url && lessonId == lesson
      ensures actualVideoUrl == "" && isLoading && error == ""
      ensures currentTime == 0.0 && duration == 0.0 && !isPlaying && lastProgressSave == 0
    {
      videoFilename, videoUrl, lessonId := filename, url, lesson;
      actualVideoUrl, isLoading, error := "", true, "";
      currentTime, duration, isPlaying := 0.0, 0.0, false;
      lastProgressSave := 0;
    }

    /**
     * loadVideo up to the first request: a direct URL is played at once, a
     * missing file is an error, and a fetch leaves the state to the response.
     */
    method LoadVideo() returns (source: VideoSource)
      modifies this
      ensures source == ChooseSource(videoUrl, videoFilename)
      ensures source.Direct? ==> actualVideoUrl == source.url && !isLoading && error == old(error)
      ensures source == NoFile ==> error == "No video file specified" && !isLoading && actualVideoUrl == old(actualVideoUrl)
      ensures source.Fetch? ==>
        actualVideoUrl == old(actualVideoUrl) && isLoading == old(isLoading) && error == old(error)
      ensures videoFilename == old(videoFilename) && videoUrl == old(videoUrl) && lessonId == old(lessonId)
      ensures currentTime == old(currentTime) && duration == old(duration)
      ensures isPlaying == old(isPlaying) && lastProgressSave == old(lastProgressSave)
    {
      if videoUrl.Some? && videoUrl.value != "" && StartsWith(videoUrl.value, "http") {
        actualVideoUrl := videoUrl.value;
        isLoading := false;
        return Direct(videoUrl.value);
      }
      if videoFilename.Some? && videoFilename.value != "" && StartsWith(videoFilename.value, "http") {
        actualVideoUrl := videoFilename.value;
        isLoading := false;
        return Direct(videoFilename.value);
      }
      if videoFilename.None? || videoFilename.value == "" {
        error := "No video file specified";
        isLoading := false;
        return NoFile;
      }
      source := Fetch(videoFilename.value);
    }

    /** One of the two fetches returned the video, now playable from `objectUrl`. */
    method VideoFetched(objectUrl: string)
      modifies this
      ensures actualVideoUrl == objectUrl && !isLoading && error == old(error)
      ensures videoFilename == old(videoFilename) && videoUrl == old(videoUrl) && lessonId == old(lessonId)
      ensures currentTime == old(currentTime) && duration == old(duration)
      ensures isPlaying == old(isPlaying) && lastProgressSave == old(lastProgressSave)
    {
      actualVideoUrl := objectUrl;
      isLoading := false;
    }

    /** handleVideoError for the response that ended the attempts. */
    method HandleVideoError(status: int)
      modifies this
      ensures error == VideoErrorMessage(status) && !isLoading
      ensures actualVideoUrl == old(actualVideoUrl)
      ensures videoFilename == old(videoFilename) && videoUrl == old(videoUrl) && lessonId == old(lessonId)
      ensures currentTime == old(currentTime) && duration == old(duration)
      ensures isPlaying == old(isPlaying) && lastProgressSave == old(lastProgressSave)
    {
      error := ConnectionFailed;
      isLoading := false;
      if status == 401 {
        error := AuthRequired;
      } else if status == 404 {
        error := VideoNotFound;
      } else if status == 403 {
        error := AccessDenied;
      }
    }

    /** The media element reported its duration. */
    method MetadataLoaded(d: real)
      modifies this
      ensures duration == d
      ensures currentTime == old(currentTime) && lastProgressSave == old(lastProgressSave)
      ensures actualVideoUrl == old(actualVideoUrl) && isLoading == old(isLoading) && error == old(error)
      ensures videoFilename == old(videoFilename) && videoUrl == old(videoUrl) && lessonId == old(lessonId)
      ensures isPlaying == old(isPlaying)
    {
      duration := d;
    }

    /**
     * A time update at clock `now`: the position is stored, the percentage
     * is emitted, and the throttle decides whether a save is attempted; an
     * attempt posts floor(currentTime) seconds only with a token.
     */
    method TimeUpdate(position: real, now: int, hasToken: bool)
      returns (emitted: real, attempted: bool, watchedSeconds: Option<int>)
      modifies this
      ensures currentTime == position
      ensures emitted == Percent(position, duration)
      ensures (attempted, lastProgressSave) == ThrottleStep(old(lastProgressSave), now, lessonId, position)
      ensures watchedSeconds.Some? <==> attempted && hasToken
      ensures watchedSeconds.Some? ==> watchedSeconds.value == Floor(position)
      ensures duration == old(duration) && actualVideoUrl == old(actualVideoUrl)
      ensures isLoading == old(isLoading) && error == old(error)
      ensures videoFilename == old(videoFilename) && videoUrl == old(videoUrl) && lessonId == old(lessonId)
      ensures isPlaying == old(isPlaying)
    {
      currentTime := position;
      emitted := if duration > 0.0 then currentTime / duration * 100.0 else 0.0;
      attempted := false;
      watchedSeconds := None;
      if lessonId != 0 && currentTime > 0.0 && now - lastProgressSave >= SaveInterval {
        attempted := true;
        lastProgressSave := now;
        if hasToken {
          watchedSeconds := Some(currentTime.Floor);
        }
      }
    }

    /** markLessonCompleted when the video ends: the lesson id to post, if there is one and a token. */
    method MarkLessonCompleted(hasToken: bool) returns (posted: Option<int>)
      ensures posted.Some? <==> lessonId != 0 && hasToken
      ensures posted.Some? ==> posted.value == lessonId
    {
      posted := if lessonId != 0 && hasToken then Some(lessonId) else None;
    }

    /** getProgressPercentage: tests `duration === 0` where updateProgress tests `duration > 0`. */
    function ProgressPercentage(): (p: real)
      reads this
      ensures duration >= 0.0 ==> p == Percent(currentTime, duration)
    {
      if duration == 0.0 then 0.0 else currentTime / duration * 100.0
    }
  }
}
