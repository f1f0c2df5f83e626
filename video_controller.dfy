// VideoController: serving stored videos with the Range support of
// section 2.1 (byte ranges) and section 4.2 (Content-Range) of RFC 7233 as
// far as the controller goes, and the local video upload. The file system
// (existence, length, probed type) and the UUID are inputs.
module VideoController {
  import opened Wrappers
  import opened Strings

  // ---------------------------------------------------------------------
  // 64-bit arithmetic

  const TwoTo64: int := 0x1_0000_0000_0000_0000

  /** A Java `long` result: the value wrapped into [LongMin, LongMax]. */
  function Long(x: int): (r: int)
    ensures LongMin <= r <= LongMax
    ensures LongMin <= x <= LongMax ==> r == x
  {
    (x - LongMin) % TwoTo64 + LongMin
  }

  // ---------------------------------------------------------------------
  // The Range header

  /** The byte positions a Range header selects, or the parse failure that escapes the handler. */
  datatype Span = Span(start: int, end: int)

  /**
   * streamVideo's reading of a Range header: "bytes=" then the text split
   * on '-' (trailing empty pieces dropped); the first piece is the start,
   * a non-empty second piece the end, the end defaulting to the last byte.
   * A header without the prefix selects the whole file. A piece that is no
   * number is a NumberFormatException, `None` here.
   */
  function ParseRange(range: string, fileLength: int): (r: Option<Span>)
    ensures !StartsWith(range, "bytes=") ==> r == Some(Span(0, fileLength - 1))
  {
    if !StartsWith(range, "bytes=") then Some(Span(0, fileLength - 1))
    else SpanOfPieces(JavaSplit(range[6..], '-'), fileLength)
  }

  /** The span the pieces after "bytes=" select. */
  function SpanOfPieces(ranges: seq<string>, fileLength: int): Option<Span>
  {
    var start := if |ranges| > 0 then ParseLong(ranges[0]) else Some(0);
    if start.None? then None
    else if |ranges| > 1 && ranges[1] != "" then
      var end := ParseLong(ranges[1]);
      if end.None? then None else Some(Span(start.value, end.value))
    else Some(Span(start.value, fileLength - 1))
  }

  /** A header "bytes=" + rest selects the span of rest's pieces. */
  lemma {:induction false} ParseHeader(rest: string, fileLength: int)
    ensures ParseRange("bytes=" + rest, fileLength) == SpanOfPieces(JavaSplit(rest, '-'), fileLength)
  {
    assert ("bytes=" + rest)[..6] == "bytes=";
    assert ("bytes=" + rest)[6..] == rest;
  }

  /** The text split on '-' when it is two '-'-free pieces, the second non-empty. */
  lemma {:induction false} SplitTwo(a: string, b: string)
    requires '-' !in a && '-' !in b && |b| > 0
    ensures JavaSplit(a + "-" + b, '-') == [a, b]
  {
    PiecesPrefix(a, b, '-');
    PiecesNoSeparator(b, '-');
  }

  /** The text split on '-' when it is one '-'-free piece and a trailing '-'. */
  lemma {:induction false} SplitOpen(a: string)
    requires '-' !in a && |a| > 0
    ensures JavaSplit(a + "-", '-') == [a]
  {
    PiecesPrefix(a, "", '-');
    assert a + "-" == a + ['-'] + "";
    assert Pieces("", '-') == [""];
    assert Pieces(a + "-", '-') == [a, ""];
    assert DropTrailingEmpty([a, ""]) == DropTrailingEmpty([a]);
    assert [a, ""][..1] == [a];
  }

  lemma {:induction false} NoDash(n: nat)
    ensures '-' !in NatToString(n)
  {
    var s := NatToString(n);
    assert forall k :: 0 <= k < |s| ==> s[k] != '-';
  }

  /** Two numbers joined by '-' are split back into their decimal texts. */
  lemma {:induction false} ClosedPieces(a: nat, b: nat)
    ensures JavaSplit(NatToString(a) + "-" + NatToString(b), '-') == [NatToString(a), NatToString(b)]
  {
    NoDash(a);
    NoDash(b);
    SplitTwo(NatToString(a), NatToString(b));
  }

  /** The pieces of two numbers in `long` range select the span between them. */
  lemma {:induction false} SpanOfNumbers(a: nat, b: nat, fileLength: int)
    requires a <= LongMax && b <= LongMax
    ensures SpanOfPieces([NatToString(a), NatToString(b)], fileLength) == Some(Span(a, b))
  {
    ParseLongOfIntToString(a);
    ParseLongOfIntToString(b);
  }

  /** "bytes=a-b" selects bytes a through b, whatever the file's length. */
  lemma {:induction false} ClosedRange(a: nat, b: nat, fileLength: int)
    requires a <= LongMax && b <= LongMax
    ensures ParseRange("bytes=" + NatToString(a) + "-" + NatToString(b), fileLength) == Some(Span(a, b))
  {
    var rest := NatToString(a) + "-" + NatToString(b);
    assert "bytes=" + NatToString(a) + "-" + NatToString(b) == "bytes=" + rest;
    ParseHeader(rest, fileLength);
    ClosedPieces(a, b);
    SpanOfNumbers(a, b, fileLength);
  }

  /** "bytes=a-" selects from byte a to the last byte. */
  lemma {:induction false} OpenRange(a: nat, fileLength: int)
    requires a <= LongMax
    ensures ParseRange("bytes=" + NatToString(a) + "-", fileLength) == Some(Span(a, fileLength - 1))
  {
    var rest := NatToString(a) + "-";
    assert "bytes=" + NatToString(a) + "-" == "bytes=" + rest;
    ParseHeader(rest, fileLength);
    NoDash(a);
    SplitOpen(NatToString(a));
    ParseLongOfIntToString(a);
    assert SpanOfPieces([NatToString(a)], fileLength) == Some(Span(a, fileLength - 1));
  }

  /** A suffix range "bytes=-n" has an empty first piece, which is no number. */
  lemma {:induction false} SuffixRangeFails(n: nat, fileLength: int)
    ensures ParseRange("bytes=-" + NatToString(n), fileLength) == None
  {
    var rest := "" + "-" + NatToString(n);
    assert "bytes=-" + NatToString(n) == "bytes=" + rest;
    ParseHeader(rest, fileLength);
    NoDash(n);
    SplitTwo("", NatToString(n));
    assert SpanOfPieces(["", NatToString(n)], fileLength) == None;
  }

  // ---------------------------------------------------------------------
  // The responses

  /** The answer of the video endpoints. `Crash` is an exception no handler catches. */
  datatype VideoReply =
    | NotFound
    | Served(status: int, contentType: string, contentLength: int, contentRange: Option<string>)
    | Crash

  /** The stored file as the file system reports it. */
  datatype StoredFile = StoredFile(length: nat, probedType: Option<string>)

  /** The probed content type, "video/mp4" when none is known. */
  function ContentType(f: StoredFile): (r: string)
    ensures f.probedType.None? ==> r == "video/mp4"
  {
    if f.probedType.Some? then f.probedType.value else "video/mp4"
  }

  /** `String.format("bytes %d-%d/%d", start, end, fileLength)`. */
  function ContentRange(start: int, end: int, fileLength: int): string
  {
    "bytes " + IntToString(start) + "-" + IntToString(end) + "/" + IntToString(fileLength)
  }

  /** getVideo: 404 for a missing file, else the whole file. */
  function GetVideo(file: Option<StoredFile>): (r: VideoReply)
    ensures file.None? <==> r == NotFound
    ensures file.Some? ==> r == Served(200, ContentType(file.value), file.value.length, None)
  {
    if file.None? then NotFound else Served(200, ContentType(file.value), file.value.length, None)
  }

  /**
   * streamVideo: 404 for a missing file; without a Range header the whole
   * file with 200; with one, 206 with the selected span, however it relates
   * to the file's length.
   */
  function StreamVideo(file: Option<StoredFile>, range: Option<string>): (r: VideoReply)
    ensures file.None? <==> r == NotFound
    ensures file.Some? && range.None? ==> r == Served(200, ContentType(file.value), file.value.length, None)
    ensures file.Some? && range.Some? ==> r.Crash? || (r.Served? && r.status == 206)
    ensures file.Some? && range.Some? ==> (r == Crash <==> ParseRange(range.value, file.value.length).None?)
  {
    if file.None? then NotFound
    else if range.None? then Served(200, ContentType(file.value), file.value.length, None)
    else
      match ParseRange(range.value, file.value.length)
      case None => Crash
      case Some(s) => Partial(file.value, s)
  }

  /**
   * The 206 answer for a span: Content-Length is `end - start + 1` in
   * `long` arithmetic, Content-Range names the span and the file's length.
   */
  function Partial(file: StoredFile, s: Span): (r: VideoReply)
    ensures r.Served? && r.status == 206 && r.contentType == ContentType(file)
    ensures r.contentRange == Some(ContentRange(s.start, s.end, file.length))
    ensures LongMin <= s.end - s.start < LongMax ==> r.contentLength == s.end - s.start + 1
  {
    Served(206, ContentType(file), Long(Long(s.end - s.start) + 1), Some(ContentRange(s.start, s.end, file.length)))
  }

  /** A Range header that parses is answered with the 206 for its span. */
  lemma {:induction false} StreamParsed(file: StoredFile, range: string, s: Span)
    requires ParseRange(range, file.length) == Some(s)
    ensures StreamVideo(Some(file), Some(range)) == Partial(file, s)
  {
  }

  /** For a range within the file, Content-Length counts the bytes from start to end inclusive. */
  lemma {:induction false} RangeLength(file: StoredFile, a: nat, b: nat)
    requires a <= b < file.length <= LongMax
    ensures StreamVideo(Some(file), Some("bytes=" + NatToString(a) + "-" + NatToString(b))) ==
      Served(206, ContentType(file), b - a + 1, Some(ContentRange(a, b, file.length)))
  {
    var range := "bytes=" + NatToString(a) + "-" + NatToString(b);
    ClosedRange(a, b, file.length);
    StreamParsed(file, range, Span(a, b));
  }

  /** An open range within the file ends at the last byte. */
  lemma {:induction false} OpenRangeLength(file: StoredFile, a: nat)
    requires a < file.length <= LongMax
    ensures StreamVideo(Some(file), Some("bytes=" + NatToString(a) + "-")) ==
      Served(206, ContentType(file), file.length - a, Some(ContentRange(a, file.length - 1, file.length)))
  {
    var range := "bytes=" + NatToString(a) + "-";
    OpenRange(a, file.length);
    StreamParsed(file, range, Span(a, file.length - 1));
  }

  // ---------------------------------------------------------------------
  // Upload

  const MaxVideoSize := 500 * 1024 * 1024

  /** The uploaded part: its size and the client's file name, if sent. */
  datatype Upload = Upload(size: nat, originalFilename: Option<string>, contentType: Option<string>)

  datatype UploadReply =
    | BadRequest(message: string)
    | Stored(filename: string, originalFilename: Option<string>, size: nat, contentType: Option<string>)

  /** The extension kept from the client's name: from its last '.', ".mp4" without one. */
  function Extension(originalFilename: Option<string>): (r: string)
    ensures originalFilename.None? || '.' !in originalFilename.value ==> r == ".mp4"
    ensures originalFilename.Some? && '.' in originalFilename.value ==>
      |r| >= 1 && r[0] == '.' && '.' !in r[1..] && EndsWith(originalFilename.value, r)
  {
    if originalFilename.Some? && Contains(originalFilename.value, ".") then
      ContainsChar(originalFilename.value, '.');
      DotSuffix(originalFilename.value)
    else
      if originalFilename.Some? then
        ContainsChar(originalFilename.value, '.');
        ".mp4"
      else ".mp4"
  }

  /** uploadVideo: an empty file or one over 500 MiB is refused; otherwise it is stored as the UUID plus the extension. */
  function UploadVideo(file: Upload, uuid: string): (r: UploadReply)
    ensures file.size == 0 ==> r == BadRequest("File is empty")
    ensures 0 < file.size <= MaxVideoSize <==> r.Stored?
    ensures r.Stored? ==> r.filename == uuid + Extension(file.originalFilename) && r.size == file.size
  {
    if file.size == 0 then BadRequest("File is empty")
    else if file.size > MaxVideoSize then BadRequest("File size exceeds 500MB")
    else Stored(uuid + Extension(file.originalFilename), file.originalFilename, file.size, file.contentType)
  }
}
