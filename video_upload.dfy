// VideoUploadComponent: picks an MP4 file, checks who may upload it, and
// follows the upload's progress events to the emitted video reference.
// The session (authenticated, current user) and the HTTP events are inputs.
module VideoUpload {
  import opened Wrappers
  import Client

  type FileInfo = Client.FileInfo

  const NotMp4 := "Please select an MP4 video file."
  const MissingInfo := "Please select a file and ensure course ID is provided."
  const LoginRequired := "Please login to upload videos."
  const InstructorsOnly := "Only instructors can upload videos."
  const UploadFailed := "Upload failed. Please try again."

  /**
   * The guards of uploadVideo, in order: a file and a course id, then a
   * session, then an instructor or administrator; `None` lets the upload go.
   */
  function UploadRefusal(file: Option<FileInfo>, courseId: int, authenticated: bool, user: Option<Client.ClientUser>): (r: Option<string>)
    ensures r.None? <==> (file.Some? && courseId != 0 && authenticated &&
      user.Some? && (user.value.role == Client.Instructor || user.value.role == Client.Admin))
    ensures file.None? || courseId == 0 ==> r == Some(MissingInfo)
    ensures file.Some? && courseId != 0 && !authenticated ==> r == Some(LoginRequired)
  {
    if file.None? || courseId == 0 then Some(MissingInfo)
    else if !authenticated then Some(LoginRequired)
    else if user.None? || (user.value.role != Client.Instructor && user.value.role != Client.Admin) then Some(InstructorsOnly)
    else None
  }

  /** The progress shown for an upload event: `Math.round(100 * loaded / (total || 1))`. */
  function Progress(loaded: int, total: Option<int>): (r: int)
    ensures 0 <= loaded && total.Some? && loaded <= total.value ==> 0 <= r <= 100
    ensures total.Some? && total.value > 0 && loaded == total.value ==> r == 100
  {
    var t := Client.NumOr(total, 1);
    var x := (100 * loaded) as real / t as real;
    if 0 <= loaded && total.Some? && loaded <= total.value then
      assert t > 0 && 100 * loaded <= 100 * t;
      ShareBounds(100 * loaded, t);
      Client.Round(x)
    else Client.Round(x)
  }

  /** A share of at most a hundred times the whole lies in [0, 100], and is 100 at the whole. */
  lemma {:induction false} ShareBounds(n: int, d: int)
    requires d > 0 && 0 <= n <= 100 * d
    ensures 0.0 <= n as real / d as real <= 100.0
    ensures n == 100 * d ==> n as real / d as real == 100.0
  {
    var q := n as real / d as real;
    assert q * d as real == n as real;
  }

  /** The upload's JSON answer: `{videoUrl, filename}`, either possibly missing. */
  datatype UploadBody = UploadBody(videoUrl: Option<string>, filename: Option<string>)

  /** What is emitted: `response?.videoUrl || response?.filename || ''`. */
  function Emitted(body: Option<UploadBody>): (r: string)
    ensures body.Some? && Client.Truthy(body.value.videoUrl) ==> r == body.value.videoUrl.value
    ensures body.Some? && !Client.Truthy(body.value.videoUrl) && Client.Truthy(body.value.filename) ==> r == body.value.filename.value
    ensures body.None? ==> r == ""
  {
    if body.None? then ""
    else Client.TextOr(body.value.videoUrl, Client.TextOr(body.value.filename, ""))
  }

  /** The error text: the server's `message`, else the transport's, else the default. */
  function UploadErrorText(serverMessage: Option<string>, message: Option<string>): (r: string)
    ensures r != ""
    ensures Client.Truthy(serverMessage) ==> r == serverMessage.value
    ensures !Client.Truthy(serverMessage) && !Client.Truthy(message) ==> r == UploadFailed
  {
    Client.TextOr(serverMessage, Client.TextOr(message, UploadFailed))
  }

  class VideoUploadComponent {
    var courseId: int
    var lessonId: int
    var selectedFile: Option<FileInfo>
    var isUploading: bool
    var uploadProgress: int
    var uploadError: string
    /** Every value emitted on `videoUploaded`, oldest first. */
    var emitted: seq<string>

    constructor(courseId: int, lessonId: int)
      ensures this.courseId == courseId && this.lessonId == lessonId
      ensures selectedFile.None? && !isUploading && uploadProgress == 0 && uploadError == "" && emitted == []
    {
      this.courseId, this.lessonId := courseId, lessonId;
      selectedFile, isUploading, uploadProgress, uploadError, emitted := None, false, 0, "", [];
    }

    /** onFileSelected: only "video/mp4" is kept; anything else clears the selection. */
    method OnFileSelected(files: seq<FileInfo>)
      modifies this
      ensures |files| == 0 ==> selectedFile == old(selectedFile) && uploadError == old(uploadError)
      ensures |files| > 0 && files[0].mimeType == "video/mp4" ==> selectedFile == Some(files[0]) && uploadError == ""
      ensures |files| > 0 && files[0].mimeType != "video/mp4" ==> selectedFile.None? && uploadError == NotMp4
      ensures selectedFile.Some? ==> selectedFile.value.mimeType == "video/mp4" || selectedFile == old(selectedFile)
      ensures courseId == old(courseId) && lessonId == old(lessonId) && isUploading == old(isUploading)
      ensures uploadProgress == old(uploadProgress) && emitted == old(emitted)
    {
      if |files| > 0 {
        if files[0].mimeType == "video/mp4" {
          selectedFile := Some(files[0]);
          uploadError := "";
        } else {
          uploadError := NotMp4;
          selectedFile := None;
        }
      }
    }

    /** uploadVideo: the guards, then an upload starting from 0%. `sent` tells whether a request went out. */
    method UploadVideo(authenticated: bool, user: Option<Client.ClientUser>) returns (sent: bool)
      modifies this
      ensures sent <==> UploadRefusal(old(selectedFile), courseId, authenticated, user).None?
      ensures !sent ==> UploadRefusal(selectedFile, courseId, authenticated, user) == Some(uploadError)
      ensures !sent ==> isUploading == old(isUploading) && uploadProgress == old(uploadProgress)
      ensures sent ==> isUploading && uploadProgress == 0 && uploadError == ""
      ensures selectedFile == old(selectedFile) && courseId == old(courseId) && lessonId == old(lessonId) && emitted == old(emitted)
    {
      var refusal := UploadRefusal(selectedFile, courseId, authenticated, user);
      if refusal.Some? {
        uploadError := refusal.value;
        return false;
      }
      isUploading := true;
      uploadProgress := 0;
      uploadError := "";
      return true;
    }

    /** An upload-progress event. */
    method OnUploadProgress(loaded: int, total: Option<int>)
      modifies this
      ensures uploadProgress == Progress(loaded, total)
      ensures selectedFile == old(selectedFile) && isUploading == old(isUploading) && uploadError == old(uploadError)
      ensures courseId == old(courseId) && lessonId == old(lessonId) && emitted == old(emitted)
    {
      uploadProgress := Progress(loaded, total);
    }

    /** The response event: 100%, the reference emitted, the selection cleared. */
    method OnUploadResponse(body: Option<UploadBody>)
      modifies this
      ensures !isUploading && uploadProgress == 100 && selectedFile.None?
      ensures emitted == old(emitted) + [Emitted(body)]
      ensures uploadError == old(uploadError) && courseId == old(courseId) && lessonId == old(lessonId)
    {
      isUploading := false;
      uploadProgress := 100;
      emitted := emitted + [Emitted(body)];
      selectedFile := None;
    }

    /** The error event: the upload stops with the error text; the file stays selected. */
    method OnUploadError(serverMessage: Option<string>, message: Option<string>)
      modifies this
      ensures !isUploading && uploadError == UploadErrorText(serverMessage, message)
      ensures selectedFile == old(selectedFile) && uploadProgress == old(uploadProgress) && emitted == old(emitted)
      ensures courseId == old(courseId) && lessonId == old(lessonId)
    {
      isUploading := false;
      uploadError := UploadErrorText(serverMessage, message);
    }

    /** removeFile. */
    method RemoveFile()
      modifies this
      ensures selectedFile.None? && uploadError == ""
      ensures isUploading == old(isUploading) && uploadProgress == old(uploadProgress) && emitted == old(emitted)
      ensures courseId == old(courseId) && lessonId == old(lessonId)
    {
      selectedFile := None;
      uploadError := "";
    }
  }
}
