// UploadController: the checks an uploaded image or video passes before it
// is handed to the object store, and the answer built from the store's
// result. The store's outcome (the object's URL, or the IOException's
// message) is an input.
module UploadController {
  import opened Wrappers
  import opened Strings
  import Client
  import CourseForm

  /** The multipart file: its size, the declared content type and the client's name, if sent. */
  datatype Part = Part(size: nat, contentType: Option<string>, originalFilename: Option<string>)

  /** The answer: a 400 with a text body, or a 200 naming the stored URL under `urlField`. */
  datatype Reply =
    | BadRequest(body: string)
    | Uploaded(urlField: string, url: string, filename: Option<string>)

  const MaxImageSize := 5 * 1024 * 1024
  const MaxVideoSize := 500 * 1024 * 1024

  const EmptyFile := "File is empty"
  const NotAnImage := "File must be an image"
  const NotAVideo := "File must be a video"
  const ImageTooLarge := "File size must be less than 5MB"
  const VideoTooLarge := "File size must be less than 500MB"

  /** A kind of upload: the content-type prefix it demands, its size limit and its messages. */
  datatype Kind = Kind(typePrefix: string, maxSize: nat, typeMessage: string, sizeMessage: string, urlField: string)

  const Image := Kind("image/", MaxImageSize, NotAnImage, ImageTooLarge, "imageUrl")
  const Video := Kind("video/", MaxVideoSize, NotAVideo, VideoTooLarge, "videoUrl")

  /** The checks in order: empty, then content type, then size; `None` lets the file through. */
  function Refusal(file: Part, kind: Kind): (r: Option<string>)
    ensures r.None? <==>
      file.size > 0 && file.contentType.Some? && StartsWith(file.contentType.value, kind.typePrefix) &&
      file.size <= kind.maxSize
    ensures file.size == 0 ==> r == Some(EmptyFile)
    ensures file.size > 0 && (file.contentType.None? || !StartsWith(file.contentType.value, kind.typePrefix)) ==>
      r == Some(kind.typeMessage)
    ensures r.Some? && r != Some(EmptyFile) && r != Some(kind.typeMessage) ==> r == Some(kind.sizeMessage) && file.size > kind.maxSize
  {
    if file.size == 0 then Some(EmptyFile)
    else if file.contentType.None? || !StartsWith(file.contentType.value, kind.typePrefix) then Some(kind.typeMessage)
    else if file.size > kind.maxSize then Some(kind.sizeMessage)
    else None
  }

  /**
   * uploadImage and uploadVideo: a refused file gets its message; an
   * accepted one is stored, and the answer carries the stored URL and the
   * client's name, or the store's failure.
   */
  function UploadFile(file: Part, kind: Kind, stored: Result<string>): (r: Reply)
    ensures r.Uploaded? <==> Refusal(file, kind).None? && stored.Ok?
    ensures Refusal(file, kind).Some? ==> r == BadRequest(Refusal(file, kind).value)
    ensures r.Uploaded? ==> r == Uploaded(kind.urlField, stored.value, file.originalFilename)
    ensures Refusal(file, kind).None? && stored.Err? ==> r == BadRequest("Error uploading file: " + stored.error)
  {
    match Refusal(file, kind)
    case Some(message) => BadRequest(message)
    case None =>
      match stored
      case Ok(url) => Uploaded(kind.urlField, url, file.originalFilename)
      case Err(e) => BadRequest("Error uploading file: " + e)
  }

  function UploadImage(file: Part, stored: Result<string>): (r: Reply)
    ensures r.Uploaded? ==>
      file.size > 0 && file.size <= MaxImageSize && file.contentType.Some? && StartsWith(file.contentType.value, "image/") && r.urlField == "imageUrl"
  {
    UploadFile(file, Image, stored)
  }

  function UploadVideo(file: Part, stored: Result<string>): (r: Reply)
    ensures r.Uploaded? ==>
      file.size > 0 && file.size <= MaxVideoSize && file.contentType.Some? && StartsWith(file.contentType.value, "video/") && r.urlField == "videoUrl"
  {
    UploadFile(file, Video, stored)
  }

  /**
   * A non-empty picture the course form accepts is accepted here too: the
   * browser's check and the server's agree on type and size.
   */
  lemma {:induction false} CourseFormImagesPass(f: Client.FileInfo, originalFilename: Option<string>)
    requires f.size > 0
    requires CourseForm.ImageFileProblem(f).None?
    ensures Refusal(Part(f.size, Some(f.mimeType), originalFilename), Image).None?
  {
  }

  /** Every video the upload component allows (type "video/mp4") passes the type check here. */
  lemma {:induction false} Mp4PassesTypeCheck(size: nat, originalFilename: Option<string>)
    requires 0 < size <= MaxVideoSize
    ensures Refusal(Part(size, Some("video/mp4"), originalFilename), Video).None?
  {
    assert "video/mp4"[..6] == "video/";
  }
}
