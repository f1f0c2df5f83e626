// CourseFormComponent: the three-step wizard in which an instructor creates
// or edits a course. The step counter, the thumbnail checks and validator,
// the image upload, and the decisions onSubmit takes about the thumbnail.
// The upload and save answers and the FileReader's data URL are parameters.
module CourseForm {
  import opened Wrappers
  import opened Strings
  import Client
  import Forms

  type FileInfo = Client.FileInfo

  // ---------------------------------------------------------------------
  // The form value and its validators

  datatype CourseFormValue = CourseFormValue(
    title: string, description: string, category: string, difficulty: string,
    price: Option<int>, duration: string, language: string, currency: string,
    isPublished: bool, isFeatured: bool, thumbnail: string)

  const InitialForm := CourseFormValue("", "", "", "", Some(0), "", "en", "USD", false, false, "")

  const Controls: set<string> := {
    "title", "description", "category", "difficulty", "price", "duration",
    "language", "currency", "isPublished", "isFeatured", "thumbnail"}

  /** thumbnailValidator: a new course without an image preview lacks its thumbnail. */
  function ThumbnailErrors(isEditMode: bool, imagePreview: Option<string>): (e: Forms.Errors)
    ensures e.required <==> !isEditMode && !Client.Truthy(imagePreview)
    ensures e.required || e == Forms.NoErrors
  {
    if !isEditMode && !Client.Truthy(imagePreview) then Forms.NoErrors.(required := true) else Forms.NoErrors
  }

  /** The errors of the control named `name`, or `None` when there is no such control. */
  function ControlErrors(f: CourseFormValue, isEditMode: bool, imagePreview: Option<string>, name: string): (r: Option<Forms.Errors>)
    ensures r.Some? <==> name in Controls
  {
    if name == "title" then Some(Forms.TextErrors(f.title, true, Some(5), Some(100)))
    else if name == "description" then Some(Forms.TextErrors(f.description, true, Some(20), Some(1000)))
    else if name == "category" then Some(Forms.TextErrors(f.category, true, None, None))
    else if name == "difficulty" then Some(Forms.TextErrors(f.difficulty, true, None, None))
    else if name == "duration" then Some(Forms.TextErrors(f.duration, true, Some(3), None))
    else if name == "thumbnail" then Some(ThumbnailErrors(isEditMode, imagePreview))
    else if name in Controls then Some(Forms.NoErrors)
    else None
  }

  predicate ControlValid(f: CourseFormValue, isEditMode: bool, imagePreview: Option<string>, name: string)
  {
    ControlErrors(f, isEditMode, imagePreview, name) == Some(Forms.NoErrors)
  }

  /** `courseForm.valid`. */
  predicate FormValid(f: CourseFormValue, isEditMode: bool, imagePreview: Option<string>)
  {
    forall name | name in Controls :: ControlValid(f, isEditMode, imagePreview, name)
  }

  /** The validators accept exactly these values. */
  lemma {:induction false} FormValidRanges(f: CourseFormValue, isEditMode: bool, imagePreview: Option<string>)
    ensures FormValid(f, isEditMode, imagePreview) <==>
      5 <= Utf16Length(f.title) <= 100 && 20 <= Utf16Length(f.description) <= 1000 &&
      f.category != "" && f.difficulty != "" && Utf16Length(f.duration) >= 3 &&
      (isEditMode || Client.Truthy(imagePreview))
  {
    if FormValid(f, isEditMode, imagePreview) {
      assert ControlValid(f, isEditMode, imagePreview, "title");
      assert ControlValid(f, isEditMode, imagePreview, "description");
      assert ControlValid(f, isEditMode, imagePreview, "category");
      assert ControlValid(f, isEditMode, imagePreview, "difficulty");
      assert ControlValid(f, isEditMode, imagePreview, "duration");
      assert ControlValid(f, isEditMode, imagePreview, "thumbnail");
    }
  }

  /** isStep1Valid: title, description, category and difficulty are valid. */
  predicate Step1Valid(f: CourseFormValue)
  {
    ControlValid(f, false, None, "title") && ControlValid(f, false, None, "description") &&
    ControlValid(f, false, None, "category") && ControlValid(f, false, None, "difficulty")
  }

  /** isStep2Valid: the duration is valid and there is a thumbnail value or a preview. */
  predicate Step2Valid(f: CourseFormValue, imagePreview: Option<string>)
  {
    ControlValid(f, false, None, "duration") && (f.thumbnail != "" || Client.Truthy(imagePreview))
  }

  /** A valid new course has passed both steps. */
  lemma {:induction false} ValidNewCourseSteps(f: CourseFormValue, imagePreview: Option<string>)
    requires FormValid(f, false, imagePreview)
    ensures Step1Valid(f) && Step2Valid(f, imagePreview)
  {
    FormValidRanges(f, false, imagePreview);
  }

  /** getFieldLabel. */
  function FieldLabel(name: string): (r: string)
    ensures name !in {"title", "description", "category", "difficulty", "price", "duration", "thumbnail"} ==> r == name
  {
    if name == "title" then "Title"
    else if name == "description" then "Description"
    else if name == "category" then "Category"
    else if name == "difficulty" then "Difficulty"
    else if name == "price" then "Price"
    else if name == "duration" then "Duration"
    else if name == "thumbnail" then "Course Image"
    else name
  }

  /**
   * getFieldError: required before minlength before maxlength before min.
   * The course form has no `max` validator, so the shared message builder
   * is this one.
   */
  function FieldError(f: CourseFormValue, isEditMode: bool, imagePreview: Option<string>, touched: set<string>, name: string): (r: string)
    ensures r == "" <==> name !in touched || !(name in Controls && !ControlValid(f, isEditMode, imagePreview, name))
  {
    match ControlErrors(f, isEditMode, imagePreview, name)
    case None => ""
    case Some(e) => Forms.FieldMessage(FieldLabel(name), e, name in touched)
  }

  /** A new course without a preview shows "Course Image is required" once touched. */
  lemma {:induction false} ThumbnailMessage(f: CourseFormValue, touched: set<string>)
    requires "thumbnail" in touched
    ensures FieldError(f, false, None, touched, "thumbnail") == "Course Image is required"
  {
  }

  // ---------------------------------------------------------------------
  // Image files

  const MaxImageSize := 5 * 1024 * 1024
  const NotAnImage := "Please select a valid image file"
  const ImageTooLarge := "Image size must be less than 5MB"

  /** The check handleFileSelection makes, in order: the type, then the size. */
  function ImageFileProblem(file: FileInfo): (r: Option<string>)
    ensures r.None? <==> StartsWith(file.mimeType, "image/") && file.size <= MaxImageSize
    ensures !StartsWith(file.mimeType, "image/") ==> r == Some(NotAnImage)
  {
    if !StartsWith(file.mimeType, "image/") then Some(NotAnImage)
    else if file.size > MaxImageSize then Some(ImageTooLarge)
    else None
  }

  // ---------------------------------------------------------------------
  // The component

  /** The course fields the edit form loads. */
  datatype LoadedCourse = LoadedCourse(
    title: string, description: string, category: string, difficulty: string,
    price: Option<int>, duration: string, thumbnail: string)

  /** The body sent to the server: the form value, its thumbnail and the instructor. */
  datatype CourseData = CourseData(form: CourseFormValue, instructorId: Option<int>)

  datatype CourseRequest = NoRequest | CreateCourse(data: CourseData) | UpdateCourse(courseId: int, data: CourseData)

  const ThumbnailMissing := "Please upload a course thumbnail"
  const ImageUploadFailed := "Failed to upload image. Please try again."
  const ThumbnailUploadFailed := "Failed to upload thumbnail. Please try again."
  const ThumbnailRequired := "Thumbnail is required"
  const UpdateFailed := "Failed to update course. Please try again."
  const CreateFailed := "Failed to create course. Please try again."

  /** The component. A route id of 0 stands for a missing one. */
  class CourseFormComponent {
    var form: CourseFormValue
    var touched: set<string>
    var isEditMode: bool
    var courseId: int
    var isLoading: bool
    var isSubmitting: bool
    var error: Option<string>
    var selectedFile: Option<FileInfo>
    var imagePreview: Option<string>
    var isUploading: bool
    var currentStep: int
    var isDragOver: bool

    /** The wizard is on one of its three steps. */
    predicate StepInRange()
      reads this
    {
      1 <= currentStep <= 3
    }

    constructor()
      ensures form == InitialForm && touched == {} && !isEditMode && courseId == 0
      ensures !isLoading && !isSubmitting && error.None? && selectedFile.None? && imagePreview.None?
      ensures !isUploading && currentStep == 1 && !isDragOver
      ensures StepInRange()
    {
      form, touched, isEditMode, courseId := InitialForm, {}, false, 0;
      isLoading, isSubmitting, error := false, false, None;
      selectedFile, imagePreview, isUploading := None, None, false;
      currentStep, isDragOver := 1, false;
    }

    /** The current form's validity, with the thumbnail validator reading this component. */
    predicate Valid()
      reads this
    {
      FormValid(form, isEditMode, imagePreview)
    }

    /** ngOnInit: a route id switches to edit mode. */
    method Init(idParam: int)
      modifies this
      ensures idParam != 0 ==> isEditMode && courseId == idParam
      ensures idParam == 0 ==> isEditMode == old(isEditMode) && courseId == old(courseId)
      ensures form == old(form) && touched == old(touched) && error == old(error) && isSubmitting == old(isSubmitting)
      ensures selectedFile == old(selectedFile) && imagePreview == old(imagePreview) && currentStep == old(currentStep)
    {
      if idParam != 0 {
        isEditMode := true;
        courseId := idParam;
      }
    }

    /** loadCourse with the server's answer: the form and the preview take the course's values. */
    method LoadCourse(response: Option<LoadedCourse>)
      modifies this
      ensures courseId == 0 ==> form == old(form) && error == old(error) && isLoading == old(isLoading) && imagePreview == old(imagePreview)
      ensures courseId != 0 && response.Some? ==>
        var c := response.value;
        form == old(form).(title := c.title, description := c.description, category := c.category,
          difficulty := c.difficulty, price := c.price, duration := c.duration, thumbnail := c.thumbnail) &&
        imagePreview == Some(c.thumbnail) && !isLoading && error == old(error)
      ensures courseId != 0 && response.None? ==>
        form == old(form) && error == Some("Failed to load course details") && !isLoading && imagePreview == old(imagePreview)
      ensures touched == old(touched) && isEditMode == old(isEditMode) && courseId == old(courseId) && isSubmitting == old(isSubmitting)
      ensures selectedFile == old(selectedFile) && currentStep == old(currentStep)
    {
      if courseId == 0 {
        return;
      }
      isLoading := true;
      if response.Some? {
        var c := response.value;
        form := form.(title := c.title, description := c.description, category := c.category,
          difficulty := c.difficulty, price := c.price, duration := c.duration, thumbnail := c.thumbnail);
        imagePreview := Some(c.thumbnail);
        isLoading := false;
      } else {
        error := Some("Failed to load course details");
        isLoading := false;
      }
    }

    /**
     * handleFileSelection: a non-image or an image over 5 MiB only sets the
     * error; an accepted file becomes the selection and its data URL the preview.
     */
    method HandleFileSelection(file: FileInfo, dataUrl: string)
      modifies this
      ensures ImageFileProblem(file).Some? ==>
        error == ImageFileProblem(file) && selectedFile == old(selectedFile) && imagePreview == old(imagePreview)
      ensures ImageFileProblem(file).None? ==>
        error.None? && selectedFile == Some(file) && imagePreview == Some(dataUrl)
      ensures form == old(form) && touched == old(touched) && isEditMode == old(isEditMode) && courseId == old(courseId)
      ensures isSubmitting == old(isSubmitting) && currentStep == old(currentStep) && isDragOver == old(isDragOver)
    {
      if !StartsWith(file.mimeType, "image/") {
        error := Some(NotAnImage);
        return;
      }
      if file.size > MaxImageSize {
        error := Some(ImageTooLarge);
        return;
      }
      selectedFile := Some(file);
      error := None;
      imagePreview := Some(dataUrl);
    }

    /** onDrop: the first dropped file, if it is an image, is handled; otherwise an error. */
    method OnDrop(files: seq<FileInfo>, dataUrl: string)
      modifies this
      ensures !isDragOver
      ensures |files| == 0 ==> error == old(error) && selectedFile == old(selectedFile) && imagePreview == old(imagePreview)
      ensures |files| > 0 ==> error == ImageFileProblem(files[0])
      ensures |files| > 0 && ImageFileProblem(files[0]).None? ==> selectedFile == Some(files[0]) && imagePreview == Some(dataUrl)
      ensures |files| > 0 && ImageFileProblem(files[0]).Some? ==> selectedFile == old(selectedFile) && imagePreview == old(imagePreview)
      ensures form == old(form) && touched == old(touched) && isEditMode == old(isEditMode) && courseId == old(courseId)
      ensures isSubmitting == old(isSubmitting) && currentStep == old(currentStep)
    {
      isDragOver := false;
      if |files| > 0 {
        if StartsWith(files[0].mimeType, "image/") {
          HandleFileSelection(files[0], dataUrl);
        } else {
          error := Some(NotAnImage);
        }
      }
    }

    /** removeImage: no file, no preview, no thumbnail value. */
    method RemoveImage()
      modifies this
      ensures selectedFile.None? && imagePreview.None? && form == old(form).(thumbnail := "")
      ensures !isEditMode ==> !Valid()
      ensures touched == old(touched) && isEditMode == old(isEditMode) && courseId == old(courseId) && error == old(error)
      ensures isSubmitting == old(isSubmitting) && currentStep == old(currentStep)
    {
      selectedFile := None;
      imagePreview := None;
      form := form.(thumbnail := "");
      if !isEditMode {
        assert !ControlValid(form, isEditMode, imagePreview, "thumbnail");
      }
    }

    /** nextStep: one step on, never past the third. */
    method NextStep()
      modifies this
      requires StepInRange()
      ensures StepInRange()
      ensures currentStep == if old(currentStep) < 3 then old(currentStep) + 1 else old(currentStep)
      ensures form == old(form) && touched == old(touched) && isEditMode == old(isEditMode) && error == old(error)
      ensures selectedFile == old(selectedFile) && imagePreview == old(imagePreview) && isSubmitting == old(isSubmitting)
    {
      if currentStep < 3 {
        currentStep := currentStep + 1;
      }
    }

    /** prevStep: one step back, never before the first. */
    method PrevStep()
      modifies this
      requires StepInRange()
      ensures StepInRange()
      ensures currentStep == if old(currentStep) > 1 then old(currentStep) - 1 else old(currentStep)
      ensures form == old(form) && touched == old(touched) && isEditMode == old(isEditMode) && error == old(error)
      ensures selectedFile == old(selectedFile) && imagePreview == old(imagePreview) && isSubmitting == old(isSubmitting)
    {
      if currentStep > 1 {
        currentStep := currentStep - 1;
      }
    }

    /** updateStep: a complete first or second step advances the wizard (the delay is not modelled). */
    method UpdateStep()
      modifies this
      requires StepInRange()
      ensures StepInRange()
      ensures (old(currentStep) == 1 && Step1Valid(form)) || (old(currentStep) == 2 && Step2Valid(form, imagePreview)) ==>
        currentStep == old(currentStep) + 1
      ensures !((old(currentStep) == 1 && Step1Valid(form)) || (old(currentStep) == 2 && Step2Valid(form, imagePreview))) ==>
        currentStep == old(currentStep)
      ensures form == old(form) && touched == old(touched) && isEditMode == old(isEditMode) && error == old(error)
      ensures selectedFile == old(selectedFile) && imagePreview == old(imagePreview) && isSubmitting == old(isSubmitting)
    {
      if currentStep == 1 && Step1Valid(form) {
        NextStep();
      } else if currentStep == 2 && Step2Valid(form, imagePreview) {
        NextStep();
      }
    }

    /** selectDifficulty: sets the difficulty, then updateStep. */
    method SelectDifficulty(difficulty: string)
      modifies this
      requires StepInRange()
      ensures StepInRange()
      ensures form == old(form).(difficulty := difficulty)
      ensures old(currentStep) == 1 && Step1Valid(form) ==> currentStep == 2
    {
      form := form.(difficulty := difficulty);
      UpdateStep();
    }

    /**
     * uploadImage with the upload's answer (`None` when it fails): without a
     * selected file, the thumbnail value if there is one; with one, the
     * uploaded URL, or an error.
     */
    method UploadImage(upload: Option<string>) returns (imageUrl: Option<string>)
      modifies this
      ensures selectedFile.None? ==> imageUrl == (if form.thumbnail != "" then Some(form.thumbnail) else None) && error == old(error)
      ensures selectedFile.Some? ==> imageUrl == upload && !isUploading
      ensures selectedFile.Some? && upload.None? ==> error == Some(ImageUploadFailed)
      ensures selectedFile.Some? && upload.Some? ==> error == old(error)
      ensures form == old(form) && touched == old(touched) && isEditMode == old(isEditMode) && courseId == old(courseId)
      ensures isSubmitting == old(isSubmitting) && currentStep == old(currentStep)
      ensures selectedFile == old(selectedFile) && imagePreview == old(imagePreview)
    {
      if selectedFile.None? {
        return if form.thumbnail != "" then Some(form.thumbnail) else None;
      }
      isUploading := true;
      if upload.Some? {
        isUploading := false;
        return upload;
      }
      error := Some(ImageUploadFailed);
      isUploading := false;
      return None;
    }

    /**
     * onSubmit with the upload's answer, the signed-in user and the save's
     * answer. A new course needs a file or a preview; an invalid form or a
     * submission in progress only marks the controls touched; a new course
     * is only sent with a thumbnail URL.
     */
    method OnSubmit(upload: Option<string>, user: Option<Client.ClientUser>, saved: bool) returns (req: CourseRequest)
      modifies this
      ensures !isEditMode && selectedFile.None? && !Client.Truthy(imagePreview) ==>
        req == NoRequest && error == Some(ThumbnailMissing) && touched == Controls
      ensures (isEditMode || selectedFile.Some? || Client.Truthy(imagePreview)) && !(Valid() && !old(isSubmitting)) ==>
        req == NoRequest && touched == Controls && isSubmitting == old(isSubmitting)
      ensures !isEditMode && selectedFile.Some? && Valid() && !old(isSubmitting) && !Client.Truthy(upload) ==>
        req == NoRequest && !isSubmitting
      ensures req.CreateCourse? ==>
        !isEditMode && Valid() && !old(isSubmitting) &&
        req.data == CourseData(form.(thumbnail := NewThumbnail(selectedFile, upload, form.thumbnail)), IdOf(user)) &&
        req.data.form.thumbnail != ""
      ensures req.UpdateCourse? ==>
        isEditMode && Valid() && !old(isSubmitting) && req.courseId == courseId &&
        req.data == CourseData(form.(thumbnail := EditedThumbnail(selectedFile, upload, form.thumbnail)), IdOf(user))
      ensures isEditMode && Valid() && !old(isSubmitting) ==> req.UpdateCourse?
      ensures !isEditMode && Valid() && !old(isSubmitting) && Client.Truthy(Some(NewThumbnail(selectedFile, upload, form.thumbnail))) ==>
        req.CreateCourse?
      ensures req != NoRequest && saved ==> isSubmitting
      ensures req != NoRequest && !saved ==> !isSubmitting && error == Some(if isEditMode then UpdateFailed else CreateFailed)
      ensures form == old(form) && isEditMode == old(isEditMode) && courseId == old(courseId)
      ensures selectedFile == old(selectedFile) && imagePreview == old(imagePreview) && currentStep == old(currentStep)
    {
      if !isEditMode && selectedFile.None? && !Client.Truthy(imagePreview) {
        error := Some(ThumbnailMissing);
        touched := Controls;
        return NoRequest;
      }
      if !(FormValid(form, isEditMode, imagePreview) && !isSubmitting) {
        touched := Controls;
        return NoRequest;
      }
      isSubmitting := true;
      error := None;
      var imageUrl := UploadImage(upload);
      req := Save(imageUrl, user, saved);
    }

    /** The part of onSubmit after the upload: pick the thumbnail, then create or update. */
    method Save(imageUrl: Option<string>, user: Option<Client.ClientUser>, saved: bool) returns (req: CourseRequest)
      modifies this
      requires isSubmitting
      ensures !isEditMode && selectedFile.Some? && !Client.Truthy(imageUrl) ==>
        req == NoRequest && !isSubmitting && error == Some(ThumbnailUploadFailed)
      ensures !isEditMode && selectedFile.None? && !Client.Truthy(imageUrl) ==>
        req == NoRequest && !isSubmitting && error == Some(ThumbnailRequired)
      ensures !isEditMode && Client.Truthy(imageUrl) ==>
        req == CreateCourse(CourseData(form.(thumbnail := imageUrl.value), IdOf(user)))
      ensures isEditMode ==>
        req == UpdateCourse(courseId, CourseData(form.(thumbnail := if Client.Truthy(imageUrl) then imageUrl.value else form.thumbnail), IdOf(user)))
      ensures req != NoRequest && saved ==> isSubmitting && error == old(error)
      ensures req != NoRequest && !saved ==> !isSubmitting && error == Some(if isEditMode then UpdateFailed else CreateFailed)
      ensures form == old(form) && touched == old(touched) && isEditMode == old(isEditMode) && courseId == old(courseId)
      ensures selectedFile == old(selectedFile) && imagePreview == old(imagePreview) && currentStep == old(currentStep)
    {
      var url := imageUrl;
      if !isEditMode && selectedFile.Some? && !Client.Truthy(url) {
        isSubmitting := false;
        error := Some(ThumbnailUploadFailed);
        return NoRequest;
      }
      if isEditMode && selectedFile.None? && !Client.Truthy(url) {
        url := if form.thumbnail != "" then Some(form.thumbnail) else None;
      }
      var data := CourseData(form, IdOf(user));
      if Client.Truthy(url) {
        data := data.(form := data.form.(thumbnail := url.value));
      } else if isEditMode {
        data := data.(form := data.form.(thumbnail := Client.TextOr(Some(form.thumbnail), "")));
      } else {
        isSubmitting := false;
        error := Some(ThumbnailRequired);
        return NoRequest;
      }
      req := if isEditMode then UpdateCourse(courseId, data) else CreateCourse(data);
      if !saved {
        error := Some(if isEditMode then UpdateFailed else CreateFailed);
        isSubmitting := false;
      }
    }
  }

  /** `courseData.instructorId = currentUser.id` when someone is signed in. */
  function IdOf(user: Option<Client.ClientUser>): (r: Option<int>)
    ensures r.Some? <==> user.Some?
  {
    if user.Some? then Some(user.value.id) else None
  }

  /** The thumbnail a new course is sent with: the upload's URL when a file was chosen, else the form's value. */
  function NewThumbnail(file: Option<FileInfo>, upload: Option<string>, thumbnail: string): string
  {
    if file.Some? then (if upload.Some? then upload.value else "") else thumbnail
  }

  /** The thumbnail an edited course is sent with: a new upload, else the form's value. */
  function EditedThumbnail(file: Option<FileInfo>, upload: Option<string>, thumbnail: string): (r: string)
    ensures file.None? || !Client.Truthy(upload) ==> r == thumbnail
  {
    if file.Some? && Client.Truthy(upload) then upload.value else thumbnail
  }
}
