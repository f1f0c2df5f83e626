// LoginComponent: what submitting the login form does — nothing when the
// form is invalid; otherwise, once the server answers, either a welcome and
// the dashboard, or the error message picked from the failed response. The
// server's answer is an input; whether the email passes Angular's email
// validator is an input too.
module Login {
  import opened Wrappers
  import opened Strings
  import opened Client

  /** The form's two controls and the email validator's verdict on the email. */
  datatype LoginForm = LoginForm(email: string, password: string, emailWellFormed: bool)

  /**
   * The HttpErrorResponse's body: absent (or null), a text, or another JSON
   * value (an object), on which `includes` is not a function.
   */
  datatype ErrorBody = NoBody | Text(text: string) | JsonObject

  datatype Response =
    | Success(name: Option<string>)
    | Failure(status: int, body: ErrorBody)

  datatype Toast = LoginSuccess(userName: string) | LoginError

  /**
   * The component after the answer: whether a request was sent, the message
   * shown, the toast, where it navigated, and whether the error handler threw.
   */
  datatype Screen = Screen(requestSent: bool, isLoading: bool, errorMessage: string, toast: Option<Toast>, navigateTo: Option<string>, threw: bool)

  const InvalidCredentials := "Invalid email or password. Please check your credentials."
  const InvalidRequest := "Invalid request. Please check your input."
  const AuthenticationFailed := "Authentication failed. Please check your credentials."
  const NoConnection := "Unable to connect to server. Please check your internet connection."
  const LoginFailed := "Login failed. Please try again."

  /** Validators.required on both controls and Validators.email on the email. */
  predicate FormValid(form: LoginForm)
  {
    form.email != "" && form.emailWellFormed && form.password != ""
  }

  /**
   * The message the error handler picks, as written: a non-empty text body
   * verbatim; then by status. On a 400 whose body is a JSON object the
   * credentials test calls `includes` on it and throws (None).
   */
  function ErrorMessage(status: int, body: ErrorBody): (r: Option<string>)
    ensures body.Text? && body.text != "" ==> r == Some(body.text)
    ensures r.None? <==> status == 400 && body.JsonObject?
    ensures !(body.Text? && body.text != "") && status == 401 ==> r == Some(AuthenticationFailed)
    ensures !(body.Text? && body.text != "") && status == 0 ==> r == Some(NoConnection)
    ensures !(body.Text? && body.text != "") && status !in {0, 400, 401} ==> r == Some(LoginFailed)
  {
    if body.Text? && body.text != "" then Some(body.text)
    else if status == 400 then
      if body.JsonObject? then None
      else if body.Text? && Contains(body.text, "Bad credentials") then Some(InvalidCredentials)
      else Some(InvalidRequest)
    else if status == 401 then Some(AuthenticationFailed)
    else if status == 0 then Some(NoConnection)
    else Some(LoginFailed)
  }

  /**
   * The credentials message is never chosen by its own branch: a text body
   * that could contain "Bad credentials" is shown verbatim first, so the
   * message appears only when the server sent exactly that text.
   */
  lemma {:induction false} CredentialsBranchUnreachable(status: int, body: ErrorBody)
    ensures ErrorMessage(status, body) == Some(InvalidCredentials) ==> body == Text(InvalidCredentials)
  {
  }

  /** A 400 with no body, or an empty text, is an invalid request. */
  lemma {:induction false} EmptyBadRequest(body: ErrorBody)
    requires body == NoBody || body == Text("")
    ensures ErrorMessage(400, body) == Some(InvalidRequest)
  {
  }

  /** The same choice with the credentials test asked only of a text, so that it never throws. */
  function ErrorMessageCorrected(status: int, body: ErrorBody): (r: string)
    ensures ErrorMessage(status, body).Some? ==> r == ErrorMessage(status, body).value
    ensures status == 400 && body.JsonObject? ==> r == InvalidRequest
  {
    if body.Text? && body.text != "" then body.text
    else if status == 400 then
      if body.Text? && Contains(body.text, "Bad credentials") then InvalidCredentials
      else InvalidRequest
    else if status == 401 then AuthenticationFailed
    else if status == 0 then NoConnection
    else LoginFailed
  }

  /**
   * onSubmit with the handler as written: an invalid form sends nothing;
   * success welcomes the user (or "User") and goes to /dashboard; a failure
   * shows the picked message and the login-error toast, unless picking threw.
   */
  function OnSubmit(form: LoginForm, priorMessage: string, response: Response): (r: Screen)
    ensures r.requestSent <==> FormValid(form)
    ensures !r.isLoading
    ensures !FormValid(form) ==> r == Screen(false, false, priorMessage, None, None, false)
    ensures FormValid(form) && response.Success? ==>
      r.navigateTo == Some("/dashboard") && r.toast == Some(LoginSuccess(TextOr(response.name, "User"))) && !r.threw
    ensures FormValid(form) && response.Failure? ==> r.navigateTo.None?
    ensures FormValid(form) && response.Failure? ==>
      (r.threw <==> ErrorMessage(response.status, response.body).None?)
    ensures FormValid(form) && response.Failure? && !r.threw ==>
      r.errorMessage == ErrorMessage(response.status, response.body).value && r.toast == Some(LoginError)
  {
    if !FormValid(form) then Screen(false, false, priorMessage, None, None, false)
    else
      match response
      case Success(name) => Screen(true, false, priorMessage, Some(LoginSuccess(TextOr(name, "User"))), Some("/dashboard"), false)
      case Failure(status, body) =>
        match ErrorMessage(status, body)
        case None => Screen(true, false, priorMessage, None, None, true)
        case Some(m) => Screen(true, false, m, Some(LoginError), None, false)
  }

  /** With the corrected handler every failure shows a message and the toast; nothing throws. */
  function OnSubmitCorrected(form: LoginForm, priorMessage: string, response: Response): (r: Screen)
    ensures !r.threw
    ensures r.requestSent <==> FormValid(form)
    ensures FormValid(form) && response.Failure? ==>
      r.toast == Some(LoginError) && r.errorMessage == ErrorMessageCorrected(response.status, response.body)
    ensures OnSubmit(form, priorMessage, response).threw || r == OnSubmit(form, priorMessage, response)
  {
    if FormValid(form) && response.Failure? then
      Screen(true, false, ErrorMessageCorrected(response.status, response.body), Some(LoginError), None, false)
    else OnSubmit(form, priorMessage, response)
  }

  /** As written, a 400 with a JSON object body throws: no message and no toast. */
  lemma {:induction false} JsonBadRequestThrows(form: LoginForm, priorMessage: string)
    requires FormValid(form)
    ensures OnSubmit(form, priorMessage, Failure(400, JsonObject)).threw
    ensures OnSubmit(form, priorMessage, Failure(400, JsonObject)).toast.None?
    ensures OnSubmitCorrected(form, priorMessage, Failure(400, JsonObject)).errorMessage == InvalidRequest
  {
  }
}
