/**
 * The admin sign-up page: its form state, the checks it runs before posting
 * (first failing check wins), the body it posts and how it shows a failure.
 */
module ClientSignup {
  import opened Wrappers
  import opened JsStrings
  import opened Patterns
  import opened Http
  import opened ClientApi

  const AllFieldsRequired := "All fields are required."
  const InvalidEmail := "Please enter a valid email address."
  const PasswordTooShort := "Password must be at least 8 characters long."
  const PasswordTooWeak := "Password must contain uppercase, lowercase, number, and special character (@$!%*?&)."
  const PasswordsDiffer := "Passwords do not match."
  const SignupFailed := "Signup failed. Please try again."

  /** The form state: input name to its current text. */
  type FormData = map<string, string>

  const EmptyForm: FormData :=
    map["firstName" := "", "lastName" := "", "email" := "", "password" := "", "confirmPassword" := ""]

  /** `formData[name]`, `undefined` (falsy, like "") when absent. */
  function Input(form: FormData, name: string): string {
    if name in form then form[name] else ""
  }

  /** Every one of the five inputs is non-empty. */
  predicate AllFilled(form: FormData) {
    && Input(form, "firstName") != "" && Input(form, "lastName") != ""
    && Input(form, "email") != "" && Input(form, "password") != ""
    && Input(form, "confirmPassword") != ""
  }

  /** What a form must satisfy to be posted, as one conjunction. */
  predicate Acceptable(form: FormData) {
    var password := Input(form, "password");
    && AllFilled(form)
    && EmailPattern(Input(form, "email"))
    && Utf16Length(password) >= 8
    && StrongPassword(password)
    && password == Input(form, "confirmPassword")
  }

  /** The checks of `handleSignup`, in order; the message of the first that
      fails, or None when the form may be posted. */
  function CheckForm(form: FormData): (r: Option<string>)
    ensures r.None? <==> Acceptable(form)
  {
    var password := Input(form, "password");
    if !AllFilled(form) then Some(AllFieldsRequired)
    else if !EmailPattern(Input(form, "email")) then Some(InvalidEmail)
    else if Utf16Length(password) < 8 then Some(PasswordTooShort)
    else if !StrongPassword(password) then Some(PasswordTooWeak)
    else if password != Input(form, "confirmPassword") then Some(PasswordsDiffer)
    else None
  }

  /** Which message a form gets: each message exactly when its check is the
      first one to fail. */
  lemma FirstFailureWins(form: FormData)
    ensures var password := Input(form, "password");
      && (CheckForm(form) == Some(AllFieldsRequired) <==> !AllFilled(form))
      && (CheckForm(form) == Some(InvalidEmail) <==>
            AllFilled(form) && !EmailPattern(Input(form, "email")))
      && (CheckForm(form) == Some(PasswordTooShort) <==>
            AllFilled(form) && EmailPattern(Input(form, "email")) && Utf16Length(password) < 8)
      && (CheckForm(form) == Some(PasswordTooWeak) <==>
            AllFilled(form) && EmailPattern(Input(form, "email")) && Utf16Length(password) >= 8 &&
            !StrongPassword(password))
      && (CheckForm(form) == Some(PasswordsDiffer) <==>
            AllFilled(form) && EmailPattern(Input(form, "email")) && Utf16Length(password) >= 8 &&
            StrongPassword(password) && password != Input(form, "confirmPassword"))
  {
  }

  /** The JSON body posted to `/admin/signup`. */
  function RequestBody(form: FormData): (b: Body)
    ensures b.Keys == {"firstName", "lastName", "email", "password"}
    ensures Field(b, "firstName") == Str(Input(form, "firstName"))
    ensures Field(b, "lastName") == Str(Input(form, "lastName"))
    ensures Field(b, "email") == Str(Input(form, "email"))
    ensures Field(b, "password") == Str(Input(form, "password"))
  {
    map["firstName" := Str(Input(form, "firstName")), "lastName" := Str(Input(form, "lastName")),
        "email" := Str(Input(form, "email")), "password" := Str(Input(form, "password"))]
  }

  /** The confirmation never leaves the browser. */
  lemma ConfirmationNotSent(form: FormData)
    ensures "confirmPassword" !in RequestBody(form)
  {
  }

  /** `errors.map(e => e.msg)` */
  function Messages(errors: seq<FieldError>): (msgs: seq<string>)
    ensures |msgs| == |errors|
    ensures forall i :: 0 <= i < |errors| ==> msgs[i] == errors[i].msg
  {
    if |errors| == 0 then [] else [errors[0].msg] + Messages(errors[1..])
  }

  /** The text shown for a failed post: the server's validation messages
      joined by ", " when the reply carries an `errors` array, else its
      `message` when that is non-empty, else a fixed fallback. */
  function ErrorText(err: ApiError): (text: string)
    ensures err.response.Some? && err.response.value.data.Some? &&
            err.response.value.data.value.Errors? ==>
              text == Join(Messages(err.response.value.data.value.errors), ", ")
    ensures err.response.Some? && err.response.value.data.Some? &&
            err.response.value.data.value.Message? &&
            err.response.value.data.value.message != "" ==>
              text == err.response.value.data.value.message
    ensures err.response.None? || err.response.value.data.None? ==> text == SignupFailed
    ensures err.response.Some? && err.response.value.data.Some? &&
            !err.response.value.data.value.Errors? &&
            !(err.response.value.data.value.Message? && err.response.value.data.value.message != "") ==>
              text == SignupFailed
  {
    match err.response
    case None => SignupFailed
    case Some(response) =>
      match response.data
      case Some(Errors(errors)) => Join(Messages(errors), ", ")
      case Some(Message(_, message, _)) => if message != "" then message else SignupFailed
      case _ => SignupFailed
  }

  /** The page's state. */
  class SignupPage {
    var formData: FormData
    var error: string

    constructor ()
      ensures formData == EmptyForm && error == ""
    {
      formData := EmptyForm;
      error := "";
    }

    /** `handleChange`: one input's text replaced, the rest kept. */
    method HandleChange(name: string, value: string)
      modifies this
      ensures formData == old(formData)[name := value]
      ensures error == old(error)
    {
      formData := formData[name := value];
    }

    /** `handleSignup`, with the settled post passed in (after the response
        interceptor). Returns the body it posted, None when a check stopped it. */
    method HandleSignup(reply: Settled<Response, ApiError>) returns (posted: Option<Body>)
      modifies this
      // a failing check shows its message and posts nothing
      ensures CheckForm(old(formData)).Some? ==>
        posted.None? && error == CheckForm(old(formData)).value && formData == old(formData)
      // a valid form is posted without the confirmation
      ensures CheckForm(old(formData)).None? ==> posted == Some(RequestBody(old(formData)))
      // success clears the error and resets every input
      ensures CheckForm(old(formData)).None? && reply.Resolved? ==>
        error == "" && formData == EmptyForm
      // failure keeps the inputs and shows the server's explanation
      ensures CheckForm(old(formData)).None? && reply.Rejected? ==>
        error == ErrorText(reply.error) && formData == old(formData)
    {
      error := "";
      var problem := CheckForm(formData);
      if problem.Some? {
        error := problem.value;
        return None;
      }
      posted := Some(RequestBody(formData));
      match reply
      case Resolved(_) =>
        formData := EmptyForm;
      case Rejected(err) =>
        error := ErrorText(err);
    }
  }

  /** A form the page posts has a strong password of at least eight
      UTF-16 code units, matching its confirmation, and an address of the shape
      user@host.tld without spaces. */
  lemma PostedFormShape(form: FormData)
    requires CheckForm(form).None?
    ensures StrongPassword(Input(form, "password")) && Utf16Length(Input(form, "password")) >= 8
    ensures Input(form, "password") == Input(form, "confirmPassword")
    ensures EmailShape(Input(form, "email"))
  {
    EmailPatternIffShape(Input(form, "email"));
  }
}
