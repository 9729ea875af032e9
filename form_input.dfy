/**
 * What the login page and the registration page share: the two-field credentials object, the
 * `handleForm` updater, the password and e-mail checks behind `handlePassword` and
 * `handleEmailSyntax`, the guard of `handleSubmit`, and the browser side effects a handler asks for.
 *
 * The e-mail regular expression is a parameter `emailOk` standing for `regex.test(email)`. The
 * expression is not anchored with `^`/`$`, so `emailOk` holds of any string with a matching
 * substring; it has no `g` flag, so testing twice gives the same answer.
 */
module FormInput {

  import opened Wrappers
  import opened JsStrings

  /** The `name` attribute of the two inputs that call `handleForm`. */
  datatype FormField = Email | Password

  function Other(f: FormField): FormField
  {
    match f
    case Email => Password
    case Password => Email
  }

  /** The `loginData` state object, `{ email, password }`. */
  datatype Credentials = Credentials(email: string, password: string)
  {
    function Get(f: FormField): string
    {
      match f
      case Email => email
      case Password => password
    }
  }

  const EmptyCredentials := Credentials("", "")
  const PasswordTooShort := "password too short"
  const InvalidEmailFormat := "invalid email format"

  /** The `handleForm` updater: `{ ...prev, [name]: value.replace(/\s/g, "") }`. */
  function Updated(data: Credentials, field: FormField, raw: string): (d: Credentials)
    ensures d.Get(field) == StripWhitespace(raw)
    ensures NoWhitespace(d.Get(field))
    ensures d.Get(Other(field)) == data.Get(Other(field))
  {
    match field
    case Email => data.(email := StripWhitespace(raw))
    case Password => data.(password := StripWhitespace(raw))
  }

  /** Feeding a field's stored value back through `handleForm` changes nothing. */
  lemma UpdatedStable(data: Credentials, field: FormField, raw: string)
    ensures var d := Updated(data, field, raw); Updated(d, field, d.Get(field)) == d
  {
    StripIdempotent(raw);
  }

  /** `handlePassword`: whether it passes and the `passError` it leaves. */
  datatype Check = Check(passed: bool, message: string)

  function PasswordCheck(password: string): (c: Check)
    ensures c.passed <==> |password| > 0
    ensures c.message == (if c.passed then "" else PasswordTooShort)
  {
    if |password| == 0 then Check(false, PasswordTooShort) else Check(true, "")
  }

  /** `handleEmailSyntax`: whether it passes and the `emailError` it leaves. */
  function EmailCheck(emailOk: string -> bool, email: string): (c: Check)
    ensures c.passed == emailOk(email)
    ensures c.message == (if c.passed then "" else InvalidEmailFormat)
  {
    if !emailOk(email) then Check(false, InvalidEmailFormat) else Check(true, "")
  }

  /** `handlePassword() && handleEmailSyntax()`, as run by `handleSubmit`. */
  datatype Guard = Guard(passed: bool, passError: string, emailError: string)

  function SubmitGuard(data: Credentials, emailOk: string -> bool, emailError: string): (g: Guard)
    // A request is sent only when both checks pass.
    ensures g.passed <==> data.password != "" && emailOk(data.email)
    ensures g.passError == PasswordCheck(data.password).message
    // The password check runs first; when it fails the e-mail check is not run at all.
    ensures data.password == "" ==> g.emailError == emailError
    ensures data.password != "" ==> g.emailError == EmailCheck(emailOk, data.email).message
  {
    var p := PasswordCheck(data.password);
    if !p.passed then Guard(false, p.message, emailError)
    else
      var e := EmailCheck(emailOk, data.email);
      Guard(e.passed, p.message, e.message)
  }

  /** The browser side effect a handler ends with. */
  datatype Effect =
    | NoEffect
    | NavigateTo(path: string)
    | ToastError(text: Option<string>)
}
