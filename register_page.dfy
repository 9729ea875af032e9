/**
 * The registration page: the credentials form, its two checks, the submit that yields the
 * `/register` request body, and what the page does with the answer.
 */
module RegisterPage {

  import opened Wrappers
  import opened FormInput

  /** The JSON body of a `/register` request: the e-mail as `login`, and the password. */
  datatype RegisterRequest = RegisterRequest(login: string, password: string)

  /** What `fetch` delivers: an answer with its `ok` flag and `statusText`, or a rejection. */
  datatype RegisterReply =
    | Answered(ok: bool, statusText: string)
    | NetworkError(message: string)

  /** The answer's handling: an OK answer navigates to the login page; a non-OK answer is
      thrown as it is and its `statusText` shown; a rejected request has no `statusText`. */
  function Outcome(reply: RegisterReply): (e: Effect)
    ensures e == NavigateTo("/login") <==> reply.Answered? && reply.ok
    ensures reply.Answered? && !reply.ok ==> e == ToastError(Some(reply.statusText))
    ensures reply.NetworkError? ==> e == ToastError(None)
  {
    match reply
    case Answered(ok, statusText) => if ok then NavigateTo("/login") else ToastError(Some(statusText))
    case NetworkError(_) => ToastError(None)
  }

  class RegisterForm {
    var loginData: Credentials
    var emailError: string
    var passError: string

    constructor ()
      ensures loginData == EmptyCredentials && emailError == "" && passError == ""
    {
      loginData := EmptyCredentials;
      emailError, passError := "", "";
    }

    /** `handleForm`: only the named field changes, to the value without whitespace. */
    method HandleForm(field: FormField, raw: string)
      modifies this
      ensures loginData == Updated(old(loginData), field, raw)
      ensures emailError == old(emailError) && passError == old(passError)
    {
      loginData := Updated(loginData, field, raw);
    }

    method HandleEmailSyntax(emailOk: string -> bool) returns (ok: bool)
      modifies this
      ensures ok == emailOk(loginData.email)
      ensures emailError == EmailCheck(emailOk, loginData.email).message
      ensures loginData == old(loginData) && passError == old(passError)
    {
      if !emailOk(loginData.email) {
        emailError := InvalidEmailFormat;
      } else {
        emailError := "";
      }
      ok := emailOk(loginData.email);
    }

    method HandlePassword() returns (ok: bool)
      modifies this
      ensures ok <==> |loginData.password| > 0
      ensures passError == PasswordCheck(loginData.password).message
      ensures loginData == old(loginData) && emailError == old(emailError)
    {
      if |loginData.password| == 0 {
        passError := PasswordTooShort;
        return false;
      }
      passError := "";
      ok := true;
    }

    /** `handleSubmit`: the request, with exactly the e-mail and the password, goes out only when
        both checks pass; the password check runs first. */
    method HandleSubmit(emailOk: string -> bool) returns (request: Option<RegisterRequest>)
      modifies this
      ensures loginData == old(loginData)
      ensures var g := SubmitGuard(old(loginData), emailOk, old(emailError));
              && passError == g.passError && emailError == g.emailError
              && (request.Some? <==> g.passed)
      ensures request.Some? ==> request.value == RegisterRequest(loginData.email, loginData.password)
    {
      var passed := HandlePassword();
      if passed {
        passed := HandleEmailSyntax(emailOk);
      }
      if passed {
        request := Some(RegisterRequest(loginData.email, loginData.password));
      } else {
        request := None;
      }
    }
  }
}
