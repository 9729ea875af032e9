/**
 * The login page: its component state and one handler per event.
 *
 * Events: a change in the e-mail or password input, the two checks, a submit (which yields the
 * request body, `None` when no request is sent), the server's answer, a relay `message` carrying
 * `connId|<id>`, the RSA key pair from the background worker, a relay `sendCode` carrying the
 * encrypted code, an edit of the code input, and the effect that re-submits once a code is set.
 *
 * Each event has a pure step on `LoginState`, where its meaning is proved, and a method of
 * `LoginForm` that performs it on the fields and is tied to the step. RSA-OAEP decryption is a
 * function parameter `decrypt(ciphertext, privateKeyPem)`, `None` when it throws.
 *
 * The handlers mutate the `qrData` object in place for `issuer`, `label` and `websocketId`; the
 * object keeps its identity, so React may not re-render for that update alone, but every later
 * reader sees the new values, which is what the model keeps.
 */
module LoginPage {

  import opened Wrappers
  import opened JsStrings
  import opened FormInput

  /** The QR payload for the companion app (`labelText` is the `label` field; `label` is a
      Dafny keyword). `None` stands for `undefined`, which the handlers store when the server's
      answer or the relay message lacks the field. */
  datatype QrCodeData = QrCodeData(
    relayUrl: string,
    publicKey: string,
    websocketId: Option<string>,
    issuer: Option<string>,
    labelText: Option<string>)

  const RelayUrl := "http://10.0.0.189:9999/sendCode"
  const InitialQrData := QrCodeData(RelayUrl, "", Some(""), Some(""), Some(""))

  /** The JSON body of a `/login` request; `code` is present only while 2FA is required. */
  datatype LoginRequest = LoginRequest(login: string, password: string, code: Option<string>)

  /** The fields of a JSON answer from the server that the error handler reads
      (`codeRequired` as its truthiness). */
  datatype ReplyBody = ReplyBody(
    codeRequired: bool,
    issuer: Option<string>,
    labelText: Option<string>,
    message: Option<string>)

  /** What `fetch` delivers: an answer, whose body is valid JSON or not (`Failure` with the
      parse error's message), or a rejection of the request itself. */
  datatype HttpReply =
    | Answered(ok: bool, status: int, statusText: string, json: Result<ReplyBody>)
    | NetworkError(message: string)

  /** The fields of the value that reaches `.catch` and that it reads. */
  datatype Thrown = Thrown(
    codeRequired: bool,
    issuer: Option<string>,
    labelText: Option<string>,
    message: Option<string>)

  /** The key pair posted back by the worker. */
  datatype KeyPair = KeyPair(privateKeyPem: string, publicKeyPem: string)

  /** The component's state: `useState` values and the private key held in `privateKeyRef`. */
  datatype LoginState = LoginState(
    loginData: Credentials,
    emailError: string,
    passError: string,
    twoFACode: string,
    twoFArequired: bool,
    isTwoFACodeSet: bool,
    privateKey: Option<string>,
    qrData: QrCodeData)

  const InitialState := LoginState(EmptyCredentials, "", "", "", false, false, None, InitialQrData)

  // ---------------------------------------------------------------------------------------
  // Pure steps

  /** `handleForm`: only the named field changes, to the value without whitespace. */
  function FormChanged(s: LoginState, field: FormField, raw: string): (r: LoginState)
    ensures r.loginData.Get(field) == StripWhitespace(raw)
    ensures r.loginData.Get(Other(field)) == s.loginData.Get(Other(field))
    ensures r.(loginData := s.loginData) == s
  {
    s.(loginData := Updated(s.loginData, field, raw))
  }

  /** The body `handleSubmit` sends: `code` is there exactly when 2FA is required. */
  function RequestBody(s: LoginState): (b: LoginRequest)
    ensures b.login == s.loginData.email && b.password == s.loginData.password
    ensures b.code.Some? <==> s.twoFArequired
    ensures b.code.Some? ==> b.code.value == s.twoFACode
  {
    LoginRequest(s.loginData.email, s.loginData.password,
                 if s.twoFArequired then Some(s.twoFACode) else None)
  }

  /** `handleSubmit`: the two checks update the error texts; a request goes out only when both
      pass, and nothing else in the state changes. */
  function Submitted(s: LoginState, emailOk: string -> bool): (r: (LoginState, Option<LoginRequest>))
    ensures r.1.Some? <==> s.loginData.password != "" && emailOk(s.loginData.email)
    ensures r.1.Some? ==> r.1.value == RequestBody(s)
    ensures r.0.passError == PasswordCheck(s.loginData.password).message
    ensures s.loginData.password == "" ==> r.0.emailError == s.emailError
    ensures s.loginData.password != "" ==> r.0.emailError == EmailCheck(emailOk, s.loginData.email).message
    ensures r.0.(passError := s.passError, emailError := s.emailError) == s
  {
    var g := SubmitGuard(s.loginData, emailOk, s.emailError);
    (s.(passError := g.passError, emailError := g.emailError),
     if g.passed then Some(RequestBody(s)) else None)
  }

  /** The value `.catch` receives, or `None` when the answer is OK and its body parses
      (the page then stores the body and navigates to `/userdata`). A non-OK answer with a
      JSON body throws `{ status, statusText, ...body }`; a body that does not parse or a request
      that fails throws an error without `codeRequired`. */
  function Raised(reply: HttpReply): (e: Option<Thrown>)
    ensures e.None? <==> reply.Answered? && reply.ok && reply.json.Success?
    ensures e.Some? && e.value.codeRequired
        <==> reply.Answered? && !reply.ok && reply.json.Success? && reply.json.value.codeRequired
    ensures e.Some? && e.value.codeRequired
        ==> e.value.issuer == reply.json.value.issuer && e.value.labelText == reply.json.value.labelText
  {
    match reply
    case NetworkError(message) => Some(Thrown(false, None, None, Some(message)))
    case Answered(ok, _, _, json) =>
      match json
      case Failure(message) => Some(Thrown(false, None, None, Some(message)))
      case Success(body) =>
        if ok then None
        else Some(Thrown(body.codeRequired, body.issuer, body.labelText, body.message))
  }

  /** `err.message || "An error occurred"`: never empty. */
  function ToastText(e: Thrown): (t: string)
    ensures t != ""
    ensures Truthy(e.message) ==> t == e.message.value
  {
    if Truthy(e.message) then e.message.value else "An error occurred"
  }

  /** The answer's handling: a challenge turns 2FA on and copies `issuer` and `label` into the
      QR data; every other outcome leaves the state as it was. */
  function ReplyHandled(s: LoginState, reply: HttpReply): (r: (LoginState, Effect))
    ensures Raised(reply).None? ==> r == (s, NavigateTo("/userdata"))
    ensures Raised(reply).Some? && Raised(reply).value.codeRequired
      ==> && r.1 == NoEffect && r.0.twoFArequired
          && r.0.qrData == s.qrData.(issuer := Raised(reply).value.issuer,
                                     labelText := Raised(reply).value.labelText)
          && r.0.(twoFArequired := s.twoFArequired, qrData := s.qrData) == s
    ensures Raised(reply).Some? && !Raised(reply).value.codeRequired
      ==> r.0 == s && r.1.ToastError? && r.1.text.Some? && r.1.text.value != ""
    ensures Raised(reply).Some? && !Raised(reply).value.codeRequired
      ==> r.1 == ToastError(Some(ToastText(Raised(reply).value)))
    ensures r.0.twoFArequired <==> s.twoFArequired || (Raised(reply).Some? && Raised(reply).value.codeRequired)
  {
    match Raised(reply)
    case None => (s, NavigateTo("/userdata"))
    case Some(e) =>
      if e.codeRequired then
        (s.(twoFArequired := true, qrData := s.qrData.(issuer := e.issuer, labelText := e.labelText)), NoEffect)
      else (s, ToastError(Some(ToastText(e))))
  }

  const ConnIdMarker := "connId"

  /** The relay `message` event: a message containing `connId` sets `websocketId` to its second
      `|`-separated field (`undefined` when there is none); any other message changes nothing. */
  function MessageReceived(s: LoginState, message: string): (r: LoginState)
    ensures !Contains(message, ConnIdMarker) ==> r == s
    ensures Contains(message, ConnIdMarker) ==> r.qrData.websocketId == SecondField(message, '|')
    ensures r.(qrData := s.qrData) == s
    ensures r.qrData.(websocketId := s.qrData.websocketId) == s.qrData
  {
    if Contains(message, ConnIdMarker) then
      s.(qrData := s.qrData.(websocketId := SecondField(message, '|')))
    else s
  }

  /** The session id the relay assigns, `connId|<id>`, is what ends up in `websocketId`. */
  lemma SessionIdAssigned(s: LoginState, id: string)
    requires '|' !in id
    ensures MessageReceived(s, ConnIdMarker + "|" + id).qrData.websocketId == Some(id)
    ensures MessageReceived(s, ConnIdMarker + "|" + id).(qrData := s.qrData) == s
  {
    var m := ConnIdMarker + "|" + id;
    assert m == [] + ConnIdMarker + ("|" + id);
    ContainsInfix([], ConnIdMarker, "|" + id);
    assert m == ConnIdMarker + ['|'] + id + [];
    SecondFieldOf(ConnIdMarker, '|', id, []);
  }

  /** The worker's `onmessage`: the private key is kept, the public key goes into the QR data,
      and the other QR fields stay. */
  function KeysReceived(s: LoginState, keys: KeyPair): (r: LoginState)
    ensures r.privateKey == Some(keys.privateKeyPem)
    ensures r.qrData.publicKey == keys.publicKeyPem
    ensures r.qrData.(publicKey := s.qrData.publicKey) == s.qrData
    ensures r.(privateKey := s.privateKey, qrData := s.qrData) == s
  {
    s.(privateKey := Some(keys.privateKeyPem), qrData := s.qrData.(publicKey := keys.publicKeyPem))
  }

  /** The relay `sendCode` event: with a message, a private key and a successful decryption the
      plaintext becomes the code and the code is marked set; otherwise nothing changes.
      (The component's teardown removes the other socket listeners but never this one.) */
  function CodeReceived(s: LoginState, message: Option<string>,
                        decrypt: (string, string) -> Option<string>): (r: LoginState)
    ensures !Truthy(message) || !Truthy(s.privateKey) ==> r == s
    ensures Truthy(message) && Truthy(s.privateKey) && decrypt(message.value, s.privateKey.value).None?
      ==> r == s
    ensures Truthy(message) && Truthy(s.privateKey) && decrypt(message.value, s.privateKey.value).Some?
      ==> r == s.(twoFACode := decrypt(message.value, s.privateKey.value).value, isTwoFACodeSet := true)
    ensures r.isTwoFACodeSet <==>
              (s.isTwoFACodeSet
               || (Truthy(message) && Truthy(s.privateKey) && decrypt(message.value, s.privateKey.value).Some?))
  {
    if Truthy(message) && Truthy(s.privateKey) then
      match decrypt(message.value, s.privateKey.value)
      case Some(plain) => s.(twoFACode := plain, isTwoFACodeSet := true)
      case None => s
    else s
  }

  /** The code input's `onChange`: the value is taken as typed (no whitespace removal). */
  function CodeEdited(s: LoginState, value: string): (r: LoginState)
    ensures r.twoFACode == value && r.(twoFACode := s.twoFACode) == s
  {
    s.(twoFACode := value)
  }

  /** The effect that runs when `isTwoFACodeSet` changes. The previous run's cleanup resets the
      flag; the new run submits only when the flag it sees is set and the code is not empty. */
  function CodeSetEffect(s: LoginState, emailOk: string -> bool): (r: (LoginState, Option<LoginRequest>))
    ensures !r.0.isTwoFACodeSet
    ensures r.1.Some? <==> s.isTwoFACodeSet && s.twoFACode != ""
                           && s.loginData.password != "" && emailOk(s.loginData.email)
    ensures r.1.Some? ==> r.1.value == RequestBody(s)
    ensures !(s.isTwoFACodeSet && s.twoFACode != "") ==> r.0 == s.(isTwoFACodeSet := false)
    ensures s.isTwoFACodeSet && s.twoFACode != "" ==> r.0 == Submitted(s, emailOk).0.(isTwoFACodeSet := false)
  {
    var cleared := s.(isTwoFACodeSet := false);
    if s.isTwoFACodeSet && s.twoFACode != "" then
      var sub := Submitted(s, emailOk);
      (sub.0.(isTwoFACodeSet := false), sub.1)
    else (cleared, None)
  }

  /** A code delivered while 2FA is required is decrypted and submitted with the credentials,
      without any user action. */
  lemma DeliveredCodeIsSubmitted(s: LoginState, message: string,
                                 decrypt: (string, string) -> Option<string>,
                                 emailOk: string -> bool, plain: string)
    requires s.twoFArequired && Truthy(s.privateKey) && message != ""
    requires decrypt(message, s.privateKey.value) == Some(plain) && plain != ""
    requires s.loginData.password != "" && emailOk(s.loginData.email)
    ensures var delivered := CodeReceived(s, Some(message), decrypt);
            CodeSetEffect(delivered, emailOk).1
              == Some(LoginRequest(s.loginData.email, s.loginData.password, Some(plain)))
  {
  }

  /** Nothing suppresses a repeated delivery: once the effect has reset the flag, the same
      ciphertext delivered again sets it again and is submitted again. */
  lemma RepeatedDeliveryResubmits(s: LoginState, message: string,
                                  decrypt: (string, string) -> Option<string>,
                                  emailOk: string -> bool)
    requires s.twoFArequired && Truthy(s.privateKey) && message != ""
    requires decrypt(message, s.privateKey.value).Some? && decrypt(message, s.privateKey.value).value != ""
    requires s.loginData.password != "" && emailOk(s.loginData.email)
    ensures var first := CodeSetEffect(CodeReceived(s, Some(message), decrypt), emailOk);
            var second := CodeSetEffect(CodeReceived(first.0, Some(message), decrypt), emailOk);
            first.1.Some? && second.1 == first.1
  {
  }

  // ---------------------------------------------------------------------------------------
  // The component

  class LoginForm {
    var loginData: Credentials
    var emailError: string
    var passError: string
    var twoFACode: string
    var twoFArequired: bool
    var isTwoFACodeSet: bool
    /** `privateKeyRef.current` */
    var privateKey: Option<string>
    var qrData: QrCodeData

    function State(): LoginState
      reads this
    {
      LoginState(loginData, emailError, passError, twoFACode, twoFArequired, isTwoFACodeSet,
                 privateKey, qrData)
    }

    constructor ()
      ensures State() == InitialState
    {
      loginData := EmptyCredentials;
      emailError, passError, twoFACode := "", "", "";
      twoFArequired, isTwoFACodeSet := false, false;
      privateKey := None;
      qrData := InitialQrData;
    }

    method HandleForm(field: FormField, raw: string)
      modifies this
      ensures State() == FormChanged(old(State()), field, raw)
    {
      loginData := Updated(loginData, field, raw);
    }

    method HandleEmailSyntax(emailOk: string -> bool) returns (ok: bool)
      modifies this
      ensures ok == emailOk(loginData.email)
      ensures State() == old(State()).(emailError := EmailCheck(emailOk, old(loginData.email)).message)
    {
      if !emailOk(loginData.email) {
        emailError := InvalidEmailFormat;
      } else {
        emailError := "";
      }
      ok := emailOk(loginData.email);
    }

    method HandlePassword() returns (ok: bool)
      modifies this
      ensures ok <==> |loginData.password| > 0
      ensures State() == old(State()).(passError := PasswordCheck(old(loginData.password)).message)
    {
      if |loginData.password| == 0 {
        passError := PasswordTooShort;
        return false;
      }
      passError := "";
      ok := true;
    }

    method HandleSubmit(emailOk: string -> bool) returns (request: Option<LoginRequest>)
      modifies this
      ensures (State(), request) == Submitted(old(State()), emailOk)
    {
      var passed := HandlePassword();
      if passed {
        passed := HandleEmailSyntax(emailOk);
      }
      if passed {
        request := Some(LoginRequest(loginData.email, loginData.password,
                                     if twoFArequired then Some(twoFACode) else None));
      } else {
        request := None;
      }
    }

    method HandleReply(reply: HttpReply) returns (effect: Effect)
      modifies this
      ensures (State(), effect) == ReplyHandled(old(State()), reply)
    {
      var err := Raised(reply);
      if err.None? {
        return NavigateTo("/userdata");
      }
      if err.value.codeRequired {
        twoFArequired := true;
        qrData := qrData.(issuer := err.value.issuer, labelText := err.value.labelText);
        effect := NoEffect;
      } else {
        effect := ToastError(Some(ToastText(err.value)));
      }
    }

    method OnMessage(message: string)
      modifies this
      ensures State() == MessageReceived(old(State()), message)
    {
      if Contains(message, ConnIdMarker) {
        var id := SecondField(message, '|');
        qrData := qrData.(websocketId := id);
      }
    }

    method OnWorkerKeys(keys: KeyPair)
      modifies this
      ensures State() == KeysReceived(old(State()), keys)
    {
      privateKey := Some(keys.privateKeyPem);
      qrData := qrData.(publicKey := keys.publicKeyPem);
    }

    // The `sendCode` listener is never unsubscribed by the effect's cleanup.
    method OnSendCode(message: Option<string>, decrypt: (string, string) -> Option<string>)
      modifies this
      ensures State() == CodeReceived(old(State()), message, decrypt)
    {
      if Truthy(message) {
        if Truthy(privateKey) {
          var plain := decrypt(message.value, privateKey.value);
          if plain.Some? {
            twoFACode := plain.value;
            isTwoFACodeSet := true;
          }
        }
      }
    }

    method OnCodeInput(value: string)
      modifies this
      ensures State() == CodeEdited(old(State()), value)
    {
      twoFACode := value;
    }

    method OnCodeSetChanged(emailOk: string -> bool) returns (request: Option<LoginRequest>)
      modifies this
      ensures (State(), request) == CodeSetEffect(old(State()), emailOk)
    {
      var fire := isTwoFACodeSet && twoFACode != "";
      if fire {
        request := HandleSubmit(emailOk);
      } else {
        request := None;
      }
      isTwoFACodeSet := false;
    }
  }
}
