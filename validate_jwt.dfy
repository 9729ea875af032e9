/**
 * The `validateJWT` Express middleware: reject a request without an `authorization` header (403),
 * fail when the signing secret is not configured (500), otherwise verify the header value and
 * either pass the decoded claims on to the next handler or reject it (403).
 *
 * `jwt.verify` (JSON Web Token, RFC 7519) is a function parameter that yields the decoded claims or
 * `None` when it throws. The header value is handed to it unchanged: no `Bearer ` prefix is removed.
 * Storing the claims into `req.body.token` throws when the request has no body, and that error
 * falls into the same `catch` as a failed verification.
 */
module ValidateJwt {

  import opened Wrappers

  /** The decoded payload of a verified token, kept abstract. */
  datatype Claims = Claims(payload: string)

  /** The JSON body of a rejection: `{ status: .. }` or a bare JSON string. */
  datatype JsonReply = StatusObject(status: string) | JsonText(text: string)

  /** The middleware's decision: call `next` with the claims, or answer with an error. */
  datatype Verdict =
    | Next(claims: Claims)
    | Reject(status: int, statusMessage: string, body: JsonReply)

  const NoTokenMessage := "no token included inside http header"
  const NoSecretMessage := "JWT_SECRET enviromental variable is undefined"
  const InvalidTokenMessage := "invalid token"

  /** The decision `validateJWT` takes on the header, the configured secret, `verify` and
      whether the request has a body to store the claims in. */
  function Decide(authorization: Option<string>, secret: Option<string>,
                  verify: (string, string) -> Option<Claims>, hasBody: bool): (v: Verdict)
    // The header is checked first: without one the answer is 403, whatever the secret.
    ensures !Truthy(authorization)
      ==> v == Reject(403, NoTokenMessage, StatusObject(NoTokenMessage))
    // A header without a configured secret is a server error.
    ensures Truthy(authorization) && !Truthy(secret)
      ==> v == Reject(500, NoSecretMessage, StatusObject("internal server errror"))
    // `next` is reached exactly when both are present, verification succeeds and the
    // claims can be stored, and then with the claims `verify` decoded.
    ensures v.Next? <==> Truthy(authorization) && Truthy(secret)
                         && verify(authorization.value, secret.value).Some? && hasBody
    ensures v.Next? ==> v.claims == verify(authorization.value, secret.value).value
    // A failed verification, or a request without a body, is an invalid token.
    ensures Truthy(authorization) && Truthy(secret)
            && (verify(authorization.value, secret.value).None? || !hasBody)
      ==> v == Reject(403, InvalidTokenMessage, JsonText(InvalidTokenMessage))
    ensures v.Reject? ==> v.status == 403 || v.status == 500
  {
    if !Truthy(authorization) then
      Reject(403, NoTokenMessage, StatusObject(NoTokenMessage))
    else if !Truthy(secret) then
      Reject(500, NoSecretMessage, StatusObject("internal server errror"))
    else
      match verify(authorization.value, secret.value)
      case Some(claims) =>
        if hasBody then Next(claims)
        else Reject(403, InvalidTokenMessage, JsonText(InvalidTokenMessage))
      case None => Reject(403, InvalidTokenMessage, JsonText(InvalidTokenMessage))
  }

  /** The request and response objects as the middleware sees them, and a count of `next` calls. */
  class Exchange {
    /** Whether `req.body` is defined. */
    const hasBody: bool
    /** `req.body.token` */
    var token: Option<Claims>
    /** `res.statusMessage` */
    var statusMessage: Option<string>
    /** The status and JSON body sent, if any. */
    var sent: Option<(int, JsonReply)>
    var nextCalls: nat

    constructor (hasBody: bool, token: Option<Claims>)
      ensures this.hasBody == hasBody && this.token == token
      ensures statusMessage == None && sent == None && nextCalls == 0
    {
      this.hasBody := hasBody;
      this.token := token;
      statusMessage := None;
      sent := None;
      nextCalls := 0;
    }
  }

  /** `validateJWT(req, res, next)`: every path either calls `next` once, with `req.body.token`
      set to the claims and nothing sent, or sends one error response, with `res.statusMessage`
      set and `next` not called. */
  method ValidateJWT(ex: Exchange, authorization: Option<string>, secret: Option<string>,
                     verify: (string, string) -> Option<Claims>)
    modifies ex
    ensures match Decide(authorization, secret, verify, ex.hasBody)
            case Next(claims) =>
              && ex.token == Some(claims)
              && ex.nextCalls == old(ex.nextCalls) + 1
              && ex.sent == old(ex.sent) && ex.statusMessage == old(ex.statusMessage)
            case Reject(status, message, body) =>
              && ex.sent == Some((status, body))
              && ex.statusMessage == Some(message)
              && ex.nextCalls == old(ex.nextCalls) && ex.token == old(ex.token)
  {
    if !Truthy(authorization) {
      ex.statusMessage := Some(NoTokenMessage);
      ex.sent := Some((403, StatusObject(NoTokenMessage)));
      return;
    }
    if !Truthy(secret) {
      ex.statusMessage := Some(NoSecretMessage);
      ex.sent := Some((500, StatusObject("internal server errror")));
      return;
    }
    var decoded := verify(authorization.value, secret.value);
    if decoded.Some? && ex.hasBody {
      ex.token := decoded;
      ex.nextCalls := ex.nextCalls + 1;
    } else {
      ex.statusMessage := Some(InvalidTokenMessage);
      ex.sent := Some((403, JsonText(InvalidTokenMessage)));
    }
  }

  /** A fresh request through the middleware: `next` is called at most once, and is called
      exactly when no response was sent. */
  method Gate(authorization: Option<string>, secret: Option<string>,
              verify: (string, string) -> Option<Claims>, hasBody: bool)
    returns (nextCalled: bool, sent: Option<(int, JsonReply)>)
    ensures nextCalled <==> sent.None?
    ensures nextCalled <==> Decide(authorization, secret, verify, hasBody).Next?
    ensures sent.Some? ==> sent.value.0 == 403 || sent.value.0 == 500
  {
    var ex := new Exchange(hasBody, None);
    ValidateJWT(ex, authorization, secret, verify);
    nextCalled := ex.nextCalls == 1;
    sent := ex.sent;
  }
}
