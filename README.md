# open2FA-webapp: account server, token gate and login form

This project models, in Dafny, the part of open2FA-webapp that makes decisions:

- the account server's handlers `GET /`, `POST /login` and `POST /register`, acting on the
  `users` table (`AccountServer`, with the table's schema in `UserModel`);
- the `validateJWT` middleware that admits or rejects a request by its `authorization` header
  (`ValidateJwt`);
- the browser's login page, whose state moves through credential entry, the server's 2FA
  challenge, the relay's session id, the background RSA key pair, delivery of an encrypted code
  and automatic re-submission (`LoginPage`), and the registration page (`RegisterPage`); the
  helpers both pages duplicate are defined once (`FormInput`);
- the JavaScript string built-ins these rely on: whitespace removal, `includes` and `split`
  (`JsStrings`).

Mutable things are classes: `AccountServer.UserTable` (a map from login to row plus the
auto-increment counter), `ValidateJwt.Exchange` (request/response fields and the count of `next`
calls), `LoginPage.LoginForm` and `RegisterPage.RegisterForm` (the components' state). Each method
of `LoginForm` is tied to a pure step on `LoginPage.LoginState`, where its meaning is proved.

Foreign calls are parameters: `bcrypt.compare` (`compare`), `jwt.verify` (`verify`, returning
`None` when it throws), RSA-OAEP decryption (`decrypt`, `None` when it throws), and the e-mail
regular expression (`emailOk`). The database's failures are input flags. JavaScript `undefined`
or `null` is `None`; a string's truthiness is `Wrappers.Truthy`.

Behaviour of the code that the model keeps as written:

- `/login` has no second-factor step: it answers 200 for a known login whatever the password,
  since the outcome of `bcrypt.compare` is never read; there is no token, no 401 challenge.
  Passwords are stored as submitted, not hashed.
- The handlers look rows up and create them by `name`; the schema declares `email` and no `name`.
  The table is keyed by the login string, and replies echo it as `name`.
- `GET /` answers 505, not 500, when its query throws.
- The login page has no debounce: the same ciphertext delivered again after the auto-submit has
  reset the flag is decrypted and submitted again (`LoginPage.RepeatedDeliveryResubmits`).
- `validateJWT` passes the whole `authorization` value to `verify`; no `Bearer ` prefix is removed.

## Model

| member | source | states |
|---|---|---|
| `UserModel.Materialize` | back/src/Models/User.ts:14-15 | a created row takes a given id or else the auto-increment value; every other attribute is stored as supplied |
| `UserModel.AsCreation` | back/src/Models/User.ts:14-15 | a row read back as creation attributes supplies its own id |
| `UserModel.MaterializeAsCreation` | back/src/Models/User.ts:4-15 | every row is reproduced by creating it from its own attributes |
| `UserModel.AutoIncrementFresh` | back/src/Models/User.ts:38-42 | drawing the id from the counter keeps primary keys distinct and below the advanced counter |
| `Wrappers.Truthy` | back/src/middleware/validateJWT.ts:10-16 | a string counts as present only when it is given and non-empty; the empty string is falsy |
| `AccountServer.WellFormed` | back/src/index.ts:34-35 | the body passes exactly when `login` and `password` are both given and non-empty |
| `AccountServer.NewUser` | back/src/index.ts:77-81 | the creation attributes carry no id, 2FA off, no hashes, and the login and password as submitted |
| `AccountServer.UserTable.constructor` | back/src/index.ts:8-9 | the in-memory table starts empty with the counter at 1 |
| `AccountServer.UserTable.ListAll` | back/src/index.ts:18-26 | answers 200 with exactly the rows of the table, or 505 when the query throws; changes nothing |
| `AccountServer.UserTable.Login` | back/src/index.ts:28-59 | 400 without a body, then 403 without truthy login and password, then 500 on a lookup error, then 404 for an unknown login, else 200 with the row's id, the login and the 2FA flag whatever the password; 200 exactly in the last case; changes nothing |
| `AccountServer.UserTable.Register` | back/src/index.ts:61-95 | same early returns; an existing login gives 408; a new one gets exactly one new row with the submitted password, 2FA off, no hashes and the next id, echoed in the 200 reply; every other answer leaves table and counter unchanged; the invariant is kept |
| `AccountServer.FreshKeyValues` | back/src/index.ts:77-81 | filing a row under a new login adds exactly that row to the table |
| `AccountServer.RegisterTwice` | back/src/index.ts:70-90 | a second registration of the same login always answers 408 |
| `AccountServer.RegisterThenLogin` | back/src/index.ts:44-54 | after registering, a login with any other password answers 200 with the registration's payload |
| `ValidateJwt.Decide` | back/src/middleware/validateJWT.ts:9-28 | no header gives 403 whatever the secret; a header without secret gives 500; `next` is reached exactly when both are present, `verify` succeeds and the request has a body, with the claims; a failed `verify`, or a request without a body to store the claims in, gives 403 "invalid token" |
| `ValidateJwt.Exchange.constructor` | back/src/middleware/validateJWT.ts:4-8 | a request arrives with or without a body and with its body's token as given, no status message, nothing sent and `next` not yet called |
| `ValidateJwt.ValidateJWT` | back/src/middleware/validateJWT.ts:9-28 | on `Next` sets `req.body.token` to the claims, calls `next` once and sends nothing; on `Reject` sets the status message and sends the error without calling `next` |
| `ValidateJwt.Gate` | back/src/middleware/validateJWT.ts:9-28 | on a fresh request `next` is called exactly when no response is sent, and any response is 403 or 500 |
| `JsStrings.IsJsWhitespace` | front/src/pages/login.tsx:62 | the `\s` class: no visible ASCII character belongs to it |
| `JsStrings.StripWhitespace` | front/src/pages/login.tsx:62 | the result is no longer than the input and holds no whitespace |
| `JsStrings.StripConcat` | front/src/pages/login.tsx:62 | whitespace removal distributes over concatenation |
| `JsStrings.StripClean` | front/src/pages/login.tsx:62 | a string without whitespace is left unchanged |
| `JsStrings.StripIdempotent` | front/src/pages/Register.tsx:15 | removing whitespace twice equals removing it once |
| `JsStrings.StripKeeps` | front/src/pages/login.tsx:62 | a character survives exactly when it occurs in the input and is not whitespace |
| `JsStrings.Contains` | front/src/pages/login.tsx:143 | `includes` never reports a piece longer than the string |
| `JsStrings.ContainsWitness` | front/src/pages/login.tsx:143 | `includes` is true only when the string really is some prefix, the piece and some suffix |
| `JsStrings.ContainsInfix` | front/src/pages/login.tsx:143 | `includes` finds a piece wherever it is placed |
| `JsStrings.Split` | front/src/pages/login.tsx:144 | `split` yields at least one piece and no piece holds the separator |
| `JsStrings.JoinSplit` | front/src/pages/login.tsx:144 | joining the pieces of a split with the separator gives back the string |
| `JsStrings.SplitSingle` | front/src/pages/login.tsx:144 | a string splits into one piece exactly when it lacks the separator |
| `JsStrings.SplitAfterFirst` | front/src/pages/login.tsx:144 | a separator-free prefix and a separator split off as the first piece |
| `JsStrings.SecondField` | front/src/pages/login.tsx:144 | the second field is undefined exactly when the separator is absent, and holds no separator |
| `JsStrings.SecondFieldOf` | front/src/pages/login.tsx:144 | the second field of `a|f` or `a|f|...` is `f` |
| `FormInput.Updated` | front/src/pages/login.tsx:58-65 | the named field becomes the value without whitespace; the other field is unchanged |
| `FormInput.UpdatedStable` | front/src/pages/Register.tsx:11-18 | feeding a field's stored value through the updater again changes nothing |
| `FormInput.PasswordCheck` | front/src/pages/login.tsx:78-86 | fails exactly on the empty password, leaving "password too short", and otherwise clears the error |
| `FormInput.EmailCheck` | front/src/pages/login.tsx:67-77 | passes exactly when the address test does, leaving "invalid email format" or clearing the error |
| `FormInput.SubmitGuard` | front/src/pages/login.tsx:92 | passes exactly when both checks pass; the password check runs first and a failing one leaves the e-mail error untouched |
| `LoginPage.FormChanged` | front/src/pages/login.tsx:58-65 | only the named field of the login data changes, to the value without whitespace |
| `LoginPage.RequestBody` | front/src/pages/login.tsx:95-99 | the body carries the e-mail and password, and `code` exactly when 2FA is required |
| `LoginPage.Submitted` | front/src/pages/login.tsx:88-99 | a request goes out exactly when the password is non-empty and the address passes; `passError` is the password check's text; `emailError` is the e-mail check's text when the password is non-empty and unchanged otherwise; nothing else changes |
| `LoginPage.Raised` | front/src/pages/login.tsx:104-118 | nothing is thrown exactly for an OK answer with a JSON body; a thrown `codeRequired` comes only from a non-OK JSON answer carrying it, with its issuer and label |
| `LoginPage.ToastText` | front/src/pages/login.tsx:129 | the error text is the thrown message when truthy and is never empty |
| `LoginPage.ReplyHandled` | front/src/pages/login.tsx:104-131 | an OK answer navigates to `/userdata`; a challenge sets `twoFArequired` and copies issuer and label into the QR data; any other error only shows a toast with the error's message, or "An error occurred" when that is empty; `twoFArequired` becomes true only by a challenge |
| `LoginPage.MessageReceived` | front/src/pages/login.tsx:141-151 | a message containing `connId` sets `websocketId` to its second `|` field; any other message changes nothing; nothing else changes |
| `LoginPage.SessionIdAssigned` | front/src/pages/login.tsx:141-151 | the message `connId|<id>` sets `websocketId` to `<id>` and changes nothing else |
| `LoginPage.KeysReceived` | front/src/pages/login.tsx:41-51 | the private key is kept and the public key placed in the QR data; other QR fields and state are unchanged |
| `LoginPage.CodeReceived` | front/src/pages/login.tsx:152-171 | without a message, without a private key or when decryption fails nothing changes; on success the plaintext becomes the code and the code is marked set |
| `LoginPage.CodeEdited` | front/src/pages/login.tsx:220 | the code input stores its value as typed and changes nothing else |
| `LoginPage.CodeSetEffect` | front/src/pages/login.tsx:179-186 | the flag is reset; a request goes out exactly when the flag was set, the code non-empty and both checks pass, with the body of a submit; when it fires the new state is that of a submit with the flag reset, otherwise only the flag changes |
| `LoginPage.DeliveredCodeIsSubmitted` | front/src/pages/login.tsx:152-186 | a code delivered while 2FA is required is decrypted and submitted with the credentials without user action |
| `LoginPage.RepeatedDeliveryResubmits` | front/src/pages/login.tsx:152-186 | a repeated delivery of the same ciphertext is submitted again with the same body |
| `LoginPage.LoginForm.constructor` | front/src/pages/login.tsx:17-32 | the initial state: empty fields, 2FA off, no key, the relay URL in the QR data |
| `LoginPage.LoginForm.HandleForm` | front/src/pages/login.tsx:58-65 | the new state is `FormChanged` of the old |
| `LoginPage.LoginForm.HandleEmailSyntax` | front/src/pages/login.tsx:67-77 | returns the address test and sets only `emailError` |
| `LoginPage.LoginForm.HandlePassword` | front/src/pages/login.tsx:78-86 | returns false exactly on the empty password and sets only `passError` |
| `LoginPage.LoginForm.HandleSubmit` | front/src/pages/login.tsx:88-103 | new state and request are those of `Submitted` |
| `LoginPage.LoginForm.HandleReply` | front/src/pages/login.tsx:104-131 | new state and effect are those of `ReplyHandled` |
| `LoginPage.LoginForm.OnMessage` | front/src/pages/login.tsx:141-151 | the new state is `MessageReceived` of the old |
| `LoginPage.LoginForm.OnWorkerKeys` | front/src/pages/login.tsx:41-51 | the new state is `KeysReceived` of the old |
| `LoginPage.LoginForm.OnSendCode` | front/src/pages/login.tsx:152-171 | the new state is `CodeReceived` of the old |
| `LoginPage.LoginForm.OnCodeInput` | front/src/pages/login.tsx:214-221 | the new state is `CodeEdited` of the old |
| `LoginPage.LoginForm.OnCodeSetChanged` | front/src/pages/login.tsx:179-186 | new state and request are those of `CodeSetEffect` |
| `RegisterPage.Outcome` | front/src/pages/Register.tsx:54-63 | navigation to `/login` exactly for an OK answer; a non-OK answer shows its `statusText`; a failed request shows no text |
| `RegisterPage.RegisterForm.constructor` | front/src/pages/Register.tsx:6-8 | empty credentials and no errors |
| `RegisterPage.RegisterForm.HandleForm` | front/src/pages/Register.tsx:11-18 | the credentials become `Updated` of the old ones; the errors are unchanged |
| `RegisterPage.RegisterForm.HandleEmailSyntax` | front/src/pages/Register.tsx:20-30 | returns the address test and sets only `emailError` |
| `RegisterPage.RegisterForm.HandlePassword` | front/src/pages/Register.tsx:31-39 | returns false exactly on the empty password and sets only `passError` |
| `RegisterPage.RegisterForm.HandleSubmit` | front/src/pages/Register.tsx:41-53 | sets the errors as `SubmitGuard` does; a request with exactly the e-mail as `login` and the password goes out exactly when the guard passes |

## Left out

- The Express, Sequelize and SQLite plumbing (`app.listen`, `DB.sync`, the JSON and urlencoded
  parsers): I/O. The table is a map, and a query or create that throws is an input flag.
- `bcrypt.compare` is a parameter whose result the login handler ignores; an exception thrown by
  it is not modelled.
- The internals of `jwt.verify` (signatures, expiry): foreign code. A throw from `next()` inside
  the middleware's `try` is not modelled either.
- RSA key generation, PEM encoding and RSA-OAEP decryption: foreign cryptography. front/src/rsaWorker.ts
  is not part of this model; its only logic is relaying the key pair, which `OnWorkerKeys` receives.
- The e-mail regular expression: the parameter `emailOk` stands for its (unanchored) test.
- The relay socket's `connect`/`disconnect` handlers, the `isConnected` flag, the start of key
  generation on connect and the listener teardown: transport lifecycle. The teardown does not
  remove the `sendCode` listener.
- Rendering, toasts, navigation and `localStorage`: these appear only as the `Effect` a handler
  returns. `fetch` appears only as the request body produced and the reply consumed; the awaits
  between them are not modelled, and each handler runs as one step.
- front/src/main.tsx, front/src/App.tsx, front/src/pages/UserData.tsx and front/vite.config.ts:
  routing, rendering and build configuration.
- JSON values of other types than the model gives them: `login`, `password` and `code` in request
  bodies, the relay payloads, and `issuer`, `label` and `message` in server answers are each a
  string or absent; a number or object there is not modelled. The answer's `codeRequired` is kept
  only as its truthiness, a `bool`. `handleForm` is called only for the inputs named `email` and
  `password`.
- The `name`/`email` mismatch of the account handlers: they look rows up by `name`, which the
  schema does not declare, and create rows without the `email` the schema requires. The model
  lets a lookup by `name` find the row filed under the login and lets the create succeed with the
  login stored as `email`. What the declared schema would really do with these calls appears only
  through the failure flags `lookupFails` and `createFails`.
- AccountServer.UserTable.Register: each server handler is modelled as one atomic step. The
  source awaits between the lookup and the create (back/src/index.ts:70-81), and the schema
  declares no unique constraint on the login, so two concurrent registrations of one login could
  both create a row. The map of rows cannot express that; `RegisterTwice` holds only for requests
  handled one after the other.
- Creating a row with an explicit id that is already taken: the handlers never supply an id.
- There is no TOTP engine, enrollment flow or `/getTwoFAQrCode`/`/registerTwoFA` route in the code.
- AccountServer.UserTable.ListAll: returns the rows as a set, not in the order `findAll` lists them.
