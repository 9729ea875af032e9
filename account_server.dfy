/**
 * The HTTP handlers of the account server: `GET /`, `POST /login` and `POST /register`, acting on
 * the `users` table.
 *
 * The table is a map from the login string to its row. The handlers look rows up and create them
 * by a `name` attribute that the schema does not declare, and the create supplies no `email`,
 * which the schema declares not null. This model nevertheless lets a lookup by `name` find the
 * row filed under the login, and lets the create succeed with the login stored as `email`; what
 * the declared schema would really do with these calls is reachable only through the failure
 * flags `lookupFails` and `createFails`.
 *
 * Each handler returns the status and payload it sends. A lookup or create that throws is an input
 * flag (`lookupFails`, `createFails`): the database is outside the model. `bcrypt.compare` is a
 * function parameter.
 */
module AccountServer {

  import opened Wrappers
  import opened UserModel

  /** The fields of a JSON request body that the handlers read; `None` means absent or null. */
  datatype AccountBody = AccountBody(login: Option<string>, password: Option<string>)

  /** What `res.status(..).send(..)` or `res.json(..)` puts in the response body. */
  datatype Payload =
    | Message(text: string)                                 // a plain-text body
    | Account(id: int, name: string, isTwoFAon: bool)       // `{ id, name, isTwoFAon }`
    | Rows(users: set<UserAttributes>)                      // every row of the table
    | InternalError                                         // `{ error: "Internal server error", details }`
    | RawError                                              // the thrown error itself

  datatype Response = Response(status: int, payload: Payload)

  /** The body-structure check shared by both POST handlers: `login` and `password` both truthy. */
  predicate WellFormed(b: AccountBody)
    ensures WellFormed(b) <==> b.login.Some? && b.password.Some? && b.login.value != "" && b.password.value != ""
  {
    Truthy(b.login) && Truthy(b.password)
  }

  const BodyMissing := Response(400, Message("Request body is missing"))
  const BadStructure := Response(403, Message("invalid body structure"))
  const NotFound := Response(404, Message("User not found"))
  const AlreadyRegistered := Response(408, Message("user already registered"))
  const ServerError := Response(500, InternalError)

  /** The row `/register` creates for a new login: no id given, 2FA off, no hashes. */
  function NewUser(login: string, password: string): (c: UserCreationAttributes)
    ensures c.id.None? && !c.isTwoFAon && c.twoFaHash.None? && c.tempTwoFaHash.None?
    ensures c.email == login && c.password == password
  {
    UserCreationAttributes(None, login, password, false, None, None)
  }

  class UserTable {
    var users: map<string, UserAttributes>
    /** The next value of the auto-increment primary key. */
    var nextId: int

    /** Each row is filed under its own login, ids are at least 1 and below the counter, and no
        two rows share an id. */
    ghost predicate Valid()
      reads this
    {
      && 1 <= nextId
      && (forall k :: k in users ==> users[k].email == k)
      && IdsBelow(users.Values, nextId)
      && IdsDistinct(users.Values)
    }

    /** The in-memory database starts empty. */
    constructor ()
      ensures Valid() && users == map[] && nextId == 1
    {
      users := map[];
      nextId := 1;
    }

    /** `GET /`: every row, or 505 with the error when the query throws. */
    method ListAll(queryFails: bool) returns (r: Response)
      ensures queryFails ==> r == Response(505, RawError)
      ensures !queryFails ==> r.status == 200 && r.payload.Rows?
      ensures !queryFails ==> forall u :: u in r.payload.users <==> exists k :: k in users && users[k] == u
    {
      if queryFails {
        return Response(505, RawError);
      }
      r := Response(200, Rows(users.Values));
    }

    /** `POST /login`. The early returns come in source order: missing body, bad structure,
        lookup error, unknown login. A known login answers 200 with its id, name and 2FA flag;
        the result of `compare` is never consulted, so the password plays no part in it. */
    method Login(body: Option<AccountBody>, compare: (string, string) -> bool, lookupFails: bool)
      returns (r: Response)
      ensures body.None? ==> r == BodyMissing
      ensures body.Some? && !WellFormed(body.value) ==> r == BadStructure
      ensures body.Some? && WellFormed(body.value) && lookupFails ==> r == ServerError
      ensures body.Some? && WellFormed(body.value) && !lookupFails && body.value.login.value !in users
        ==> r == NotFound
      ensures body.Some? && WellFormed(body.value) && !lookupFails && body.value.login.value in users
        ==> var u := users[body.value.login.value];
            r == Response(200, Account(u.id, body.value.login.value, u.isTwoFAon))
      ensures r.status == 200 <==> body.Some? && WellFormed(body.value) && !lookupFails
                                   && body.value.login.value in users
    {
      if body.None? {
        return BodyMissing;
      }
      var login, password := body.value.login, body.value.password;
      if !Truthy(login) || !Truthy(password) {
        return BadStructure;
      }
      if lookupFails {
        return ServerError;
      }
      if login.value !in users {
        return NotFound;
      }
      var found := users[login.value];
      var isMatch := compare(password.value, found.password);
      r := Response(200, Account(found.id, login.value, found.isTwoFAon));
    }

    /** `POST /register`. A new login gets exactly one new row, with the submitted password as
        given, 2FA off and the next id; an existing login answers 408. Every answer other than
        200 leaves the table and the counter as they were. */
    method Register(body: Option<AccountBody>, lookupFails: bool, createFails: bool)
      returns (r: Response)
      requires Valid()
      modifies this
      ensures Valid()
      ensures r.status != 200 ==> users == old(users) && nextId == old(nextId)
      ensures body.None? ==> r == BodyMissing
      ensures body.Some? && !WellFormed(body.value) ==> r == BadStructure
      ensures body.Some? && WellFormed(body.value) && lookupFails ==> r == ServerError
      ensures body.Some? && WellFormed(body.value) && !lookupFails
              && body.value.login.value in old(users)
        ==> r == AlreadyRegistered
      ensures body.Some? && WellFormed(body.value) && !lookupFails
              && body.value.login.value !in old(users) && createFails
        ==> r == ServerError
      ensures body.Some? && WellFormed(body.value) && !lookupFails
              && body.value.login.value !in old(users) && !createFails
        ==> var login := body.value.login.value;
            var row := UserAttributes(old(nextId), login, body.value.password.value, false, None, None);
            && r == Response(200, Account(old(nextId), login, false))
            && users == old(users)[login := row]
            && |users| == |old(users)| + 1
            && nextId == old(nextId) + 1
    {
      if body.None? {
        return BodyMissing;
      }
      var login, password := body.value.login, body.value.password;
      if !Truthy(login) || !Truthy(password) {
        return BadStructure;
      }
      if lookupFails {
        return ServerError;
      }
      if login.value in users {
        return AlreadyRegistered;
      }
      if createFails {
        return ServerError;
      }
      var created := Materialize(NewUser(login.value, password.value), nextId);
      AutoIncrementFresh(users.Values, nextId, NewUser(login.value, password.value));
      FreshKeyValues(users, login.value, created);
      users := users[login.value := created];
      nextId := nextId + 1;
      r := Response(200, Account(created.id, login.value, created.isTwoFAon));
    }
  }

  /** Filing a row under a new key adds exactly that row to the table's rows. */
  lemma FreshKeyValues(m: map<string, UserAttributes>, k: string, u: UserAttributes)
    requires k !in m
    ensures m[k := u].Values == m.Values + {u}
  {
    forall v | v in m[k := u].Values ensures v in m.Values + {u} {
      var j :| j in m[k := u] && m[k := u][j] == v;
      if j != k { assert j in m && m[j] == v; }
    }
    forall v | v in m.Values ensures v in m[k := u].Values {
      var j :| j in m && m[j] == v;
      assert m[k := u][j] == v;
    }
    assert m[k := u][k] == u;
  }

  /** Registering the same login twice: whatever the first attempt answers, the login is then
      in the table and the second attempt answers 408. */
  method RegisterTwice(t: UserTable, body: AccountBody) returns (first: Response, second: Response)
    requires t.Valid() && WellFormed(body)
    modifies t
    ensures t.Valid()
    ensures first.status == 200 || first == AlreadyRegistered
    ensures body.login.value in t.users
    ensures second == AlreadyRegistered
  {
    first := t.Register(Some(body), false, false);
    second := t.Register(Some(body), false, false);
  }

  /** A registration followed by a login with any password finds the new row. */
  method RegisterThenLogin(t: UserTable, body: AccountBody, otherPassword: string,
                           compare: (string, string) -> bool)
    returns (reg: Response, log: Response)
    requires t.Valid() && WellFormed(body) && body.login.value !in t.users && otherPassword != ""
    modifies t
    ensures reg.status == 200 && log.status == 200
    ensures log.payload == reg.payload
  {
    reg := t.Register(Some(body), false, false);
    log := t.Login(Some(AccountBody(body.login, Some(otherPassword))), compare, false);
  }
}
