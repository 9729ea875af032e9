/**
 * The `users` table schema: the attributes of a stored user and those supplied when one is created.
 *
 * A column declared `allowNull: false` is a plain field; a column declared `allowNull: true` is an
 * `Option`, with `None` for SQL NULL. The schema has no `name` column: the request handlers of the
 * server query and create users by `name`, but the only identifier column declared here is `email`.
 * The server model keeps its table keyed by the login string and stores that string in `email`.
 * That is a modelling choice, not what the code does: the handlers' create supplies no `email`,
 * which this schema declares not null.
 */
module UserModel {

  import opened Wrappers

  /** A stored row: `id` is the integer primary key, every row has one. */
  datatype UserAttributes = UserAttributes(
    id: int,
    email: string,
    password: string,
    isTwoFAon: bool,
    twoFaHash: Option<string>,
    tempTwoFaHash: Option<string>)

  /** What `create` accepts: `id` may be left out (the database assigns it); the two hash columns
      may be left out or null; every other attribute must be given. */
  datatype UserCreationAttributes = UserCreationAttributes(
    id: Option<int>,
    email: string,
    password: string,
    isTwoFAon: bool,
    twoFaHash: Option<string>,
    tempTwoFaHash: Option<string>)

  /** The row a creation produces when the auto-increment counter stands at `nextId`:
      a given `id` is kept, an omitted one is drawn from the counter, and every other
      attribute is stored exactly as supplied. */
  function Materialize(c: UserCreationAttributes, nextId: int): (u: UserAttributes)
    ensures c.id.None? ==> u.id == nextId
    ensures c.id.Some? ==> u.id == c.id.value
    ensures u.email == c.email && u.password == c.password && u.isTwoFAon == c.isTwoFAon
    ensures u.twoFaHash == c.twoFaHash && u.tempTwoFaHash == c.tempTwoFaHash
  {
    UserAttributes(
      if c.id.Some? then c.id.value else nextId,
      c.email, c.password, c.isTwoFAon, c.twoFaHash, c.tempTwoFaHash)
  }

  /** The creation attributes a row could have come from: the inverse of `Materialize`. */
  function AsCreation(u: UserAttributes): (c: UserCreationAttributes)
    ensures c.id == Some(u.id)
  {
    UserCreationAttributes(Some(u.id), u.email, u.password, u.isTwoFAon, u.twoFaHash, u.tempTwoFaHash)
  }

  /** Every row is reproduced by creating it with its own attributes. */
  lemma MaterializeAsCreation(u: UserAttributes, nextId: int)
    ensures Materialize(AsCreation(u), nextId) == u
  {
  }

  /** Primary-key uniqueness of a set of rows, and the bound the auto-increment counter keeps. */
  ghost predicate IdsBelow(rows: set<UserAttributes>, nextId: int)
  {
    forall u :: u in rows ==> 1 <= u.id < nextId
  }

  ghost predicate IdsDistinct(rows: set<UserAttributes>)
  {
    forall u, v :: u in rows && v in rows && u.id == v.id ==> u == v
  }

  /** Drawing the id from the counter keeps ids distinct and below the advanced counter. */
  lemma AutoIncrementFresh(rows: set<UserAttributes>, nextId: int, c: UserCreationAttributes)
    requires IdsBelow(rows, nextId) && IdsDistinct(rows) && 1 <= nextId
    requires c.id.None?
    ensures Materialize(c, nextId) !in rows
    ensures IdsBelow(rows + {Materialize(c, nextId)}, nextId + 1)
    ensures IdsDistinct(rows + {Materialize(c, nextId)})
  {
  }
}
