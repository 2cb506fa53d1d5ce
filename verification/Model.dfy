/** The rows of the relational store and the errors the service layer can raise. */
module Model {
  import opened Prelude

  type Id = string

  /** Ticks of the clock in one day; one tick is a microsecond. */
  const DAY: int := 86_400_000_000

  /**
   * The text of the `value` column. `Hash(text, secret)` is a bcrypt text produced from `secret`
   * (ideal hashing: `checkpw` accepts that secret and no other); `Plain` is any other text.
   */
  datatype Stored = Plain(text: string) | Hash(text: string, secret: string)

  datatype Token = Token(
    id: Id,
    name: string,
    owner: string,
    parent: Option<Id>,
    external: Option<string>,
    value: Stored,
    nbf: int,
    exp: int,
    scopes: seq<string>,
    active: bool,
    session: bool,
    rotatable: bool)

  datatype AuditRecord = AuditRecord(
    event: string,
    failure: Option<string>,
    requestMethod: string,
    tokenId: Id,
    timestamp: int,
    source: string,
    destination: string,
    success: bool)

  datatype Db = Db(users: set<string>, scopes: set<string>, tokens: map<Id, Token>, audits: seq<AuditRecord>)

  /** Why a database refuses a statement; the text of the first kind mentions "unique". */
  datatype Violation = UniqueViolation | ForeignKeyViolation | TooLong

  datatype Error =
    | NotFound                       // services.NotFound
    | AlreadyExists                  // services.AlreadyExists
    | InvalidToken                   // services.InvalidToken
    | ServiceException               // services.ServiceException
    | Unauthorized                   // HTTP 401 from the token authenticator
    | ValueError
    | AttributeError                 // attribute of None
    | RepoNotFound                   // repository.NotFound, raised in the body of a unit of work
    | UowNotFound                    // uow.NotFound, for a repository.NotFound raised by a commit
    | UowAlreadyExists               // uow.AlreadyExists, raised by a failing commit
    | UowException                   // uow.UOWException, raised by a failing commit
    | IntegrityError(v: Violation)   // raised by a flush in the body
    | DataError                      // raised by a flush in the body: a value too long for its column
    | DatabaseError                  // a query the database rejects
    | MultipleResults                // scalar_one_or_none on several rows

  /** Python truth of an optional string: neither `None` nor empty. */
  predicate Truthy(o: Option<string>) {
    o.Some? && o.value != ""
  }
}
