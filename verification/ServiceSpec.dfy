/**
 * What each service call does to the committed tables and what it returns or raises, stated on
 * whole tables with no session, staging or flush in between.
 */
module ServiceSpec {
  import opened Prelude
  import opened Text
  import opened Model
  import opened Forest
  import opened Schema
  import opened UnitOfWork
  import opened Authentication

  lemma SingletonIsOne<T>(s: set<T>, a: T, b: T)
    requires |s| == 1 && a in s && b in s
    ensures a == b
  {
    assert |s - {a}| == 0;
    assert b !in s - {a};
  }

  function TheOne(s: set<Id>): (k: Id)
    requires |s| == 1
    ensures s == {k}
  {
    assert forall a, b | a in s && b in s :: a == b by {
      forall a, b | a in s && b in s ensures a == b { SingletonIsOne(s, a, b); }
    }
    var k :| k in s;
    k
  }

  /** What the caller of `create_token` supplies: a token object not stored yet. */
  datatype NewToken = NewToken(id: Id, name: string, owner: string, secret: string, nbf: int, exp: int, rotatable: bool)

  /** Report a refused commit the way create, rotate and the session refresh do. */
  function Refused(v: Violation): Error {
    if v.UniqueViolation? then AlreadyExists else ServiceException
  }

  /** The row `create_token` stores: only a root's secret is hashed. */
  function NewRow(req: NewToken, parentId: Option<string>, externalId: Option<string>, scopes: seq<string>, hash: string): Token {
    Token(req.id, req.name, req.owner,
          if Truthy(parentId) then parentId else None,
          externalId,
          if Truthy(parentId) then Plain(req.secret) else Hash(hash, req.secret),
          req.nbf, req.exp, scopes, true, false, req.rotatable)
  }

  function Created(db: Db, req: NewToken, parentId: Option<string>, externalId: Option<string>,
                   scopes: seq<string>, hash: string): (e: Effect<string>)
  {
    if Truthy(parentId) && parentId.value !in db.tokens then (db, Err(NotFound))
    else if exists i | 0 <= i < |scopes| :: scopes[i] !in db.scopes then (db, Err(RepoNotFound))
    else
      var t := NewRow(req, parentId, externalId, scopes, hash);
      match TokenRefusal(db, t)
      case Some(v) => (db, Err(Refused(v)))
      case None => (WithToken(db, t), Ok(Composite(req.id, req.secret)))
  }

  function Subtokens(db: Db, name: string, parentId: Option<string>, externalId: Option<string>): set<Id> {
    set k | k in db.tokens && db.tokens[k].name == name && db.tokens[k].parent == parentId && db.tokens[k].external == externalId
  }

  function Sessions(db: Db, owner: string, name: string): set<Id> {
    set k | k in db.tokens && db.tokens[k].owner == owner && db.tokens[k].name == name && db.tokens[k].session
  }

  /** The row the MFA route offers as a session: plain secret, window fixed at `at`. */
  function SessionRow(id: Id, name: string, owner: string, secret: string, at: int, lifetime: int): Token {
    Token(id, name, owner, None, None, Plain(secret), at, at + lifetime, [], true, true, false)
  }

  function StoreOrRefuse(before: Db, db: Db, t: Token): (e: Effect<Token>) {
    match TokenRefusal(db, t)
    case Some(v) => (before, Err(ServiceException))
    case None => (WithToken(db, t), Ok(t))
  }

  /** Keep a live session; replace a dead one together with everything below it; store a first one. */
  ghost function SessionUpdated(db: Db, owner: string, t: Token, now: int): (e: Effect<Token>) {
    var found := Sessions(db, owner, t.name);
    if found == {} then StoreOrRefuse(db, db, t)
    else if |found| != 1 then (db, Err(MultipleResults))
    else
      var k := TheOne(found);
      if db.tokens[k].nbf < now < db.tokens[k].exp then (db, Ok(db.tokens[k]))
      else
        var gone := Below(db.tokens, {k});
        if Audited(db, gone) then (db, Err(IntegrityError(ForeignKeyViolation)))
        else StoreOrRefuse(db, Without(db, {}, gone), t)
  }

  /** Delete one token and everything below it, unless an audit record refers to one of them. */
  ghost function Removed(db: Db, id: Id): (e: Effect<()>) {
    var gone := Below(db.tokens, {id});
    if Audited(db, gone) then (db, Err(UowException)) else (Without(db, {}, gone), Ok(()))
  }

  ghost function RemovedById(db: Db, user: string, id: Id): (e: Effect<()>) {
    if user !in db.users || id !in OwnedBy(db, {user}) then (db, Err(NotFound)) else Removed(db, id)
  }

  ghost function RemovedByValue(db: Db, user: string, x: string): (e: Effect<()>) {
    match Parse(x)
    case None => (db, Err(ValueError))
    case Some((id, _)) => RemovedById(db, user, id)
  }

  function Named(db: Db, user: string, name: string): set<Id> {
    set k | k in OwnedBy(db, {user}) && db.tokens[k].name == name
  }

  /** `pick` is the token of that name the database happens to list first. */
  ghost function RemovedByName(db: Db, user: string, name: string, pick: Id): (e: Effect<()>) {
    if user !in db.users then (db, Err(AttributeError))
    else if pick !in Named(db, user, name) then (db, Err(NotFound))
    else Removed(db, pick)
  }

  ghost function UserRemoved(db: Db, user: string): (e: Effect<()>) {
    if user !in db.users then (db, Err(RepoNotFound))
    else
      var gone := Below(db.tokens, OwnedBy(db, {user}));
      if Audited(db, gone) then (db, Err(UowException)) else (Without(db, {user}, gone), Ok(()))
  }

  function ScopeRemoved(db: Db, name: string): (e: Effect<()>) {
    if name !in db.scopes then (db, Err(RepoNotFound)) else (Unlinked(db, name), Ok(()))
  }

  function Invalidated(db: Db, x: string): (e: Effect<()>) {
    match Parse(x)
    case None => (db, Err(ValueError))
    case Some((id, _)) =>
      if id !in db.tokens then (db, Err(NotFound))
      else (WithToken(db, db.tokens[id].(active := false)), Ok(()))
  }

  function Elements(ids: seq<Id>): set<Id> {
    set k | k in ids
  }

  function Rotatable(db: Db, ids: set<Id>): Db {
    db.(tokens := map k | k in db.tokens :: if k in ids then db.tokens[k].(rotatable := true) else db.tokens[k])
  }

  predicate OwnsAll(db: Db, user: string, ids: seq<Id>) {
    forall i | 0 <= i < |ids| :: ids[i] in db.tokens && db.tokens[ids[i]].owner == user
  }

  predicate AllValid(db: Db, ids: seq<Id>, now: int) {
    forall i | 0 <= i < |ids| :: ids[i] in db.tokens && Valid(db.tokens, db.tokens[ids[i]], now)
  }

  /** Attestation is all or nothing, at one instant. */
  function Attested(db: Db, user: string, ids: seq<Id>, now: int): (e: Effect<()>) {
    if !OwnsAll(db, user, ids) then (db, Err(NotFound))
    else if !AllValid(db, ids, now) then (db, Err(InvalidToken))
    else (Rotatable(db, Elements(ids)), Ok(()))
  }

  /** The lifetime a rotation grants: none and zero both ask for the maximum. */
  function GrantedDays(maxDays: int, asked: Option<int>): int {
    if asked.Some? && asked.value != 0 then asked.value else maxDays
  }

  function RotatedRow(t: Token, days: int, now: int, secret: string, hash: string): Token {
    t.(value := Hash(hash, secret), exp := now + days * DAY, rotatable := false)
  }

  function Rotated(db: Db, id: Id, maxDays: int, asked: Option<int>, now: int, secret: string, hash: string): (e: Effect<string>) {
    var days := GrantedDays(maxDays, asked);
    if days > maxDays then (db, Err(ValueError))
    else if id !in db.tokens then (db, Err(AttributeError))
    else if !db.tokens[id].rotatable then (db, Err(InvalidToken))
    else
      var next := WithToken(db, RotatedRow(db.tokens[id], days, now, secret, hash));
      if NoClash(next.tokens) then (next, Ok(Composite(id, secret))) else (db, Err(ServiceException))
  }

  function UserCreated(db: Db, uid: string): (e: Effect<()>) {
    if |uid| > 32 then (db, Err(ServiceException))
    else if uid in db.users then (db, Err(AlreadyExists))
    else (db.(users := db.users + {uid}), Ok(()))
  }

  function AuditAdded(db: Db, a: AuditRecord): (e: Effect<()>) {
    if !RecordFits(a) || a.tokenId !in db.tokens then (db, Err(UowException))
    else (db.(audits := db.audits + [a]), Ok(()))
  }

  /** The records not older than the cutoff, in table order. */
  function Since(audits: seq<AuditRecord>, cutoff: int): seq<AuditRecord> {
    if audits == [] then []
    else if audits[0].timestamp < cutoff then Since(audits[1..], cutoff)
    else [audits[0]] + Since(audits[1..], cutoff)
  }

  lemma {:induction false} SinceIsSubset(audits: seq<AuditRecord>, cutoff: int, tokens: map<Id, Token>)
    requires forall i | 0 <= i < |audits| :: audits[i].tokenId in tokens
    ensures forall i | 0 <= i < |Since(audits, cutoff)| :: Since(audits, cutoff)[i].tokenId in tokens
  {
    if audits != [] {
      SinceIsSubset(audits[1..], cutoff, tokens);
    }
  }

  function AuditsCleaned(db: Db, days: int, now: int): (e: Effect<()>) {
    (db.(audits := Since(db.audits, now - days * DAY)), Ok(()))
  }

  /** The token authenticator: the id a presented string authenticates as, or 401. */
  function Presented(db: Db, x: string, now: int): Result<Id, Error> {
    match Authenticated(db.tokens, x, now)
    case Err(error) => Err(error)
    case Ok(accepted) => if accepted then Ok(Split(x, '.')[0]) else Err(Unauthorized)
  }

  /** The stored text of the one subtoken of that name, parent and external id, as a token string. */
  function LookedUp(db: Db, name: string, parentId: Option<string>, externalId: Option<string>): Result<string, Error> {
    var found := Subtokens(db, name, parentId, externalId);
    if found == {} then Err(AttributeError)
    else if |found| != 1 then Err(MultipleResults)
    else Ok(Composite(TheOne(found), db.tokens[TheOne(found)].value.text))
  }

  /**
   * The impersonation route: when creation finds the name taken, a second unit of work looks the
   * subtoken up by name, parent and external id and hands out its stored text.
   */
  function CreatedOrFound(db: Db, req: NewToken, parentId: Option<string>, externalId: Option<string>,
                          scopes: seq<string>, hash: string): (e: Effect<string>)
  {
    var e := Created(db, req, parentId, externalId, scopes, hash);
    if e.1 != Err(AlreadyExists) then e else (db, LookedUp(db, req.name, parentId, externalId))
  }

  /** The MFA route answers with the id of the session kept or stored. */
  ghost function SessionStarted(db: Db, owner: string, name: string, id: Id, secret: string, at: int, lifetime: int, now: int): Effect<Id> {
    var e := SessionUpdated(db, owner, SessionRow(id, name, owner, secret, at, lifetime), now);
    (e.0, match e.1 case Ok(t) => Ok(t.id) case Err(error) => Err(error))
  }

  /** The service calls, with the clock readings, drawn ids, secrets and bcrypt texts they meet. */
  datatype Step =
    | AddUser(uid: string)
    | DropUser(uid: string)
    | Create(req: NewToken, parentId: Option<string>, externalId: Option<string>, scopeNames: seq<string>, hash: string)
    | MfaSession(owner: string, name: string, id: Id, secret: string, at: int, lifetime: int, now: int)
    | DropById(user: string, target: Id)
    | DropByValue(user: string, x: string)
    | DropByName(user: string, name: string, pick: Id)
    | DropScope(name: string)
    | Invalidate(x: string)
    | Attest(user: string, ids: seq<Id>, now: int)
    | Present(x: string, now: int)
    | Rotate(target: Id, maxDays: int, asked: Option<int>, now: int, secret: string, hash: string)
    | Lookup(name: string, parentId: Option<string>, externalId: Option<string>)
    | Record(a: AuditRecord)
    | Clean(days: int, now: int)

  function Quiet<T>(e: Effect<T>): Effect<string> {
    (e.0, match e.1 case Ok(_) => Ok("") case Err(error) => Err(error))
  }

  /** One outermost service call on the committed tables: the string handed to the caller, if any, or the error. */
  ghost function Call(db: Db, s: Step): Effect<string> {
    match s
    case AddUser(uid) => Quiet(UserCreated(db, uid))
    case DropUser(uid) => Quiet(UserRemoved(db, uid))
    case Create(req, parentId, externalId, scopeNames, hash) => Created(db, req, parentId, externalId, scopeNames, hash)
    case MfaSession(owner, name, id, secret, at, lifetime, now) => SessionStarted(db, owner, name, id, secret, at, lifetime, now)
    case DropById(user, target) => Quiet(RemovedById(db, user, target))
    case DropByValue(user, x) => Quiet(RemovedByValue(db, user, x))
    case DropByName(user, name, pick) => Quiet(RemovedByName(db, user, name, pick))
    case DropScope(name) => Quiet(ScopeRemoved(db, name))
    case Invalidate(x) => Quiet(Invalidated(db, x))
    case Attest(user, ids, now) => Quiet(Attested(db, user, ids, now))
    case Present(x, now) => (db, Presented(db, x, now))
    case Rotate(target, maxDays, asked, now, secret, hash) => Rotated(db, target, maxDays, asked, now, secret, hash)
    case Lookup(name, parentId, externalId) => (db, LookedUp(db, name, parentId, externalId))
    case Record(a) => Quiet(AuditAdded(db, a))
    case Clean(days, now) => Quiet(AuditsCleaned(db, days, now))
  }
}
