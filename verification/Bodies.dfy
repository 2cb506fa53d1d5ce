/**
 * The body of each service on an open transaction: what its `with` block reads, checks and stages,
 * and the exceptions it raises, whether or not the unit of work it runs in is the outermost one.
 */
module Bodies {
  import opened Prelude
  import opened Text
  import opened Model
  import opened Forest
  import opened Schema
  import opened UnitOfWork
  import opened ServiceSpec

  const CREATE_CLAUSES := Clauses(Some(NotFound), Some(AlreadyExists), Some(ServiceException))
  const ADD_CLAUSES := Clauses(None, Some(AlreadyExists), Some(ServiceException))
  const WRAP_CLAUSES := Clauses(None, None, Some(ServiceException))
  const REMOVE_CLAUSES := Clauses(Some(NotFound), None, None)

  function Adding(txn: Txn, row: Row): Txn {
    txn.(pending := txn.pending.(added := txn.pending.added + [row]))
  }

  ghost function Removing(txn: Txn, uids: set<string>, roots: set<Id>): Txn {
    txn.(pending := txn.pending.(removed := txn.pending.removed + Below(txn.view.tokens, roots),
                                 removedUsers := txn.pending.removedUsers + uids))
  }

  function CreateIn(txn: Txn, req: NewToken, parentId: Option<string>, externalId: Option<string>,
                    scopes: seq<string>, hash: string): Ran<string>
  {
    match (if Truthy(parentId) || scopes != [] then Queried(txn) else Ok(txn))
    case Err(e) => (txn, Err(e))
    case Ok(q) =>
      if Truthy(parentId) && parentId.value !in q.view.tokens then (q, Err(NotFound))
      else if exists i | 0 <= i < |scopes| :: scopes[i] !in q.view.scopes then (q, Err(RepoNotFound))
      else (Adding(q, TokenRow(NewRow(req, parentId, externalId, scopes, hash))), Ok(Composite(req.id, req.secret)))
  }

  ghost function SessionIn(txn: Txn, owner: string, t: Token, now: int): Ran<Token> {
    match Queried(txn)
    case Err(e) => (txn, Err(e))
    case Ok(q) =>
      var found := Sessions(q.view, owner, t.name);
      if found == {} then (Adding(q, TokenRow(t)), Ok(t))
      else if |found| != 1 then (q, Err(MultipleResults))
      else
        var k := TheOne(found);
        if q.view.tokens[k].nbf < now < q.view.tokens[k].exp then (q, Ok(q.view.tokens[k]))
        else match Queried(Removing(q, {}, {k}))
          case Err(e) => (Removing(q, {}, {k}), Err(e))
          case Ok(flushed) => (Adding(flushed, TokenRow(t)), Ok(t))
  }

  ghost function RemoveByIdIn(txn: Txn, user: string, id: Id): Ran<()> {
    match Queried(txn)
    case Err(e) => (txn, Err(e))
    case Ok(q) =>
      if user !in q.view.users || id !in OwnedBy(q.view, {user}) then (q, Err(NotFound))
      else (Removing(q, {}, {id}), Ok(()))
  }

  ghost function RemoveByValueIn(txn: Txn, user: string, x: string): Ran<()> {
    match Parse(x)
    case None => (txn, Err(ValueError))
    case Some((id, _)) => RemoveByIdIn(txn, user, id)
  }

  ghost function RemoveByNameIn(txn: Txn, user: string, name: string, pick: Id): Ran<()> {
    match Queried(txn)
    case Err(e) => (txn, Err(e))
    case Ok(q) =>
      if user !in q.view.users then (q, Err(AttributeError))
      else if pick !in Named(q.view, user, name) then (q, Err(NotFound))
      else (Removing(q, {}, {pick}), Ok(()))
  }

  ghost function DropUserIn(txn: Txn, user: string): Ran<()> {
    match Queried(txn)
    case Err(e) => (txn, Err(e))
    case Ok(q) =>
      if user !in q.view.users then (q, Err(RepoNotFound))
      else (Removing(q, {user}, OwnedBy(q.view, {user})), Ok(()))
  }

  function DropScopeIn(txn: Txn, name: string): Ran<()> {
    match Queried(txn)
    case Err(e) => (txn, Err(e))
    case Ok(q) =>
      if name !in q.view.scopes then (q, Err(RepoNotFound))
      else (q.(view := Unlinked(q.view, name)), Ok(()))
  }

  function InvalidateIn(txn: Txn, x: string): Ran<()> {
    match Parse(x)
    case None => (txn, Err(ValueError))
    case Some((id, _)) =>
      match Queried(txn)
      case Err(e) => (txn, Err(e))
      case Ok(q) =>
        if id !in q.view.tokens then (q, Err(NotFound))
        else (q.(view := WithToken(q.view, q.view.tokens[id].(active := false))), Ok(()))
  }

  function AttestIn(txn: Txn, user: string, ids: seq<Id>, now: int): Ran<()> {
    match (if ids != [] then Queried(txn) else Ok(txn))
    case Err(e) => (txn, Err(e))
    case Ok(q) =>
      if !OwnsAll(q.view, user, ids) then (q, Err(NotFound))
      else if !AllValid(q.view, ids, now) then (q, Err(InvalidToken))
      else (q.(view := Rotatable(q.view, Elements(ids))), Ok(()))
  }

  function PresentIn(txn: Txn, x: string, now: int): Ran<Id> {
    match Parse(x)
    case None => (txn, Err(ValueError))
    case Some(_) =>
      match Queried(txn)
      case Err(e) => (txn, Err(e))
      case Ok(q) => (q, Presented(q.view, x, now))
  }

  function RotateIn(txn: Txn, id: Id, maxDays: int, asked: Option<int>, now: int, secret: string, hash: string): Ran<string> {
    var days := GrantedDays(maxDays, asked);
    if days > maxDays then (txn, Err(ValueError))
    else
      match Queried(txn)
      case Err(e) => (txn, Err(e))
      case Ok(q) =>
        if id !in q.view.tokens then (q, Err(AttributeError))
        else if !q.view.tokens[id].rotatable then (q, Err(InvalidToken))
        else (q.(view := WithToken(q.view, RotatedRow(q.view.tokens[id], days, now, secret, hash))), Ok(Composite(id, secret)))
  }

  function LookupIn(txn: Txn, name: string, parentId: Option<string>, externalId: Option<string>): Ran<string> {
    match Queried(txn)
    case Err(e) => (txn, Err(e))
    case Ok(q) => (q, LookedUp(q.view, name, parentId, externalId))
  }

  function NewUserIn(txn: Txn, uid: string): Ran<()> {
    (Adding(txn, UserRow(uid)), Ok(()))
  }

  function AuditIn(txn: Txn, a: AuditRecord): Ran<()> {
    (Adding(txn, AuditRow(a)), Ok(()))
  }

  function CleanIn(txn: Txn, days: int, now: int): Ran<()> {
    match Queried(txn)
    case Err(e) => (txn, Err(e))
    case Ok(q) => (q.(view := q.view.(audits := Since(q.view.audits, now - days * DAY))), Ok(()))
  }

  // Any service

  function Hushed<T>(ran: Ran<T>): Ran<string> {
    (ran.0, match ran.1 case Ok(_) => Ok("") case Err(e) => Err(e))
  }

  function IdOf(ran: Ran<Token>): Ran<Id> {
    (ran.0, match ran.1 case Ok(t) => Ok(t.id) case Err(e) => Err(e))
  }

  ghost function Body(txn: Txn, s: Step): Ran<string> {
    match s
    case AddUser(uid) => Hushed(NewUserIn(txn, uid))
    case DropUser(uid) => Hushed(DropUserIn(txn, uid))
    case Create(req, parentId, externalId, scopeNames, hash) => CreateIn(txn, req, parentId, externalId, scopeNames, hash)
    case MfaSession(owner, name, id, secret, at, lifetime, now) =>
      IdOf(SessionIn(txn, owner, SessionRow(id, name, owner, secret, at, lifetime), now))
    case DropById(user, target) => Hushed(RemoveByIdIn(txn, user, target))
    case DropByValue(user, x) => Hushed(RemoveByValueIn(txn, user, x))
    case DropByName(user, name, pick) => Hushed(RemoveByNameIn(txn, user, name, pick))
    case DropScope(name) => Hushed(DropScopeIn(txn, name))
    case Invalidate(x) => Hushed(InvalidateIn(txn, x))
    case Attest(user, ids, now) => Hushed(AttestIn(txn, user, ids, now))
    case Present(x, now) => PresentIn(txn, x, now)
    case Rotate(target, maxDays, asked, now, secret, hash) => RotateIn(txn, target, maxDays, asked, now, secret, hash)
    case Lookup(name, parentId, externalId) => LookupIn(txn, name, parentId, externalId)
    case Record(a) => Hushed(AuditIn(txn, a))
    case Clean(days, now) => Hushed(CleanIn(txn, days, now))
  }

  /** The `except` clauses around the unit of work in each service. */
  function ClausesOf(s: Step): Clauses {
    match s
    case Create(_, _, _, _, _) => CREATE_CLAUSES
    case AddUser(_) => ADD_CLAUSES
    case DropUser(_) => REMOVE_CLAUSES
    case DropScope(_) => REMOVE_CLAUSES
    case MfaSession(_, _, _, _, _, _, _) => WRAP_CLAUSES
    case Attest(_, _, _) => WRAP_CLAUSES
    case Rotate(_, _, _, _, _, _) => WRAP_CLAUSES
    case _ => BARE
  }

  // A fresh transaction, and the commits that follow one body

  lemma OpenedQueries(db: Db)
    requires NoClash(db.tokens)
    ensures Flushed(db, NOTHING) == Ok(db) && Queried(Opened(db)) == Ok(Opened(db))
  {
    NothingStaged(db);
  }

  lemma FlushOfOneRow(db: Db, row: Row)
    requires NoClash(db.tokens)
    ensures Flushed(Adding(Opened(db), row).view, Adding(Opened(db), row).pending) == InsertRow(db, row)
  {
    assert [] + [row] == [row];
    OneRowStaged(db, row);
  }

  lemma FlushOfRemoval(db: Db, uids: set<string>, roots: set<Id>)
    requires NoClash(db.tokens) && OwnedBy(db, uids) <= roots
    ensures var txn := Removing(Opened(db), uids, roots);
      Flushed(txn.view, txn.pending) ==
        if Audited(db, Below(db.tokens, roots)) then Err(ForeignKeyViolation) else Ok(Without(db, uids, Below(db.tokens, roots)))
  {
    CascadeLeavesNothingDangling(db, uids, roots);
    var gone := Below(db.tokens, roots);
    assert {} + gone == gone && {} + uids == uids;
    RemovalStaged(db, gone, uids);
  }

  lemma CreateCloses(db: Db, req: NewToken, p: Option<string>, x: Option<string>, scopes: seq<string>, hash: string)
    requires Sound(db)
    ensures Closed(db, CreateIn(Opened(db), req, p, x, scopes, hash), CREATE_CLAUSES) == Created(db, req, p, x, scopes, hash)
  {
    OpenedQueries(db);
    FlushOfOneRow(db, TokenRow(NewRow(req, p, x, scopes, hash)));
  }

  lemma StoreCloses(before: Db, db: Db, t: Token)
    requires NoClash(db.tokens)
    ensures Closed(before, (Adding(Opened(db), TokenRow(t)), Ok(t)), WRAP_CLAUSES) == StoreOrRefuse(before, db, t)
  {
    FlushOfOneRow(db, TokenRow(t));
  }

  lemma ReplacementBody(db: Db, owner: string, t: Token, now: int, k: Id)
    requires Sound(db) && Sessions(db, owner, t.name) == {k} && !(db.tokens[k].nbf < now < db.tokens[k].exp)
    ensures var gone := Below(db.tokens, {k});
      SessionIn(Opened(db), owner, t, now) ==
        if Audited(db, gone) then (Removing(Opened(db), {}, {k}), Err(IntegrityError(ForeignKeyViolation)))
        else (Adding(Opened(Without(db, {}, gone)), TokenRow(t)), Ok(t))
  {
    hide Flushed, Coherent;
    OpenedQueries(db);
    assert |Sessions(db, owner, t.name)| == 1 && TheOne(Sessions(db, owner, t.name)) in {k};
    assert OwnedBy(db, {}) == {};
    FlushOfRemoval(db, {}, {k});
  }

  lemma ReplacementEffect(db: Db, owner: string, t: Token, now: int, k: Id)
    requires Sessions(db, owner, t.name) == {k} && !(db.tokens[k].nbf < now < db.tokens[k].exp)
    ensures var gone := Below(db.tokens, {k});
      SessionUpdated(db, owner, t, now) ==
        if Audited(db, gone) then (db, Err(IntegrityError(ForeignKeyViolation))) else StoreOrRefuse(db, Without(db, {}, gone), t)
  {
    assert |Sessions(db, owner, t.name)| == 1 && TheOne(Sessions(db, owner, t.name)) in {k};
  }

  lemma ReplacementCloses(db: Db, owner: string, t: Token, now: int, k: Id)
    requires Sound(db) && Sessions(db, owner, t.name) == {k} && !(db.tokens[k].nbf < now < db.tokens[k].exp)
    ensures Closed(db, SessionIn(Opened(db), owner, t, now), WRAP_CLAUSES) == SessionUpdated(db, owner, t, now)
  {
    hide Flushed, SessionIn, SessionUpdated, StoreOrRefuse, Sessions, Coherent;
    ReplacementBody(db, owner, t, now, k);
    ReplacementEffect(db, owner, t, now, k);
    if !Audited(db, Below(db.tokens, {k})) {
      StoreCloses(db, Without(db, {}, Below(db.tokens, {k})), t);
    }
  }

  lemma SessionCloses(db: Db, owner: string, t: Token, now: int)
    requires Sound(db)
    ensures Closed(db, SessionIn(Opened(db), owner, t, now), WRAP_CLAUSES) == SessionUpdated(db, owner, t, now)
  {
    OpenedQueries(db);
    var found := Sessions(db, owner, t.name);
    if found == {} {
      StoreCloses(db, db, t);
    } else if |found| == 1 {
      var k := TheOne(found);
      if !(db.tokens[k].nbf < now < db.tokens[k].exp) {
        ReplacementCloses(db, owner, t, now, k);
      }
    }
  }

  lemma RemovalCloses(db: Db, uids: set<string>, roots: set<Id>, c: Clauses)
    requires Sound(db) && OwnedBy(db, uids) <= roots && c.other.None?
    ensures Closed(db, (Removing(Opened(db), uids, roots), Ok(())), c) ==
      if Audited(db, Below(db.tokens, roots)) then (db, Err(UowException)) else (Without(db, uids, Below(db.tokens, roots)), Ok(()))
  {
    FlushOfRemoval(db, uids, roots);
  }

  lemma RemoveByIdCloses(db: Db, user: string, id: Id)
    requires Sound(db)
    ensures Closed(db, RemoveByIdIn(Opened(db), user, id), BARE) == RemovedById(db, user, id)
  {
    OpenedQueries(db);
    assert OwnedBy(db, {}) == {};
    RemovalCloses(db, {}, {id}, BARE);
  }

  lemma RemoveByNameCloses(db: Db, user: string, name: string, pick: Id)
    requires Sound(db)
    ensures Closed(db, RemoveByNameIn(Opened(db), user, name, pick), BARE) == RemovedByName(db, user, name, pick)
  {
    OpenedQueries(db);
    assert OwnedBy(db, {}) == {};
    RemovalCloses(db, {}, {pick}, BARE);
  }

  lemma RemoveUserCloses(db: Db, user: string)
    requires Sound(db)
    ensures Closed(db, DropUserIn(Opened(db), user), REMOVE_CLAUSES) == UserRemoved(db, user)
  {
    OpenedQueries(db);
    RemovalCloses(db, {user}, OwnedBy(db, {user}), REMOVE_CLAUSES);
  }

  lemma InvalidateCloses(db: Db, x: string)
    requires Sound(db)
    ensures Closed(db, InvalidateIn(Opened(db), x), BARE) == Invalidated(db, x)
  {
    OpenedQueries(db);
    if Invalidated(db, x).1.Ok? {
      NoClashKeeps(db.tokens, Invalidated(db, x).0.tokens);
      NothingStaged(Invalidated(db, x).0);
    }
  }

  lemma AttestCloses(db: Db, user: string, ids: seq<Id>, now: int)
    requires Sound(db)
    ensures Closed(db, AttestIn(Opened(db), user, ids, now), WRAP_CLAUSES) == Attested(db, user, ids, now)
  {
    OpenedQueries(db);
    NoClashKeeps(db.tokens, Rotatable(db, Elements(ids)).tokens);
    NothingStaged(Rotatable(db, Elements(ids)));
  }

  lemma RotateCloses(db: Db, id: Id, maxDays: int, asked: Option<int>, now: int, secret: string, hash: string)
    requires Sound(db)
    ensures Closed(db, RotateIn(Opened(db), id, maxDays, asked, now, secret, hash), WRAP_CLAUSES) ==
      Rotated(db, id, maxDays, asked, now, secret, hash)
  {
    OpenedQueries(db);
    if id in db.tokens {
      NothingStaged(WithToken(db, RotatedRow(db.tokens[id], GrantedDays(maxDays, asked), now, secret, hash)));
    }
  }

  lemma DropScopeCloses(db: Db, name: string)
    requires Sound(db)
    ensures Closed(db, DropScopeIn(Opened(db), name), REMOVE_CLAUSES) == ScopeRemoved(db, name)
  {
    OpenedQueries(db);
    UnlinkedKeepsSound(db, name);
    NothingStaged(Unlinked(db, name));
  }

  lemma CleanCloses(db: Db, days: int, now: int)
    requires Sound(db)
    ensures Closed(db, CleanIn(Opened(db), days, now), BARE) == AuditsCleaned(db, days, now)
  {
    OpenedQueries(db);
    NothingStaged(AuditsCleaned(db, days, now).0);
  }

  lemma RemovalsClose(db: Db, s: Step)
    requires Sound(db) && (s.DropUser? || s.DropById? || s.DropByValue? || s.DropByName?)
    ensures Closed(db, Body(Opened(db), s), ClausesOf(s)) == Call(db, s)
  {
    hide Flushed;
    match s
    case DropUser(uid) => RemoveUserCloses(db, uid);
    case DropById(user, target) => RemoveByIdCloses(db, user, target);
    case DropByValue(user, x) => if Parse(x).Some? { RemoveByIdCloses(db, user, Parse(x).value.0); }
    case DropByName(user, name, pick) => RemoveByNameCloses(db, user, name, pick);
  }

  lemma FlagUpdatesClose(db: Db, s: Step)
    requires Sound(db) && (s.Invalidate? || s.Attest?)
    ensures Closed(db, Body(Opened(db), s), ClausesOf(s)) == Call(db, s)
  {
    hide Flushed;
    match s
    case Invalidate(x) => InvalidateCloses(db, x);
    case Attest(user, ids, now) => AttestCloses(db, user, ids, now);
  }

  lemma OtherUpdatesClose(db: Db, s: Step)
    requires Sound(db) && (s.Rotate? || s.Clean? || s.DropScope?)
    ensures Closed(db, Body(Opened(db), s), ClausesOf(s)) == Call(db, s)
  {
    hide Flushed;
    match s
    case Rotate(target, maxDays, asked, now, secret, hash) => RotateCloses(db, target, maxDays, asked, now, secret, hash);
    case Clean(days, now) => CleanCloses(db, days, now);
    case DropScope(name) => DropScopeCloses(db, name);
  }

  lemma AdditionsClose(db: Db, s: Step)
    requires Sound(db) && (s.AddUser? || s.Record? || s.Create? || s.MfaSession?)
    ensures Closed(db, Body(Opened(db), s), ClausesOf(s)) == Call(db, s)
  {
    hide Flushed;
    match s
    case AddUser(uid) => FlushOfOneRow(db, UserRow(uid));
    case Record(a) => FlushOfOneRow(db, AuditRow(a));
    case Create(req, p, x, scopes, hash) => CreateCloses(db, req, p, x, scopes, hash);
    case MfaSession(owner, name, id, secret, at, lifetime, now) =>
      SessionCloses(db, owner, SessionRow(id, name, owner, secret, at, lifetime), now);
  }

  lemma ReadsClose(db: Db, s: Step)
    requires Sound(db) && (s.Present? || s.Lookup?)
    ensures Closed(db, Body(Opened(db), s), ClausesOf(s)) == Call(db, s)
  {
    OpenedQueries(db);
  }

  /** Run as the outermost unit of work, every service has exactly the effect stated on whole tables. */
  lemma OutermostIsCall(db: Db, s: Step)
    requires Sound(db)
    ensures Closed(db, Body(Opened(db), s), ClausesOf(s)) == Call(db, s)
  {
    hide Closed, Body, Call, ClausesOf, Sound, Opened;
    if s.AddUser? || s.Record? || s.Create? || s.MfaSession? {
      AdditionsClose(db, s);
    } else if s.Invalidate? || s.Attest? {
      FlagUpdatesClose(db, s);
    } else if s.Rotate? || s.Clean? || s.DropScope? {
      OtherUpdatesClose(db, s);
    } else if s.Present? || s.Lookup? {
      ReadsClose(db, s);
    } else {
      RemovalsClose(db, s);
    }
  }
}
