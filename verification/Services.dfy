/**
 * The service layer. Each service has a body, which runs on the session of whatever unit of work
 * it is called in, and an outermost form, which opens a session, runs the body and commits. The
 * outermost form is proved to have exactly the effect `ServiceSpec` states on the committed tables.
 */
module Services {
  import opened Prelude
  import opened Text
  import opened Model
  import opened Schema
  import opened UnitOfWork
  import opened Authentication
  import opened ServiceSpec
  import opened Bodies

  // Creation

  method CreateTokenIn(s: Session, req: NewToken, parentId: Option<string>, externalId: Option<string>,
                       scopeNames: seq<string>, hash: string)
    returns (r: Result<string, Error>)
    modifies s
    ensures (s.State(), r) == CreateIn(old(s.State()), req, parentId, externalId, scopeNames, hash)
  {
    if Truthy(parentId) || scopeNames != [] {
      var q := s.Query();
      if q.Err? {
        return Err(q.error);
      }
    }
    if Truthy(parentId) && parentId.value !in s.view.tokens {
      return Err(NotFound);
    }
    var scopes := [];
    var i := 0;
    while i < |scopeNames|
      invariant 0 <= i <= |scopeNames| && scopes == scopeNames[..i]
      invariant forall j | 0 <= j < i :: scopeNames[j] in s.view.scopes
    {
      if scopeNames[i] !in s.view.scopes {
        return Err(RepoNotFound);
      }
      scopes := scopes + [scopeNames[i]];
      i := i + 1;
    }
    var token := Token(req.id, req.name, req.owner, None, None, Plain(req.secret), req.nbf, req.exp, [], true, false, req.rotatable);
    token := token.(scopes := scopes);
    if Truthy(parentId) {
      token := token.(parent := parentId);
    } else {
      token := token.(value := Hash(hash, req.secret));
    }
    token := token.(external := externalId);
    assert scopes == scopeNames;
    assert token == NewRow(req, parentId, externalId, scopeNames, hash);
    s.Add(TokenRow(token));
    r := Ok(Composite(req.id, req.secret));
  }

  method CreateToken(d: Database, req: NewToken, parentId: Option<string>, externalId: Option<string>,
                     scopeNames: seq<string>, hash: string)
    returns (r: Result<string, Error>)
    requires Sound(d.committed)
    modifies d
    ensures (d.committed, r) == Created(old(d.committed), req, parentId, externalId, scopeNames, hash)
  {
    CreateCloses(d.committed, req, parentId, externalId, scopeNames, hash);
    var s := new Session(d);
    r := CreateTokenIn(s, req, parentId, externalId, scopeNames, hash);
    r := s.Close(r, CREATE_CLAUSES);
  }

  method GetSubtokenIn(s: Session, name: string, parentId: Option<string>, externalId: Option<string>)
    returns (r: Result<string, Error>)
    modifies s
    ensures (s.State(), r) == LookupIn(old(s.State()), name, parentId, externalId)
  {
    var q := s.Query();
    if q.Err? {
      return Err(q.error);
    }
    var found := Subtokens(s.view, name, parentId, externalId);
    if found == {} {
      return Err(AttributeError);
    }
    if |found| != 1 {
      return Err(MultipleResults);
    }
    var k := TheOne(found);
    r := Ok(Composite(k, s.view.tokens[k].value.text));
  }

  /** The impersonation route: create, and on a taken name look the token up in a second unit of work. */
  method CreateTokenForUser(d: Database, req: NewToken, parentId: Option<string>, externalId: Option<string>,
                            scopeNames: seq<string>, hash: string)
    returns (r: Result<string, Error>)
    requires Sound(d.committed)
    modifies d
    ensures (d.committed, r) == CreatedOrFound(old(d.committed), req, parentId, externalId, scopeNames, hash)
  {
    r := CreateToken(d, req, parentId, externalId, scopeNames, hash);
    if r == Err(AlreadyExists) {
      OpenedQueries(d.committed);
      var s := new Session(d);
      r := GetSubtokenIn(s, req.name, parentId, externalId);
      r := s.Close(r, BARE);
    }
  }

  method CreateUserIn(s: Session, uid: string) returns (r: Result<(), Error>)
    modifies s
    ensures (s.State(), r) == NewUserIn(old(s.State()), uid)
  {
    s.Add(UserRow(uid));
    r := Ok(());
  }

  method CreateUser(d: Database, uid: string) returns (r: Result<(), Error>)
    requires Sound(d.committed)
    modifies d
    ensures (d.committed, r) == UserCreated(old(d.committed), uid)
  {
    FlushOfOneRow(d.committed, UserRow(uid));
    var s := new Session(d);
    r := CreateUserIn(s, uid);
    r := s.Close(r, ADD_CLAUSES);
  }

  // Sessions

  method UpdateSessionIn(s: Session, owner: string, token: Token, now: int) returns (r: Result<Token, Error>)
    modifies s
    ensures (s.State(), r) == SessionIn(old(s.State()), owner, token, now)
  {
    var q := s.Query();
    if q.Err? {
      return Err(q.error);
    }
    var found := Sessions(s.view, owner, token.name);
    if found != {} {
      if |found| != 1 {
        return Err(MultipleResults);
      }
      var k := TheOne(found);
      if s.view.tokens[k].nbf < now < s.view.tokens[k].exp {
        return Ok(s.view.tokens[k]);
      }
      var removed := s.RemoveToken(k);
      assert s.pending.removedUsers + {} == s.pending.removedUsers;
      var f := s.Query();
      if f.Err? {
        return Err(f.error);
      }
    }
    s.Add(TokenRow(token));
    r := Ok(token);
  }

  method UpdateSession(d: Database, owner: string, token: Token, now: int) returns (r: Result<Token, Error>)
    requires Sound(d.committed)
    modifies d
    ensures (d.committed, r) == SessionUpdated(old(d.committed), owner, token, now)
  {
    SessionCloses(d.committed, owner, token, now);
    var s := new Session(d);
    r := UpdateSessionIn(s, owner, token, now);
    r := s.Close(r, WRAP_CLAUSES);
  }

  /** The MFA route: offer a session whose window is fixed now, and answer with the id of the one kept or stored. */
  method StartSession(d: Database, owner: string, name: string, id: Id, secret: string, at: int, lifetime: int, now: int)
    returns (r: Result<Id, Error>)
    requires Sound(d.committed)
    modifies d
    ensures (d.committed, r) == SessionStarted(old(d.committed), owner, name, id, secret, at, lifetime, now)
  {
    var token := Token(id, name, owner, None, None, Plain(secret), at, at + lifetime, [], true, true, false);
    var u := UpdateSession(d, owner, token, now);
    if u.Err? {
      return Err(u.error);
    }
    r := Ok(u.value.id);
  }

  // Removal

  method RemoveTokenByIdIn(s: Session, id: Id, user: string) returns (r: Result<(), Error>)
    modifies s
    ensures (s.State(), r) == RemoveByIdIn(old(s.State()), user, id)
  {
    var q := s.Query();
    if q.Err? {
      return q;
    }
    if user !in s.view.users {
      return Err(NotFound);
    }
    if id !in OwnedBy(s.view, {user}) {
      return Err(NotFound);
    }
    assert s.pending.removedUsers + {} == s.pending.removedUsers;
    r := s.RemoveToken(id);
  }

  method RemoveTokenById(d: Database, id: Id, user: string) returns (r: Result<(), Error>)
    requires Sound(d.committed)
    modifies d
    ensures (d.committed, r) == RemovedById(old(d.committed), user, id)
  {
    RemoveByIdCloses(d.committed, user, id);
    var s := new Session(d);
    r := RemoveTokenByIdIn(s, id, user);
    r := s.Close(r, BARE);
  }

  method RemoveTokenByValueIn(s: Session, x: string, user: string) returns (r: Result<(), Error>)
    modifies s
    ensures (s.State(), r) == RemoveByValueIn(old(s.State()), user, x)
  {
    var pair := Parse(x);
    if pair.None? {
      return Err(ValueError);
    }
    r := RemoveTokenByIdIn(s, pair.value.0, user);
  }

  method RemoveTokenByValue(d: Database, x: string, user: string) returns (r: Result<(), Error>)
    requires Sound(d.committed)
    modifies d
    ensures (d.committed, r) == RemovedByValue(old(d.committed), user, x)
  {
    RemovalsClose(d.committed, DropByValue(user, x));
    if Parse(x).Some? {
      RemoveByIdCloses(d.committed, user, Parse(x).value.0);
    }
    var s := new Session(d);
    r := RemoveTokenByValueIn(s, x, user);
    r := s.Close(r, BARE);
  }

  /** Any one of the user's tokens of that name: the query gives no order. */
  method RemoveTokenByNameIn(s: Session, name: string, user: string) returns (r: Result<(), Error>, pick: Id)
    modifies s
    ensures (s.State(), r) == RemoveByNameIn(old(s.State()), user, name, pick)
    ensures r == Err(NotFound) ==> Named(s.view, user, name) == {}
  {
    pick := "";
    var q := s.Query();
    if q.Err? {
      return q, pick;
    }
    if user !in s.view.users {
      return Err(AttributeError), pick;
    }
    var named := Named(s.view, user, name);
    if named == {} {
      return Err(NotFound), pick;
    }
    pick :| pick in named;
    assert s.pending.removedUsers + {} == s.pending.removedUsers;
    r := s.RemoveToken(pick);
  }

  method RemoveTokenByName(d: Database, name: string, user: string) returns (r: Result<(), Error>, pick: Id)
    requires Sound(d.committed)
    modifies d
    ensures (d.committed, r) == RemovedByName(old(d.committed), user, name, pick)
    ensures r == Err(NotFound) ==> Named(old(d.committed), user, name) == {}
  {
    OpenedQueries(d.committed);
    var s := new Session(d);
    r, pick := RemoveTokenByNameIn(s, name, user);
    RemoveByNameCloses(d.committed, user, name, pick);
    r := s.Close(r, BARE);
  }

  method RemoveUserIn(s: Session, user: string) returns (r: Result<(), Error>)
    modifies s
    ensures (s.State(), r) == DropUserIn(old(s.State()), user)
  {
    var q := s.Query();
    if q.Err? {
      return q;
    }
    r := s.RemoveUser(user);
  }

  method RemoveUser(d: Database, user: string) returns (r: Result<(), Error>)
    requires Sound(d.committed)
    modifies d
    ensures (d.committed, r) == UserRemoved(old(d.committed), user)
  {
    RemoveUserCloses(d.committed, user);
    var s := new Session(d);
    r := RemoveUserIn(s, user);
    r := s.Close(r, REMOVE_CLAUSES);
  }

  method RemoveScopeIn(s: Session, name: string) returns (r: Result<(), Error>)
    modifies s
    ensures (s.State(), r) == DropScopeIn(old(s.State()), name)
  {
    var q := s.Query();
    if q.Err? {
      return q;
    }
    r := s.RemoveScope(name);
  }

  method RemoveScope(d: Database, name: string) returns (r: Result<(), Error>)
    requires Sound(d.committed)
    modifies d
    ensures (d.committed, r) == ScopeRemoved(old(d.committed), name)
  {
    DropScopeCloses(d.committed, name);
    var s := new Session(d);
    r := RemoveScopeIn(s, name);
    r := s.Close(r, REMOVE_CLAUSES);
  }

  method InvalidateTokenIn(s: Session, x: string) returns (r: Result<(), Error>)
    modifies s
    ensures (s.State(), r) == InvalidateIn(old(s.State()), x)
  {
    var pair := Parse(x);
    if pair.None? {
      return Err(ValueError);
    }
    var q := s.Query();
    if q.Err? {
      return q;
    }
    var id := pair.value.0;
    if id !in s.view.tokens {
      return Err(NotFound);
    }
    s.SetToken(s.view.tokens[id].(active := false));
    r := Ok(());
  }

  method InvalidateToken(d: Database, x: string) returns (r: Result<(), Error>)
    requires Sound(d.committed)
    modifies d
    ensures (d.committed, r) == Invalidated(old(d.committed), x)
  {
    InvalidateCloses(d.committed, x);
    var s := new Session(d);
    r := InvalidateTokenIn(s, x);
    r := s.Close(r, BARE);
  }

  // Authentication, attestation and rotation

  /** The token authenticator: the nested check joins its unit, then the id part of the string. */
  method PresentTokenIn(s: Session, x: string, now: int) returns (r: Result<Id, Error>)
    modifies s
    ensures (s.State(), r) == PresentIn(old(s.State()), x, now)
  {
    if Parse(x).None? {
      return Err(ValueError);
    }
    var q := s.Query();
    if q.Err? {
      return Err(q.error);
    }
    var accepted := Authenticated(s.view.tokens, x, now);
    if accepted.Err? {
      return Err(accepted.error);
    }
    if !accepted.value {
      return Err(Unauthorized);
    }
    r := Ok(Split(x, '.')[0]);
  }

  method PresentToken(d: Database, x: string, now: int) returns (r: Result<Id, Error>)
    requires Sound(d.committed)
    modifies d
    ensures d.committed == old(d.committed) && r == Presented(old(d.committed), x, now)
  {
    OpenedQueries(d.committed);
    var s := new Session(d);
    r := PresentTokenIn(s, x, now);
    r := s.Close(r, BARE);
  }

  /** Attest a list of tokens: look all up, check all, then update all. */
  method MakeRotatableIn(s: Session, user: string, ids: seq<Id>, now: int) returns (r: Result<(), Error>)
    requires Coherent(s.view)
    modifies s
    ensures (s.State(), r) == AttestIn(old(s.State()), user, ids, now)
  {
    if ids != [] {
      if Queried(s.State()).Ok? {
        FlushedIsSound(s.view, s.pending);
      }
      var q := s.Query();
      if q.Err? {
        return q;
      }
    }
    if exists i | 0 <= i < |ids| :: ids[i] !in s.view.tokens {
      return Err(NotFound);
    }
    if exists i | 0 <= i < |ids| :: s.view.tokens[ids[i]].owner != user {
      return Err(NotFound);
    }
    if exists i | 0 <= i < |ids| :: !Valid(s.view.tokens, s.view.tokens[ids[i]], now) {
      return Err(InvalidToken);
    }
    SetRotatable(s, ids);
    r := Ok(());
  }

  method SetRotatable(s: Session, ids: seq<Id>)
    requires Coherent(s.view) && forall i | 0 <= i < |ids| :: ids[i] in s.view.tokens
    modifies s
    ensures s.view == Rotatable(old(s.view), Elements(ids)) && s.pending == old(s.pending)
  {
    ghost var before := s.view;
    var i := 0;
    while i < |ids|
      invariant 0 <= i <= |ids| && s.pending == old(s.pending)
      invariant s.view == Rotatable(before, Elements(ids[..i]))
    {
      RotatableGrows(before, Elements(ids[..i]), ids[i]);
      s.SetToken(s.view.tokens[ids[i]].(rotatable := true));
      assert ids[..i + 1] == ids[..i] + [ids[i]];
      assert Elements(ids[..i + 1]) == Elements(ids[..i]) + {ids[i]};
      i := i + 1;
    }
    assert ids[..i] == ids;
  }

  lemma RotatableGrows(db: Db, ids: set<Id>, k: Id)
    requires k in db.tokens && db.tokens[k].id == k
    ensures WithToken(Rotatable(db, ids), Rotatable(db, ids).tokens[k].(rotatable := true)) == Rotatable(db, ids + {k})
  {
  }

  method MakeRotatable(d: Database, user: string, ids: seq<Id>, now: int) returns (r: Result<(), Error>)
    requires Sound(d.committed)
    modifies d
    ensures (d.committed, r) == Attested(old(d.committed), user, ids, now)
  {
    AttestCloses(d.committed, user, ids, now);
    var s := new Session(d);
    r := MakeRotatableIn(s, user, ids, now);
    r := s.Close(r, WRAP_CLAUSES);
  }

  method RotateTokenIn(s: Session, id: Id, maxDays: int, asked: Option<int>, now: int, secret: string, hash: string)
    returns (r: Result<string, Error>)
    requires Coherent(s.view)
    modifies s
    ensures (s.State(), r) == RotateIn(old(s.State()), id, maxDays, asked, now, secret, hash)
  {
    hide Flushed;
    var days := GrantedDays(maxDays, asked);
    if days > maxDays {
      return Err(ValueError);
    }
    if Queried(s.State()).Ok? {
      FlushedIsSound(s.view, s.pending);
    }
    var q := s.Query();
    if q.Err? {
      return Err(q.error);
    }
    if id !in s.view.tokens {
      return Err(AttributeError);
    }
    if !s.view.tokens[id].rotatable {
      return Err(InvalidToken);
    }
    ghost var before := s.view;
    s.SetToken(s.view.tokens[id].(value := Hash(hash, secret)));
    s.SetToken(s.view.tokens[id].(exp := now + days * DAY));
    s.SetToken(s.view.tokens[id].(rotatable := false));
    assert s.view.tokens == WithToken(before, RotatedRow(before.tokens[id], days, now, secret, hash)).tokens;
    r := Ok(Composite(id, secret));
  }

  method RotateToken(d: Database, id: Id, maxDays: int, asked: Option<int>, now: int, secret: string, hash: string)
    returns (r: Result<string, Error>)
    requires Sound(d.committed)
    modifies d
    ensures (d.committed, r) == Rotated(old(d.committed), id, maxDays, asked, now, secret, hash)
  {
    RotateCloses(d.committed, id, maxDays, asked, now, secret, hash);
    var s := new Session(d);
    r := RotateTokenIn(s, id, maxDays, asked, now, secret, hash);
    r := s.Close(r, WRAP_CLAUSES);
  }

  // Audit records

  method AuditEventIn(s: Session, a: AuditRecord) returns (r: Result<(), Error>)
    modifies s
    ensures (s.State(), r) == AuditIn(old(s.State()), a)
  {
    s.Add(AuditRow(a));
    r := Ok(());
  }

  method AuditEvent(d: Database, a: AuditRecord) returns (r: Result<(), Error>)
    requires Sound(d.committed)
    modifies d
    ensures (d.committed, r) == AuditAdded(old(d.committed), a)
  {
    FlushOfOneRow(d.committed, AuditRow(a));
    var s := new Session(d);
    r := AuditEventIn(s, a);
    r := s.Close(r, BARE);
  }

  method AuditCleanupIn(s: Session, days: int, now: int) returns (r: Result<(), Error>)
    modifies s
    ensures (s.State(), r) == CleanIn(old(s.State()), days, now)
  {
    var q := s.Query();
    if q.Err? {
      return q;
    }
    s.SetAudits(Since(s.view.audits, now - days * DAY));
    r := Ok(());
  }

  method AuditCleanup(d: Database, days: int, now: int) returns (r: Result<(), Error>)
    requires Sound(d.committed)
    modifies d
    ensures (d.committed, r) == AuditsCleaned(old(d.committed), days, now)
  {
    CleanCloses(d.committed, days, now);
    var s := new Session(d);
    r := AuditCleanupIn(s, days, now);
    r := s.Close(r, BARE);
  }
}
