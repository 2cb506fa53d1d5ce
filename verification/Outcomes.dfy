/**
 * What each call does in each case, in terms of the columns of the stored rows alone: every error
 * in exactly its cases, and otherwise the answer and the whole new tables. (Creations are in
 * `CreationResults`, removals in `Deletion`, attestations in `RotationResults`.)
 */
module Outcomes {
  import opened Prelude
  import opened Text
  import opened Model
  import opened Schema
  import opened UnitOfWork
  import opened Authentication
  import opened ServiceSpec
  import opened Bodies
  import opened Lifecycle
  import opened Deletion
  import opened SessionResults
  import opened CredentialResults

  // Token strings

  predicate TwoParts(x: string, id: string, secret: string) {
    '.' !in id && '.' !in secret && x == id + "." + secret
  }

  /** A string that is not two parts around one dot is refused everywhere in the same way. */
  lemma OtherStrings(db: Db, x: string, user: string, now: int)
    requires forall id, secret :: !TwoParts(x, id, secret)
    ensures Authenticated(db.tokens, x, now) == Err(ValueError) && Presented(db, x, now) == Err(ValueError)
    ensures Invalidated(db, x) == (db, Err(ValueError)) && RemovedByValue(db, user, x) == (db, Err(ValueError))
  {
    if Parse(x).Some? {
      var (id, secret) := Parse(x).value;
      ParseIsInverse(x, id, secret);
      assert TwoParts(x, id, secret);
    }
  }

  /**
   * Inside the window a subtoken accepts exactly its stored text and a root exactly the secret its
   * bcrypt text was made from; a root without a bcrypt text raises. Anything else is refused.
   */
  lemma AuthenticationOutcomes(w: World, id: string, secret: string, now: int)
    requires Reachable(w) && '.' !in id && '.' !in secret
    ensures var tokens, r := w.db.tokens, Authenticated(w.db.tokens, id + "." + secret, now);
      r == if !InForce(tokens, id, now) then Ok(false)
           else if tokens[id].parent.Some? then Ok(secret == tokens[id].value.text)
           else if tokens[id].value.Hash? then Ok(secret == tokens[id].value.secret)
           else Err(ValueError)
  {
    ReachableKeeps(w);
    ParseIsInverse(id + "." + secret, id, secret);
    if id in w.db.tokens {
      assert Agrees(w.db.tokens[id], w.log[id]);
      ValidIsInForce(w, id, now);
    }
  }

  /** The authenticator answers an accepted string with its id, a refused one with 401, and passes errors on. */
  lemma PresentationOutcomes(db: Db, id: string, secret: string, now: int)
    requires '.' !in id && '.' !in secret
    ensures var x := id + "." + secret;
      match Authenticated(db.tokens, x, now)
      case Ok(accepted) => Presented(db, x, now) == if accepted then Ok(id) else Err(Unauthorized)
      case Err(error) => Presented(db, x, now) == Err(error)
  {
    SplitFirst(id, secret, '.');
  }

  lemma InvalidationOutcomes(db: Db, id: string, secret: string)
    requires Sound(db) && '.' !in id && '.' !in secret
    ensures Invalidated(db, id + "." + secret) ==
      if id !in db.tokens then (db, Err(NotFound))
      else (db.(tokens := db.tokens[id := db.tokens[id].(active := false)]), Ok(()))
  {
    ParseIsInverse(id + "." + secret, id, secret);
  }

  // Rotation

  /**
   * A rotation is refused for more days than the maximum, for a token that is not stored, for one
   * that is not rotatable, and for a bcrypt text another token has; in every other case it stores
   * the new text, the new end and the cleared flag and returns the new string.
   */
  lemma RotationOutcomes(db: Db, id: Id, maxDays: int, asked: Option<int>, now: int, secret: string, hash: string)
    requires Sound(db)
    ensures var days := if asked == None || asked == Some(0) then maxDays else asked.value;
      var e := Rotated(db, id, maxDays, asked, now, secret, hash);
      && (e.1 == Err(ValueError) <==> asked.Some? && asked.value != 0 && asked.value > maxDays)
      && (e.1 == Err(AttributeError) <==> days <= maxDays && id !in db.tokens)
      && (e.1 == Err(InvalidToken) <==> days <= maxDays && id in db.tokens && !db.tokens[id].rotatable)
      && (e.1 == Err(ServiceException) <==>
            && days <= maxDays && id in db.tokens && db.tokens[id].rotatable
            && exists k :: k in db.tokens && k != id && db.tokens[k].value.text == hash)
      && (e.1.Err? ==> e.0 == db && e.1.error in {ValueError, AttributeError, InvalidToken, ServiceException})
      && (e.1.Ok? ==>
            && e.1.value == id + "." + secret && id in db.tokens
            && var t := db.tokens[id];
               e.0 == db.(tokens := db.tokens[id := Token(
                 id, t.name, t.owner, t.parent, t.external, Hash(hash, secret), t.nbf, now + days * 86_400_000_000,
                 t.scopes, t.active, t.session, false)]))
  {
    if id in db.tokens {
      RotatedRowFits(db, RotatedRow(db.tokens[id], GrantedDays(maxDays, asked), now, secret, hash));
    }
  }

  /** A row that keeps its columns but the value clashes exactly with another token of that text. */
  lemma RotatedRowFits(db: Db, t: Token)
    requires Sound(db) && t.id in db.tokens
    requires var old_ := db.tokens[t.id]; t.owner == old_.owner && t.name == old_.name && t.parent == old_.parent && t.external == old_.external
    ensures NoClash(WithToken(db, t).tokens) <==> forall k | k in db.tokens && k != t.id :: db.tokens[k].value.text != t.value.text
  {
    var next := WithToken(db, t).tokens;
    if forall k | k in db.tokens && k != t.id :: db.tokens[k].value.text != t.value.text {
      forall a, b | a in next && b in next && a != b ensures !Clash(next[a], next[b]) {
        assert !Clash(db.tokens[a], db.tokens[b]);
      }
    }
    if k :| k in db.tokens && k != t.id && db.tokens[k].value.text == t.value.text {
      assert Clash(next[k], next[t.id]);
    }
  }

  // Sessions

  /** A session request of a user with a live session of that name is answered with its id. */
  lemma LiveSessionAnswers(w: World, owner: string, name: string, id: Id, secret: string, at: int, lifetime: int, now: int, k: Id)
    requires Reachable(w) && k in w.db.tokens && w.db.tokens[k].nbf < now < w.db.tokens[k].exp
    requires w.db.tokens[k].owner == owner && w.db.tokens[k].name == name && w.db.tokens[k].session
    ensures SessionStarted(w.db, owner, name, id, secret, at, lifetime, now) == (w.db, Ok(k))
  {
    var t := SessionRow(id, name, owner, secret, at, lifetime);
    LiveSessionIsKept(w, owner, t, now, k);
    ReachableKeeps(w);
    StoredUnderItsId(w, k);
  }

  /** A token that would stay and keeps the new session from being stored. */
  ghost predicate InTheWay(db: Db, k: Id, found: set<Id>, owner: string, name: string, id: Id, secret: string) {
    && k in db.tokens && !HasAncestorIn(db.tokens, k, found)
    && (k == id || db.tokens[k].value.text == secret ||
        (db.tokens[k].owner == owner && db.tokens[k].name == name && db.tokens[k].parent == None && db.tokens[k].external == None))
  }

  function SessionsOf(db: Db, owner: string, name: string): set<Id> {
    set k | k in db.tokens && db.tokens[k].owner == owner && db.tokens[k].name == name && db.tokens[k].session
  }

  /**
   * Without a live session the request is refused when an audit record refers to a dead one or its
   * descendants; and else when the name or user is too long, the user is unknown, or a token that
   * would stay has the new id, the new secret as its text, or the same place. Otherwise exactly the
   * dead session and its descendants are gone and the new row is stored.
   */
  lemma SessionOutcomes(w: World, owner: string, name: string, id: Id, secret: string, at: int, lifetime: int, now: int)
    requires Reachable(w)
    requires forall k | k in SessionsOf(w.db, owner, name) :: !(w.db.tokens[k].nbf < now < w.db.tokens[k].exp)
    ensures var db, found := w.db, SessionsOf(w.db, owner, name);
      var e := SessionStarted(db, owner, name, id, secret, at, lifetime, now);
      && (e.1 == Err(IntegrityError(ForeignKeyViolation)) <==> AnyAudited(db, found))
      && (e.1 == Err(ServiceException) <==>
            && !AnyAudited(db, found)
            && (|name| > 256 || |owner| > 32 || owner !in db.users || exists k :: InTheWay(db, k, found, owner, name, id, secret)))
      && (e.1.Err? ==> e.0 == db && e.1.error in {IntegrityError(ForeignKeyViolation), ServiceException})
      && (e.1.Ok? ==>
            && e.1.value == id
            && exists rest :: DeletedExactly(db, rest, found) && rest.users == db.users
                 && e.0 == rest.(tokens := rest.tokens[id := Token(
                      id, name, owner, None, None, Plain(secret), at, at + lifetime, [], true, true, false)]))
  {
    var found := Sessions(w.db, owner, name);
    assert found == SessionsOf(w.db, owner, name);
    var t := Token(id, name, owner, None, None, Plain(secret), at, at + lifetime, [], true, true, false);
    assert SessionRow(id, name, owner, secret, at, lifetime) == t;
    DeadSessionIsReplaced(w, t, now);
    BlockersAreInTheWay(w.db, found, t);
    assert Replaces(w.db, found, t, SessionUpdated(w.db, owner, t, now));
    hide SessionUpdated, AnyAudited, DeletedExactly, InTheWay, Blocked, Reachable;
  }

  lemma BlockersAreInTheWay(db: Db, found: set<Id>, t: Token)
    requires t.parent.None? && t.external.None?
    ensures Blocked(db, found, t) <==> exists k :: InTheWay(db, k, found, t.owner, t.name, t.id, t.value.text)
  {
    if k :| Blocks(db, k, t) && !HasAncestorIn(db.tokens, k, found) {
      assert InTheWay(db, k, found, t.owner, t.name, t.id, t.value.text);
    }
    if k :| InTheWay(db, k, found, t.owner, t.name, t.id, t.value.text) {
      assert Blocks(db, k, t);
    }
  }

  // Lookup and the impersonation route

  /** The lookup answers with id and stored text of the one token of that name, parent and external id. */
  lemma LookupOutcomes(db: Db, name: string, parentId: Option<string>, externalId: Option<string>)
    ensures var holders := set k | k in db.tokens &&
        db.tokens[k].name == name && db.tokens[k].parent == parentId && db.tokens[k].external == externalId;
      var r := LookedUp(db, name, parentId, externalId);
      && (r == Err(AttributeError) <==> holders == {})
      && (r == Err(MultipleResults) <==> |holders| > 1)
      && (|holders| == 1 <==> r.Ok?)
      && (forall k | k in holders && |holders| == 1 :: r == Ok(k + "." + db.tokens[k].value.text))
  {
    var holders := set k | k in db.tokens &&
      db.tokens[k].name == name && db.tokens[k].parent == parentId && db.tokens[k].external == externalId;
    assert Subtokens(db, name, parentId, externalId) == holders;
    if |holders| == 1 {
      assert forall k | k in holders :: k in {TheOne(holders)};
    }
  }

  /** The impersonation route answers as the creation does unless the token exists; then the lookup answers and nothing changes. */
  lemma RouteOutcomes(db: Db, req: NewToken, parentId: Option<string>, externalId: Option<string>, scopes: seq<string>, hash: string)
    ensures var created, e := Created(db, req, parentId, externalId, scopes, hash), CreatedOrFound(db, req, parentId, externalId, scopes, hash);
      && (created.1 != Err(AlreadyExists) ==> e == created)
      && (created.1 == Err(AlreadyExists) ==> e == (db, LookedUp(db, req.name, parentId, externalId)))
  {
  }

  // Users, scopes and audit records

  lemma UserCreationOutcomes(db: Db, uid: string)
    requires Sound(db)
    ensures var e := UserCreated(db, uid);
      && (e.1 == Err(AlreadyExists) <==> uid in db.users)
      && (e.1 == Err(ServiceException) <==> |uid| > 32)
      && (e.1.Err? ==> e.0 == db && e.1.error in {AlreadyExists, ServiceException})
      && (e.1.Ok? ==> e.0 == db.(users := db.users + {uid}))
  {
  }

  /** A removed scope is no longer stored and on no token; all else stays. */
  lemma ScopeRemovalOutcomes(db: Db, name: string)
    ensures name !in db.scopes ==> ScopeRemoved(db, name) == (db, Err(RepoNotFound))
    ensures name in db.scopes ==>
      var e := ScopeRemoved(db, name);
      && e.1 == Ok(()) && e.0.scopes == db.scopes - {name} && e.0 == db.(scopes := e.0.scopes, tokens := e.0.tokens)
      && e.0.tokens.Keys == db.tokens.Keys
      && forall k | k in db.tokens ::
           && e.0.tokens[k] == db.tokens[k].(scopes := e.0.tokens[k].scopes)
           && forall s :: s in e.0.tokens[k].scopes <==> s in db.tokens[k].scopes && s != name
  {
    forall k | k in db.tokens ensures forall s :: s in Less(db.tokens[k].scopes, {name}) <==> s in db.tokens[k].scopes && s != name {
      LessHas(db.tokens[k].scopes, {name});
    }
  }

  lemma AuditOutcomes(db: Db, a: AuditRecord)
    ensures var fits := |a.requestMethod| <= 32 && |a.source| <= 32 && |a.destination| <= 32;
      AuditAdded(db, a) ==
        if fits && a.tokenId in db.tokens then (db.(audits := db.audits + [a]), Ok(())) else (db, Err(UowException))
  {
  }

  /** A cleanup keeps exactly the records not older than so many days of 24 hours. */
  lemma CleanupOutcomes(db: Db, days: int, now: int)
    ensures var e := AuditsCleaned(db, days, now);
      && e.1 == Ok(()) && e.0 == db.(audits := e.0.audits)
      && forall a :: multiset(e.0.audits)[a] == if a.timestamp >= now - days * 86_400_000_000 then multiset(db.audits)[a] else 0
  {
    forall a ensures multiset(Since(db.audits, now - days * DAY))[a] ==
      if a.timestamp >= now - days * 86_400_000_000 then multiset(db.audits)[a] else 0
    {
      SinceCounts(db.audits, now - days * 86_400_000_000, a);
    }
  }

  lemma {:induction false} SinceCounts(audits: seq<AuditRecord>, cutoff: int, a: AuditRecord)
    ensures multiset(Since(audits, cutoff))[a] == if a.timestamp >= cutoff then multiset(audits)[a] else 0
  {
    if audits != [] {
      SinceCounts(audits[1..], cutoff, a);
      assert audits == [audits[0]] + audits[1..];
    }
  }

  // Violations inside a unit

  /** The body runs a query before anything can go wrong. */
  predicate QueriesFirst(s: Step) {
    s.DropUser? || s.DropById? || s.DropByName? || s.DropScope? || s.Lookup? || s.MfaSession? || s.Clean?
  }

  /** A violation among staged rows surfaces at the next query: as a data error for a value too long, else as it is. */
  lemma StagedViolationSurfaces(txn: Txn, v: Violation, s: Step)
    requires Flushed(txn.view, txn.pending) == Err(v) && QueriesFirst(s)
    ensures Body(txn, s).1 == Err(if v == TooLong then DataError else IntegrityError(v))
  {
  }
}
