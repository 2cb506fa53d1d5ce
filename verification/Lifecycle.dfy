/**
 * Runs of the service: requests applied one unit of work at a time, with a log of everything that
 * was ever created and of the strings callers were given. The log never feeds back into the store.
 */
module Lifecycle {
  import opened Prelude
  import opened Text
  import opened Model
  import opened Forest
  import opened Schema
  import opened Authentication
  import opened ServiceSpec

  /**
   * What is remembered of a token: how it was created, how often it was attested and rotated,
   * `minted`, the string its creation or last rotation returned, and `handed`, the last string any
   * call handed out for it, with whether that call was a lookup.
   */
  datatype Life = Life(
    owner: string,
    name: string,
    parent: Option<Id>,
    external: Option<string>,
    session: bool,
    nbf: int,
    exp: int,
    born: nat,
    attestations: nat,
    rotations: nat,
    minted: string,
    handed: string,
    byLookup: bool)

  /**
   * `passed` holds the ids some presented string authenticated as; a rotate request runs in its own
   * unit of work, at any later point, for one of them.
   */
  datatype World = World(db: Db, log: map<Id, Life>, passed: set<Id>, clock: int)

  /** `secrets.token_urlsafe`: letters, digits, `-` and `_` only. */
  predicate UrlSafe(s: string) {
    forall i | 0 <= i < |s| :: 'a' <= s[i] <= 'z' || 'A' <= s[i] <= 'Z' || '0' <= s[i] <= '9' || s[i] == '-' || s[i] == '_'
  }

  /** bcrypt texts have `$` separators. */
  predicate BcryptText(s: string) {
    '$' in s
  }

  /** An id drawn by `uuid4`: not empty, no dot, and never drawn before. */
  predicate Fresh(w: World, id: Id) {
    id != "" && '.' !in id && id !in w.log
  }

  /**
   * A step can happen: drawn ids and secrets have their form, rotations were authenticated, and a
   * clock read inside a unit of work shows no earlier time than one read before. Sessions,
   * attestations and cleanups read theirs before the unit opens, so others may have come between.
   */
  predicate Legal(w: World, s: Step) {
    match s
    case Create(req, _, _, _, hash) => Fresh(w, req.id) && UrlSafe(req.secret) && BcryptText(hash)
    case MfaSession(_, _, id, secret, at, _, now) => Fresh(w, id) && UrlSafe(secret) && at <= now
    case Present(_, now) => w.clock <= now
    case Rotate(target, _, _, now, secret, hash) =>
      target in w.passed && w.clock <= now && UrlSafe(secret) && BcryptText(hash)
    case _ => true
  }

  function Bit(b: bool): nat {
    if b then 1 else 0
  }

  function Counted(log: map<Id, Life>, ids: seq<Id>): map<Id, Life> {
    map k | k in log :: if k in ids then log[k].(attestations := log[k].attestations + 1) else log[k]
  }

  /** What the log adds for a call that returned `answer`. */
  function Noted(log: map<Id, Life>, s: Step, answer: string): map<Id, Life> {
    match s
    case Create(req, parentId, externalId, _, _) =>
      log[req.id := Life(req.owner, req.name, if Truthy(parentId) then parentId else None, externalId, false,
                         req.nbf, req.exp, Bit(req.rotatable), 0, 0, answer, answer, false)]
    case MfaSession(owner, name, id, _, at, lifetime, _) =>
      if answer == id then log[id := Life(owner, name, None, None, true, at, at + lifetime, 0, 0, 0, "", "", false)] else log
    case Attest(_, ids, _) => Counted(log, ids)
    case Rotate(target, _, _, _, _, _) =>
      if target in log then
        log[target := log[target].(rotations := log[target].rotations + 1, minted := answer, handed := answer, byLookup := false)]
      else log
    case Lookup(_, _, _) =>
      var k := Split(answer, '.')[0];
      if k in log then log[k := log[k].(handed := answer, byLookup := true)] else log
    case _ => log
  }

  /** The latest reading so far. */
  function Clock(clock: int, s: Step): int {
    if (s.MfaSession? || s.Attest? || s.Present? || s.Rotate? || s.Clean?) && clock < s.now then s.now else clock
  }

  ghost function Do(w: World, s: Step): World {
    match Call(w.db, s)
    case (db, Err(_)) => World(db, w.log, w.passed, Clock(w.clock, s))
    case (db, Ok(answer)) =>
      World(db, Noted(w.log, s, answer), if s.Present? then w.passed + {answer} else w.passed, Clock(w.clock, s))
  }

  ghost function Run(w: World, steps: seq<Step>): World
    decreases |steps|
  {
    if steps == [] then w else Run(Do(w, steps[0]), steps[1..])
  }

  ghost predicate LegalRun(w: World, steps: seq<Step>)
    decreases |steps|
  {
    steps == [] || (Legal(w, steps[0]) && LegalRun(Do(w, steps[0]), steps[1..]))
  }

  /** A store with any users and scopes and no tokens yet. */
  ghost predicate Initial(w: World) {
    && (forall u | u in w.db.users :: |u| <= 32)
    && w.db.tokens == map[] && w.db.audits == [] && w.log == map[] && w.passed == {}
  }

  ghost predicate Reachable(w: World) {
    exists start, steps :: Initial(start) && LegalRun(start, steps) && Run(start, steps) == w
  }

  /** The stored row agrees with what is remembered of it. */
  predicate Agrees(t: Token, l: Life) {
    && t.owner == l.owner && t.name == l.name && t.parent == l.parent && t.external == l.external
    && t.session == l.session && t.nbf == l.nbf
    && (t.parent.Some? ==> t.parent.value != "")
    && l.rotations + Bit(t.rotatable) <= l.attestations + l.born
    && (if t.session then t.parent.None? && t.external.None? && t.value.Plain? && t.exp == l.exp && l.rotations == 0
        else if t.parent.None? || l.rotations > 0 then
          t.value.Hash? && UrlSafe(t.value.secret) && BcryptText(t.value.text) && l.minted == Composite(t.id, t.value.secret)
        else t.value.Plain? && UrlSafe(t.value.text) && l.minted == Composite(t.id, t.value.text))
    && (!t.session ==> l.handed == if l.byLookup then Composite(t.id, t.value.text) else l.minted)
  }

  predicate LogAgrees(db: Db, log: map<Id, Life>) {
    && (forall k | k in log :: k != "" && '.' !in k && log[k].rotations <= log[k].attestations + log[k].born)
    && db.tokens.Keys <= log.Keys
    && (forall k {:trigger Agrees(db.tokens[k], log[k])} | k in db.tokens :: Agrees(db.tokens[k], log[k]))
  }

  ghost predicate Inv(w: World) {
    && Sound(w.db)
    && IsForest(w.db.tokens)
    && LogAgrees(w.db, w.log)
    && (forall k | k in w.passed :: k in w.log && !w.log[k].session)
  }

  // Preservation, one kind of change at a time

  lemma SameStoreAndLog(w: World, after: World)
    requires Inv(w) && after.db == w.db && after.log == w.log && after.passed == w.passed
    ensures Inv(after)
  {
  }

  lemma AddedToken(w: World, t: Token, l: Life)
    requires Inv(w) && t.id !in w.log && t.id != "" && '.' !in t.id
    requires TokenRefusal(w.db, t).None? && Agrees(t, l)
    ensures Inv(w.(db := WithToken(w.db, t), log := w.log[t.id := l]))
  {
    InsertKeepsSound(w.db, t);
    ForestGrows(w.db.tokens, t);
  }

  lemma DroppedTokens(w: World, uids: set<string>, roots: set<Id>)
    requires Inv(w) && OwnedBy(w.db, uids) <= roots
    requires !Audited(w.db, Below(w.db.tokens, roots))
    ensures Inv(w.(db := Without(w.db, uids, Below(w.db.tokens, roots))))
  {
    var gone := Below(w.db.tokens, roots);
    BelowIsClosed(w.db.tokens, roots);
    CascadeKeepsSound(w.db, uids, roots);
    ForestShrinks(w.db.tokens, gone);
  }

  /** An update that keeps identity, place and texts unique keeps the constraints and the forest. */
  lemma UpdatedTokens(db: Db, next: map<Id, Token>)
    requires Sound(db) && IsForest(db.tokens)
    requires next.Keys == db.tokens.Keys && NoClash(next)
    requires forall k | k in next ::
      && next[k].id == k && next[k].owner == db.tokens[k].owner && next[k].name == db.tokens[k].name
      && next[k].parent == db.tokens[k].parent && next[k].external == db.tokens[k].external
      && next[k].scopes == db.tokens[k].scopes
    ensures Sound(db.(tokens := next)) && IsForest(next)
  {
    UpdateKeepsCoherent(db, next);
    ForestKeeps(db.tokens, next);
  }

  lemma CreateKeeps(w: World, s: Step)
    requires Inv(w) && s.Create? && Legal(w, s)
    ensures Inv(Do(w, s))
  {
    var e := Created(w.db, s.req, s.parentId, s.externalId, s.scopeNames, s.hash);
    if e.1.Ok? {
      var t := NewRow(s.req, s.parentId, s.externalId, s.scopeNames, s.hash);
      AddedToken(w, t, Noted(w.log, s, e.1.value)[s.req.id]);
    }
  }

  /** A dead token and everything below it give way to a new root. */
  lemma ReplacedToken(w: World, k: Id, t: Token, l: Life)
    requires Inv(w) && t.id !in w.log && t.id != "" && '.' !in t.id
    requires !Audited(w.db, Below(w.db.tokens, {k}))
    requires TokenRefusal(Without(w.db, {}, Below(w.db.tokens, {k})), t).None? && Agrees(t, l)
    ensures Inv(w.(db := WithToken(Without(w.db, {}, Below(w.db.tokens, {k})), t), log := w.log[t.id := l]))
  {
    DroppedTokens(w, {}, {k});
    AddedToken(w.(db := Without(w.db, {}, Below(w.db.tokens, {k}))), t, l);
  }

  lemma StoredUnderItsId(w: World, k: Id)
    requires Inv(w) && k in w.db.tokens
    ensures w.db.tokens[k].id == k && k in w.log
  {
  }

  lemma SessionKeeps(w: World, s: Step)
    requires Inv(w) && s.MfaSession? && Legal(w, s)
    ensures Inv(Do(w, s))
  {
    hide Inv;
    var t := SessionRow(s.id, s.name, s.owner, s.secret, s.at, s.lifetime);
    var found := Sessions(w.db, s.owner, s.name);
    var l := Life(s.owner, s.name, None, None, true, s.at, s.at + s.lifetime, 0, 0, 0, "", "", false);
    if SessionUpdated(w.db, s.owner, t, s.now).1.Err? {
      SameStoreAndLog(w, Do(w, s));
    } else if found == {} {
      AddedToken(w, t, l);
      SameStoreAndLog(w.(db := WithToken(w.db, t), log := w.log[t.id := l]), Do(w, s));
    } else {
      var k := TheOne(found);
      if w.db.tokens[k].nbf < s.now < w.db.tokens[k].exp {
        StoredUnderItsId(w, k);
        SameStoreAndLog(w, Do(w, s));
      } else {
        ReplacedToken(w, k, t, l);
        SameStoreAndLog(w.(db := WithToken(Without(w.db, {}, Below(w.db.tokens, {k})), t), log := w.log[t.id := l]), Do(w, s));
      }
    }
  }

  lemma HandedKeeps(w: World, k: Id)
    requires Inv(w) && k in w.db.tokens
    ensures k in w.log
    ensures Inv(w.(log := w.log[k := w.log[k].(handed := Composite(k, w.db.tokens[k].value.text), byLookup := true)]))
  {
    var l := w.log[k].(handed := Composite(k, w.db.tokens[k].value.text), byLookup := true);
    assert LogAgrees(w.db, w.log[k := l]) by {
      forall j | j in w.db.tokens ensures Agrees(w.db.tokens[j], w.log[k := l][j]) {
        assert Agrees(w.db.tokens[j], w.log[j]);
      }
    }
  }

  lemma LookupKeeps(w: World, s: Step)
    requires Inv(w) && s.Lookup?
    ensures Inv(Do(w, s))
  {
    if LookedUp(w.db, s.name, s.parentId, s.externalId).Ok? {
      var k := TheOne(Subtokens(w.db, s.name, s.parentId, s.externalId));
      assert k in Subtokens(w.db, s.name, s.parentId, s.externalId);
      HandedKeeps(w, k);
      SplitFirst(k, w.db.tokens[k].value.text, '.');
      SameStoreAndLog(w.(log := Noted(w.log, s, Composite(k, w.db.tokens[k].value.text))), Do(w, s));
    } else {
      SameStoreAndLog(w, Do(w, s));
    }
  }

  lemma AttestedAgrees(db: Db, log: map<Id, Life>, ids: seq<Id>)
    requires LogAgrees(db, log)
    ensures LogAgrees(Rotatable(db, Elements(ids)), Counted(log, ids))
  {
    var next := Rotatable(db, Elements(ids)).tokens;
    forall k | k in next ensures Agrees(next[k], Counted(log, ids)[k]) {
      assert Agrees(db.tokens[k], log[k]);
    }
  }

  lemma AttestedKeeps(w: World, user: string, ids: seq<Id>, now: int)
    requires Inv(w) && Attested(w.db, user, ids, now).1.Ok?
    ensures Inv(w.(db := Attested(w.db, user, ids, now).0, log := Counted(w.log, ids)))
  {
    var next := Rotatable(w.db, Elements(ids)).tokens;
    NoClashKeeps(w.db.tokens, next);
    UpdatedTokens(w.db, next);
    AttestedAgrees(w.db, w.log, ids);
  }

  /** One row and its life change together, and still agree. */
  lemma OneLifeChanges(db: Db, log: map<Id, Life>, t: Token, l: Life)
    requires LogAgrees(db, log) && t.id in db.tokens && Agrees(t, l)
    ensures LogAgrees(WithToken(db, t), log[t.id := l])
  {
    forall k | k in db.tokens && k != t.id ensures Agrees(db.tokens[k], log[k]) {
      assert Agrees(db.tokens[k], log[k]);
    }
  }

  lemma RotatedKeeps(w: World, id: Id, days: int, now: int, secret: string, hash: string)
    requires Inv(w) && id in w.passed && id in w.db.tokens && w.db.tokens[id].rotatable
    requires UrlSafe(secret) && BcryptText(hash)
    requires NoClash(WithToken(w.db, RotatedRow(w.db.tokens[id], days, now, secret, hash)).tokens)
    ensures Inv(w.(db := WithToken(w.db, RotatedRow(w.db.tokens[id], days, now, secret, hash)),
                   log := w.log[id := w.log[id].(rotations := w.log[id].rotations + 1, minted := Composite(id, secret),
                                             handed := Composite(id, secret), byLookup := false)]))
  {
    var t := RotatedRow(w.db.tokens[id], days, now, secret, hash);
    UpdatedTokens(w.db, WithToken(w.db, t).tokens);
    assert Agrees(w.db.tokens[id], w.log[id]);
    OneLifeChanges(w.db, w.log, t, w.log[id].(rotations := w.log[id].rotations + 1, minted := Composite(id, secret),
                                              handed := Composite(id, secret), byLookup := false));
  }

  lemma RotateKeeps(w: World, s: Step)
    requires Inv(w) && s.Rotate? && Legal(w, s)
    ensures Inv(Do(w, s))
  {
    if Rotated(w.db, s.target, s.maxDays, s.asked, s.now, s.secret, s.hash).1.Ok? {
      RotatedKeeps(w, s.target, GrantedDays(s.maxDays, s.asked), s.now, s.secret, s.hash);
    }
  }

  lemma {:induction false} InvalidatedKeeps(w: World, x: string)
    requires Inv(w)
    ensures Inv(w.(db := Invalidated(w.db, x).0))
  {
    var e := Invalidated(w.db, x);
    if e.1.Ok? {
      NoClashKeeps(w.db.tokens, e.0.tokens);
      UpdatedTokens(w.db, e.0.tokens);
      forall k | k in e.0.tokens ensures Agrees(e.0.tokens[k], w.log[k]) {
        assert Agrees(w.db.tokens[k], w.log[k]);
      }
    }
  }

  lemma PresentKeeps(w: World, s: Step)
    requires Inv(w) && s.Present? && Legal(w, s)
    ensures Inv(Do(w, s))
  {
    if Authenticated(w.db.tokens, s.x, s.now) == Ok(true) {
      var id := Parse(s.x).value.0;
      assert Agrees(w.db.tokens[id], w.log[id]);
    }
  }

  lemma RemovedKeeps(w: World, id: Id)
    requires Inv(w)
    ensures Inv(w.(db := Removed(w.db, id).0))
  {
    if Removed(w.db, id).1.Ok? {
      DroppedTokens(w, {}, {id});
    }
  }

  lemma UserRemovedKeeps(w: World, uid: string)
    requires Inv(w)
    ensures Inv(w.(db := UserRemoved(w.db, uid).0))
  {
    if UserRemoved(w.db, uid).1.Ok? {
      DroppedTokens(w, {uid}, OwnedBy(w.db, {uid}));
    }
  }

  lemma ScopeDropKeeps(w: World, s: Step)
    requires Inv(w) && s.DropScope?
    ensures Inv(Do(w, s))
  {
    if s.name in w.db.scopes {
      var after := Unlinked(w.db, s.name);
      UnlinkedKeepsSound(w.db, s.name);
      ForestKeeps(w.db.tokens, after.tokens);
      forall k | k in after.tokens ensures Agrees(after.tokens[k], w.log[k]) {
        assert Agrees(w.db.tokens[k], w.log[k]);
      }
      SameStoreAndLog(w.(db := after), Do(w, s));
    } else {
      SameStoreAndLog(w, Do(w, s));
    }
  }

  /** Steps that touch no token: the store changes only around them. */
  lemma OtherStepsKeep(w: World, s: Step)
    requires Inv(w) && (s.AddUser? || s.Record? || s.Clean?)
    ensures Inv(Do(w, s))
  {
    SinceIsSubset(w.db.audits, if s.Clean? then s.now - s.days * DAY else 0, w.db.tokens);
    var after := Call(w.db, s).0;
    SurroundingsKeepSound(w.db, after.users, after.audits);
    assert after == w.db.(users := after.users, audits := after.audits);
  }

  lemma DropStepsKeep(w: World, s: Step)
    requires Inv(w) && (s.DropUser? || s.DropById? || s.DropByValue? || s.DropByName?)
    ensures Inv(Do(w, s))
  {
    hide Inv;
    match s {
      case DropUser(uid) =>
        UserRemovedKeeps(w, uid);
        SameStoreAndLog(w.(db := UserRemoved(w.db, uid).0), Do(w, s));
      case DropById(user, target) => OwnedRemovedKeeps(w, user, target, s);
      case DropByValue(user, x) =>
        if Parse(x).Some? {
          OwnedRemovedKeeps(w, user, Parse(x).value.0, s);
        } else {
          SameStoreAndLog(w, Do(w, s));
        }
      case DropByName(_, _, pick) =>
        RemovedKeeps(w, pick);
        SameStoreAndLog(w.(db := Call(w.db, s).0), Do(w, s));
    }
  }

  lemma OwnedRemovedKeeps(w: World, user: string, id: Id, s: Step)
    requires Inv(w) && (s.DropById? || s.DropByValue?) && Call(w.db, s) == Quiet(RemovedById(w.db, user, id))
    ensures Inv(Do(w, s))
  {
    hide Inv;
    RemovedKeeps(w, id);
    SameStoreAndLog(w.(db := RemovedById(w.db, user, id).0), Do(w, s));
  }

  /** Every legal step keeps the invariant. */
  lemma {:induction false} StepKeeps(w: World, s: Step)
    requires Inv(w) && Legal(w, s)
    ensures Inv(Do(w, s))
  {
    match s
    case Create(_, _, _, _, _) => CreateKeeps(w, s);
    case MfaSession(_, _, _, _, _, _, _) => SessionKeeps(w, s);
    case Attest(user, ids, now) => if Attested(w.db, user, ids, now).1.Ok? { AttestedKeeps(w, user, ids, now); }
    case Rotate(_, _, _, _, _, _) => RotateKeeps(w, s);
    case Present(_, _) => PresentKeeps(w, s);
    case Lookup(_, _, _) => LookupKeeps(w, s);
    case Invalidate(x) => InvalidatedKeeps(w, x);
    case DropScope(_) => ScopeDropKeeps(w, s);
    case AddUser(_) => OtherStepsKeep(w, s);
    case Record(_) => OtherStepsKeep(w, s);
    case Clean(_, _) => OtherStepsKeep(w, s);
    case _ => DropStepsKeep(w, s);
  }

  lemma {:induction false} RunKeeps(w: World, steps: seq<Step>)
    requires Inv(w) && LegalRun(w, steps)
    ensures Inv(Run(w, steps))
    decreases |steps|
  {
    if steps != [] {
      StepKeeps(w, steps[0]);
      RunKeeps(Do(w, steps[0]), steps[1..]);
    }
  }

  /** The invariant holds in every reachable world. */
  lemma ReachableKeeps(w: World)
    requires Reachable(w)
    ensures Inv(w)
  {
    var start, steps :| Initial(start) && LegalRun(start, steps) && Run(start, steps) == w;
    RunKeeps(start, steps);
  }

  lemma {:induction false} RunsConcatenate(w: World, first: seq<Step>, second: seq<Step>)
    requires LegalRun(w, first) && LegalRun(Run(w, first), second)
    ensures LegalRun(w, first + second) && Run(w, first + second) == Run(Run(w, first), second)
    decreases |first|
  {
    if first == [] {
      assert first + second == second;
    } else {
      assert (first + second)[1..] == first[1..] + second;
      RunsConcatenate(Do(w, first[0]), first[1..], second);
    }
  }
}
