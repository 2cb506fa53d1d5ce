/** Session tokens: unique, replaced as a whole, never prolonged, and final for what was made under them. */
module SessionResults {
  import opened Prelude
  import opened Text
  import opened Model
  import opened Forest
  import opened Schema
  import opened Authentication
  import opened UnitOfWork
  import opened ServiceSpec
  import opened Lifecycle
  import opened Deletion
  import opened History

  /** Session tokens are roots without external id, and a user has at most one per name. */
  lemma SessionsAreUniqueRoots(w: World, owner: string, name: string)
    requires Reachable(w)
    ensures forall k | k in w.db.tokens && w.db.tokens[k].session ::
      w.db.tokens[k].parent.None? && w.db.tokens[k].external.None? && w.db.tokens[k].value.Plain?
    ensures |Sessions(w.db, owner, name)| <= 1
  {
    ReachableKeeps(w);
    forall k | k in w.db.tokens && w.db.tokens[k].session
      ensures w.db.tokens[k].parent.None? && w.db.tokens[k].external.None? && w.db.tokens[k].value.Plain?
    {
      assert Agrees(w.db.tokens[k], w.log[k]);
    }
    AtMostOneSession(w, owner, name);
  }

  lemma AtMostOneSession(w: World, owner: string, name: string)
    requires Inv(w)
    ensures |Sessions(w.db, owner, name)| <= 1
  {
    var found := Sessions(w.db, owner, name);
    if found != {} {
      var a :| a in found;
      assert Agrees(w.db.tokens[a], w.log[a]);
      forall b | b in found ensures b == a {
        assert Agrees(w.db.tokens[b], w.log[b]);
        assert a != b ==> !Clash(w.db.tokens[a], w.db.tokens[b]);
      }
      assert found == {a};
    }
  }

  /** A token that keeps `t` from being stored for a unique constraint. */
  ghost predicate Blocks(db: Db, k: Id, t: Token) {
    k in db.tokens && (k == t.id || Clash(db.tokens[k], t))
  }

  /** A live session is returned and nothing changes, whatever token is offered in its place. */
  lemma LiveSessionIsKept(w: World, owner: string, t: Token, now: int, k: Id)
    requires Reachable(w) && k in Sessions(w.db, owner, t.name)
    requires w.db.tokens[k].nbf < now < w.db.tokens[k].exp
    ensures SessionUpdated(w.db, owner, t, now) == (w.db, Ok(w.db.tokens[k]))
  {
    SessionsAreUniqueRoots(w, owner, t.name);
    SingletonHas(Sessions(w.db, owner, t.name), k);
    assert k in {TheOne(Sessions(w.db, owner, t.name))};
  }

  /** A token that survives the removal of `found` and its descendants blocks `t`. */
  ghost predicate Blocked(db: Db, found: set<Id>, t: Token) {
    exists k :: Blocks(db, k, t) && !HasAncestorIn(db.tokens, k, found)
  }

  /**
   * `e` replaces the sessions in `found` by `t`: exactly they and their descendants are gone and
   * `t` is added. An audit record that refers to one of them refuses the flush, unmapped; failing
   * that, a value too long for its column, an unknown user or a surviving token that blocks the new
   * row refuses the commit. A
   * failure changes nothing.
   */
  ghost predicate Replaces(db: Db, found: set<Id>, t: Token, e: Effect<Token>) {
    && (e.1 == Err(IntegrityError(ForeignKeyViolation)) <==> AnyAudited(db, found))
    && (e.1 == Err(ServiceException) <==> !AnyAudited(db, found) && (!Fits(t) || t.owner !in db.users || Blocked(db, found, t)))
    && (e.1.Err? ==> e.0 == db && e.1.error in {IntegrityError(ForeignKeyViolation), ServiceException})
    && (e.1.Ok? ==>
          && e.1.value == t
          && exists rest :: DeletedExactly(db, rest, found) && rest.users == db.users && t.id !in rest.tokens
               && e.0 == rest.(tokens := rest.tokens[t.id := t]))
  }

  ghost function Replacement(db: Db, found: set<Id>, t: Token): Effect<Token> {
    if Audited(db, Below(db.tokens, found)) then (db, Err(IntegrityError(ForeignKeyViolation)))
    else StoreOrRefuse(db, Without(db, {}, Below(db.tokens, found)), t)
  }

  lemma RefreshIsReplacement(w: World, t: Token, now: int)
    requires Reachable(w)
    requires forall k | k in Sessions(w.db, t.owner, t.name) :: !(w.db.tokens[k].nbf < now < w.db.tokens[k].exp)
    ensures SessionUpdated(w.db, t.owner, t, now) == Replacement(w.db, Sessions(w.db, t.owner, t.name), t)
  {
    SessionsAreUniqueRoots(w, t.owner, t.name);
    var found := Sessions(w.db, t.owner, t.name);
    if found == {} {
      assert Below(w.db.tokens, found) == {};
      assert Without(w.db, {}, {}) == w.db;
    } else {
      var a :| a in found;
      SingletonHas(found, a);
      assert found == {TheOne(found)};
    }
  }

  /** A dead session is replaced together with its descendants; a first session is just added. */
  lemma DeadSessionIsReplaced(w: World, t: Token, now: int)
    requires Reachable(w) && t.session && t.parent.None? && t.external.None? && t.scopes == []
    requires forall k | k in Sessions(w.db, t.owner, t.name) :: !(w.db.tokens[k].nbf < now < w.db.tokens[k].exp)
    ensures Replaces(w.db, Sessions(w.db, t.owner, t.name), t, SessionUpdated(w.db, t.owner, t, now))
  {
    ReachableKeeps(w);
    ReplacementReplaces(w.db, Sessions(w.db, t.owner, t.name), t);
    RefreshIsReplacement(w, t, now);
  }

  lemma SingletonHas(s: set<Id>, a: Id)
    requires |s| <= 1 && a in s
    ensures |s| == 1 && s == {a}
  {
    assert |s - {a}| == 0;
  }

  lemma ReplacementReplaces(db: Db, found: set<Id>, t: Token)
    requires Sound(db) && t.parent.None? && t.scopes == []
    ensures Replaces(db, found, t, Replacement(db, found, t))
  {
    AuditedMeansAnyAudited(db, found);
    if !AnyAudited(db, found) {
      var rest := Without(db, {}, Below(db.tokens, found));
      RefusedByBlockers(db, found, t);
      WithoutDeletesExactly(db, {}, found);
      assert Replacement(db, found, t).1.Ok? ==> Replacement(db, found, t).0 == rest.(tokens := rest.tokens[t.id := t]);
    }
  }

  lemma RefusedByBlockers(db: Db, found: set<Id>, t: Token)
    requires t.parent.None? && t.scopes == []
    ensures TokenRefusal(Without(db, {}, Below(db.tokens, found)), t).None? <==> Fits(t) && t.owner in db.users && !Blocked(db, found, t)
  {
    var rest := Without(db, {}, Below(db.tokens, found));
    forall k ensures k in Below(db.tokens, found) <==> k in db.tokens && HasAncestorIn(db.tokens, k, found) {
      BelowIsAncestry(db.tokens, found, k);
    }
    if Blocked(db, found, t) {
      var k :| Blocks(db, k, t) && !HasAncestorIn(db.tokens, k, found);
      assert k in rest.tokens;
    } else {
      forall k | k in rest.tokens ensures k != t.id && !Clash(rest.tokens[k], t) {
        assert !Blocks(db, k, t);
      }
    }
  }

  /**
   * Why the refresh flushes the removal before it adds: staged together in one flush, the new
   * session always conflicts with the one it replaces. (Its id is a newly drawn one.)
   */
  lemma OneFlushWouldConflict(db: Db, old_: Id, t: Token)
    requires Sound(db) && old_ in Sessions(db, t.owner, t.name) && t.id !in Below(db.tokens, {old_})
    requires db.tokens[old_].parent == t.parent && db.tokens[old_].external == t.external
    ensures Flushed(db, Pending([TokenRow(t)], Below(db.tokens, {old_}), {})) == Err(UniqueViolation)
  {
    assert Placed(db, db.tokens[old_]);
    assert Clash(db.tokens[old_], t);
    OneRowInOrder(Marks(Below(db.tokens, {old_}), {}), TokenRow(t));
  }

  /** A stored session keeps the window it was created with, in every continuation of the run. */
  lemma SessionWindowIsFixed(w: World, steps: seq<Step>, sid: Id)
    requires Reachable(w) && LegalRun(w, steps)
    requires sid in w.db.tokens && w.db.tokens[sid].session
    ensures var after := Run(w, steps).db.tokens;
      sid in after ==> after[sid].session && after[sid].nbf == w.db.tokens[sid].nbf && after[sid].exp == w.db.tokens[sid].exp
  {
    ReachableKeeps(w);
    if sid in Run(w, steps).db.tokens {
      RowsKeepTheirOrigin(w, steps, sid);
    }
  }

  /**
   * Once a session has expired, no token ever created directly under it, before or after, rotated
   * or not, authenticates again: not even after the session is refreshed or removed.
   */
  lemma ExpiredSessionStaysShut(w: World, steps: seq<Step>, sid: Id, x: string, now: int)
    requires Reachable(w) && LegalRun(w, steps)
    requires sid in w.log && w.log[sid].session && w.log[sid].exp <= w.clock
    requires Run(w, steps).clock <= now
    requires Parse(x).Some? && Parse(x).value.0 in Run(w, steps).log
    requires Run(w, steps).log[Parse(x).value.0].parent == Some(sid)
    ensures Authenticated(Run(w, steps).db.tokens, x, now) == Ok(false)
  {
    ReachableKeeps(w);
    RunKeeps(w, steps);
    RunExtendsLog(w, steps, sid);
    var after := Run(w, steps);
    var c := Parse(x).value.0;
    if c in after.db.tokens {
      assert Agrees(after.db.tokens[c], after.log[c]);
      assert Placed(after.db, after.db.tokens[c]);
      assert Agrees(after.db.tokens[sid], after.log[sid]);
    }
  }

  /**
   * While a started session is stored and live, every later request of that user for a session of
   * that name is answered with the same id and changes nothing.
   */
  lemma LiveSessionIsReused(w: World, first: Step, steps: seq<Step>, again: Step)
    requires Reachable(w) && Legal(w, first) && first.MfaSession? && Call(w.db, first).1 == Ok(first.id)
    requires LegalRun(Do(w, first), steps) && first.id in Run(Do(w, first), steps).db.tokens
    requires again.MfaSession? && again.owner == first.owner && again.name == first.name
    requires first.at < again.now < first.at + first.lifetime
    ensures var db := Run(Do(w, first), steps).db; Call(db, again) == (db, Ok(first.id))
  {
    ReachableKeeps(w);
    StepKeeps(w, first);
    var started := Do(w, first);
    var after := Run(started, steps);
    RunKeeps(started, steps);
    RunExtendsLog(started, steps, first.id);
    assert Agrees(after.db.tokens[first.id], after.log[first.id]);
    AtMostOneSession(after, first.owner, first.name);
    SingletonHas(Sessions(after.db, first.owner, first.name), first.id);
    assert first.id in {TheOne(Sessions(after.db, first.owner, first.name))};
  }
}
