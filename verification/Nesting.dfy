/**
 * Services that join an outer unit of work instead of opening their own: their bodies run one
 * after the other on one transaction, and only leaving the outer unit commits.
 */
module Nesting {
  import opened Prelude
  import opened Text
  import opened Model
  import opened Schema
  import opened UnitOfWork
  import opened ServiceSpec
  import opened Bodies
  import opened Services

  /** The bodies of `steps` in turn until one raises, through the `except` clauses around it. */
  ghost function Inlined(txn: Txn, steps: seq<Step>): Ran<seq<string>>
    decreases |steps|
  {
    if steps == [] then (txn, Ok([]))
    else
      match Body(txn, steps[0])
      case (left, Err(e)) => (left, Err(Handled(ClausesOf(steps[0]), e)))
      case (next, Ok(answer)) =>
        var rest := Inlined(next, steps[1..]);
        (rest.0, Prepended(answer, rest.1))
  }

  function Prepended(answer: string, rest: Result<seq<string>, Error>): Result<seq<string>, Error> {
    match rest case Ok(answers) => Ok([answer] + answers) case Err(e) => Err(e)
  }

  /** An outer unit of work, with no `except` clauses of its own, around the services `steps`. */
  ghost function Unit(db: Db, steps: seq<Step>): Effect<seq<string>> {
    Closed(db, Inlined(Opened(db), steps), BARE)
  }

  // What the bodies keep, and what they raise

  lemma BodyKeepsCoherent(txn: Txn, s: Step)
    requires Coherent(txn.view)
    ensures Coherent(Body(txn, s).0.view)
  {
    if s.Attest? {
      AttestKeepsCoherent(txn, s);
    } else if s.MfaSession? {
      SessionKeepsCoherent(txn, s);
    } else if Updates(s) {
      UpdateStaysCoherent(txn, s);
    } else {
      OthersOnlyStage(txn, s);
      if Queried(txn).Ok? {
        FlushedIsSound(txn.view, txn.pending);
      }
    }
  }

  predicate Updates(s: Step) {
    s.Rotate? || s.Invalidate? || s.Clean? || s.DropScope?
  }

  lemma OthersOnlyStage(txn: Txn, s: Step)
    requires !s.Attest? && !s.MfaSession? && !Updates(s)
    ensures Body(txn, s).0.view == txn.view || (Queried(txn).Ok? && Body(txn, s).0.view == Queried(txn).value.view)
  {
  }

  lemma UpdateStaysCoherent(txn: Txn, s: Step)
    requires Coherent(txn.view) && Updates(s)
    ensures Coherent(Body(txn, s).0.view)
  {
    hide Flushed, Coherent, NoClash;
    if Queried(txn).Ok? {
      FlushedIsSound(txn.view, txn.pending);
      UpdatesKeepCoherent(Queried(txn).value, s);
    }
  }

  lemma AttestKeepsCoherent(txn: Txn, s: Step)
    requires Coherent(txn.view) && s.Attest?
    ensures Coherent(Body(txn, s).0.view)
  {
    hide Flushed;
    UpdateKeepsCoherent(txn.view, Rotatable(txn.view, Elements(s.ids)).tokens);
    if Queried(txn).Ok? {
      FlushedIsSound(txn.view, txn.pending);
      var q := Queried(txn).value;
      UpdateKeepsCoherent(q.view, Rotatable(q.view, Elements(s.ids)).tokens);
    }
  }

  lemma UpdatesKeepCoherent(q: Txn, s: Step)
    requires Sound(q.view)
    ensures s.Rotate? && s.target in q.view.tokens ==>
      Coherent(WithToken(q.view, RotatedRow(q.view.tokens[s.target], GrantedDays(s.maxDays, s.asked), s.now, s.secret, s.hash)))
    ensures s.Invalidate? && Parse(s.x).Some? && Parse(s.x).value.0 in q.view.tokens ==>
      Coherent(WithToken(q.view, q.view.tokens[Parse(s.x).value.0].(active := false)))
    ensures s.DropScope? ==> Coherent(Unlinked(q.view, s.name))
    ensures s.Clean? ==> Coherent(q.view.(audits := Since(q.view.audits, s.now - s.days * DAY)))
  {
    match s
    case Rotate(target, maxDays, asked, now, secret, hash) =>
      if target in q.view.tokens {
        UpdateKeepsCoherent(q.view, WithToken(q.view, RotatedRow(q.view.tokens[target], GrantedDays(maxDays, asked), now, secret, hash)).tokens);
      }
    case Invalidate(x) =>
      if Parse(x).Some? && Parse(x).value.0 in q.view.tokens {
        UpdateKeepsCoherent(q.view, WithToken(q.view, q.view.tokens[Parse(x).value.0].(active := false)).tokens);
      }
    case DropScope(name) => UnlinkedKeepsSound(q.view, name);
    case Clean(days, now) =>
      SinceIsSubset(q.view.audits, now - days * DAY, q.view.tokens);
      SurroundingsKeepSound(q.view, q.view.users, Since(q.view.audits, now - days * DAY));
    case _ =>
  }

  lemma SessionKeepsCoherent(txn: Txn, s: Step)
    requires Coherent(txn.view) && s.MfaSession?
    ensures Coherent(Body(txn, s).0.view)
  {
    hide Flushed;
    if Queried(txn).Ok? {
      var q := Queried(txn).value;
      FlushedIsSound(txn.view, txn.pending);
      var found := Sessions(q.view, s.owner, s.name);
      if |found| == 1 {
        var staged := Removing(q, {}, {TheOne(found)});
        if Queried(staged).Ok? {
          FlushedIsSound(staged.view, staged.pending);
        }
      }
    }
  }

  predicate RaisedByUow(e: Error) {
    e.UowNotFound? || e.UowAlreadyExists? || e.UowException?
  }

  lemma QueriesRaiseNone(txn: Txn)
    ensures Queried(txn).Err? ==> !RaisedByUow(Queried(txn).error)
  {
  }

  lemma SessionRaisesNone(txn: Txn, owner: string, t: Token, now: int)
    ensures SessionIn(txn, owner, t, now).1.Err? ==> !RaisedByUow(SessionIn(txn, owner, t, now).1.error)
  {
    QueriesRaiseNone(txn);
    match Queried(txn)
    case Err(_) =>
    case Ok(q) =>
      var found := Sessions(q.view, owner, t.name);
      if |found| == 1 {
        QueriesRaiseNone(Removing(q, {}, {TheOne(found)}));
      }
  }

  /** No body raises one of the unit of work's own exceptions, so the clauses around it let everything pass. */
  lemma BodiesPassTheirClauses(txn: Txn, s: Step, c: Clauses)
    ensures Body(txn, s).1.Err? ==> !RaisedByUow(Body(txn, s).1.error) && Handled(c, Body(txn, s).1.error) == Body(txn, s).1.error
  {
    hide Flushed;
    if s.MfaSession? {
      SessionRaisesNone(txn, s.owner, SessionRow(s.id, s.name, s.owner, s.secret, s.at, s.lifetime), s.now);
    } else {
      QueriesRaiseNone(txn);
    }
  }

  /** Leaving the outer unit publishes tables that meet every constraint, or leaves the committed ones as they were. */
  lemma UnitIsAtomic(db: Db, steps: seq<Step>)
    requires Sound(db)
    ensures Unit(db, steps).1.Err? ==> Unit(db, steps).0 == db
    ensures Unit(db, steps).1.Ok? ==>
      var left := Inlined(Opened(db), steps).0;
      Flushed(left.view, left.pending) == Ok(Unit(db, steps).0) && Sound(Unit(db, steps).0)
  {
    InlinedKeepsCoherent(Opened(db), steps);
    var left := Inlined(Opened(db), steps).0;
    if Unit(db, steps).1.Ok? {
      FlushedIsSound(left.view, left.pending);
    }
  }

  lemma {:induction false} InlinedKeepsCoherent(txn: Txn, steps: seq<Step>)
    requires Coherent(txn.view)
    ensures Coherent(Inlined(txn, steps).0.view)
    decreases |steps|
  {
    if steps != [] {
      BodyKeepsCoherent(txn, steps[0]);
      if Body(txn, steps[0]).1.Ok? {
        InlinedKeepsCoherent(Body(txn, steps[0]).0, steps[1..]);
      }
    }
  }

  // One and two services

  function AsList(r: Result<string, Error>): Result<seq<string>, Error> {
    match r case Ok(answer) => Ok([answer]) case Err(e) => Err(e)
  }

  lemma InlinedOne(txn: Txn, s: Step)
    ensures Inlined(txn, [s]) == (Body(txn, s).0, AsList(Body(txn, s).1))
  {
    BodiesPassTheirClauses(txn, s, ClausesOf(s));
    var ran := Body(txn, s);
    if ran.1.Ok? {
      assert [s][1..] == [];
      assert Inlined(ran.0, []) == (ran.0, Ok([]));
      assert Inlined(txn, [s]) == (Inlined(ran.0, [s][1..]).0, Prepended(ran.1.value, Inlined(ran.0, [s][1..]).1));
      assert [ran.1.value] + [] == [ran.1.value];
    }
  }

  lemma UnitOfOne(db: Db, s: Step)
    ensures Unit(db, [s]) == Closed(db, (Body(Opened(db), s).0, AsList(Body(Opened(db), s).1)), BARE)
  {
    InlinedOne(Opened(db), s);
  }

  lemma UnitOfTwo(db: Db, a: Step, b: Step)
    ensures var first := Body(Opened(db), a); var second := Body(first.0, b);
      Unit(db, [a, b]) ==
        if first.1.Err? then (db, Err(first.1.error))
        else if second.1.Err? then (db, Err(second.1.error))
        else Closed(db, (second.0, Ok([first.1.value, second.1.value])), BARE)
  {
    var first := Body(Opened(db), a);
    BodiesPassTheirClauses(Opened(db), a, ClausesOf(a));
    BodiesPassTheirClauses(Opened(db), a, BARE);
    if first.1.Ok? {
      assert [a, b][1..] == [b];
      InlinedOne(first.0, b);
      BodiesPassTheirClauses(first.0, b, BARE);
      assert Inlined(Opened(db), [a, b]) == (Inlined(first.0, [b]).0, Prepended(first.1.value, Inlined(first.0, [b]).1));
      var second := Body(first.0, b);
      if second.1.Ok? {
        assert [first.1.value] + [second.1.value] == [first.1.value, second.1.value];
      }
    }
  }

  // The same on a session

  function Quieted<T>(r: Result<T, Error>): Result<string, Error> {
    match r case Ok(_) => Ok("") case Err(e) => Err(e)
  }

  /**
   * A service called inside an outer unit: its body runs on the outer session, inside its own
   * `except` clauses, and nothing is committed. `done` is the call with the token it picked.
   */
  method Join(s: Session, step: Step) returns (r: Result<string, Error>, done: Step)
    requires Coherent(s.view)
    modifies s
    ensures done == step || (step.DropByName? && done.DropByName? && done == step.(pick := done.pick))
    ensures (s.State(), r) == Body(old(s.State()), done)
  {
    hide Flushed;
    done := step;
    match step {
      case AddUser(uid) =>
        var u := CreateUserIn(s, uid);
        r := Quieted(u);
      case DropUser(uid) =>
        var u := RemoveUserIn(s, uid);
        r := Quieted(u);
      case Create(req, parentId, externalId, scopeNames, hash) =>
        r := CreateTokenIn(s, req, parentId, externalId, scopeNames, hash);
      case MfaSession(owner, name, id, secret, at, lifetime, now) =>
        var u := UpdateSessionIn(s, owner, SessionRow(id, name, owner, secret, at, lifetime), now);
        r := if u.Err? then Err(u.error) else Ok(u.value.id);
      case DropById(user, target) =>
        var u := RemoveTokenByIdIn(s, target, user);
        r := Quieted(u);
      case DropByValue(user, x) =>
        var u := RemoveTokenByValueIn(s, x, user);
        r := Quieted(u);
      case DropByName(user, name, _) =>
        var u, pick := RemoveTokenByNameIn(s, name, user);
        done := DropByName(user, name, pick);
        r := Quieted(u);
      case DropScope(name) =>
        var u := RemoveScopeIn(s, name);
        r := Quieted(u);
      case Invalidate(x) =>
        var u := InvalidateTokenIn(s, x);
        r := Quieted(u);
      case Attest(user, ids, now) =>
        var u := MakeRotatableIn(s, user, ids, now);
        r := Quieted(u);
      case Present(x, now) =>
        r := PresentTokenIn(s, x, now);
      case Rotate(target, maxDays, asked, now, secret, hash) =>
        r := RotateTokenIn(s, target, maxDays, asked, now, secret, hash);
      case Lookup(name, parentId, externalId) =>
        r := GetSubtokenIn(s, name, parentId, externalId);
      case Record(a) =>
        var u := AuditEventIn(s, a);
        r := Quieted(u);
      case Clean(days, now) =>
        var u := AuditCleanupIn(s, days, now);
        r := Quieted(u);
    }
    BodiesPassTheirClauses(old(s.State()), done, ClausesOf(done));
    if r.Err? {
      r := Err(Handled(ClausesOf(done), r.error));
    }
  }

  /** Two services in one outer unit of work: nothing is committed before the outer unit is left. */
  method JoinTwo(d: Database, first: Step, second: Step)
    returns (r: Result<seq<string>, Error>, a: Step, b: Step)
    requires Sound(d.committed)
    modifies d
    ensures a == first || (first.DropByName? && a.DropByName? && a == first.(pick := a.pick))
    ensures b == second || (second.DropByName? && b.DropByName? && b == second.(pick := b.pick))
    ensures (d.committed, r) == Unit(old(d.committed), [a, b])
  {
    var s := new Session(d);
    b := second;
    var x;
    x, a := Join(s, first);
    var answers: Result<seq<string>, Error>;
    if x.Err? {
      answers := Err(x.error);
    } else {
      BodyKeepsCoherent(Opened(d.committed), a);
      var y;
      y, b := Join(s, second);
      answers := if y.Err? then Err(y.error) else Ok([x.value, y.value]);
    }
    assert d.committed == old(d.committed);
    UnitOfTwo(d.committed, a, b);
    BodiesPassTheirClauses(Opened(d.committed), a, BARE);
    BodiesPassTheirClauses(Body(Opened(d.committed), a).0, b, BARE);
    r := s.Close(answers, BARE);
  }
}
