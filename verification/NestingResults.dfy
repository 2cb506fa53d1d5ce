/**
 * What joining an outer unit of work changes: how a refused commit is reported, and when inlined
 * services act like the same services run one after the other.
 */
module NestingResults {
  import opened Prelude
  import opened Text
  import opened Model
  import opened Schema
  import opened UnitOfWork
  import opened ServiceSpec
  import opened Bodies
  import opened Atomicity
  import opened Nesting
  import opened FlushOrder

  // The error mapping

  lemma ClausesOnlyMapCommits(db: Db, ran: Ran<string>, c: Clauses)
    requires ran.1.Err? ==> Handled(c, ran.1.error) == ran.1.error == Handled(BARE, ran.1.error) && !RaisedByUow(ran.1.error)
    ensures var outer, bare := Closed(db, ran, c), Closed(db, (ran.0, AsList(ran.1)), BARE);
      && outer.0 == bare.0
      && (outer.1.Ok? ==> bare.1 == Ok([outer.1.value]))
      && (outer.1.Err? ==> bare.1.Err? && outer.1.error == Handled(c, bare.1.error) && (RaisedByUow(bare.1.error) <==> ran.1.Ok?))
  {
  }

  /**
   * A service that joins an outer unit changes the same tables and fails in the same cases as when
   * it is outermost; only the report of a refused commit differs, because the service's own
   * `except` clauses apply to it exactly when the service is outermost.
   */
  lemma MappedExactlyWhenOutermost(db: Db, s: Step)
    requires Sound(db)
    ensures Call(db, s).0 == Unit(db, [s]).0
    ensures Call(db, s).1.Ok? ==> Unit(db, [s]).1 == Ok([Call(db, s).1.value])
    ensures Call(db, s).1.Err? ==>
      && Unit(db, [s]).1.Err? && Call(db, s).1.error == Handled(ClausesOf(s), Unit(db, [s]).1.error)
      && (RaisedByUow(Unit(db, [s]).1.error) <==> Body(Opened(db), s).1.Ok?)
  {
    BodiesPassTheirClauses(Opened(db), s, ClausesOf(s));
    BodiesPassTheirClauses(Opened(db), s, BARE);
    ClausesOnlyMapCommits(db, Body(Opened(db), s), ClausesOf(s));
    OutermostIsCall(db, s);
    UnitOfOne(db, s);
  }

  /**
   * A creation refused as existing when it is outermost returns its string when it is nested; the
   * outer commit then fails with uow.AlreadyExists.
   */
  lemma NestedCreationReturns(db: Db, s: Step)
    requires Sound(db) && s.Create?
    ensures Call(db, s).1 == Err(AlreadyExists) <==>
      Body(Opened(db), s).1 == Ok(Composite(s.req.id, s.req.secret)) && Unit(db, [s]) == (db, Err(UowAlreadyExists))
  {
    MappedExactlyWhenOutermost(db, s);
    UnitOfOne(db, s);
  }

  lemma ClauseIsUnused(db: Db, ran: Ran<string>, c: Clauses, handler: Option<Error>)
    requires ran.1.Err? ==> !RaisedByUow(ran.1.error)
    ensures Closed(db, ran, c.(notFound := handler)) == Closed(db, ran, c)
  {
  }

  /** The clause for uow.NotFound never runs: with any other handler in its place every call is the same. */
  lemma NotFoundClauseNeverRuns(db: Db, s: Step, handler: Option<Error>)
    requires Sound(db)
    ensures Closed(db, Body(Opened(db), s), ClausesOf(s).(notFound := handler)) == Call(db, s)
  {
    BodiesPassTheirClauses(Opened(db), s, ClausesOf(s));
    ClauseIsUnused(db, Body(Opened(db), s), ClausesOf(s), handler);
    OutermostIsCall(db, s);
  }

  // Inlining and running one after the other

  /** The services as outermost units, one after the other. */
  ghost function InTurn(db: Db, steps: seq<Step>): Effect<seq<string>>
    decreases |steps|
  {
    if steps == [] then (db, Ok([]))
    else
      match Call(db, steps[0])
      case (after, Err(e)) => (after, Err(e))
      case (after, Ok(answer)) =>
        var rest := InTurn(after, steps[1..]);
        (rest.0, Prepended(answer, rest.1))
  }

  /** The body runs a query before it changes anything. */
  predicate Asks(s: Step) {
    match s
    case AddUser(_) => false
    case Record(_) => false
    case Create(_, parentId, _, scopeNames, _) => Truthy(parentId) || scopeNames != []
    case Attest(_, ids, _) => ids != []
    case _ => true
  }

  predicate Drops(s: Step) {
    s.DropUser? || s.DropById? || s.DropByValue? || s.DropByName?
  }

  /** The row a service stages, if it stages one. */
  function StagedRow(s: Step): Option<Row> {
    match s
    case AddUser(uid) => Some(UserRow(uid))
    case Record(a) => Some(AuditRow(a))
    case Create(req, p, x, scopes, hash) => Some(TokenRow(NewRow(req, p, x, scopes, hash)))
    case MfaSession(owner, name, id, secret, at, lifetime, _) => Some(TokenRow(SessionRow(id, name, owner, secret, at, lifetime)))
    case _ => None
  }

  /** What the service stages is not related to a row staged before it. */
  predicate Follows(row: Row, s: Step) {
    StagedRow(s).Some? ==> !Related(row, StagedRow(s).value)
  }

  /** No query, and so no flush, comes between what `steps[i]` stages and what `steps[j]` stages. */
  predicate Together(steps: seq<Step>, i: nat, j: nat)
    requires i < j < |steps|
  {
    forall k | i < k <= j :: !Asks(steps[k])
  }

  /**
   * Among services with no query in between, none removes before another, and none stages a row
   * that is related to one another staged: no token before its user, and no token with its record.
   */
  predicate Settled(steps: seq<Step>) {
    forall i: nat, j: nat | i < j < |steps| && Together(steps, i, j) ::
      !Drops(steps[i]) && (StagedRow(steps[i]).Some? ==> Follows(StagedRow(steps[i]).value, steps[j]))
  }

  predicate Unasked(steps: seq<Step>, j: nat)
    requires j < |steps|
  {
    forall k | 0 <= k <= j :: !Asks(steps[k])
  }

  /** The staged rows are not related to what the steps stage before the next query. */
  predicate Clear(rows: seq<Row>, steps: seq<Step>) {
    forall r, j: nat | r in rows && j < |steps| && Unasked(steps, j) :: Follows(r, steps[j])
  }

  lemma SettledTail(steps: seq<Step>, rows: seq<Row>, later: seq<Row>)
    requires steps != [] && Settled(steps) && Clear(rows, steps)
    requires forall r | r in later :: Some(r) == StagedRow(steps[0]) || (r in rows && !Asks(steps[0]))
    ensures Settled(steps[1..]) && Clear(later, steps[1..])
  {
    var rest := steps[1..];
    forall i: nat, j: nat | i < j < |rest| && Together(rest, i, j)
      ensures !Drops(rest[i]) && (StagedRow(rest[i]).Some? ==> Follows(StagedRow(rest[i]).value, rest[j]))
    {
      assert Together(steps, i + 1, j + 1) by {
        forall k | i + 1 < k <= j + 1 ensures !Asks(steps[k]) { assert steps[k] == rest[k - 1]; }
      }
    }
    forall r, j: nat | r in later && j < |rest| && Unasked(rest, j) ensures Follows(r, rest[j]) {
      assert forall k | 0 < k <= j + 1 :: steps[k] == rest[k - 1];
      assert Together(steps, 0, j + 1);
      if !Asks(steps[0]) {
        assert Unasked(steps, j + 1);
      }
    }
  }

  /** What `txn` has staged amounts to the tables `db`. */
  predicate Stands(txn: Txn, db: Db) {
    Flushed(txn.view, txn.pending) == Ok(db)
  }

  predicate NothingRemoved(txn: Txn) {
    txn.pending.removed == {} && txn.pending.removedUsers == {}
  }

  lemma BodySeesItsQuery(a: Txn, b: Txn, s: Step)
    requires Queried(a) == Queried(b) && Queried(a).Ok? && Asks(s)
    ensures Body(a, s).1 == Body(b, s).1
    ensures Body(a, s).1.Ok? ==> Body(a, s).0 == Body(b, s).0
  {
    hide Flushed;
  }

  lemma AskingSeesTheTables(txn: Txn, db: Db, s: Step)
    requires Stands(txn, db) && NoClash(db.tokens) && Asks(s)
    ensures Body(txn, s).1 == Body(Opened(db), s).1
    ensures Body(txn, s).1.Ok? ==> Body(txn, s).0 == Body(Opened(db), s).0
  {
    OpenedQueries(db);
    BodySeesItsQuery(txn, Opened(db), s);
  }

  lemma FreshBody(db: Db, s: Step)
    requires Sound(db)
    ensures var ran := Body(Opened(db), s);
      && (Call(db, s).1.Ok? ==> ran.1 == Call(db, s).1 && Stands(ran.0, Call(db, s).0))
      && (Call(db, s).1.Err? ==> ran.1.Err? || Flushed(ran.0.view, ran.0.pending).Err?)
  {
    OutermostIsCall(db, s);
  }

  lemma OnlyDropsRemove(db: Db, s: Step)
    requires NoClash(db.tokens) && !Drops(s)
    ensures NothingRemoved(Body(Opened(db), s).0) || Body(Opened(db), s).1.Err?
  {
    OpenedQueries(db);
  }

  /** What a body leaves staged: its own row at most, and before its first query what was staged already. */
  lemma BodyStages(txn: Txn, s: Step)
    requires Body(txn, s).1.Ok?
    ensures forall r | r in Body(txn, s).0.pending.added :: Some(r) == StagedRow(s) || (r in txn.pending.added && !Asks(s))
  {
  }

  /** The body of a service that does not query first. */
  lemma StagingBody(txn: Txn, db: Db, s: Step)
    requires !Asks(s)
    ensures Body(txn, s).1.Ok? && (Call(db, s).1.Ok? ==> Body(txn, s).1 == Call(db, s).1)
    ensures Body(txn, s).0 == if StagedRow(s).Some? then Adding(txn, StagedRow(s).value) else txn
  {
    if s.Attest? {
      assert Rotatable(txn.view, Elements(s.ids)) == txn.view;
    }
  }

  lemma StagingIsInsert(db: Db, s: Step)
    requires !Asks(s)
    ensures StagedRow(s).None? ==> Call(db, s) == (db, Ok(""))
    ensures StagedRow(s).Some? ==>
      && (StagedRow(s).value.TokenRow? ==> s.Create? && StagedRow(s).value.t.parent.None?)
      && (Call(db, s).1.Ok? <==> InsertRow(db, StagedRow(s).value).Ok?)
      && (Call(db, s).1.Ok? ==> Ok(Call(db, s).0) == InsertRow(db, StagedRow(s).value))
  {
    if s.Attest? {
      assert Rotatable(db, Elements(s.ids)) == db;
    }
  }

  /** One body on a transaction that stands for `db`, against one outermost call on `db`. */
  lemma BodyStands(txn: Txn, db: Db, s: Step)
    requires Stands(txn, db) && Sound(db)
    requires Asks(s) || (NothingRemoved(txn) && forall r | r in txn.pending.added :: Follows(r, s))
    ensures Call(db, s).1.Ok? ==>
      Body(txn, s).1 == Call(db, s).1 && Stands(Body(txn, s).0, Call(db, s).0)
    ensures Call(db, s).1.Err? ==> Body(txn, s).1.Err? || Flushed(Body(txn, s).0.view, Body(txn, s).0.pending).Err?
    ensures Body(txn, s).1.Ok? ==> Drops(s) || NothingRemoved(Body(txn, s).0)
  {
    if Asks(s) {
      AskingSeesTheTables(txn, db, s);
      FreshBody(db, s);
      if !Drops(s) {
        OnlyDropsRemove(db, s);
      }
    } else {
      StagingBody(txn, db, s);
      StagingIsInsert(db, s);
      if StagedRow(s).Some? {
        FlushOfOneMore(txn.view, txn.pending.added, StagedRow(s).value);
        assert txn.pending == Pending(txn.pending.added, {}, {});
      }
    }
  }

  /** Staged work a flush refuses is never forgotten: the next query raises, or the commit fails. */
  lemma {:induction false} RefusedWorkFailsTheUnit(txn: Txn, steps: seq<Step>)
    requires Flushed(txn.view, txn.pending).Err? && Settled(steps) && Clear(txn.pending.added, steps)
    requires NothingRemoved(txn) || steps == [] || Asks(steps[0])
    ensures var ran := Inlined(txn, steps); ran.1.Err? || Flushed(ran.0.view, ran.0.pending).Err?
    decreases |steps|
  {
    if steps != [] && Body(txn, steps[0]).1.Ok? {
      var s := steps[0];
      RefusedBody(txn, s);
      var next := Body(txn, s).0;
      assert Unasked(steps, 0);
      StagingBody(txn, txn.view, s);
      if StagedRow(s).Some? {
        FlushOfOneMore(txn.view, txn.pending.added, StagedRow(s).value);
        assert txn.pending == Pending(txn.pending.added, {}, {});
      }
      BodyStages(txn, s);
      SettledTail(steps, txn.pending.added, next.pending.added);
      RefusedWorkFailsTheUnit(next, steps[1..]);
    }
  }

  lemma RefusedBody(txn: Txn, s: Step)
    requires Flushed(txn.view, txn.pending).Err? && Body(txn, s).1.Ok?
    ensures !Asks(s)
  {
  }

  lemma {:induction false} InlinedIsInTurn(txn: Txn, db: Db, steps: seq<Step>)
    requires Stands(txn, db) && Sound(db) && Settled(steps) && Clear(txn.pending.added, steps)
    requires NothingRemoved(txn) || steps == [] || Asks(steps[0])
    ensures var ran := Inlined(txn, steps);
      && (InTurn(db, steps).1.Ok? ==> ran.1 == InTurn(db, steps).1 && Stands(ran.0, InTurn(db, steps).0))
      && (InTurn(db, steps).1.Err? ==> ran.1.Err? || Flushed(ran.0.view, ran.0.pending).Err?)
    decreases |steps|
  {
    if steps != [] {
      var s, rest := steps[0], steps[1..];
      if !Asks(s) {
        assert Unasked(steps, 0);
      }
      BodyStands(txn, db, s);
      if Body(txn, s).1.Ok? {
        BodyStages(txn, s);
        SettledTail(steps, txn.pending.added, Body(txn, s).0.pending.added);
        assert rest != [] && !Asks(rest[0]) ==> Together(steps, 0, 1);
        if Call(db, s).1.Ok? {
          CallsAreAtomic(db, s);
          InlinedIsInTurn(Body(txn, s).0, Call(db, s).0, rest);
        } else {
          RefusedWorkFailsTheUnit(Body(txn, s).0, rest);
        }
      }
    }
  }

  /** `e` is the effect of running `steps` one after the other when all of them succeed, and no change at all otherwise. */
  ghost predicate LikeInTurn(db: Db, steps: seq<Step>, e: Effect<seq<string>>) {
    if InTurn(db, steps).1.Ok? then e == InTurn(db, steps) else e.0 == db && e.1.Err?
  }

  /**
   * Joining any services in an outer unit has the effect of running them one after the other, all
   * or nothing, for every settled list of services.
   */
  lemma UnitIsLikeInTurn(db: Db, steps: seq<Step>)
    requires Sound(db) && Settled(steps)
    ensures LikeInTurn(db, steps, Unit(db, steps))
  {
    OpenedQueries(db);
    InlinedIsInTurn(Opened(db), db, steps);
  }
}
