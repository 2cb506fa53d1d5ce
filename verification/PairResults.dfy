/** Two services joined in one outer unit: exactly when they act like the two run one after the other. */
module PairResults {
  import opened Prelude
  import opened Text
  import opened Model
  import opened Forest
  import opened Schema
  import opened UnitOfWork
  import opened ServiceSpec
  import opened Bodies
  import opened Nesting
  import opened FlushOrder
  import opened NestingResults

  // A removal, and a row staged before its flush

  function DroppedUsers(s: Step): set<string> {
    if s.DropUser? then {s.uid} else {}
  }

  ghost function DroppedRoots(db: Db, s: Step): set<Id>
    requires Drops(s)
  {
    match s
    case DropUser(uid) => OwnedBy(db, {uid})
    case DropById(_, target) => {target}
    case DropByValue(_, x) => if Parse(x).Some? then {Parse(x).value.0} else {}
    case DropByName(_, _, pick) => {pick}
  }

  lemma RemovalCommits(db: Db, uids: set<string>, roots: set<Id>, c: Clauses)
    requires NoClash(db.tokens) && OwnedBy(db, uids) <= roots && c.other.None?
    ensures var gone := Below(db.tokens, roots);
      Closed(db, (Removing(Opened(db), uids, roots), Ok("")), c) ==
        if Audited(db, gone) then (db, Err(UowException)) else (Without(db, uids, gone), Ok(""))
  {
    FlushOfRemoval(db, uids, roots);
  }

  lemma DropBody(db: Db, s: Step)
    requires Sound(db) && Drops(s) && Body(Opened(db), s).1.Ok?
    ensures var uids, gone := DroppedUsers(s), Below(db.tokens, DroppedRoots(db, s));
      && Body(Opened(db), s) == (Txn(db, Pending([], gone, uids)), Ok(""))
      && Call(db, s) == (if Audited(db, gone) then (db, Err(UowException)) else (Without(db, uids, gone), Ok("")))
      && Marked(db, uids, gone)
  {
    var uids, roots := DroppedUsers(s), DroppedRoots(db, s);
    DropIsStaged(db, s);
    OutermostIsCall(db, s);
    RemovalCommits(db, uids, roots, ClausesOf(s));
    BelowHasRoots(db.tokens, roots);
    BelowIsClosed(db.tokens, roots);
    assert {} + Below(db.tokens, roots) == Below(db.tokens, roots) && {} + uids == uids;
  }

  lemma DropIsStaged(db: Db, s: Step)
    requires NoClash(db.tokens) && Drops(s) && Body(Opened(db), s).1.Ok?
    ensures Body(Opened(db), s) == (Removing(Opened(db), DroppedUsers(s), DroppedRoots(db, s)), Ok(""))
    ensures DroppedUsers(s) <= db.users && OwnedBy(db, DroppedUsers(s)) <= DroppedRoots(db, s)
  {
    OpenedQueries(db);
    assert OwnedBy(db, {}) == {};
  }

  /** What a removal marks: nothing audited, and everything that would dangle. */
  ghost predicate Marked(db: Db, uids: set<string>, gone: set<Id>) {
    && uids <= db.users && gone <= db.tokens.Keys && OwnedBy(db, uids) <= gone && ClosedDown(db.tokens, gone)
  }

  /** The flush of one row beside a removal. */
  lemma FlushOfRowAndRemoval(db: Db, row: Row, uids: set<string>, gone: set<Id>)
    requires NoClash(db.tokens)
    ensures var marks := Marks(gone, uids);
      Flushed(db, Pending([row], gone, uids)) ==
        match marks.Write(db, row)
        case Err(v) => Err(v)
        case Ok(written) => DeleteAll(written, marks.Without([row]).tokens, marks.Without([row]).users)
  {
    OneRowInOrder(Marks(gone, uids), row);
  }

  /** The flush acts like the removal followed by the insert. */
  ghost predicate SameAfterRemoval(db: Db, row: Row, uids: set<string>, gone: set<Id>) {
    var flushed, later := Flushed(db, Pending([row], gone, uids)), InsertRow(Without(db, uids, gone), row);
    if later.Ok? then flushed == later else flushed.Err?
  }

  lemma TokenAndRemoval(db: Db, t: Token, uids: set<string>, gone: set<Id>)
    requires Sound(db) && Marked(db, uids, gone) && !Audited(db, gone) && t.id !in db.tokens && t.parent.None?
    ensures InsertRow(db, TokenRow(t)).Ok? ==> SameAfterRemoval(db, TokenRow(t), uids, gone)
    ensures InsertRow(db, TokenRow(t)).Err? ==> Flushed(db, Pending([TokenRow(t)], gone, uids)).Err?
  {
    var marks, row := Marks(gone, uids), TokenRow(t);
    FlushOfRowAndRemoval(db, row, uids, gone);
    assert marks.Without([row]) == marks;
    if InsertRow(db, row).Ok? {
      TokenThenDelete(db, t, uids, gone);
    }
  }

  lemma TokenThenDelete(db: Db, t: Token, uids: set<string>, gone: set<Id>)
    requires Sound(db) && Marked(db, uids, gone) && !Audited(db, gone) && TokenRefusal(db, t).None? && t.parent.None?
    ensures var deleted, later := DeleteAll(WithToken(db, t), gone, uids), InsertRow(Without(db, uids, gone), TokenRow(t));
      if later.Ok? then deleted == later else deleted.Err?
  {
    var inserted, rest := WithToken(db, t), Without(db, uids, gone);
    assert TokenRefusal(rest, t).None? <==> t.owner !in uids by {
      forall k | k in rest.tokens ensures !Clash(rest.tokens[k], t) {
        assert !Clash(db.tokens[k], t);
      }
    }
    if t.owner in uids {
      assert inserted.tokens[t.id] == t && t.id !in gone;
      assert Dangling(inserted, gone, uids);
    } else {
      forall k | k in inserted.tokens && k !in gone
        ensures inserted.tokens[k].owner !in uids && (inserted.tokens[k].parent.Some? ==> inserted.tokens[k].parent.value !in gone)
      {
        assert k != t.id ==> k !in OwnedBy(db, uids);
      }
      assert !Dangling(inserted, gone, uids) && !Audited(inserted, gone);
      assert Without(inserted, uids, gone) == WithToken(rest, t);
    }
  }

  lemma NothingDangles(db: Db, users: set<string>, audits: seq<AuditRecord>, uids: set<string>, gone: set<Id>)
    requires Marked(db, uids, gone)
    ensures forall fewer | fewer <= uids :: !Dangling(db.(users := users, audits := audits), gone, fewer)
  {
    assert forall k | k in db.tokens && db.tokens[k].owner in uids :: k in OwnedBy(db, uids);
  }

  /** A user that was removed and is added again is updated in place; any other is inserted. */
  lemma UserAndRemoval(db: Db, uid: string, uids: set<string>, gone: set<Id>)
    requires Sound(db) && Marked(db, uids, gone) && !Audited(db, gone)
    ensures SameAfterRemoval(db, UserRow(uid), uids, gone)
  {
    var marks, row := Marks(gone, uids), UserRow(uid);
    FlushOfRowAndRemoval(db, row, uids, gone);
    assert marks.Without([row]) == Marks(gone, uids - {uid});
    NothingDangles(db, db.users, db.audits, uids, gone);
    NothingDangles(db, db.users + {uid}, db.audits, uids, gone);
    if uid in uids {
      assert |uid| <= 32 && db.users - (uids - {uid}) == (db.users - uids) + {uid};
    } else {
      assert uids - {uid} == uids;
      assert uid !in db.users ==> (db.users + {uid}) - uids == (db.users - uids) + {uid};
    }
  }

  lemma RecordAndRemoval(db: Db, a: AuditRecord, uids: set<string>, gone: set<Id>)
    requires Sound(db) && Marked(db, uids, gone) && !Audited(db, gone)
    ensures SameAfterRemoval(db, AuditRow(a), uids, gone)
  {
    var marks, row := Marks(gone, uids), AuditRow(a);
    FlushOfRowAndRemoval(db, row, uids, gone);
    assert marks.Without([row]) == marks;
    if InsertRow(db, row).Ok? {
      var inserted := InsertRow(db, row).value;
      NothingDangles(db, db.users, inserted.audits, uids, gone);
      if a.tokenId in gone {
        assert inserted.audits[|db.audits|] == a;
        assert Audited(inserted, gone);
      } else {
        forall i | 0 <= i < |inserted.audits| ensures inserted.audits[i].tokenId !in gone {
          assert i < |db.audits| ==> inserted.audits[i] == db.audits[i];
        }
      }
    }
  }

  lemma RowAndRemoval(db: Db, row: Row, uids: set<string>, gone: set<Id>)
    requires Sound(db) && Marked(db, uids, gone) && !Audited(db, gone)
    requires row.TokenRow? ==> row.t.id !in db.tokens && row.t.parent.None?
    ensures !row.TokenRow? || InsertRow(db, row).Ok? ==> SameAfterRemoval(db, row, uids, gone)
    ensures row.TokenRow? && InsertRow(db, row).Err? ==> Flushed(db, Pending([row], gone, uids)).Err?
  {
    match row
    case TokenRow(t) => TokenAndRemoval(db, t, uids, gone);
    case UserRow(uid) => UserAndRemoval(db, uid, uids, gone);
    case AuditRow(a) => RecordAndRemoval(db, a, uids, gone);
  }

  /** A row staged beside a removal that the audit records refuse does not save it. */
  lemma RefusedRemovalStays(db: Db, row: Row, uids: set<string>, gone: set<Id>)
    requires NoClash(db.tokens) && Audited(db, gone) && (row.TokenRow? ==> row.t.id !in gone)
    ensures Flushed(db, Pending([row], gone, uids)).Err?
  {
    var marks := Marks(gone, uids);
    FlushOfRowAndRemoval(db, row, uids, gone);
    assert marks.Without([row]).tokens == gone;
    if marks.Write(db, row).Ok? {
      var i :| 0 <= i < |db.audits| && db.audits[i].tokenId in gone;
      assert marks.Write(db, row).value.audits[i] == db.audits[i];
    }
  }

  // Two services

  lemma OneInTurn(db: Db, s: Step)
    ensures InTurn(db, [s]) == (Call(db, s).0, AsList(Call(db, s).1))
  {
    var e := Call(db, s);
    if e.1.Ok? {
      assert [s][1..] == [];
      assert InTurn(e.0, []) == (e.0, Ok([]));
      assert InTurn(db, [s]) == (InTurn(e.0, [s][1..]).0, Prepended(e.1.value, InTurn(e.0, [s][1..]).1));
      assert [e.1.value] + [] == [e.1.value];
    }
  }

  lemma PairInTurn(db: Db, a: Step, b: Step)
    ensures InTurn(db, [a, b]).1.Ok? <==> Call(db, a).1.Ok? && Call(Call(db, a).0, b).1.Ok?
    ensures InTurn(db, [a, b]).1.Ok? ==>
      InTurn(db, [a, b]) == (Call(Call(db, a).0, b).0, Ok([Call(db, a).1.value, Call(Call(db, a).0, b).1.value]))
  {
    var e := Call(db, a);
    if e.1.Ok? {
      assert [a, b][1..] == [b];
      OneInTurn(e.0, b);
      assert InTurn(db, [a, b]) == (InTurn(e.0, [b]).0, Prepended(e.1.value, InTurn(e.0, [b]).1));
      if Call(e.0, b).1.Ok? {
        assert [e.1.value] + [Call(e.0, b).1.value] == [e.1.value, Call(e.0, b).1.value];
      }
    }
  }

  /** A creation draws a new id, and no audit record joins the flush of the token it names. */
  predicate Ordinary(db: Db, a: Step, b: Step) {
    && (Drops(a) && b.Create? && !Asks(b) ==> b.req.id !in db.tokens)
    && (!Asks(b) && StagedRow(a).Some? && StagedRow(b).Some? && Related(StagedRow(a).value, StagedRow(b).value) ==> b.AddUser?)
  }

  /** After a removal, a token that is inserted before the removed rows go, and that clashes with one of them. */
  ghost predicate ComesTooEarly(db: Db, a: Step, b: Step) {
    && Drops(a) && Call(db, a).1.Ok?
    && b.Create? && !Asks(b) && Call(db, b).1.Err? && Call(Call(db, a).0, b).1.Ok?
  }

  /** After a token whose user is not stored, that user, who is inserted before the token. */
  ghost predicate ComesInTime(db: Db, a: Step, b: Step) {
    && StagedRow(a).Some? && StagedRow(a).value.TokenRow? && b == AddUser(StagedRow(a).value.t.owner)
    && Call(db, b).1.Ok? && Call(Call(db, b).0, a).1.Ok?
  }

  lemma StagedBesideRemoval(db: Db, uids: set<string>, gone: set<Id>, next: Step)
    requires Sound(db) && Marked(db, uids, gone) && !Asks(next) && (next.Create? ==> next.req.id !in db.tokens)
    ensures var txn, rest := Body(Txn(db, Pending([], gone, uids)), next).0, Without(db, uids, gone);
      if !Audited(db, gone) && Call(rest, next).1.Ok? && (next.Create? ==> Call(db, next).1.Ok?) then Stands(txn, Call(rest, next).0)
      else Flushed(txn.view, txn.pending).Err?
  {
    var rest := Without(db, uids, gone);
    StagingBody(Txn(db, Pending([], gone, uids)), db, next);
    StagingIsInsert(db, next);
    StagingIsInsert(rest, next);
    match StagedRow(next)
    case None =>
      RemovalStaged(db, gone, uids);
      NothingDangles(db, db.users, db.audits, uids, gone);
    case Some(row) =>
      assert [] + [row] == [row];
      if Audited(db, gone) {
        RefusedRemovalStays(db, row, uids, gone);
      } else {
        RowAndRemoval(db, row, uids, gone);
      }
  }

  lemma DropThenStage(db: Db, drop: Step, next: Step)
    requires Sound(db) && Drops(drop) && !Asks(next) && Ordinary(db, drop, next) && Body(Opened(db), drop).1.Ok?
    ensures var txn, rest := Body(Body(Opened(db), drop).0, next).0, Call(db, drop).0;
      if Call(db, drop).1.Ok? && Call(rest, next).1.Ok? && !ComesTooEarly(db, drop, next) then Stands(txn, Call(rest, next).0)
      else Flushed(txn.view, txn.pending).Err?
  {
    DropBody(db, drop);
    StagedBesideRemoval(db, DroppedUsers(drop), Below(db.tokens, DroppedRoots(db, drop)), next);
  }

  lemma DropPair(db: Db, a: Step, b: Step)
    requires Sound(db) && Drops(a) && !Asks(b) && Ordinary(db, a, b)
    ensures LikeInTurn(db, [a, b], Unit(db, [a, b])) <==> !ComesTooEarly(db, a, b)
    ensures ComesTooEarly(db, a, b) ==> Unit(db, [a, b]).0 == db && Unit(db, [a, b]).1.Err?
  {
    PairInTurn(db, a, b);
    UnitOfTwo(db, a, b);
    FreshBody(db, a);
    if Body(Opened(db), a).1.Ok? {
      DropThenStage(db, a, b);
      StagingBody(Body(Opened(db), a).0, Call(db, a).0, b);
    }
  }

  lemma TokenNeedsItsUser(db: Db, a: Step)
    requires Sound(db) && StagedRow(a).Some? && StagedRow(a).value.TokenRow? && Call(db, a).1.Ok?
    ensures StagedRow(a).value.t.owner in Call(db, a).0.users
  {
    if a.MfaSession? && Sessions(db, a.owner, a.name) != {} {
      var k :| k in Sessions(db, a.owner, a.name);
      assert Placed(db, db.tokens[k]);
    }
  }

  /** A token and then its user, staged together: the user is inserted first. */
  lemma FlushOfTokenAndUser(db: Db, t: Token)
    requires NoClash(db.tokens)
    ensures var work, user := Pending([TokenRow(t)] + [UserRow(t.owner)], {}, {}), InsertRow(db, UserRow(t.owner));
      Flushed(db, work) == match user case Ok(next) => InsertRow(next, TokenRow(t)) case Err(v) => Err(v)
  {
    var rows := [TokenRow(t)] + [UserRow(t.owner)];
    FlushOfAdded(db, rows);
    assert NO_MARKS.InOrder(rows) == [UserRow(t.owner)] + [TokenRow(t)] by {
      ThreeTables(rows);
      OneOfRank(NO_MARKS, TokenRow(t), 0);
      OneOfRank(NO_MARKS, TokenRow(t), 2);
      OneOfRank(NO_MARKS, TokenRow(t), 3);
      OfRankAppends([TokenRow(t)], UserRow(t.owner), 0);
      OfRankAppends([TokenRow(t)], UserRow(t.owner), 2);
      OfRankAppends([TokenRow(t)], UserRow(t.owner), 3);
    }
    BatchesCompose(db, NO_MARKS, [UserRow(t.owner)], [TokenRow(t)]);
    OneRowInOrder(NO_MARKS, UserRow(t.owner));
    OneRowInOrder(NO_MARKS, TokenRow(t));
  }

  /** The body of a creation or of a first session of an unknown user stages its row whoever is stored, or raises. */
  lemma TokenBody(db: Db, a: Step, uid: string)
    requires Sound(db) && StagedRow(a).Some? && StagedRow(a).value.TokenRow? && StagedRow(a).value.t.owner == uid
    requires uid !in db.users && |uid| <= 32
    ensures var row, more, ran := StagedRow(a).value, db.(users := db.users + {uid}), Body(Opened(db), a);
      && (ran.1.Ok? ==>
            && ran.0 == Txn(db, Pending([row], {}, {})) && (Call(more, a).1.Ok? <==> InsertRow(more, row).Ok?)
            && (Call(more, a).1.Ok? ==> InsertRow(more, row) == Ok(Call(more, a).0)))
      && (ran.1.Err? ==> Call(more, a).1.Err?)
  {
    OpenedQueries(db);
    assert [] + [StagedRow(a).value] == [StagedRow(a).value];
    if a.MfaSession? {
      var more := db.(users := db.users + {uid});
      forall k | k in db.tokens ensures db.tokens[k].owner != uid {
        assert Placed(db, db.tokens[k]);
      }
      assert Sessions(db, a.owner, a.name) == {} && Sessions(more, a.owner, a.name) == {};
    }
  }

  lemma UserPair(db: Db, a: Step, b: Step)
    requires Sound(db) && StagedRow(a).Some? && StagedRow(a).value.TokenRow? && b == AddUser(StagedRow(a).value.t.owner)
    ensures LikeInTurn(db, [a, b], Unit(db, [a, b])) <==> !ComesInTime(db, a, b)
    ensures ComesInTime(db, a, b) ==> Unit(db, [a, b]).1.Ok? && Unit(db, [a, b]).0 == Call(Call(db, b).0, a).0
  {
    PairInTurn(db, a, b);
    UnitOfTwo(db, a, b);
    if Call(db, a).1.Ok? {
      TokenNeedsItsUser(db, a);
    }
    var t := StagedRow(a).value.t;
    if t.owner !in db.users && |t.owner| <= 32 {
      TokenBody(db, a, t.owner);
      FlushOfTokenAndUser(db, t);
    } else {
      RefusedUserFailsTheUnit(db, a, b);
    }
  }

  lemma RefusedUserFailsTheFlush(view: Db, rows: seq<Row>, uid: string)
    requires (forall r | r in rows :: r.TokenRow?) && InsertRow(view, UserRow(uid)).Err?
    ensures Flushed(view, Pending(rows + [UserRow(uid)], {}, {})).Err?
  {
    var added := rows + [UserRow(uid)];
    FlushOfAdded(view, added);
    ThreeTables(added);
    NoneOfRank(rows, 0);
    OfRankAppends(rows, UserRow(uid), 0);
    OneRowInOrder(NO_MARKS, UserRow(uid));
    BatchesCompose(view, NO_MARKS, [UserRow(uid)], NO_MARKS.OfRank(added, 2) + NO_MARKS.OfRank(added, 3));
  }

  lemma TokenBodyKeepsUsers(db: Db, a: Step)
    requires NoClash(db.tokens) && (a.Create? || a.MfaSession?) && Body(Opened(db), a).1.Ok?
    ensures var left := Body(Opened(db), a).0; left.view.users == db.users && NothingRemoved(left)
  {
    OpenedQueries(db);
    if a.MfaSession? && |Sessions(db, a.owner, a.name)| == 1 {
      assert OwnedBy(db, {}) == {};
      FlushOfRemoval(db, {}, {TheOne(Sessions(db, a.owner, a.name))});
    }
  }

  lemma RefusedUserFailsTheUnit(db: Db, a: Step, b: Step)
    requires Sound(db) && b.AddUser? && (b.uid in db.users || |b.uid| > 32)
    requires StagedRow(a).Some? && StagedRow(a).value.TokenRow?
    ensures Unit(db, [a, b]).1.Err? && Unit(db, [a, b]).0 == db
  {
    UnitOfTwo(db, a, b);
    if Body(Opened(db), a).1.Ok? {
      var left := Body(Opened(db), a).0;
      BodyStages(Opened(db), a);
      TokenBodyKeepsUsers(db, a);
      RefusedUserFailsTheFlush(left.view, left.pending.added, b.uid);
      assert left.pending == Pending(left.pending.added, {}, {});
    }
  }

  lemma PairIsSettled(a: Step, b: Step)
    requires Asks(b) || (!Drops(a) && (StagedRow(a).Some? ==> Follows(StagedRow(a).value, b)))
    ensures Settled([a, b])
  {
    var steps := [a, b];
    forall i: nat, j: nat | i < j < |steps| && Together(steps, i, j)
      ensures !Drops(steps[i]) && (StagedRow(steps[i]).Some? ==> Follows(StagedRow(steps[i]).value, steps[j]))
    {
      assert i == 0 && j == 1 && steps[i] == a && steps[j] == b;
    }
  }

  /**
   * Two services joined in one outer unit act like the two run one after the other, all or nothing,
   * with two exceptions. A removal is flushed after the rows that join it, so a creation that does
   * not query fails if it clashes with a removed token. And users are inserted before tokens, so a
   * token whose user is only added after it succeeds, as it would in the other order.
   */
  lemma PairIsLikeInTurn(db: Db, a: Step, b: Step)
    requires Sound(db) && Ordinary(db, a, b)
    ensures LikeInTurn(db, [a, b], Unit(db, [a, b])) <==> !(ComesTooEarly(db, a, b) || ComesInTime(db, a, b))
    ensures ComesTooEarly(db, a, b) ==> Unit(db, [a, b]).0 == db && Unit(db, [a, b]).1.Err?
    ensures ComesInTime(db, a, b) ==> Unit(db, [a, b]).1.Ok? && Unit(db, [a, b]).0 == Call(Call(db, b).0, a).0
  {
    if Drops(a) && !Asks(b) {
      DropPair(db, a, b);
    } else if StagedRow(a).Some? && StagedRow(a).value.TokenRow? && b == AddUser(StagedRow(a).value.t.owner) {
      UserPair(db, a, b);
    } else {
      PairIsSettled(a, b);
      UnitIsLikeInTurn(db, [a, b]);
    }
  }

  /** So a user who is removed and added again in one unit stays, and the user's tokens go, as with two units. */
  lemma RemovedUserReturns(db: Db, uid: string)
    requires Sound(db)
    ensures LikeInTurn(db, [DropUser(uid), AddUser(uid)], Unit(db, [DropUser(uid), AddUser(uid)]))
  {
    PairIsLikeInTurn(db, DropUser(uid), AddUser(uid));
  }
}
