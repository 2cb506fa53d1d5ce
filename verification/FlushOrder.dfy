/**
 * Added rows are written by table and not as they were staged. Where no staged row is related to a
 * later one in the wrong order, that makes no difference.
 */
module FlushOrder {
  import opened Prelude
  import opened Model
  import opened Schema

  /** Rows whose effect can depend on which of the two a flush writes first. */
  predicate Related(a: Row, b: Row) {
    || (a.TokenRow? && b.UserRow? && a.t.owner == b.uid)
    || (a.TokenRow? && b.AuditRow? && a.t.id == b.a.tokenId)
    || (a.AuditRow? && b.TokenRow? && a.a.tokenId == b.t.id)
  }

  /** The row `b` is written before the row `a`, however they were staged. */
  predicate Overtakes(b: Row, a: Row) {
    NO_MARKS.Rank(b) < NO_MARKS.Rank(a)
  }

  lemma RowsCommute(db: Db, a: Row, b: Row)
    requires Overtakes(b, a) && !Related(a, b)
    ensures InsertRow(db, a).Ok? ==>
      var first := InsertRow(db, a).value;
      && (InsertRow(db, b).Ok? <==> InsertRow(first, b).Ok?)
      && (InsertRow(db, b).Ok? ==> InsertRow(InsertRow(db, b).value, a) == InsertRow(first, b))
    ensures InsertRow(db, a).Err? && InsertRow(db, b).Ok? ==> InsertRow(InsertRow(db, b).value, a).Err?
  {
  }

  /** Writing `row` before the rows it overtakes is writing it after them. */
  lemma {:induction false} MovesToEnd(db: Db, row: Row, back: seq<Row>)
    requires forall i | 0 <= i < |back| :: Overtakes(row, back[i]) && !Related(back[i], row)
    ensures var last, moved := NO_MARKS.WriteAll(db, back), NO_MARKS.WriteAll(db, [row] + back);
      if last.Ok? && InsertRow(last.value, row).Ok? then moved == InsertRow(last.value, row) else moved.Err?
    decreases |back|
  {
    assert ([row] + back)[1..] == back;
    if back != [] {
      var r, rest := back[0], back[1..];
      RowsCommute(db, r, row);
      if InsertRow(db, r).Ok? {
        var m := InsertRow(db, r).value;
        assert ([row] + rest)[1..] == rest;
        MovesToEnd(m, row, rest);
      }
    }
  }

  lemma {:induction false} OfRankAppends(rows: seq<Row>, row: Row, rank: nat)
    ensures NO_MARKS.OfRank(rows + [row], rank) == NO_MARKS.OfRank(rows, rank) + if NO_MARKS.Rank(row) == rank then [row] else []
  {
    if rows == [] {
      OneOfRank(NO_MARKS, row, rank);
      assert [] + [row] == [row];
    } else {
      OfRankAppends(rows[1..], row, rank);
      assert (rows + [row])[1..] == rows[1..] + [row];
    }
  }

  lemma {:induction false} OfRankHas(rows: seq<Row>, rank: nat)
    ensures forall r :: r in NO_MARKS.OfRank(rows, rank) ==> r in rows && NO_MARKS.Rank(r) == rank
  {
    if rows != [] {
      OfRankHas(rows[1..], rank);
    }
  }

  lemma {:induction false} NoneOfRank(rows: seq<Row>, rank: nat)
    requires forall r | r in rows :: NO_MARKS.Rank(r) != rank
    ensures NO_MARKS.OfRank(rows, rank) == []
  {
    if rows != [] {
      NoneOfRank(rows[1..], rank);
    }
  }

  /** With nothing marked, the order is by table. */
  lemma ThreeTables(rows: seq<Row>)
    ensures NO_MARKS.InOrder(rows) == NO_MARKS.OfRank(rows, 0) + (NO_MARKS.OfRank(rows, 2) + NO_MARKS.OfRank(rows, 3))
  {
    NoneOfRank(rows, 1);
  }

  lemma InOrderOfOneMore(rows: seq<Row>, row: Row)
    ensures NO_MARKS.InOrder(rows) == NO_MARKS.OfRank(rows, 0) + (NO_MARKS.OfRank(rows, 2) + NO_MARKS.OfRank(rows, 3))
    ensures var rank := NO_MARKS.Rank(row);
      NO_MARKS.InOrder(rows + [row]) ==
        (NO_MARKS.OfRank(rows, 0) + if rank == 0 then [row] else []) +
        ((NO_MARKS.OfRank(rows, 2) + if rank == 2 then [row] else []) + (NO_MARKS.OfRank(rows, 3) + if rank == 3 then [row] else []))
  {
    ThreeTables(rows);
    ThreeTables(rows + [row]);
    OfRankAppends(rows, row, 0);
    OfRankAppends(rows, row, 2);
    OfRankAppends(rows, row, 3);
  }

  /** `row` goes between `front`, which it does not overtake, and `back`, which it does. */
  ghost predicate GoesBetween(rows: seq<Row>, row: Row, front: seq<Row>, back: seq<Row>) {
    && front + back == NO_MARKS.InOrder(rows) && NO_MARKS.InOrder(rows + [row]) == front + ([row] + back)
    && forall r | r in back :: r in rows && Overtakes(row, r)
  }

  lemma UserGoes(rows: seq<Row>, row: Row)
    requires row.UserRow?
    ensures GoesBetween(rows, row, NO_MARKS.OfRank(rows, 0), NO_MARKS.OfRank(rows, 2) + NO_MARKS.OfRank(rows, 3))
  {
    InOrderOfOneMore(rows, row);
    var users, others := NO_MARKS.OfRank(rows, 0), NO_MARKS.OfRank(rows, 2) + NO_MARKS.OfRank(rows, 3);
    OfRankHas(rows, 2);
    OfRankHas(rows, 3);
    assert (users + [row]) + others == users + ([row] + others);
  }

  lemma TokenGoes(rows: seq<Row>, row: Row)
    requires row.TokenRow?
    ensures GoesBetween(rows, row, NO_MARKS.OfRank(rows, 0) + NO_MARKS.OfRank(rows, 2), NO_MARKS.OfRank(rows, 3))
  {
    InOrderOfOneMore(rows, row);
    var users, tokens, records := NO_MARKS.OfRank(rows, 0), NO_MARKS.OfRank(rows, 2), NO_MARKS.OfRank(rows, 3);
    OfRankHas(rows, 3);
    assert users + ((tokens + [row]) + records) == (users + tokens) + ([row] + records);
  }

  lemma RecordGoes(rows: seq<Row>, row: Row)
    requires row.AuditRow?
    ensures GoesBetween(rows, row, NO_MARKS.InOrder(rows), [])
  {
    InOrderOfOneMore(rows, row);
    var users, tokens, records := NO_MARKS.OfRank(rows, 0), NO_MARKS.OfRank(rows, 2), NO_MARKS.OfRank(rows, 3);
    assert users + (tokens + (records + [row])) == (users + (tokens + records)) + ([row] + []);
  }

  lemma InOrderAppends(rows: seq<Row>, row: Row) returns (front: seq<Row>, back: seq<Row>)
    ensures GoesBetween(rows, row, front, back)
  {
    match row
    case UserRow(_) =>
      UserGoes(rows, row);
      front, back := NO_MARKS.OfRank(rows, 0), NO_MARKS.OfRank(rows, 2) + NO_MARKS.OfRank(rows, 3);
    case TokenRow(_) =>
      TokenGoes(rows, row);
      front, back := NO_MARKS.OfRank(rows, 0) + NO_MARKS.OfRank(rows, 2), NO_MARKS.OfRank(rows, 3);
    case AuditRow(_) =>
      RecordGoes(rows, row);
      front, back := NO_MARKS.InOrder(rows), [];
  }

  lemma FlushOfAdded(view: Db, rows: seq<Row>)
    ensures Flushed(view, Pending(rows, {}, {})) ==
      if NoClash(view.tokens) then NO_MARKS.WriteAll(view, NO_MARKS.InOrder(rows)) else Err(UniqueViolation)
  {
    assert NO_MARKS.Without(rows) == NO_MARKS;
    if NO_MARKS.WriteAll(view, NO_MARKS.InOrder(rows)).Ok? {
      NothingToDelete(NO_MARKS.WriteAll(view, NO_MARKS.InOrder(rows)).value);
    }
  }

  /** Staging one more row, unrelated to those staged before, is inserting it after the flush of those. */
  lemma FlushOfOneMore(view: Db, rows: seq<Row>, row: Row)
    requires forall r | r in rows :: !Related(r, row)
    ensures var before, after := Flushed(view, Pending(rows, {}, {})), Flushed(view, Pending(rows + [row], {}, {}));
      if before.Ok? && InsertRow(before.value, row).Ok? then after == InsertRow(before.value, row) else after.Err?
  {
    FlushOfAdded(view, rows);
    FlushOfAdded(view, rows + [row]);
    var front, back := InOrderAppends(rows, row);
    BatchesCompose(view, NO_MARKS, front, back);
    BatchesCompose(view, NO_MARKS, front, [row] + back);
    if NO_MARKS.WriteAll(view, front).Ok? {
      MovesToEnd(NO_MARKS.WriteAll(view, front).value, row, back);
    }
  }

  /** Where no audit record is staged with its token, it makes no difference which of the two tables is written first. */
  lemma {:induction false} RecordsMayGoFirst(db: Db, tokens: seq<Row>, records: seq<Row>)
    requires forall i | 0 <= i < |tokens| :: tokens[i].TokenRow?
    requires forall i | 0 <= i < |records| :: records[i].AuditRow?
    requires forall i, j | 0 <= i < |tokens| && 0 <= j < |records| :: records[j].a.tokenId != tokens[i].t.id
    ensures var last, first := NO_MARKS.WriteAll(db, tokens + records), NO_MARKS.WriteAll(db, records + tokens);
      if last.Ok? then first == last else first.Err?
    decreases |tokens|
  {
    if tokens == [] {
      assert tokens + records == records == records + tokens;
    } else {
      var t, rest := tokens[0], tokens[1..];
      assert (tokens + records)[1..] == rest + records;
      assert records + tokens == (records + [t]) + rest;
      MovesToEnd(db, t, records);
      BatchesCompose(db, NO_MARKS, records, [t]);
      BatchesCompose(db, NO_MARKS, records + [t], rest);
      BatchesCompose(db, NO_MARKS, [t], records);
      OneRowInOrder(NO_MARKS, t);
      if InsertRow(db, t).Ok? {
        var next := InsertRow(db, t).value;
        RecordsMayGoFirst(next, rest, records);
        BatchesCompose(next, NO_MARKS, records, rest);
      }
    }
  }
}
