/** The constraints of the relational schema and what flushing staged work does to the tables. */
module Schema {
  import opened Prelude
  import opened Model
  import opened Forest

  /** Two token rows the unique constraints exclude; nulls count as equal (the Postgres constraint). */
  predicate Clash(a: Token, b: Token) {
    || a.value.text == b.value.text
    || (a.owner == b.owner && a.name == b.name && a.parent == b.parent && a.external == b.external)
  }

  predicate NoClash(m: map<Id, Token>) {
    forall a, b {:trigger Clash(m[a], m[b])} | a in m && b in m && a != b :: !Clash(m[a], m[b])
  }

  /** Updates that leave the constrained columns alone cannot clash. */
  lemma NoClashKeeps(m: map<Id, Token>, n: map<Id, Token>)
    requires NoClash(m) && m.Keys == n.Keys
    requires forall k | k in m ::
      && n[k].value == m[k].value && n[k].owner == m[k].owner && n[k].name == m[k].name
      && n[k].parent == m[k].parent && n[k].external == m[k].external
    ensures NoClash(n)
  {
    forall a, b | a in n && b in n && a != b ensures !Clash(n[a], n[b]) {
      assert !Clash(m[a], m[b]);
    }
  }

  /** One row per (token, scope) pair in the association table. */
  predicate Distinct(s: seq<string>) {
    forall i, j | 0 <= i < j < |s| :: s[i] != s[j]
  }

  /** The columns a caller fills keep to their widths. */
  predicate Fits(t: Token) {
    |t.name| <= 256 && |t.owner| <= 32 && (t.external.Some? ==> |t.external.value| <= 36)
  }

  predicate RecordFits(a: AuditRecord) {
    |a.requestMethod| <= 32 && |a.source| <= 32 && |a.destination| <= 32
  }

  /** The token row fits its columns and every foreign key of it names a stored row. */
  predicate Placed(db: Db, t: Token) {
    && Fits(t)
    && t.owner in db.users
    && (t.parent.Some? ==> t.parent.value in db.tokens)
    && Distinct(t.scopes)
    && (forall i | 0 <= i < |t.scopes| :: t.scopes[i] in db.scopes)
  }

  /** A list without the given elements, in its order. */
  function Less(s: seq<string>, dropped: set<string>): seq<string> {
    if s == [] then []
    else if s[0] in dropped then Less(s[1..], dropped)
    else [s[0]] + Less(s[1..], dropped)
  }

  lemma {:induction false} LessHas(s: seq<string>, dropped: set<string>)
    ensures forall x :: x in Less(s, dropped) <==> x in s && x !in dropped
    ensures Distinct(s) ==> Distinct(Less(s, dropped))
  {
    if s != [] {
      LessHas(s[1..], dropped);
      assert s == [s[0]] + s[1..];
      if Distinct(s) {
        assert forall j | 0 <= j < |s[1..]| :: s[1..][j] != s[0];
        assert s[0] !in Less(s[1..], dropped);
      }
    }
  }

  lemma {:induction false} LessTwice(s: seq<string>, first: set<string>, second: set<string>)
    ensures Less(Less(s, first), second) == Less(s, first + second)
  {
    if s != [] {
      LessTwice(s[1..], first, second);
      if s[0] !in first {
        assert Less(s, first)[1..] == Less(s[1..], first);
      }
    }
  }

  lemma {:induction false} LessNothing(s: seq<string>)
    ensures Less(s, {}) == s
  {
    if s != [] {
      LessNothing(s[1..]);
    }
  }

  /** Deleting a scope takes it off every token that lists it. */
  function Unlinked(db: Db, name: string): Db {
    db.(scopes := db.scopes - {name},
        tokens := map k | k in db.tokens :: db.tokens[k].(scopes := Less(db.tokens[k].scopes, {name})))
  }

  predicate Audited(db: Db, ids: set<Id>) {
    exists i :: 0 <= i < |db.audits| && db.audits[i].tokenId in ids
  }

  /** All primary-key, width and reference constraints, without the unique ones. */
  predicate Coherent(db: Db) {
    && (forall u | u in db.users :: |u| <= 32)
    && (forall k | k in db.tokens :: db.tokens[k].id == k)
    && (forall k {:trigger Placed(db, db.tokens[k])} | k in db.tokens :: Placed(db, db.tokens[k]))
    && (forall i | 0 <= i < |db.audits| :: db.audits[i].tokenId in db.tokens)
  }

  predicate Sound(db: Db) {
    Coherent(db) && NoClash(db.tokens)
  }

  /** Why the database refuses a new token row, if it does. */
  function TokenRefusal(db: Db, t: Token): Option<Violation> {
    if !Fits(t) then Some(TooLong)
    else if t.id in db.tokens || (exists k | k in db.tokens :: Clash(db.tokens[k], t)) then Some(UniqueViolation)
    else if t.owner !in db.users then Some(ForeignKeyViolation)
    else if t.parent.Some? && t.parent.value !in db.tokens then Some(ForeignKeyViolation)
    else if !Distinct(t.scopes) then Some(UniqueViolation)
    else if exists i | 0 <= i < |t.scopes| :: t.scopes[i] !in db.scopes then Some(ForeignKeyViolation)
    else None
  }

  function WithToken(db: Db, t: Token): Db {
    db.(tokens := db.tokens[t.id := t])
  }

  datatype Row = TokenRow(t: Token) | UserRow(uid: string) | AuditRow(a: AuditRecord)

  /** The effect of an insert, whatever else is staged. */
  function InsertRow(db: Db, row: Row): Result<Db, Violation> {
    match row
    case TokenRow(t) =>
      (match TokenRefusal(db, t)
       case Some(v) => Err(v)
       case None => Ok(WithToken(db, t)))
    case UserRow(uid) =>
      if |uid| > 32 then Err(TooLong)
      else if uid in db.users then Err(UniqueViolation)
      else Ok(db.(users := db.users + {uid}))
    case AuditRow(a) =>
      if !RecordFits(a) then Err(TooLong)
      else if a.tokenId !in db.tokens then Err(ForeignKeyViolation)
      else Ok(db.(audits := db.audits + [a]))
  }

  function OwnedBy(db: Db, uids: set<string>): set<Id> {
    set k | k in db.tokens && db.tokens[k].owner in uids
  }

  function Without(db: Db, uids: set<string>, gone: set<Id>): Db {
    db.(users := db.users - uids, tokens := db.tokens - gone)
  }

  /** A token that stays while its parent or its owner goes. */
  predicate Dangling(db: Db, ids: set<Id>, uids: set<string>) {
    exists k :: k in db.tokens && k !in ids &&
      (db.tokens[k].owner in uids || (db.tokens[k].parent.Some? && db.tokens[k].parent.value in ids))
  }

  /** Rows are deleted as listed; a reference left behind, from a token or an audit record, refuses it. */
  function DeleteAll(db: Db, ids: set<Id>, uids: set<string>): Result<Db, Violation> {
    if Audited(db, ids) || Dangling(db, ids, uids) then Err(ForeignKeyViolation) else Ok(Without(db, uids, ids))
  }

  /** The tokens and users marked for deletion, and how a flush writes added rows beside them. */
  datatype Marks = Marks(tokens: set<Id>, users: set<string>)
  {
    /** A row added under the key of one that is marked. */
    predicate Revives(row: Row) {
      match row
      case TokenRow(t) => t.id in tokens
      case UserRow(uid) => uid in users
      case AuditRow(_) => false
    }

    /** Users go first, because tokens refer to them by relationship; then updates of tokens, new tokens, audit records. */
    function Rank(row: Row): nat {
      match row
      case UserRow(_) => 0
      case TokenRow(_) => if Revives(row) then 1 else 2
      case AuditRow(_) => 3
    }

    /** A revived row is updated in place and stays; of a user no updated column is modelled. */
    function Write(db: Db, row: Row): Result<Db, Violation> {
      if !Revives(row) then InsertRow(db, row)
      else if row.TokenRow? then
        match TokenRefusal(db.(tokens := db.tokens - {row.t.id}), row.t)
        case Some(v) => Err(v)
        case None => Ok(WithToken(db, row.t))
      else Ok(db)
    }

    function WriteAll(db: Db, rows: seq<Row>): Result<Db, Violation>
      decreases |rows|
    {
      if rows == [] then Ok(db)
      else match Write(db, rows[0])
        case Err(v) => Err(v)
        case Ok(next) => WriteAll(next, rows[1..])
    }

    function OfRank(rows: seq<Row>, rank: nat): seq<Row> {
      if rows == [] then []
      else if Rank(rows[0]) == rank then [rows[0]] + OfRank(rows[1..], rank)
      else OfRank(rows[1..], rank)
    }

    /** By rank, and as they were staged within one rank. */
    function InOrder(rows: seq<Row>): seq<Row> {
      OfRank(rows, 0) + OfRank(rows, 1) + OfRank(rows, 2) + OfRank(rows, 3)
    }

    /** What is left to delete beside the added rows. */
    function Without(rows: seq<Row>): Marks {
      Marks(set k | k in tokens && forall i | 0 <= i < |rows| :: !(rows[i].TokenRow? && rows[i].t.id == k),
            set u | u in users && UserRow(u) !in rows)
    }
  }

  const NO_MARKS := Marks({}, {})

  /** Work staged on a session: rows to insert, then tokens and users to delete. */
  datatype Pending = Pending(added: seq<Row>, removed: set<Id>, removedUsers: set<string>)

  const NOTHING := Pending([], {}, {})

  /** A flush emits updates (already in `view`), then the added rows, then deletes. */
  function Flushed(view: Db, work: Pending): Result<Db, Violation> {
    var marks := Marks(work.removed, work.removedUsers);
    if !NoClash(view.tokens) then Err(UniqueViolation)
    else match marks.WriteAll(view, marks.InOrder(work.added))
      case Err(v) => Err(v)
      case Ok(written) =>
        var left := marks.Without(work.added);
        DeleteAll(written, left.tokens, left.users)
  }

  /** A row that clashes with no other row and is placed, new or updated, keeps every constraint. */
  lemma WriteKeepsSound(db: Db, t: Token)
    requires Sound(db) && TokenRefusal(db.(tokens := db.tokens - {t.id}), t).None?
    ensures Sound(WithToken(db, t))
  {
    var others := db.tokens - {t.id};
    var next := WithToken(db, t);
    forall k | k in next.tokens ensures next.tokens[k].id == k && Placed(next, next.tokens[k]) {
      assert k != t.id ==> Placed(db, db.tokens[k]);
    }
    forall k | k in next.tokens && k != t.id ensures !Clash(next.tokens[k], t) && !Clash(t, next.tokens[k]) {
      assert !Clash(others[k], t);
    }
  }

  lemma InsertKeepsSound(db: Db, t: Token)
    requires Sound(db) && TokenRefusal(db, t).None?
    ensures Sound(WithToken(db, t))
  {
    assert db.(tokens := db.tokens - {t.id}) == db;
    WriteKeepsSound(db, t);
  }

  lemma RowKeepsSound(db: Db, marks: Marks, row: Row)
    requires Sound(db) && marks.Write(db, row).Ok?
    ensures Sound(marks.Write(db, row).value)
  {
    if row.TokenRow? {
      if marks.Revives(row) {
        WriteKeepsSound(db, row.t);
      } else {
        InsertKeepsSound(db, row.t);
      }
    } else {
      var next := marks.Write(db, row).value;
      forall k | k in next.tokens ensures Placed(next, next.tokens[k]) {
        assert Placed(db, db.tokens[k]);
      }
    }
  }

  lemma {:induction false} WriteAllKeepsSound(db: Db, marks: Marks, rows: seq<Row>)
    requires Sound(db) && marks.WriteAll(db, rows).Ok?
    ensures Sound(marks.WriteAll(db, rows).value)
    decreases |rows|
  {
    if rows != [] {
      RowKeepsSound(db, marks, rows[0]);
      WriteAllKeepsSound(marks.Write(db, rows[0]).value, marks, rows[1..]);
    }
  }

  /** Removing a downward closed, unaudited set that holds all tokens of the removed users leaves no dangling reference. */
  lemma DeleteKeepsSound(db: Db, uids: set<string>, gone: set<Id>)
    requires Sound(db) && ClosedDown(db.tokens, gone)
    requires OwnedBy(db, uids) <= gone && !Audited(db, gone)
    ensures Sound(Without(db, uids, gone))
  {
    var next := Without(db, uids, gone);
    forall k | k in next.tokens ensures next.tokens[k].id == k && Placed(next, next.tokens[k]) {
      assert Placed(db, db.tokens[k]);
      assert k !in OwnedBy(db, uids);
    }
  }

  /** So the cascade from given roots, when nothing below them is audited, keeps every constraint. */
  lemma CascadeKeepsSound(db: Db, uids: set<string>, roots: set<Id>)
    requires Sound(db) && OwnedBy(db, uids) <= roots
    requires !Audited(db, Below(db.tokens, roots))
    ensures Sound(Without(db, uids, Below(db.tokens, roots)))
  {
    BelowHasRoots(db.tokens, roots);
    BelowIsClosed(db.tokens, roots);
    DeleteKeepsSound(db, uids, Below(db.tokens, roots));
  }

  /** A cascade that starts from all tokens of the removed users leaves nothing dangling. */
  lemma CascadeLeavesNothingDangling(db: Db, uids: set<string>, roots: set<Id>)
    requires OwnedBy(db, uids) <= roots
    ensures !Dangling(db, Below(db.tokens, roots), uids)
  {
    BelowHasRoots(db.tokens, roots);
    BelowIsClosed(db.tokens, roots);
    assert forall k | k in db.tokens && db.tokens[k].owner in uids :: k in OwnedBy(db, uids);
  }

  /** Updates that keep each row's identity and place keep every key and reference. */
  lemma UpdateKeepsCoherent(db: Db, next: map<Id, Token>)
    requires Coherent(db) && next.Keys == db.tokens.Keys
    requires forall k | k in next ::
      && next[k].id == k && next[k].owner == db.tokens[k].owner && next[k].name == db.tokens[k].name
      && next[k].parent == db.tokens[k].parent && next[k].external == db.tokens[k].external
      && next[k].scopes == db.tokens[k].scopes
    ensures Coherent(db.(tokens := next))
  {
    forall k | k in next ensures Placed(db.(tokens := next), next[k]) {
      assert Placed(db, db.tokens[k]);
    }
  }

  lemma UnlinkedKeepsSound(db: Db, name: string)
    requires Sound(db)
    ensures Sound(Unlinked(db, name))
  {
    var next := Unlinked(db, name);
    NoClashKeeps(db.tokens, next.tokens);
    forall k | k in next.tokens ensures Placed(next, next.tokens[k]) {
      var t := db.tokens[k];
      assert Placed(db, t);
      LessHas(t.scopes, {name});
      forall i | 0 <= i < |next.tokens[k].scopes| ensures next.tokens[k].scopes[i] in next.scopes {
        assert next.tokens[k].scopes[i] in Less(t.scopes, {name});
      }
    }
  }

  /** Neither users that are added nor audit records that refer to stored tokens disturb the constraints. */
  lemma SurroundingsKeepSound(db: Db, users: set<string>, audits: seq<AuditRecord>)
    requires Sound(db) && db.users <= users && forall u | u in users :: |u| <= 32
    requires forall i | 0 <= i < |audits| :: audits[i].tokenId in db.tokens
    ensures Sound(db.(users := users, audits := audits))
  {
    var next := db.(users := users, audits := audits);
    forall k | k in next.tokens ensures Placed(next, next.tokens[k]) {
      assert Placed(db, db.tokens[k]);
    }
  }

  /** Whatever work was staged, a flush that succeeds leaves tables that meet every constraint. */
  lemma FlushedIsSound(view: Db, work: Pending)
    requires Coherent(view) && Flushed(view, work).Ok?
    ensures Sound(Flushed(view, work).value)
  {
    var marks := Marks(work.removed, work.removedUsers);
    var rows, left := marks.InOrder(work.added), marks.Without(work.added);
    WriteAllKeepsSound(view, marks, rows);
    DeleteKeepsSound(marks.WriteAll(view, rows).value, left.users, left.tokens);
  }

  // Flushes of little work

  lemma NothingToDelete(db: Db)
    ensures DeleteAll(db, {}, {}) == Ok(db)
  {
    assert !Dangling(db, {}, {});
    assert Without(db, {}, {}) == db;
  }

  lemma OneOfRank(marks: Marks, row: Row, rank: nat)
    ensures marks.OfRank([row], rank) == if marks.Rank(row) == rank then [row] else []
  {
    assert [row][1..] == [];
  }

  lemma OneRowInOrder(marks: Marks, row: Row)
    ensures marks.InOrder([row]) == [row]
    ensures forall db :: marks.WriteAll(db, [row]) == marks.Write(db, row)
  {
    OneOfRank(marks, row, 0);
    OneOfRank(marks, row, 1);
    OneOfRank(marks, row, 2);
    OneOfRank(marks, row, 3);
    assert [row][1..] == [];
  }

  lemma NothingStaged(view: Db)
    ensures Flushed(view, NOTHING) == if NoClash(view.tokens) then Ok(view) else Err(UniqueViolation)
  {
    assert NO_MARKS.InOrder([]) == [] && NO_MARKS.Without([]) == NO_MARKS;
    NothingToDelete(view);
  }

  lemma OneRowStaged(view: Db, row: Row)
    requires NoClash(view.tokens)
    ensures Flushed(view, Pending([row], {}, {})) == InsertRow(view, row)
  {
    OneRowInOrder(NO_MARKS, row);
    assert NO_MARKS.Without([row]) == NO_MARKS;
    if InsertRow(view, row).Ok? {
      NothingToDelete(InsertRow(view, row).value);
    }
  }

  lemma RemovalStaged(view: Db, removed: set<Id>, removedUsers: set<string>)
    requires NoClash(view.tokens)
    ensures Flushed(view, Pending([], removed, removedUsers)) == DeleteAll(view, removed, removedUsers)
  {
    var marks := Marks(removed, removedUsers);
    assert marks.InOrder([]) == [] && marks.Without([]) == marks;
  }

  /** Writing two batches of rows is writing the first and then the second; it fails if either would. */
  lemma {:induction false} BatchesCompose(db: Db, marks: Marks, first: seq<Row>, second: seq<Row>)
    ensures marks.WriteAll(db, first + second) ==
      match marks.WriteAll(db, first)
      case Err(v) => Err(v)
      case Ok(mid) => marks.WriteAll(mid, second)
    decreases |first|
  {
    if first == [] {
      assert first + second == second;
    } else {
      assert (first + second)[1..] == first[1..] + second;
      match marks.Write(db, first[0])
      case Err(v) =>
      case Ok(next) => BatchesCompose(next, marks, first[1..], second);
    }
  }
}
