/** Listing the audit table: filters, order, pages, and what a cleanup leaves of the list. */
module AuditLog {
  import opened Prelude
  import opened Model
  import opened UnitOfWork
  import opened ServiceSpec

  /** The arguments of `list_audits` that select rows; an absent or empty one selects nothing out. */
  datatype Criteria = Criteria(
    event: Option<string>,
    failure: Option<string>,
    requestMethod: Option<string>,
    tokenId: Option<string>,
    source: Option<string>,
    destination: Option<string>)

  /** One comparison of a column with a value, as added to the query's `where`. */
  datatype Filter =
    | EventIs(value: string)
    | FailureIs(value: string)
    | MethodIs(value: string)
    | TokenIs(value: string)
    | SourceIs(value: string)
    | DestinationIs(value: string)
  {
    predicate Selects(a: AuditRecord) {
      match this
      case EventIs(v) => a.event == v
      case FailureIs(v) => a.failure == Some(v)
      case MethodIs(v) => a.requestMethod == v
      case TokenIs(v) => a.tokenId == v
      case SourceIs(v) => a.source == v
      case DestinationIs(v) => a.destination == v
    }
  }

  predicate SelectsAll(filters: seq<Filter>, a: AuditRecord) {
    forall i | 0 <= i < |filters| :: filters[i].Selects(a)
  }

  /** `a` meets every criterion that was given. */
  predicate Meets(c: Criteria, a: AuditRecord) {
    && (Truthy(c.event) ==> a.event == c.event.value)
    && (Truthy(c.failure) ==> a.failure == c.failure)
    && (Truthy(c.requestMethod) ==> a.requestMethod == c.requestMethod.value)
    && (Truthy(c.tokenId) ==> a.tokenId == c.tokenId.value)
    && (Truthy(c.source) ==> a.source == c.source.value)
    && (Truthy(c.destination) ==> a.destination == c.destination.value)
  }

  function Meeting(c: Criteria, rows: seq<AuditRecord>): seq<AuditRecord> {
    if rows == [] then []
    else if Meets(c, rows[0]) then [rows[0]] + Meeting(c, rows[1..])
    else Meeting(c, rows[1..])
  }

  predicate InOrder(a: AuditRecord, b: AuditRecord, desc: bool) {
    if desc then a.timestamp >= b.timestamp else a.timestamp <= b.timestamp
  }

  function Insert(a: AuditRecord, s: seq<AuditRecord>, desc: bool): seq<AuditRecord> {
    if s == [] || InOrder(a, s[0], desc) then [a] + s else [s[0]] + Insert(a, s[1..], desc)
  }

  /** The rows by timestamp; rows with equal timestamps come in table order. */
  function Ordered(rows: seq<AuditRecord>, desc: bool): seq<AuditRecord> {
    if rows == [] then [] else Insert(rows[0], Ordered(rows[1..], desc), desc)
  }

  ghost predicate IsOrdered(s: seq<AuditRecord>, desc: bool) {
    forall i, j | 0 <= i < j < |s| :: InOrder(s[i], s[j], desc)
  }

  function Listing(c: Criteria, rows: seq<AuditRecord>, desc: bool): seq<AuditRecord> {
    Ordered(Meeting(c, rows), desc)
  }

  /** OFFSET and LIMIT: zero leaves the clause out, a negative value is rejected by the database. */
  function Slice(rows: seq<AuditRecord>, offset: int, limit: int): Result<seq<AuditRecord>, Error> {
    if offset < 0 || limit < 0 then Err(DatabaseError)
    else
      var rest := if offset <= |rows| then rows[offset..] else [];
      Ok(if limit == 0 || |rest| <= limit then rest else rest[..limit])
  }

  /** A slice skips `offset` rows and ends after `limit` more, or with the rows; a page past the end is empty. */
  lemma SliceOutcomes(rows: seq<AuditRecord>, offset: int, limit: int)
    ensures offset < 0 || limit < 0 <==> Slice(rows, offset, limit) == Err(DatabaseError)
    ensures 0 <= offset && 0 <= limit ==>
      var first := if offset < |rows| then offset else |rows|;
      var end := if limit > 0 && offset + limit < |rows| then offset + limit else |rows|;
      Slice(rows, offset, limit) == Ok(rows[first..end])
  {
    if 0 <= offset <= |rows| && 0 <= limit {
      var rest := rows[offset..];
      assert rest == rows[offset..|rows|];
      if limit < |rest| {
        assert rest[..limit] == rows[offset..offset + limit];
      }
    } else {
      assert rows[|rows|..|rows|] == [];
    }
  }

  /** The page of a listing and the number of the next page, if the page is full. */
  function Page(rows: seq<AuditRecord>, page: int, size: int): Result<(seq<AuditRecord>, Option<int>), Error> {
    match Slice(rows, (page - 1) * size, size)
    case Err(e) => Err(e)
    case Ok(got) => Ok((got, if |got| == size then Some(page + 1) else None))
  }

  /** The page skips the pages before it and ends after `size` rows, or with the rows; exactly a full one names the next. */
  lemma PageOutcomes(rows: seq<AuditRecord>, page: int, size: int)
    ensures (page - 1) * size < 0 || size < 0 <==> Page(rows, page, size) == Err(DatabaseError)
    ensures 0 <= (page - 1) * size && 0 <= size ==>
      var offset := (page - 1) * size;
      var first := if offset < |rows| then offset else |rows|;
      var end := if size > 0 && offset + size < |rows| then offset + size else |rows|;
      Page(rows, page, size) == Ok((rows[first..end], if end - first == size then Some(page + 1) else None))
  {
    SliceOutcomes(rows, (page - 1) * size, size);
  }

  lemma {:induction false} FilteredIsMeeting(c: Criteria, filters: seq<Filter>, rows: seq<AuditRecord>)
    requires forall a :: SelectsAll(filters, a) <==> Meets(c, a)
    ensures Filtered(filters, rows) == Meeting(c, rows)
  {
    if rows != [] {
      FilteredIsMeeting(c, filters, rows[1..]);
    }
  }

  function Filtered(filters: seq<Filter>, rows: seq<AuditRecord>): seq<AuditRecord> {
    if rows == [] then []
    else if SelectsAll(filters, rows[0]) then [rows[0]] + Filtered(filters, rows[1..])
    else Filtered(filters, rows[1..])
  }

  lemma Appends(filters: seq<Filter>, f: Filter)
    ensures forall a :: SelectsAll(filters + [f], a) <==> SelectsAll(filters, a) && f.Selects(a)
  {
    forall a ensures SelectsAll(filters + [f], a) <==> SelectsAll(filters, a) && f.Selects(a) {
      assert (filters + [f])[|filters|] == f;
      assert forall i | 0 <= i < |filters| :: (filters + [f])[i] == filters[i];
    }
  }

  /** `SqlAuditRepo.list`: the query is rebuilt clause by clause, then run. */
  method List(s: Session, filters: seq<Filter>, orderBy: Option<string>, offset: int, limit: int)
    returns (r: Result<seq<AuditRecord>, Error>)
    ensures r == Slice(Ordered(Filtered(filters, s.view.audits), orderBy == Some("desc")), offset, limit)
  {
    var query := s.view.audits;
    if filters != [] {
      query := Filtered(filters, query);
    } else {
      NoFilters(query);
    }
    query := Ordered(query, orderBy == Some("desc"));
    if offset < 0 || limit < 0 {
      return Err(DatabaseError);
    }
    if offset != 0 {
      query := if offset <= |query| then query[offset..] else [];
    }
    if limit != 0 && limit < |query| {
      query := query[..limit];
    }
    r := Ok(query);
  }

  lemma {:induction false} NoFilters(rows: seq<AuditRecord>)
    ensures Filtered([], rows) == rows
  {
    if rows != [] {
      NoFilters(rows[1..]);
    }
  }

  method Filters(c: Criteria) returns (filters: seq<Filter>)
    ensures forall a :: SelectsAll(filters, a) <==> Meets(c, a)
  {
    filters := [];
    if Truthy(c.event) {
      Appends(filters, EventIs(c.event.value));
      filters := filters + [EventIs(c.event.value)];
    }
    if Truthy(c.failure) {
      Appends(filters, FailureIs(c.failure.value));
      filters := filters + [FailureIs(c.failure.value)];
    }
    if Truthy(c.requestMethod) {
      Appends(filters, MethodIs(c.requestMethod.value));
      filters := filters + [MethodIs(c.requestMethod.value)];
    }
    if Truthy(c.tokenId) {
      Appends(filters, TokenIs(c.tokenId.value));
      filters := filters + [TokenIs(c.tokenId.value)];
    }
    if Truthy(c.source) {
      Appends(filters, SourceIs(c.source.value));
      filters := filters + [SourceIs(c.source.value)];
    }
    if Truthy(c.destination) {
      Appends(filters, DestinationIs(c.destination.value));
      filters := filters + [DestinationIs(c.destination.value)];
    }
  }

  /** `list_audits` returns the asked page of the rows that meet every given criterion, in time order. */
  method ListAudits(d: Database, c: Criteria, orderBy: Option<string>, page: int, size: int)
    returns (r: Result<(seq<AuditRecord>, Option<int>), Error>)
    ensures r == Page(Listing(c, d.committed.audits, orderBy == Some("desc")), page, size)
  {
    var filters := Filters(c);
    var s := new Session(d);
    FilteredIsMeeting(c, filters, s.view.audits);
    var got := List(s, filters, orderBy, (page - 1) * size, size);
    match got {
      case Err(e) => r := Err(e);
      case Ok(rows) => r := Ok((rows, if |rows| == size then Some(page + 1) else None));
    }
  }

  // The list

  lemma {:induction false} InsertPermutes(a: AuditRecord, s: seq<AuditRecord>, desc: bool)
    ensures multiset(Insert(a, s, desc)) == multiset(s) + multiset{a}
  {
    if s != [] && !InOrder(a, s[0], desc) {
      InsertPermutes(a, s[1..], desc);
      assert s == [s[0]] + s[1..];
    }
  }

  lemma {:induction false} InsertKeeps(a: AuditRecord, s: seq<AuditRecord>, desc: bool)
    requires IsOrdered(s, desc)
    ensures IsOrdered(Insert(a, s, desc), desc)
  {
    if s != [] && !InOrder(a, s[0], desc) {
      InsertKeeps(a, s[1..], desc);
      InsertPermutes(a, s[1..], desc);
      var rest := Insert(a, s[1..], desc);
      forall j | 0 <= j < |rest| ensures InOrder(s[0], rest[j], desc) {
        assert rest[j] in multiset(rest);
      }
    }
  }

  /** A criterion that is absent or empty admits every value. */
  predicate Admits(wanted: Option<string>, value: Option<string>) {
    wanted == None || wanted == Some("") || wanted == value
  }

  predicate Wanted(c: Criteria, a: AuditRecord) {
    && Admits(c.event, Some(a.event)) && Admits(c.failure, a.failure)
    && Admits(c.requestMethod, Some(a.requestMethod)) && Admits(c.tokenId, Some(a.tokenId))
    && Admits(c.source, Some(a.source)) && Admits(c.destination, Some(a.destination))
  }

  /** The listing is in time order and holds exactly the stored rows that meet the criteria. */
  lemma {:induction false} ListingIsOrderedSelection(c: Criteria, rows: seq<AuditRecord>, desc: bool)
    ensures var list := Listing(c, rows, desc);
      forall i, j | 0 <= i < j < |list| ::
        if desc then list[i].timestamp >= list[j].timestamp else list[i].timestamp <= list[j].timestamp
    ensures forall a :: multiset(Listing(c, rows, desc))[a] == if Wanted(c, a) then multiset(rows)[a] else 0
  {
    hide Meets, Wanted;
    OrderedIsPermutation(Meeting(c, rows), desc);
    InOrderIsByTime(Listing(c, rows, desc), desc);
    forall a ensures multiset(Meeting(c, rows))[a] == if Wanted(c, a) then multiset(rows)[a] else 0 {
      MeetingCounts(c, rows, a);
      MeetsIsWanted(c, a);
    }
  }

  lemma MeetsIsWanted(c: Criteria, a: AuditRecord)
    ensures Meets(c, a) <==> Wanted(c, a)
  {
  }

  lemma InOrderIsByTime(list: seq<AuditRecord>, desc: bool)
    requires IsOrdered(list, desc)
    ensures forall i, j | 0 <= i < j < |list| ::
      if desc then list[i].timestamp >= list[j].timestamp else list[i].timestamp <= list[j].timestamp
  {
    forall i, j | 0 <= i < j < |list|
      ensures if desc then list[i].timestamp >= list[j].timestamp else list[i].timestamp <= list[j].timestamp
    {
      assert InOrder(list[i], list[j], desc);
    }
  }

  lemma {:induction false} OrderedIsPermutation(rows: seq<AuditRecord>, desc: bool)
    ensures IsOrdered(Ordered(rows, desc), desc) && multiset(Ordered(rows, desc)) == multiset(rows)
  {
    if rows != [] {
      OrderedIsPermutation(rows[1..], desc);
      InsertKeeps(rows[0], Ordered(rows[1..], desc), desc);
      InsertPermutes(rows[0], Ordered(rows[1..], desc), desc);
      assert rows == [rows[0]] + rows[1..];
    }
  }

  lemma {:induction false} MeetingCounts(c: Criteria, rows: seq<AuditRecord>, a: AuditRecord)
    ensures multiset(Meeting(c, rows))[a] == if Meets(c, a) then multiset(rows)[a] else 0
  {
    if rows != [] {
      MeetingCounts(c, rows[1..], a);
      assert rows == [rows[0]] + rows[1..];
    }
  }

  // Pages

  /** Fetch page after page, following the next-page number while there is one. */
  function Follow(rows: seq<AuditRecord>, page: int, size: int): seq<seq<AuditRecord>>
    requires page >= 1 && size >= 1
    decreases |rows| - (page - 1) * size + size
  {
    match Page(rows, page, size)
    case Err(_) => []
    case Ok((got, None)) => [got]
    case Ok((got, Some(next))) =>
      assert (next - 1) * size == (page - 1) * size + size;
      [got] + Follow(rows, next, size)
  }

  function Concat(pages: seq<seq<AuditRecord>>): seq<AuditRecord> {
    if pages == [] then [] else pages[0] + Concat(pages[1..])
  }

  lemma PageAt(rows: seq<AuditRecord>, page: int, size: int)
    requires page >= 1 && size >= 1 && (page - 1) * size <= |rows|
    ensures 0 <= (page - 1) * size && page * size == (page - 1) * size + size
    ensures var rest := rows[(page - 1) * size..];
      Page(rows, page, size) == Ok(if |rest| < size then (rest, None) else (rest[..size], Some(page + 1)))
  {
    var rest := rows[(page - 1) * size..];
    assert rest[..|rest|] == rest;
  }

  lemma {:induction false} FollowFrom(rows: seq<AuditRecord>, page: int, size: int)
    requires page >= 1 && size >= 1 && 0 <= (page - 1) * size <= |rows|
    ensures Concat(Follow(rows, page, size)) == rows[(page - 1) * size..]
    ensures |Follow(rows, page, size)| == (|rows| - (page - 1) * size) / size + 1
    decreases |rows| - (page - 1) * size
  {
    PageAt(rows, page, size);
    var offset := (page - 1) * size;
    var rest := rows[offset..];
    if |rest| < size {
      assert Concat([rest]) == rest;
      SmallQuotient(|rest|, size);
    } else {
      FollowFrom(rows, page + 1, size);
      var later := Follow(rows, page + 1, size);
      assert ([rest[..size]] + later)[1..] == later;
      assert rest == rest[..size] + rows[offset + size..];
      OneMorePage(|rest|, size);
    }
  }

  lemma SmallQuotient(n: int, size: int)
    requires 0 <= n < size
    ensures n / size == 0
  {
  }

  lemma {:induction false} OneMorePage(n: int, size: int)
    requires n >= size >= 1
    ensures n / size == (n - size) / size + 1
  {
    var p, q := n / size, (n - size) / size;
    assert n == p * size + n % size;
    assert n - size == q * size + (n - size) % size;
    SmallMultiple(p - (q + 1), size);
  }

  lemma SmallMultiple(k: int, d: int)
    requires d >= 1 && -d < k * d < d
    ensures k == 0
  {
    assert k >= 1 ==> k * d >= d;
    assert k <= -1 ==> k * d <= -d;
  }

  /**
   * Following next-page from page 1 ends after `|list| / size + 1` fetches, and the pages put
   * together are the whole listing, nothing missed and nothing repeated.
   */
  lemma {:induction false} PagesCoverTheListing(c: Criteria, rows: seq<AuditRecord>, desc: bool, size: int)
    requires size >= 1
    ensures var list := Listing(c, rows, desc);
      Concat(Follow(list, 1, size)) == list && |Follow(list, 1, size)| == |list| / size + 1
  {
    FollowFrom(Listing(c, rows, desc), 1, size);
  }

  // Cleanup

  lemma {:induction false} MeetingSince(c: Criteria, rows: seq<AuditRecord>, cutoff: int)
    ensures Meeting(c, Since(rows, cutoff)) == Since(Meeting(c, rows), cutoff)
  {
    if rows != [] {
      MeetingSince(c, rows[1..], cutoff);
      if rows[0].timestamp >= cutoff {
        assert Since(rows, cutoff)[1..] == Since(rows[1..], cutoff);
      }
      if Meets(c, rows[0]) {
        assert Meeting(c, rows)[1..] == Meeting(c, rows[1..]);
      }
    }
  }

  lemma {:induction false} InsertSince(a: AuditRecord, s: seq<AuditRecord>, cutoff: int)
    requires IsOrdered(s, false)
    ensures Since(Insert(a, s, false), cutoff) ==
      if a.timestamp >= cutoff then Insert(a, Since(s, cutoff), false) else Since(s, cutoff)
  {
    var t := Insert(a, s, false);
    if s == [] || InOrder(a, s[0], false) {
      assert t[1..] == s;
      if a.timestamp >= cutoff {
        OrderedSinceIsSuffix(s, cutoff);
      }
    } else {
      InsertSince(a, s[1..], cutoff);
      assert t[1..] == Insert(a, s[1..], false);
      if s[0].timestamp >= cutoff {
        assert Since(s, cutoff)[1..] == Since(s[1..], cutoff);
      }
    }
  }

  /** In ascending order, dropping everything before a cutoff leaves a suffix. */
  lemma {:induction false} OrderedSinceIsSuffix(s: seq<AuditRecord>, cutoff: int)
    requires IsOrdered(s, false)
    ensures |Since(s, cutoff)| <= |s| && Since(s, cutoff) == s[|s| - |Since(s, cutoff)|..]
    ensures s != [] && s[0].timestamp >= cutoff ==> Since(s, cutoff) == s
  {
    if s != [] {
      OrderedSinceIsSuffix(s[1..], cutoff);
    }
  }

  lemma {:induction false} OrderedSince(rows: seq<AuditRecord>, cutoff: int)
    ensures Ordered(Since(rows, cutoff), false) == Since(Ordered(rows, false), cutoff)
  {
    if rows != [] {
      OrderedSince(rows[1..], cutoff);
      OrderedIsPermutation(rows[1..], false);
      InsertSince(rows[0], Ordered(rows[1..], false), cutoff);
      if rows[0].timestamp >= cutoff {
        assert Since(rows, cutoff)[1..] == Since(rows[1..], cutoff);
      }
    }
  }

  lemma ListingSince(c: Criteria, rows: seq<AuditRecord>, cutoff: int)
    ensures Listing(c, Since(rows, cutoff), false) == Since(Listing(c, rows, false), cutoff)
  {
    MeetingSince(c, rows, cutoff);
    OrderedSince(Meeting(c, rows), cutoff);
  }

  lemma {:induction false} SinceSplits(s: seq<AuditRecord>, cutoff: int)
    requires IsOrdered(s, false)
    ensures |Since(s, cutoff)| <= |s|
    ensures forall i | 0 <= i < |s| - |Since(s, cutoff)| :: s[i].timestamp < cutoff
    ensures forall i | 0 <= i < |Since(s, cutoff)| :: Since(s, cutoff)[i].timestamp >= cutoff
  {
    if s != [] {
      OrderedSinceIsSuffix(s, cutoff);
      SinceSplits(s[1..], cutoff);
    }
  }

  /** `after` is the part of `before` not older than the cutoff, and a suffix of it. */
  ghost predicate SuffixFrom(before: seq<AuditRecord>, after: seq<AuditRecord>, cutoff: int) {
    && |after| <= |before| && after == before[|before| - |after|..]
    && (forall i | 0 <= i < |before| - |after| :: before[i].timestamp < cutoff)
    && (forall i | 0 <= i < |after| :: after[i].timestamp >= cutoff)
  }

  lemma SinceIsSuffixFrom(s: seq<AuditRecord>, cutoff: int)
    requires IsOrdered(s, false)
    ensures SuffixFrom(s, Since(s, cutoff), cutoff)
  {
    OrderedSinceIsSuffix(s, cutoff);
    SinceSplits(s, cutoff);
  }

  /** After a cleanup, every ascending listing, ties in table order, is the suffix of the old one from the cutoff on. */
  lemma CleanedListingIsSuffix(db: Db, days: int, now: int, c: Criteria)
    ensures SuffixFrom(Listing(c, db.audits, false), Listing(c, AuditsCleaned(db, days, now).0.audits, false), now - days * DAY)
  {
    ListingSince(c, db.audits, now - days * DAY);
    OrderedIsPermutation(Meeting(c, db.audits), false);
    SinceIsSuffixFrom(Listing(c, db.audits, false), now - days * DAY);
  }

  /** A stored row with its place in some fixed order of rows with equal timestamps. */
  datatype Ranked = Ranked(rank: int, row: AuditRecord)

  function Rows(table: seq<Ranked>): seq<AuditRecord> {
    seq(|table|, i requires 0 <= i < |table| => table[i].row)
  }

  /** The rows a cleanup leaves, each with the rank it had. */
  function Kept(table: seq<Ranked>, cutoff: int): seq<Ranked> {
    if table == [] then []
    else if table[0].row.timestamp < cutoff then Kept(table[1..], cutoff)
    else [table[0]] + Kept(table[1..], cutoff)
  }

  lemma {:induction false} KeptIsSince(table: seq<Ranked>, cutoff: int)
    ensures Rows(Kept(table, cutoff)) == Since(Rows(table), cutoff)
    ensures forall r :: r in Kept(table, cutoff) <==> r in table && r.row.timestamp >= cutoff
  {
    if table != [] {
      KeptIsSince(table[1..], cutoff);
      assert Rows(table)[1..] == Rows(table[1..]);
      assert table == [table[0]] + table[1..];
      if table[0].row.timestamp >= cutoff {
        assert Rows([table[0]] + Kept(table[1..], cutoff)) == [table[0].row] + Rows(Kept(table[1..], cutoff));
      }
    }
  }

  predicate Precedes(a: Ranked, b: Ranked) {
    a.row.timestamp < b.row.timestamp || (a.row.timestamp == b.row.timestamp && a.rank < b.rank)
  }

  ghost predicate Ascending(s: seq<Ranked>) {
    forall i, j | 0 <= i < j < |s| :: Precedes(s[i], s[j])
  }

  /** `s` lists exactly the rows of the table that meet the criteria, by timestamp and then rank. */
  ghost predicate Lists(c: Criteria, table: seq<Ranked>, s: seq<Ranked>) {
    Ascending(s) && forall r :: r in s <==> r in table && Meets(c, r.row)
  }

  lemma HeadIsLeast(s: seq<Ranked>, r: Ranked)
    requires Ascending(s) && s != []
    ensures r in s[1..] <==> r in s && r != s[0]
  {
    assert s == [s[0]] + s[1..];
    if i :| 1 <= i < |s| && s[i] == r {
      assert Precedes(s[0], s[i]);
    }
  }

  lemma {:induction false} AscendingIsUnique(a: seq<Ranked>, b: seq<Ranked>)
    requires Ascending(a) && Ascending(b) && forall r :: r in a <==> r in b
    ensures a == b
    decreases |a|
  {
    assert a != [] ==> a[0] in b;
    assert b != [] ==> b[0] in a;
    if a != [] {
      assert a[0] == b[0];
      forall r ensures r in a[1..] <==> r in b[1..] {
        HeadIsLeast(a, r);
        HeadIsLeast(b, r);
      }
      AscendingIsUnique(a[1..], b[1..]);
    }
  }

  lemma {:induction false} CutPoint(s: seq<Ranked>, cutoff: int) returns (p: nat)
    requires Ascending(s)
    ensures p <= |s|
    ensures forall i | 0 <= i < p :: s[i].row.timestamp < cutoff
    ensures forall i | p <= i < |s| :: s[i].row.timestamp >= cutoff
  {
    p := |s|;
    while p > 0 && s[p - 1].row.timestamp >= cutoff
      invariant p <= |s|
      invariant forall i | p <= i < |s| :: s[i].row.timestamp >= cutoff
    {
      p := p - 1;
    }
    assert p > 0 ==> forall i | 0 <= i < p - 1 :: Precedes(s[i], s[p - 1]);
  }

  lemma SuffixOfAscending(before: seq<Ranked>, after: seq<Ranked>, cutoff: int)
    requires Ascending(before) && Ascending(after)
    requires forall r :: r in after <==> r in before && r.row.timestamp >= cutoff
    ensures SuffixFrom(Rows(before), Rows(after), cutoff)
  {
    var p := CutPoint(before, cutoff);
    var rest := before[p..];
    forall r ensures r in rest <==> r in after {
      assert before == before[..p] + rest;
    }
    AscendingIsUnique(rest, after);
    assert Rows(after) == Rows(before)[p..];
  }

  /**
   * The same in any fixed order of ties that the cleanup leaves alone: the rows it leaves, listed
   * by timestamp and rank, are the suffix of the old list from the cutoff on.
   */
  lemma CleanupLeavesASuffix(db: Db, table: seq<Ranked>, days: int, now: int, c: Criteria,
                             before: seq<Ranked>, after: seq<Ranked>)
    requires Rows(table) == db.audits && forall i, j | 0 <= i < j < |table| :: table[i].rank != table[j].rank
    requires Lists(c, table, before) && Lists(c, Kept(table, now - days * DAY), after)
    ensures Rows(Kept(table, now - days * DAY)) == AuditsCleaned(db, days, now).0.audits
    ensures SuffixFrom(Rows(before), Rows(after), now - days * DAY)
  {
    KeptIsSince(table, now - days * DAY);
    SuffixOfAscending(before, after, now - days * DAY);
  }
}
