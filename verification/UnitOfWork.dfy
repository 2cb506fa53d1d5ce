/** The database, the transaction a unit of work runs in, and what leaving the outermost unit does. */
module UnitOfWork {
  import opened Prelude
  import opened Model
  import opened Forest
  import opened Schema

  /** An open transaction: the tables as it sees them, attribute updates applied, and the work staged since its last flush. */
  datatype Txn = Txn(view: Db, pending: Pending)

  /** A body of a unit of work: the transaction it leaves, and the value it returns or the exception it raises. */
  type Ran<T> = (Txn, Result<T, Error>)

  /** What a call does to the committed tables, and the value it returns or the exception it raises. */
  type Effect<T> = (Db, Result<T, Error>)

  function Opened(tables: Db): Txn {
    Txn(tables, NOTHING)
  }

  /** How a flush in the body raises a violation. */
  function FlushError(v: Violation): Error {
    if v.TooLong? then DataError else IntegrityError(v)
  }

  /** Every query first flushes staged work; a violation is raised in the body, unmapped. */
  function Queried(txn: Txn): Result<Txn, Error> {
    match Flushed(txn.view, txn.pending)
    case Ok(tables) => Ok(Opened(tables))
    case Err(v) => Err(FlushError(v))
  }

  /** How a failing commit is reported: by its message, every unique failure is an `AlreadyExists`. */
  function CommitError(v: Violation): Error {
    if v.UniqueViolation? then UowAlreadyExists else UowException
  }

  /** The `except` clauses around a unit: for uow.NotFound, uow.AlreadyExists, and UOWException, their base. */
  datatype Clauses = Clauses(notFound: Option<Error>, alreadyExists: Option<Error>, other: Option<Error>)

  const BARE := Clauses(None, None, None)

  function Handled(c: Clauses, e: Error): Error {
    match e
    case UowNotFound => if c.notFound.Some? then c.notFound.value else if c.other.Some? then c.other.value else e
    case UowAlreadyExists => if c.alreadyExists.Some? then c.alreadyExists.value else if c.other.Some? then c.other.value else e
    case UowException => if c.other.Some? then c.other.value else e
    case _ => e
  }

  /** Leaving the outermost unit: an exception skips the commit; a refused commit rolls back and is raised mapped. */
  function Closed<T>(before: Db, ran: Ran<T>, c: Clauses): Effect<T> {
    match ran.1
    case Err(e) => (before, Err(Handled(c, e)))
    case Ok(value) =>
      match Flushed(ran.0.view, ran.0.pending)
      case Ok(tables) => (tables, Ok(value))
      case Err(v) => (before, Err(Handled(c, CommitError(v))))
  }

  /** The committed tables. */
  class Database {
    var committed: Db

    constructor (tables: Db)
      ensures committed == tables
    {
      committed := tables;
    }
  }

  /**
   * One session. A nested unit of work is the same session again; only the outermost one commits,
   * and leaving it by an exception never reaches `Commit`.
   */
  class Session {
    const database: Database
    var view: Db
    var pending: Pending

    constructor (database: Database)
      ensures this.database == database && State() == Opened(database.committed)
    {
      this.database := database;
      view := database.committed;
      pending := NOTHING;
    }

    function State(): Txn
      reads this
    {
      Txn(view, pending)
    }

    method Add(row: Row)
      modifies this
      ensures view == old(view) && pending == old(pending).(added := old(pending).added + [row])
    {
      pending := pending.(added := pending.added + [row]);
    }

    /** `SqlTokenRepo.remove`: the token and everything below it are marked for deletion. */
    method RemoveToken(id: Id) returns (r: Result<(), Error>)
      modifies this
      ensures view == old(view)
      ensures id in view.tokens ==>
        r == Ok(()) && pending == old(pending).(removed := old(pending).removed + Below(view.tokens, {id}))
      ensures id !in view.tokens ==> r == Err(RepoNotFound) && pending == old(pending)
    {
      if id !in view.tokens {
        return Err(RepoNotFound);
      }
      var gone := Cascade(view.tokens, {id});
      pending := pending.(removed := pending.removed + gone);
      r := Ok(());
    }

    /** `SqlUserRepo.remove`: the user, the user's tokens and everything below them are marked. */
    method RemoveUser(uid: string) returns (r: Result<(), Error>)
      modifies this
      ensures view == old(view)
      ensures uid in view.users ==> r == Ok(()) && pending == old(pending).(
        removed := old(pending).removed + Below(view.tokens, OwnedBy(view, {uid})),
        removedUsers := old(pending).removedUsers + {uid})
      ensures uid !in view.users ==> r == Err(RepoNotFound) && pending == old(pending)
    {
      if uid !in view.users {
        return Err(RepoNotFound);
      }
      var gone := Cascade(view.tokens, OwnedBy(view, {uid}));
      pending := pending.(removed := pending.removed + gone, removedUsers := pending.removedUsers + {uid});
      r := Ok(());
    }

    /** An attribute update of a loaded token. */
    method SetToken(t: Token)
      modifies this
      ensures view == WithToken(old(view), t) && pending == old(pending)
    {
      view := WithToken(view, t);
    }

    /** `SqlScopeRepo.remove`: deleting a scope and its links meets no constraint, so it is applied at once. */
    method RemoveScope(name: string) returns (r: Result<(), Error>)
      modifies this
      ensures pending == old(pending)
      ensures name in old(view).scopes ==> r == Ok(()) && view == Unlinked(old(view), name)
      ensures name !in old(view).scopes ==> r == Err(RepoNotFound) && view == old(view)
    {
      if name !in view.scopes {
        return Err(RepoNotFound);
      }
      view := Unlinked(view, name);
      r := Ok(());
    }

    /** A delete statement runs at once, on the session's tables. */
    method SetAudits(audits: seq<AuditRecord>)
      modifies this
      ensures view == old(view).(audits := audits) && pending == old(pending)
    {
      view := view.(audits := audits);
    }

    /** Send staged work to the database: all of it or, on a violation, none. */
    method Flush() returns (r: Result<(), Violation>)
      modifies this
      ensures r.Ok? ==> Flushed(old(view), old(pending)) == Ok(view) && pending == NOTHING
      ensures r.Err? ==>
        Flushed(old(view), old(pending)) == Err(r.error) && view == old(view) && pending == old(pending)
    {
      if !NoClash(view.tokens) {
        return Err(UniqueViolation);
      }
      var tables := view;
      var marks := Marks(pending.removed, pending.removedUsers);
      var rows := marks.InOrder(pending.added);
      var i := 0;
      while i < |rows|
        invariant 0 <= i <= |rows|
        invariant marks.WriteAll(view, rows) == marks.WriteAll(tables, rows[i..])
      {
        var next := marks.Write(tables, rows[i]);
        assert rows[i..][1..] == rows[i + 1..];
        if next.Err? {
          return Err(next.error);
        }
        tables := next.value;
        i := i + 1;
      }
      var left := marks.Without(pending.added);
      var deleted := DeleteAll(tables, left.tokens, left.users);
      if deleted.Err? {
        return Err(deleted.error);
      }
      view := deleted.value;
      pending := NOTHING;
      r := Ok(());
    }

    /** What precedes the execution of any query. */
    method Query() returns (r: Result<(), Error>)
      modifies this
      ensures match Queried(old(State()))
        case Ok(txn) => r == Ok(()) && State() == txn
        case Err(e) => r == Err(e) && State() == old(State())
    {
      var f := Flush();
      r := if f.Err? then Err(FlushError(f.error)) else Ok(());
    }

    /** The end of the outermost unit: publish everything, or roll back and report. */
    method Commit() returns (r: Result<(), Error>)
      modifies this, database
      ensures match Flushed(old(view), old(pending))
        case Ok(tables) => r == Ok(()) && database.committed == tables
        case Err(v) => r == Err(CommitError(v)) && database.committed == old(database.committed)
      ensures Coherent(old(view)) && r.Ok? ==> Sound(database.committed)
    {
      if Coherent(view) && Flushed(view, pending).Ok? {
        FlushedIsSound(view, pending);
      }
      var f := Flush();
      if f.Err? {
        view, pending := database.committed, NOTHING;
        return Err(CommitError(f.error));
      }
      database.committed := view;
      r := Ok(());
    }

    /** Leave the outermost unit whose body ended with `ran`, inside the given `except` clauses. */
    method Close<T>(ran: Result<T, Error>, c: Clauses) returns (r: Result<T, Error>)
      modifies this, database
      ensures (database.committed, r) == Closed(old(database.committed), (old(State()), ran), c)
    {
      if ran.Err? {
        return Err(Handled(c, ran.error));
      }
      var committed := Commit();
      r := if committed.Err? then Err(Handled(c, committed.error)) else ran;
    }
  }
}
