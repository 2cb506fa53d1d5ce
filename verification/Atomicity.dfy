/** Every service call is all or nothing and keeps the constraints of the schema. */
module Atomicity {
  import opened Prelude
  import opened Text
  import opened Model
  import opened Forest
  import opened Schema
  import opened ServiceSpec

  lemma DropIsSound(db: Db, s: Step)
    requires Sound(db) && (s.DropUser? || s.DropById? || s.DropByValue? || s.DropByName?)
    ensures Sound(Call(db, s).0)
  {
    if Call(db, s).1.Ok? {
      match s
      case DropUser(uid) => CascadeKeepsSound(db, {uid}, OwnedBy(db, {uid}));
      case DropById(_, target) => CascadeKeepsSound(db, {}, {target});
      case DropByValue(_, x) => CascadeKeepsSound(db, {}, {Parse(x).value.0});
      case DropByName(_, _, pick) => CascadeKeepsSound(db, {}, {pick});
    }
  }

  lemma InvalidatedIsSound(db: Db, x: string)
    requires Sound(db)
    ensures Sound(Invalidated(db, x).0)
  {
    if Invalidated(db, x).1.Ok? {
      NoClashKeeps(db.tokens, Invalidated(db, x).0.tokens);
      UpdateKeepsCoherent(db, Invalidated(db, x).0.tokens);
    }
  }

  lemma AttestedIsSound(db: Db, user: string, ids: seq<Id>, now: int)
    requires Sound(db)
    ensures Sound(Attested(db, user, ids, now).0)
  {
    NoClashKeeps(db.tokens, Attested(db, user, ids, now).0.tokens);
    UpdateKeepsCoherent(db, Attested(db, user, ids, now).0.tokens);
  }

  lemma RotatedIsSound(db: Db, id: Id, maxDays: int, asked: Option<int>, now: int, secret: string, hash: string)
    requires Sound(db)
    ensures Sound(Rotated(db, id, maxDays, asked, now, secret, hash).0)
  {
    if Rotated(db, id, maxDays, asked, now, secret, hash).1.Ok? {
      UpdateKeepsCoherent(db, Rotated(db, id, maxDays, asked, now, secret, hash).0.tokens);
    }
  }

  /**
   * Every outermost call, legal in a run or not, either fails and leaves the tables as they were
   * or commits tables that meet every key, unique and reference constraint.
   */
  lemma CallsAreAtomic(db: Db, s: Step)
    requires Sound(db)
    ensures Call(db, s).1.Err? ==> Call(db, s).0 == db
    ensures Sound(Call(db, s).0)
  {
    match s
    case Create(req, p, x, scopes, hash) =>
      if Call(db, s).1.Ok? { InsertKeepsSound(db, NewRow(req, p, x, scopes, hash)); }
    case MfaSession(owner, name, id, secret, at, lifetime, now) =>
      if Call(db, s).1.Ok? { SessionIsSound(db, owner, SessionRow(id, name, owner, secret, at, lifetime), now); }
    case AddUser(_) => SurroundingsKeepSound(db, Call(db, s).0.users, db.audits);
    case Record(_) => SurroundingsKeepSound(db, db.users, Call(db, s).0.audits);
    case Clean(days, now) =>
      SinceIsSubset(db.audits, now - days * DAY, db.tokens);
      SurroundingsKeepSound(db, db.users, Call(db, s).0.audits);
    case Present(_, _) =>
    case Lookup(_, _, _) =>
    case Invalidate(x) => InvalidatedIsSound(db, x);
    case DropScope(name) => UnlinkedKeepsSound(db, name);
    case Attest(user, ids, now) => AttestedIsSound(db, user, ids, now);
    case Rotate(target, maxDays, asked, now, secret, hash) => RotatedIsSound(db, target, maxDays, asked, now, secret, hash);
    case _ => DropIsSound(db, s);
  }

  lemma SessionIsSound(db: Db, owner: string, t: Token, now: int)
    requires Sound(db) && SessionUpdated(db, owner, t, now).1.Ok?
    ensures Sound(SessionUpdated(db, owner, t, now).0)
  {
    var found := Sessions(db, owner, t.name);
    if found == {} {
      InsertKeepsSound(db, t);
    } else {
      var k := TheOne(found);
      if !(db.tokens[k].nbf < now < db.tokens[k].exp) {
        var gone := Below(db.tokens, {k});
        CascadeKeepsSound(db, {}, {k});
        InsertKeepsSound(Without(db, {}, gone), t);
      }
    }
  }
}
