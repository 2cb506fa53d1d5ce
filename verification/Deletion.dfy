/** The forest of tokens in reachable stores, and what deletions remove from it. */
module Deletion {
  import opened Prelude
  import opened Text
  import opened Model
  import opened Forest
  import opened Schema
  import opened Authentication
  import opened ServiceSpec
  import opened Lifecycle

  /**
   * In every reachable store the parent links form a finite forest over stored tokens, so a token
   * is bounded by its own window exactly when it is a root.
   */
  lemma ReachableStoreIsForest(w: World)
    requires Reachable(w)
    ensures IsForest(w.db.tokens)
    ensures forall k | k in w.db.tokens :: !OnCycle(w.db.tokens, k)
    ensures forall k | k in w.db.tokens :: w.db.tokens[k].parent.Some? ==>
      w.db.tokens[k].parent.value in w.db.tokens &&
      Bounds(w.db.tokens, w.db.tokens[k]) == w.db.tokens[w.db.tokens[k].parent.value]
    ensures forall k | k in w.db.tokens :: w.db.tokens[k].parent.None? ==>
      Bounds(w.db.tokens, w.db.tokens[k]) == w.db.tokens[k]
  {
    ReachableKeeps(w);
    ForestHasNoCycle(w.db.tokens);
    forall k | k in w.db.tokens ensures w.db.tokens[k].parent.Some? ==> w.db.tokens[k].parent.value != "" {
      assert Agrees(w.db.tokens[k], w.log[k]);
    }
  }

  /** The `n`-th ancestor, walking up one stored parent at a time. */
  function Up(m: map<Id, Token>, k: Id, n: nat): Option<Id>
    decreases n
  {
    if k !in m then None
    else if n == 0 then Some(k)
    else if m[k].parent.None? then None
    else Up(m, m[k].parent.value, n - 1)
  }

  lemma {:induction false} UpFromChain(m: map<Id, Token>, p: seq<Id>)
    requires Chain(m, p)
    ensures Up(m, p[|p| - 1], |p| - 1) == Some(p[0])
    decreases |p|
  {
    if |p| > 1 {
      var q := p[..|p| - 1];
      assert Chain(m, q);
      UpFromChain(m, q);
      assert m[p[|p| - 1]].parent == Some(q[|q| - 1]);
    }
  }

  lemma {:induction false} ChainFromUp(m: map<Id, Token>, k: Id, n: nat) returns (p: seq<Id>)
    requires Up(m, k, n).Some?
    ensures Chain(m, p) && Up(m, k, n) == Some(p[0]) && p[|p| - 1] == k
    decreases n
  {
    if n == 0 {
      p := [k];
    } else {
      var q := ChainFromUp(m, m[k].parent.value, n - 1);
      p := q + [k];
    }
  }

  ghost predicate HasAncestorIn(m: map<Id, Token>, k: Id, roots: set<Id>) {
    exists n: nat :: Up(m, k, n).Some? && Up(m, k, n).value in roots
  }

  /** Downward reachability from `roots` is the same as walking up into `roots`. */
  lemma BelowIsAncestry(m: map<Id, Token>, roots: set<Id>, k: Id)
    ensures k in Below(m, roots) <==> HasAncestorIn(m, k, roots)
  {
    if k in Below(m, roots) {
      var p :| Chain(m, p) && p[0] in roots && p[|p| - 1] == k;
      UpFromChain(m, p);
    }
    if HasAncestorIn(m, k, roots) {
      var n: nat :| Up(m, k, n).Some? && Up(m, k, n).value in roots;
      var p := ChainFromUp(m, k, n);
      assert Reaches(m, roots, k);
    }
  }

  /** What a deletion from `roots` leaves: the tokens with no ancestor there, untouched, and no dangling parent. */
  ghost predicate DeletedExactly(before: Db, after: Db, roots: set<Id>) {
    && (forall k :: k in after.tokens <==> k in before.tokens && !HasAncestorIn(before.tokens, k, roots))
    && (forall k | k in after.tokens :: after.tokens[k] == before.tokens[k])
    && (forall k | k in after.tokens :: after.tokens[k].parent.Some? ==> after.tokens[k].parent.value in after.tokens)
    && after.audits == before.audits && after.scopes == before.scopes
  }

  ghost predicate AnyAudited(db: Db, roots: set<Id>) {
    exists i :: 0 <= i < |db.audits| && HasAncestorIn(db.tokens, db.audits[i].tokenId, roots)
  }

  lemma AuditedMeansAnyAudited(db: Db, roots: set<Id>)
    ensures Audited(db, Below(db.tokens, roots)) <==> AnyAudited(db, roots)
  {
    forall k ensures k in Below(db.tokens, roots) <==> HasAncestorIn(db.tokens, k, roots) {
      BelowIsAncestry(db.tokens, roots, k);
    }
  }

  lemma WithoutDeletesExactly(db: Db, uids: set<string>, roots: set<Id>)
    requires Sound(db) && OwnedBy(db, uids) <= roots && !Audited(db, Below(db.tokens, roots))
    ensures DeletedExactly(db, Without(db, uids, Below(db.tokens, roots)), roots)
  {
    var after := Without(db, uids, Below(db.tokens, roots));
    CascadeKeepsSound(db, uids, roots);
    forall k ensures k in after.tokens <==> k in db.tokens && !HasAncestorIn(db.tokens, k, roots) {
      BelowIsAncestry(db.tokens, roots, k);
    }
    forall k | k in after.tokens ensures after.tokens[k].parent.Some? ==> after.tokens[k].parent.value in after.tokens {
      assert Placed(after, after.tokens[k]);
    }
  }

  /**
   * Removing an owned token deletes exactly it and its descendants; with an audit record referring
   * to any of them the call fails and nothing changes. Anything else is `NotFound`.
   */
  lemma TokenRemovalIsExact(db: Db, user: string, id: Id)
    requires Sound(db)
    ensures var owned := id in db.tokens && db.tokens[id].owner == user;
      var e := RemovedById(db, user, id);
      && (!owned ==> e == (db, Err(NotFound)))
      && (owned && AnyAudited(db, {id}) ==> e == (db, Err(UowException)))
      && (owned && !AnyAudited(db, {id}) ==> e.1 == Ok(()) && DeletedExactly(db, e.0, {id}) && e.0.users == db.users)
  {
    if id in db.tokens && db.tokens[id].owner == user {
      assert Placed(db, db.tokens[id]);
      AuditedMeansAnyAudited(db, {id});
      if !AnyAudited(db, {id}) {
        WithoutDeletesExactly(db, {}, {id});
      }
    }
  }

  /**
   * Removing a user deletes exactly the user's tokens and their descendants, whoever owns those. An
   * unknown user is reported by the repository's error, never by the service's own `NotFound`.
   */
  lemma UserRemovalIsExact(db: Db, user: string)
    requires Sound(db)
    ensures var mine := set k | k in db.tokens && db.tokens[k].owner == user;
      var e := UserRemoved(db, user);
      && (e.1 == Err(RepoNotFound) <==> user !in db.users)
      && (e.1 == Err(UowException) <==> user in db.users && AnyAudited(db, mine))
      && (e.1.Err? ==> e.0 == db && e.1.error in {RepoNotFound, UowException})
      && (e.1.Ok? ==> DeletedExactly(db, e.0, mine) && e.0.users == db.users - {user})
  {
    assert OwnedBy(db, {user}) == set k | k in db.tokens && db.tokens[k].owner == user;
    AuditedMeansAnyAudited(db, OwnedBy(db, {user}));
    if !AnyAudited(db, OwnedBy(db, {user})) {
      WithoutDeletesExactly(db, {user}, OwnedBy(db, {user}));
    }
  }

  /**
   * Removing by value looks at the id part only, and removing by name removes the token of that
   * name that was picked; both as by id. By name, an unknown user has no attributes to read.
   */
  lemma RemovalRoutesAgree(db: Db, user: string, id: Id, secret: string, name: string)
    ensures '.' !in id && '.' !in secret ==> RemovedByValue(db, user, id + "." + secret) == RemovedById(db, user, id)
    ensures var named := id in db.tokens && db.tokens[id].owner == user && db.tokens[id].name == name;
      RemovedByName(db, user, name, id) ==
        if user !in db.users then (db, Err(AttributeError)) else if named then RemovedById(db, user, id) else (db, Err(NotFound))
  {
    ParseIsInverse(id + "." + secret, id, secret);
  }
}
