/** What attestation buys, over every run and any interleaving, and what a rotation changes. */
module RotationResults {
  import opened Prelude
  import opened Text
  import opened Model
  import opened Schema
  import opened Authentication
  import opened ServiceSpec
  import opened Lifecycle
  import opened History
  import opened CredentialResults

  ghost predicate Attests(w: World, s: Step, id: Id) {
    s.Attest? && id in s.ids && Call(w.db, s).1.Ok?
  }

  ghost predicate CreatesRotatable(w: World, s: Step, id: Id) {
    s.Create? && s.req.id == id && s.req.rotatable && Call(w.db, s).1.Ok?
  }

  ghost function Attestations(w: World, steps: seq<Step>, id: Id): nat
    decreases |steps|
  {
    if steps == [] then 0 else Bit(Attests(w, steps[0], id)) + Attestations(Do(w, steps[0]), steps[1..], id)
  }

  ghost function RotatableCreations(w: World, steps: seq<Step>, id: Id): nat
    decreases |steps|
  {
    if steps == [] then 0 else Bit(CreatesRotatable(w, steps[0], id)) + RotatableCreations(Do(w, steps[0]), steps[1..], id)
  }

  /** The rotatable flag a store holds for `id`. */
  function Credit(db: Db, id: Id): nat {
    if id in db.tokens then Bit(db.tokens[id].rotatable) else 0
  }

  lemma SessionBalances(w: World, s: Step, id: Id)
    requires Inv(w) && Legal(w, s) && s.MfaSession?
    ensures Credit(Do(w, s).db, id) <= Credit(w.db, id)
  {
  }

  /** A call that is no rotation, attestation, creation or session leaves no flag set that was not. */
  lemma OthersGiveNoCredit(db: Db, s: Step, id: Id)
    requires !s.Rotate? && !s.Attest? && !s.Create? && !s.MfaSession?
    requires forall k | k in db.tokens :: db.tokens[k].id == k
    ensures Credit(Call(db, s).0, id) <= Credit(db, id)
  {
  }

  lemma StepBalances(w: World, s: Step, id: Id)
    requires Inv(w) && Legal(w, s)
    ensures Bit(Rotates(w, s, id)) + Credit(Do(w, s).db, id)
      <= Credit(w.db, id) + Bit(Attests(w, s, id)) + Bit(CreatesRotatable(w, s, id))
  {
    hide Noted, NoClash;
    if s.MfaSession? {
      SessionBalances(w, s, id);
    } else if !s.Rotate? && !s.Attest? && !s.Create? {
      OthersGiveNoCredit(w.db, s, id);
    }
  }

  /**
   * Whatever steps lie between a request's authentication and its rotation, over every run the
   * rotations of a token plus its remaining flag never exceed its attestations plus the flag it
   * started with or was created with.
   */
  lemma {:induction false} RotationsArePaidFor(w: World, steps: seq<Step>, id: Id)
    requires Inv(w) && LegalRun(w, steps)
    ensures Rotations(w, steps, id) + Credit(Run(w, steps).db, id)
      <= Credit(w.db, id) + Attestations(w, steps, id) + RotatableCreations(w, steps, id)
    decreases |steps|
  {
    if steps != [] {
      StepBalances(w, steps[0], id);
      StepKeeps(w, steps[0]);
      RotationsArePaidFor(Do(w, steps[0]), steps[1..], id);
    }
  }

  /** A token is created at most once, so the flag it is created with counts at most once. */
  lemma {:induction false} CreatedRotatableAtMostOnce(w: World, steps: seq<Step>, id: Id)
    requires LegalRun(w, steps)
    ensures RotatableCreations(w, steps, id) <= if id in w.log then 0 else 1
    decreases |steps|
  {
    if steps != [] {
      CreatedRotatableAtMostOnce(Do(w, steps[0]), steps[1..], id);
      if id in w.log {
        StepExtendsLog(w, steps[0], id);
      }
    }
  }

  /** Between two successful rotations of a token there is always a successful attestation of it. */
  lemma AttestationBetweenRotations(w: World, first: Step, between: seq<Step>, second: Step, id: Id)
    requires Reachable(w) && Legal(w, first) && Rotates(w, first, id)
    requires LegalRun(Do(w, first), between)
    requires Rotates(Run(Do(w, first), between), second, id)
    ensures Attestations(Do(w, first), between, id) >= 1
  {
    ReachableKeeps(w);
    StepKeeps(w, first);
    StepExtendsLog(w, first, id);
    RotationsArePaidFor(Do(w, first), between, id);
    CreatedRotatableAtMostOnce(Do(w, first), between, id);
  }

  /** Every listed token is stored and owned by the caller. */
  predicate AllOwned(db: Db, user: string, ids: seq<Id>) {
    forall k | k in ids :: k in db.tokens && db.tokens[k].owner == user
  }

  /** Every listed token is flagged and the one time lies inside its stored parent's window, or else its own. */
  predicate AllLive(db: Db, ids: seq<Id>, now: int) {
    forall k | k in ids ::
      && k in db.tokens && db.tokens[k].active
      && var p := db.tokens[k].parent;
         if p != None && p != Some("") && p.value in db.tokens then db.tokens[p.value].nbf < now < db.tokens[p.value].exp
         else db.tokens[k].nbf < now < db.tokens[k].exp
  }

  lemma ListsAreAboutElements(db: Db, user: string, ids: seq<Id>, now: int)
    ensures OwnsAll(db, user, ids) <==> AllOwned(db, user, ids)
    ensures AllValid(db, ids, now) <==> AllLive(db, ids, now)
  {
  }

  /**
   * Attestation is all or nothing, does not depend on order or repetition in the list, and makes
   * exactly the listed tokens rotatable. A token that is missing or not owned is reported before
   * one that is not valid.
   */
  lemma AttestationIsAllOrNothing(db: Db, user: string, ids: seq<Id>, more: seq<Id>, now: int)
    requires forall k :: k in ids <==> k in more
    ensures Attested(db, user, ids, now) == Attested(db, user, more, now)
    ensures var e := Attested(db, user, ids, now);
      && (e.1 == Err(NotFound) <==> !AllOwned(db, user, ids))
      && (e.1 == Err(InvalidToken) <==> AllOwned(db, user, ids) && !AllLive(db, ids, now))
      && (e.1.Err? ==> e.0 == db && e.1.error in {NotFound, InvalidToken})
      && (e.1.Ok? ==> e.0 == db.(tokens := e.0.tokens) && e.0.tokens.Keys == db.tokens.Keys)
      && (forall k | e.1.Ok? && k in e.0.tokens ::
            e.0.tokens[k] == if k in ids then db.tokens[k].(rotatable := true) else db.tokens[k])
  {
    assert Elements(ids) == Elements(more);
    ListsAreAboutElements(db, user, ids, now);
    ListsAreAboutElements(db, user, more, now);
  }

  /** `k` takes its window from the rotated token: it is that token, a root, or a direct subtoken of it. */
  predicate Moves(w: World, s: Step, k: Id)
    requires s.Rotate? && k in w.db.tokens
  {
    (k == s.target && w.db.tokens[k].parent.None?) || w.db.tokens[k].parent == Some(s.target)
  }

  /**
   * After a granted rotation every stored token stays stored. The rotated root, and each direct
   * subtoken of the rotated token, is valid exactly if it is flagged and the time lies between the
   * rotated token's old start and the granted number of days from now; any other token, a rotated
   * subtoken among them, is valid exactly when it was. Zero days, or none asked for, grants the
   * maximum, and nothing above the maximum is granted.
   */
  lemma RotationMovesTheWindow(w: World, s: Step, k: Id, t: int)
    requires Reachable(w) && s.Rotate? && Legal(w, s) && Rotates(w, s, s.target) && k in w.db.tokens
    ensures s.target in w.db.tokens
    ensures var after, days := Do(w, s).db.tokens, GrantedDays(s.maxDays, s.asked);
      && days <= s.maxDays && days == (if s.asked == None || s.asked == Some(0) then s.maxDays else s.asked.value)
      && after.Keys == w.db.tokens.Keys
      && (Valid(after, after[k], t) <==>
            if Moves(w, s, k) then w.db.tokens[k].active && w.db.tokens[s.target].nbf < t < s.now + days * DAY
            else Valid(w.db.tokens, w.db.tokens[k], t))
  {
    hide NoClash;
    ReachableKeeps(w);
    assert Agrees(w.db.tokens[k], w.log[k]);
    assert Placed(w.db, w.db.tokens[k]);
  }

  /**
   * From then on, until the next change, one string authenticates as the rotated token while it is
   * valid: for a root the one returned, for a subtoken the id with the bcrypt text.
   */
  lemma RotationReplacesTheSecret(w: World, s: Step, x: string, t: int)
    requires Reachable(w) && s.Rotate? && Legal(w, s) && Rotates(w, s, s.target)
    requires Parse(x).Some? && Parse(x).value.0 == s.target
    ensures s.target in w.db.tokens && s.target in Do(w, s).db.tokens
    ensures var after := Do(w, s).db.tokens;
      Authenticated(after, x, t) == Ok(true) <==>
        && Valid(after, after[s.target], t)
        && x == Composite(s.target, if w.db.tokens[s.target].parent.None? then s.secret else s.hash)
  {
    ReachableKeeps(w);
    assert Agrees(w.db.tokens[s.target], w.log[s.target]);
    var secret := Parse(x).value.1;
    ParseIsInverse(x, s.target, secret);
    var right := if w.db.tokens[s.target].parent.None? then s.secret else s.hash;
    CompositeIsInjective(s.target, secret, right);
  }

  /** The string a rotation returns authenticates, while the token is valid, exactly when the rotated token is a root. */
  lemma RotatedStringWorksForRoots(w: World, s: Step, t: int)
    requires Reachable(w) && s.Rotate? && Legal(w, s) && Rotates(w, s, s.target)
    requires s.target in Do(w, s).db.tokens && Valid(Do(w, s).db.tokens, Do(w, s).db.tokens[s.target], t)
    ensures s.target in w.db.tokens
    ensures Authenticated(Do(w, s).db.tokens, Call(w.db, s).1.value, t) == Ok(true) <==> w.db.tokens[s.target].parent.None?
  {
    ReachableKeeps(w);
    UrlSafeHasNoDot(s.secret);
    var x := Composite(s.target, s.secret);
    ParseIsInverse(x, s.target, s.secret);
    RotationReplacesTheSecret(w, s, x, t);
    CompositeIsInjective(s.target, s.secret, s.hash);
  }
}
