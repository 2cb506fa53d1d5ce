/** What a run can never change about a token that was created in it, and what only a rotation changes. */
module History {
  import opened Text
  import opened Model
  import opened Schema
  import opened ServiceSpec
  import opened Lifecycle

  ghost predicate Rotates(w: World, s: Step, id: Id) {
    s.Rotate? && s.target == id && Call(w.db, s).1.Ok?
  }

  ghost function Rotations(w: World, steps: seq<Step>, id: Id): nat
    decreases |steps|
  {
    if steps == [] then 0 else Bit(Rotates(w, steps[0], id)) + Rotations(Do(w, steps[0]), steps[1..], id)
  }

  ghost function ScopeDropped(w: World, s: Step): set<string> {
    if s.DropScope? && Call(w.db, s).1.Ok? then {s.name} else {}
  }

  ghost function ScopesDropped(w: World, steps: seq<Step>): set<string>
    decreases |steps|
  {
    if steps == [] then {} else ScopeDropped(w, steps[0]) + ScopesDropped(Do(w, steps[0]), steps[1..])
  }

  /** What never changes about a token once it was created, and what only grows. */
  ghost predicate Extends(a: Life, b: Life) {
    && b.owner == a.owner && b.name == a.name && b.parent == a.parent && b.external == a.external
    && b.session == a.session && b.nbf == a.nbf && b.exp == a.exp && b.born == a.born
    && a.attestations <= b.attestations && a.rotations <= b.rotations
    && (b.rotations == a.rotations ==> b.minted == a.minted)
  }

  lemma NotedExtends(log: map<Id, Life>, s: Step, answer: string, k: Id)
    requires k in log && (s.Create? ==> s.req.id != k) && (s.MfaSession? ==> s.id != k)
    ensures k in Noted(log, s, answer) && Extends(log[k], Noted(log, s, answer)[k])
  {
  }

  lemma StepExtendsLog(w: World, s: Step, k: Id)
    requires Legal(w, s) && k in w.log
    ensures k in Do(w, s).log && Extends(w.log[k], Do(w, s).log[k]) && w.clock <= Do(w, s).clock
  {
    match Call(w.db, s)
    case (_, Err(_)) =>
    case (_, Ok(answer)) => NotedExtends(w.log, s, answer, k);
  }

  lemma {:induction false} RunExtendsLog(w: World, steps: seq<Step>, k: Id)
    requires LegalRun(w, steps) && k in w.log
    ensures k in Run(w, steps).log && Extends(w.log[k], Run(w, steps).log[k]) && w.clock <= Run(w, steps).clock
    decreases |steps|
  {
    if steps != [] {
      StepExtendsLog(w, steps[0], k);
      RunExtendsLog(Do(w, steps[0]), steps[1..], k);
    }
  }

  /**
   * The row `b` is what `a` became while it was rotated `n` times and the scopes `dropped` were
   * removed: without a rotation, and for a session always, only two flags can have moved otherwise.
   */
  ghost predicate Became(a: Token, b: Token, n: nat, dropped: set<string>) {
    && b == a.(value := b.value, exp := b.exp, active := b.active, rotatable := b.rotatable, scopes := Less(a.scopes, dropped))
    && (n == 0 || a.session ==> b.value == a.value && b.exp == a.exp)
    && (b.active ==> a.active)
  }

  lemma StepKeepsOrigin(w: World, s: Step, k: Id)
    requires Inv(w) && Legal(w, s) && k in w.db.tokens && k in Do(w, s).db.tokens
    ensures Became(w.db.tokens[k], Do(w, s).db.tokens[k], Bit(Rotates(w, s, k)), ScopeDropped(w, s))
  {
    if s.Rotate? {
      RotationKeepsOrigin(w, s, k);
    } else if s.Attest? || s.Invalidate? {
      OnlyFlagsMove(w.db, s, k);
    } else if s.DropScope? {
      OnlyScopesShrink(w.db, s, k);
    } else {
      OtherStepsKeepRow(w, s, k);
      LessNothing(w.db.tokens[k].scopes);
    }
  }

  lemma OnlyScopesShrink(db: Db, s: Step, k: Id)
    requires s.DropScope? && k in db.tokens
    ensures k in Call(db, s).0.tokens
    ensures Became(db.tokens[k], Call(db, s).0.tokens[k], 0, if Call(db, s).1.Ok? then {s.name} else {})
  {
    LessNothing(db.tokens[k].scopes);
  }

  lemma OnlyFlagsMove(db: Db, s: Step, k: Id)
    requires (s.Attest? || s.Invalidate?) && k in db.tokens
    requires forall j | j in db.tokens :: db.tokens[j].id == j
    ensures k in Call(db, s).0.tokens && Became(db.tokens[k], Call(db, s).0.tokens[k], 0, {})
  {
    LessNothing(db.tokens[k].scopes);
    if s.Invalidate? && Call(db, s).1.Ok? {
      var id := Parse(s.x).value.0;
      assert Call(db, s).0.tokens == db.tokens[id := db.tokens[id].(active := false)];
    }
  }

  lemma OtherStepsKeepRow(w: World, s: Step, k: Id)
    requires Inv(w) && Legal(w, s) && !s.Rotate? && !s.Attest? && !s.Invalidate? && !s.DropScope?
    requires k in w.db.tokens && k in Do(w, s).db.tokens
    ensures Do(w, s).db.tokens[k] == w.db.tokens[k]
  {
    if s.MfaSession? {
      SessionKeepsRow(w, s, k);
    }
  }

  lemma RotationKeepsOrigin(w: World, s: Step, k: Id)
    requires Inv(w) && Legal(w, s) && s.Rotate? && k in w.db.tokens && k in Do(w, s).db.tokens
    ensures Became(w.db.tokens[k], Do(w, s).db.tokens[k], Bit(Rotates(w, s, k)), {})
  {
    hide Noted, NoClash;
    LessNothing(w.db.tokens[k].scopes);
    if Rotates(w, s, k) {
      NoSessionRotates(w, s, k);
    }
  }

  lemma NoSessionRotates(w: World, s: Step, k: Id)
    requires Inv(w) && Legal(w, s) && k in w.db.tokens && Rotates(w, s, k)
    ensures !w.db.tokens[k].session
  {
    assert Agrees(w.db.tokens[k], w.log[k]);
  }

  lemma SessionKeepsRow(w: World, s: Step, k: Id)
    requires Inv(w) && Legal(w, s) && s.MfaSession? && k in w.db.tokens && k in Do(w, s).db.tokens
    ensures Do(w, s).db.tokens[k] == w.db.tokens[k]
  {
  }

  lemma CallKeepsGone(db: Db, s: Step, k: Id)
    requires k !in db.tokens && (s.Create? ==> s.req.id != k) && (s.MfaSession? ==> s.id != k)
    requires forall j | j in db.tokens :: db.tokens[j].id == j
    ensures k !in Call(db, s).0.tokens
  {
  }

  /** An id that was created and is no longer stored never comes back. */
  lemma StepKeepsGone(w: World, s: Step, k: Id)
    requires Inv(w) && Legal(w, s) && k in w.log && k !in w.db.tokens
    ensures k in Do(w, s).log && k !in Do(w, s).db.tokens
  {
    hide Noted;
    CallKeepsGone(w.db, s, k);
    StepExtendsLog(w, s, k);
  }

  lemma {:induction false} RunKeepsGone(w: World, steps: seq<Step>, k: Id)
    requires Inv(w) && LegalRun(w, steps) && k in w.log && k !in w.db.tokens
    ensures k !in Run(w, steps).db.tokens
    decreases |steps|
  {
    if steps != [] {
      StepKeepsGone(w, steps[0], k);
      StepKeeps(w, steps[0]);
      RunKeepsGone(Do(w, steps[0]), steps[1..], k);
    }
  }

  lemma {:induction false} RunKeepsOrigin(w: World, steps: seq<Step>, k: Id)
    requires Inv(w) && LegalRun(w, steps) && k in w.db.tokens && k in Run(w, steps).db.tokens
    ensures Became(w.db.tokens[k], Run(w, steps).db.tokens[k], Rotations(w, steps, k), ScopesDropped(w, steps))
    decreases |steps|
  {
    if steps == [] {
      LessNothing(w.db.tokens[k].scopes);
    } else {
      var next := Do(w, steps[0]);
      StepKeeps(w, steps[0]);
      if k in next.db.tokens {
        StepKeepsOrigin(w, steps[0], k);
        RunKeepsOrigin(next, steps[1..], k);
        LessTwice(w.db.tokens[k].scopes, ScopeDropped(w, steps[0]), ScopesDropped(next, steps[1..]));
      } else {
        StepExtendsLog(w, steps[0], k);
        RunKeepsGone(next, steps[1..], k);
      }
    }
  }

  /**
   * Over any run a token stored at both ends is the same token: identity, owner, name, parent,
   * external id, start of the window and kind are as they were, its scopes are the ones it had
   * without those removed in between, a cleared flag stays cleared, and value and end are as they
   * were unless a rotation of it succeeded in between; a session's always are. A token that was created and is not stored at the start is not stored at the end.
   */
  lemma RowsKeepTheirOrigin(w: World, steps: seq<Step>, k: Id)
    requires Reachable(w) && LegalRun(w, steps) && k in w.log && k in Run(w, steps).db.tokens
    ensures k in w.db.tokens
    ensures var a, b := w.db.tokens[k], Run(w, steps).db.tokens[k];
      && b.id == a.id == k && b.owner == a.owner && b.name == a.name && b.parent == a.parent && b.external == a.external
      && b.nbf == a.nbf && b.scopes == Less(a.scopes, ScopesDropped(w, steps)) && b.session == a.session && (b.active ==> a.active)
      && (Rotations(w, steps, k) == 0 || a.session ==> b.value == a.value && b.exp == a.exp)
  {
    ReachableKeeps(w);
    if k !in w.db.tokens {
      RunKeepsGone(w, steps, k);
    } else {
      RunKeepsOrigin(w, steps, k);
    }
  }

  lemma RunReaches(w: World, s: Step, steps: seq<Step>)
    requires Reachable(w) && Legal(w, s) && LegalRun(Do(w, s), steps)
    ensures Reachable(Run(Do(w, s), steps))
  {
    var start, before :| Initial(start) && LegalRun(start, before) && Run(start, before) == w;
    assert ([s] + steps)[1..] == steps;
    RunsConcatenate(start, before, [s] + steps);
  }
}
