/** When a creation succeeds, what it stores, and what repeating it returns. */
module CreationResults {
  import opened Prelude
  import opened Text
  import opened Model
  import opened Schema
  import opened ServiceSpec
  import opened Lifecycle
  import opened History

  /** A stored token that keeps the requested one from being stored for a unique constraint. */
  ghost predicate Taken(db: Db, req: NewToken, parent: Option<string>, externalId: Option<string>, hash: string) {
    exists k :: k in db.tokens &&
      (k == req.id || db.tokens[k].value.text == (if parent == None then hash else req.secret) ||
       (db.tokens[k].owner == req.owner && db.tokens[k].name == req.name &&
        db.tokens[k].parent == parent && db.tokens[k].external == externalId))
  }

  /** The parent named, if any, and every scope listed are stored. */
  predicate ParentStored(db: Db, parent: Option<string>) {
    parent.Some? ==> parent.value in db.tokens
  }

  predicate ScopesStored(db: Db, scopes: seq<string>) {
    forall s | s in scopes :: s in db.scopes
  }

  /**
   * Each error of a creation is raised in exactly these cases and changes nothing; in all others
   * exactly the requested token is added, a subtoken with its secret as it is and a root with the
   * secret's bcrypt text. A missing scope is not reported as the service's own `NotFound`, and a
   * scope listed twice is reported like a taken name.
   */
  lemma CreationOutcomes(db: Db, req: NewToken, parentId: Option<string>, externalId: Option<string>,
                         scopes: seq<string>, hash: string)
    ensures var parent := if parentId == Some("") then None else parentId;
      var stored := ParentStored(db, parent) && ScopesStored(db, scopes);
      var fits := |req.name| <= 256 && |req.owner| <= 32 && (externalId == None || |externalId.value| <= 36);
      var doubled := exists i, j :: 0 <= i < j < |scopes| && scopes[i] == scopes[j];
      var taken := Taken(db, req, parent, externalId, hash);
      var e := Created(db, req, parentId, externalId, scopes, hash);
      && (e.1 == Err(NotFound) <==> !ParentStored(db, parent))
      && (e.1 == Err(RepoNotFound) <==> ParentStored(db, parent) && !ScopesStored(db, scopes))
      && (e.1 == Err(AlreadyExists) <==> stored && fits && (taken || (req.owner in db.users && doubled)))
      && (e.1 == Err(ServiceException) <==> stored && (!fits || (!taken && req.owner !in db.users)))
      && (e.1.Err? ==> e.0 == db && e.1.error in {NotFound, RepoNotFound, AlreadyExists, ServiceException})
      && (e.1.Ok? ==>
            && e.1.value == req.id + "." + req.secret
            && e.0 == db.(tokens := db.tokens[req.id := Token(
                 req.id, req.name, req.owner, parent, externalId,
                 if parent == None then Hash(hash, req.secret) else Plain(req.secret),
                 req.nbf, req.exp, scopes, true, false, req.rotatable)]))
  {
  }

  /** While a token is stored, a creation of the same owner, name, parent and external id is refused as existing. */
  lemma StoredTokenRefusesItsTwin(db: Db, k: Id, req: NewToken, parentId: Option<string>, scopes: seq<string>, hash: string)
    requires Sound(db) && k in db.tokens && db.tokens[k].parent == (if Truthy(parentId) then parentId else None)
    requires req.name == db.tokens[k].name && req.owner == db.tokens[k].owner
    requires forall i | 0 <= i < |scopes| :: scopes[i] in db.scopes
    ensures Created(db, req, parentId, db.tokens[k].external, scopes, hash) == (db, Err(AlreadyExists))
  {
    var t := db.tokens[k];
    assert Placed(db, t);
    assert Clash(t, NewRow(req, parentId, t.external, scopes, hash));
  }

  /** Nobody else holds the name, parent and external id of `k`. */
  ghost predicate SingleHolder(db: Db, k: Id)
    requires k in db.tokens
  {
    forall j | j in db.tokens && j != k ::
      !(db.tokens[j].name == db.tokens[k].name && db.tokens[j].parent == db.tokens[k].parent && db.tokens[j].external == db.tokens[k].external)
  }

  lemma LookupFindsTheOne(db: Db, k: Id)
    requires k in db.tokens
    ensures var t := db.tokens[k];
      LookedUp(db, t.name, t.parent, t.external) ==
        if SingleHolder(db, k) then Ok(Composite(k, t.value.text)) else Err(MultipleResults)
  {
    var found := Subtokens(db, db.tokens[k].name, db.tokens[k].parent, db.tokens[k].external);
    assert k in found;
    if SingleHolder(db, k) {
      assert found == {k};
      assert k in {TheOne(found)};
    } else {
      var j :| j in db.tokens && j != k && j in found;
      if |found| == 1 {
        SingletonIsOne(found, j, k);
        assert false;
      }
    }
  }

  /**
   * Repeating an impersonated subtoken creation while the subtoken is stored changes nothing. It
   * is answered with the stored text exactly when no other user holds a subtoken of the same name,
   * parent and external id, and otherwise the lookup fails; and the answer is the string its
   * creation or last rotation returned exactly when that text is not a bcrypt text.
   */
  lemma RepeatedCreationReturnsTheFirst(w: World, k: Id, req: NewToken, scopes: seq<string>, hash: string)
    requires Reachable(w) && k in w.db.tokens && w.db.tokens[k].parent.Some?
    requires req.name == w.db.tokens[k].name && req.owner == w.db.tokens[k].owner
    requires forall i | 0 <= i < |scopes| :: scopes[i] in w.db.scopes
    ensures k in w.log
    ensures var t := w.db.tokens[k];
      && CreatedOrFound(w.db, req, t.parent, t.external, scopes, hash) ==
           (w.db, if SingleHolder(w.db, k) then Ok(Composite(k, t.value.text)) else Err(MultipleResults))
      && (w.log[k].minted == Composite(k, t.value.text) <==> t.value.Plain?)
  {
    ReachableKeeps(w);
    var t := w.db.tokens[k];
    assert Agrees(t, w.log[k]);
    StoredTokenRefusesItsTwin(w.db, k, req, t.parent, scopes, hash);
    LookupFindsTheOne(w.db, k);
    if t.value.Hash? {
      CompositeIsInjective(k, t.value.secret, t.value.text);
    }
  }

  /**
   * For a root, whether the request leaves the parent id empty or null decides: an empty one finds
   * nothing and fails on the missing row, a null one finds the root and is answered with its stored
   * text, when it is the single holder. (`CredentialResults.RootTextNeverWorks`: that answer never
   * authenticates.)
   */
  lemma RepeatedRootCreation(w: World, k: Id, req: NewToken, parentId: Option<string>, externalId: Option<string>,
                             scopes: seq<string>, hash: string)
    requires Reachable(w) && k in w.db.tokens && w.db.tokens[k].parent.None? && !Truthy(parentId)
    requires req.name == w.db.tokens[k].name && req.owner == w.db.tokens[k].owner && externalId == w.db.tokens[k].external
    requires forall i | 0 <= i < |scopes| :: scopes[i] in w.db.scopes
    ensures CreatedOrFound(w.db, req, parentId, externalId, scopes, hash) ==
      (w.db,
       if parentId == Some("") then Err(AttributeError)
       else if SingleHolder(w.db, k) then Ok(Composite(k, w.db.tokens[k].value.text))
       else Err(MultipleResults))
  {
    ReachableKeeps(w);
    StoredTokenRefusesItsTwin(w.db, k, req, parentId, scopes, hash);
    LookupFindsTheOne(w.db, k);
    if parentId == Some("") {
      forall j | j in w.db.tokens ensures w.db.tokens[j].parent != Some("") {
        assert Agrees(w.db.tokens[j], w.log[j]);
      }
      assert Subtokens(w.db, req.name, Some(""), externalId) == {};
    }
  }

  /** A subtoken stores the secret it was created with exactly while its text is no bcrypt text. */
  lemma PlainIsTheFirst(t: Token, born: Life, l: Life, secret: string)
    requires Agrees(t, l) && Extends(born, l) && t.parent.Some?
    requires born.rotations == 0 && born.minted == Composite(t.id, secret) && UrlSafe(secret)
    ensures t.value.Plain? <==> secret == t.value.text
  {
    if t.value.Plain? {
      CompositeIsInjective(t.id, secret, t.value.text);
    }
  }

  lemma CreationIsLogged(w: World, first: Step)
    requires first.Create? && Truthy(first.parentId) && Call(w.db, first).1.Ok?
    ensures Call(w.db, first).1 == Ok(Composite(first.req.id, first.req.secret)) && first.req.id in Do(w, first).log
    ensures var l := Do(w, first).log[first.req.id];
      && l.owner == first.req.owner && l.name == first.req.name && l.parent == first.parentId && l.external == first.externalId
      && l.rotations == 0 && l.minted == Composite(first.req.id, first.req.secret)
  {
  }

  lemma TokenKeepsOrigin(created: World, steps: seq<Step>, k: Id, secret: string)
    requires Inv(created) && LegalRun(created, steps) && k in Run(created, steps).db.tokens && UrlSafe(secret)
    requires k in created.log && created.log[k].parent.Some?
    requires created.log[k].rotations == 0 && created.log[k].minted == Composite(k, secret)
    ensures var t, l := Run(created, steps).db.tokens[k], created.log[k];
      && t.owner == l.owner && t.name == l.name && t.parent == l.parent && t.external == l.external
      && (t.value.Plain? <==> secret == t.value.text)
  {
    RunKeeps(created, steps);
    RunExtendsLog(created, steps, k);
    var after := Run(created, steps);
    assert Agrees(after.db.tokens[k], after.log[k]);
    PlainIsTheFirst(after.db.tokens[k], created.log[k], after.log[k], secret);
  }

  /** A stored subtoken keeps the place it was created in, and its string exactly while its text is no bcrypt text. */
  lemma OriginIsKept(w: World, first: Step, steps: seq<Step>)
    requires Reachable(w) && first.Create? && Legal(w, first) && Truthy(first.parentId) && Call(w.db, first).1.Ok?
    requires LegalRun(Do(w, first), steps) && first.req.id in Run(Do(w, first), steps).db.tokens
    ensures Call(w.db, first).1 == Ok(Composite(first.req.id, first.req.secret))
    ensures var t := Run(Do(w, first), steps).db.tokens[first.req.id];
      && t.owner == first.req.owner && t.name == first.req.name && t.parent == first.parentId && t.external == first.externalId
      && (t.value.Plain? <==> first.req.secret == t.value.text)
  {
    ReachableKeeps(w);
    StepKeeps(w, first);
    CreationIsLogged(w, first);
    TokenKeepsOrigin(Do(w, first), steps, first.req.id, first.req.secret);
  }

  /**
   * The two units of work of a repeated creation, with any steps before and between them: as long
   * as the first token is stored, a request with any fresh id and secret is refused as existing,
   * and the lookup then returns the very string of the first call exactly when the token was not
   * rotated and nobody else holds its name, parent and external id.
   */
  lemma FirstStringComesBack(w: World, first: Step, steps: seq<Step>, between: seq<Step>,
                             req: NewToken, scopes: seq<string>, hash: string)
    requires Reachable(w) && first.Create? && Legal(w, first) && Truthy(first.parentId) && Call(w.db, first).1.Ok?
    requires LegalRun(Do(w, first), steps) && LegalRun(Run(Do(w, first), steps), between)
    requires var mid := Run(Do(w, first), steps);
      && first.req.id in mid.db.tokens && (forall i | 0 <= i < |scopes| :: scopes[i] in mid.db.scopes)
    requires first.req.id in Run(Run(Do(w, first), steps), between).db.tokens
    requires req.name == first.req.name && req.owner == first.req.owner
    ensures var mid := Run(Do(w, first), steps);
      Created(mid.db, req, first.parentId, first.externalId, scopes, hash) == (mid.db, Err(AlreadyExists))
    ensures var end := Run(Run(Do(w, first), steps), between);
      LookedUp(end.db, first.req.name, first.parentId, first.externalId) == Call(w.db, first).1 <==>
        SingleHolder(end.db, first.req.id) && end.db.tokens[first.req.id].value.Plain?
  {
    var mid := Run(Do(w, first), steps);
    OriginIsKept(w, first, steps);
    RunReaches(w, first, steps);
    ReachableKeeps(mid);
    StoredTokenRefusesItsTwin(mid.db, first.req.id, req, first.parentId, scopes, hash);
    RunsConcatenate(Do(w, first), steps, between);
    OriginIsKept(w, first, steps + between);
    LookupFindsTheOne(Run(mid, between).db, first.req.id);
    CompositeIsInjective(first.req.id, first.req.secret, Run(mid, between).db.tokens[first.req.id].value.text);
  }
}
