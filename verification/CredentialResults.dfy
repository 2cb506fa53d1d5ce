/** Which strings authenticate, in every reachable store. */
module CredentialResults {
  import opened Prelude
  import opened Text
  import opened Model
  import opened Schema
  import opened Authentication
  import opened ServiceSpec
  import opened Lifecycle
  import opened History

  /**
   * The one string that can authenticate as the stored token `k`: the one its creation or last
   * rotation returned, or for a subtoken that holds a bcrypt text, the id and that text.
   */
  function Credential(w: World, k: Id): string
    requires k in w.db.tokens && k in w.log
  {
    if w.db.tokens[k].parent.Some? && w.db.tokens[k].value.Hash? then Composite(k, w.db.tokens[k].value.text)
    else w.log[k].minted
  }

  /** The token is stored and flagged, and the time lies inside its parent's window, or its own if it is a root. */
  predicate InForce(tokens: map<Id, Token>, k: Id, now: int) {
    && k in tokens && tokens[k].active
    && match tokens[k].parent
       case None => tokens[k].nbf < now < tokens[k].exp
       case Some(p) => p in tokens && tokens[p].nbf < now < tokens[p].exp
  }

  lemma ValidIsInForce(w: World, k: Id, now: int)
    requires Inv(w) && k in w.db.tokens
    ensures Valid(w.db.tokens, w.db.tokens[k], now) <==> InForce(w.db.tokens, k, now)
  {
    assert Agrees(w.db.tokens[k], w.log[k]);
    assert Placed(w.db, w.db.tokens[k]);
  }

  ghost predicate Accepts(w: World, k: Id, x: string, now: int) {
    && InForce(w.db.tokens, k, now) && k in w.log && !w.db.tokens[k].session
    && x == Credential(w, k) && Parse(x).Some?
  }

  /**
   * In every reachable store a string authenticates exactly when it is the string that the creation
   * or the last rotation of a stored, flagged, non-session token inside its window returned. (A
   * subtoken that was rotated is instead accepted under its bcrypt text.)
   */
  lemma AuthenticationIsTheLastMinted(w: World, x: string, now: int)
    requires Reachable(w)
    ensures Authenticated(w.db.tokens, x, now) == Ok(true) <==> exists k :: Accepts(w, k, x, now)
  {
    ReachableKeeps(w);
    if Authenticated(w.db.tokens, x, now) == Ok(true) {
      var (k, secret) := Parse(x).value;
      ParseIsInverse(x, k, secret);
      assert Agrees(w.db.tokens[k], w.log[k]);
      ValidIsInForce(w, k, now);
      assert Accepts(w, k, x, now);
    }
    if exists k :: Accepts(w, k, x, now) {
      var k :| Accepts(w, k, x, now);
      var (id, secret) := Parse(x).value;
      assert Agrees(w.db.tokens[k], w.log[k]);
      ParseIsInverse(x, id, secret);
      CredentialParses(w, k, id, secret, x);
      ValidIsInForce(w, k, now);
    }
  }

  lemma DotSplitsOnce(k: string, s: string, id: string, secret: string)
    requires '.' !in k && '.' !in id && '.' !in secret
    requires Composite(k, s) == Composite(id, secret)
    ensures k == id && s == secret
  {
    var x := Composite(k, s);
    SplitFirst(k, s, '.');
    SplitFirst(id, secret, '.');
    assert Split(x, '.')[0] == k == id;
    assert s == x[|k| + 1..] == secret;
  }

  lemma CredentialParses(w: World, k: Id, id: Id, secret: string, x: string)
    requires Inv(w) && k in w.db.tokens && !w.db.tokens[k].session
    requires x == Credential(w, k) && Parse(x) == Some((id, secret))
    ensures k == id && Matches(secret, w.db.tokens[k]) == Ok(true)
  {
    assert Agrees(w.db.tokens[k], w.log[k]);
    ParseIsInverse(x, id, secret);
    var t := w.db.tokens[k];
    if t.parent.Some? {
      DotSplitsOnce(k, t.value.text, id, secret);
    } else {
      DotSplitsOnce(k, t.value.secret, id, secret);
    }
  }

  lemma UrlSafeHasNoDot(s: string)
    requires UrlSafe(s)
    ensures '.' !in s && '$' !in s
  {
  }

  /** Whether the id of `k` with some further text authenticates, for a valid non-session token. */
  lemma WhichTextWorks(w: World, k: Id, text: string, now: int)
    requires Inv(w) && k in w.db.tokens && !w.db.tokens[k].session && Valid(w.db.tokens, w.db.tokens[k], now)
    ensures Authenticated(w.db.tokens, Composite(k, text), now) == Ok(true) <==>
      var t := w.db.tokens[k];
      '.' !in text && text == if t.value.Hash? && t.parent.None? then t.value.secret else t.value.text
  {
    assert Agrees(w.db.tokens[k], w.log[k]);
    var x := Composite(k, text);
    ParseIsInverse(x, k, text);
    if Parse(x).Some? {
      var (id, secret) := Parse(x).value;
      ParseIsInverse(x, id, secret);
      DotSplitsOnce(k, text, id, secret);
    }
  }

  /**
   * The last string a caller was given for a valid stored token, by a creation, a rotation or a
   * lookup, authenticates exactly when: for a root, the call was no lookup; for a subtoken, its
   * stored text is not a bcrypt text, or the call was a lookup and that text has no dot.
   */
  lemma HandedStringWorks(w: World, k: Id, now: int)
    requires Reachable(w) && k in w.db.tokens && !w.db.tokens[k].session
    requires Valid(w.db.tokens, w.db.tokens[k], now)
    ensures k in w.log
    ensures Authenticated(w.db.tokens, w.log[k].handed, now) == Ok(true) <==>
      var t := w.db.tokens[k];
      if t.parent.None? then !w.log[k].byLookup else t.value.Plain? || (w.log[k].byLookup && '.' !in t.value.text)
  {
    ReachableKeeps(w);
    var t := w.db.tokens[k];
    assert Agrees(t, w.log[k]);
    WhichTextWorks(w, k, t.value.text, now);
    UrlSafeHasNoDot(if t.value.Hash? then t.value.secret else t.value.text);
    if t.value.Hash? {
      WhichTextWorks(w, k, t.value.secret, now);
    }
  }

  /**
   * What the lookup by name, parent and external id answers with, in any reachable store: the id
   * and the stored text of some token, which authenticates, when that token is valid and no
   * session, exactly if it has a parent and the text has no dot.
   */
  lemma LookupStringWorks(w: World, name: string, parentId: Option<string>, externalId: Option<string>, now: int)
    requires Reachable(w) && LookedUp(w.db, name, parentId, externalId).Ok?
    ensures var x := LookedUp(w.db, name, parentId, externalId).value;
      var k := Split(x, '.')[0];
      && k in w.db.tokens && x == Composite(k, w.db.tokens[k].value.text)
      && (!w.db.tokens[k].session && Valid(w.db.tokens, w.db.tokens[k], now) ==>
            (Authenticated(w.db.tokens, x, now) == Ok(true) <==> w.db.tokens[k].parent.Some? && '.' !in w.db.tokens[k].value.text))
  {
    ReachableKeeps(w);
    var found := Subtokens(w.db, name, parentId, externalId);
    var k := TheOne(found);
    assert k in found;
    var t := w.db.tokens[k];
    assert Agrees(t, w.log[k]);
    SplitFirst(k, t.value.text, '.');
    if !t.session && Valid(w.db.tokens, t, now) {
      WhichTextWorks(w, k, t.value.text, now);
      if t.value.Hash? {
        UrlSafeHasNoDot(t.value.secret);
      }
    }
  }

  lemma RootTextIsRefused(w: World, k: Id, text: string, now: int)
    requires Inv(w) && k in w.log
    requires k in w.db.tokens ==> w.db.tokens[k].parent.None? && (w.db.tokens[k].session || BcryptText(text))
    ensures Authenticated(w.db.tokens, Composite(k, text), now) != Ok(true)
  {
    var x := Composite(k, text);
    if Parse(x).Some? {
      var (id, secret) := Parse(x).value;
      ParseIsInverse(x, id, secret);
      DotSplitsOnce(k, text, id, secret);
      if k in w.db.tokens {
        assert Agrees(w.db.tokens[k], w.log[k]);
      }
    }
  }

  /** The text a root is stored under, as a lookup hands it out, never authenticates as it, whatever steps follow. */
  lemma RootTextNeverWorks(w: World, steps: seq<Step>, k: Id, now: int)
    requires Reachable(w) && LegalRun(w, steps)
    requires k in w.db.tokens && w.db.tokens[k].parent.None?
    ensures Authenticated(Run(w, steps).db.tokens, Composite(k, w.db.tokens[k].value.text), now) != Ok(true)
  {
    ReachableKeeps(w);
    RunKeeps(w, steps);
    assert Agrees(w.db.tokens[k], w.log[k]);
    RunExtendsLog(w, steps, k);
    if k in Run(w, steps).db.tokens {
      RunKeepsOrigin(w, steps, k);
    }
    RootTextIsRefused(Run(w, steps), k, w.db.tokens[k].value.text, now);
  }

  /** A session token never authenticates: inside its window its plain text is not a bcrypt text. */
  lemma SessionNeverAuthenticates(w: World, sid: Id, x: string, now: int)
    requires Reachable(w) && sid in w.db.tokens && w.db.tokens[sid].session
    requires Parse(x).Some? && Parse(x).value.0 == sid
    ensures Authenticated(w.db.tokens, x, now) == if Valid(w.db.tokens, w.db.tokens[sid], now) then Err(ValueError) else Ok(false)
  {
    ReachableKeeps(w);
    assert Agrees(w.db.tokens[sid], w.log[sid]);
  }

  /** Invalidating or removing a token is final: in no continuation does a string authenticate as it again. */
  lemma DisabledForGood(w: World, s: Step, steps: seq<Step>, id: Id, x: string, now: int)
    requires Reachable(w) && Legal(w, s) && id in w.db.tokens && Call(w.db, s).1.Ok?
    requires (s.Invalidate? && Parse(s.x).Some? && Parse(s.x).value.0 == id) || id !in Do(w, s).db.tokens
    requires LegalRun(Do(w, s), steps)
    requires Parse(x).Some? && Parse(x).value.0 == id
    ensures Authenticated(Run(Do(w, s), steps).db.tokens, x, now) == Ok(false)
  {
    ReachableKeeps(w);
    StepKeeps(w, s);
    StepExtendsLog(w, s, id);
    if id !in Do(w, s).db.tokens {
      RunKeepsGone(Do(w, s), steps, id);
    } else if id in Run(Do(w, s), steps).db.tokens {
      RunKeepsOrigin(Do(w, s), steps, id);
    }
  }

  /** The id the authenticator extracts is the id of the stored token that was authenticated. */
  lemma ExtractedIdWasAuthenticated(db: Db, x: string, now: int, id: Id)
    requires Presented(db, x, now) == Ok(id)
    ensures id in db.tokens && Valid(db.tokens, db.tokens[id], now)
    ensures exists secret :: x == Composite(id, secret) && Matches(secret, db.tokens[id]) == Ok(true)
  {
    var (k, secret) := Parse(x).value;
    ParseIsInverse(x, k, secret);
  }
}
