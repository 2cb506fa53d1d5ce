/** Concrete inputs on which the code does something else than it says. */
module Examples {
  import opened Prelude
  import opened Text
  import opened Model
  import opened Schema
  import opened Authentication
  import opened ServiceSpec
  import opened Lifecycle
  import opened CreationResults

  const ONE_USER := Db({"u"}, {}, map[], [])

  /** A scope that is not stored surfaces as the repository's error, although the clause around the unit maps a NotFound. */
  lemma MissingScope()
    ensures Created(ONE_USER, NewToken("r", "root", "u", "a", 0, 10, false), None, None, ["read"], "$1") == (ONE_USER, Err(RepoNotFound))
  {
    CreationOutcomes(ONE_USER, NewToken("r", "root", "u", "a", 0, 10, false), None, None, ["read"], "$1");
    assert "read" in ["read"];
  }

  /** So does a user that is not stored. */
  lemma MissingUser()
    ensures UserRemoved(ONE_USER, "v") == (ONE_USER, Err(RepoNotFound))
  {
  }

  /** A scope listed twice is reported as a token that already exists, with no token stored at all. */
  lemma ScopeListedTwice()
    ensures var db := Db({"u"}, {"read"}, map[], []);
      Created(db, NewToken("r", "root", "u", "a", 0, 10, false), None, None, ["read", "read"], "$1") == (db, Err(AlreadyExists))
  {
    var scopes := ["read", "read"];
    assert scopes[0] == scopes[1];
    CreationOutcomes(Db({"u"}, {"read"}, map[], []), NewToken("r", "root", "u", "a", 0, 10, false), None, None, scopes, "$1");
  }

  // A run: create a root, create a rotatable subtoken, present it, rotate it

  const START := World(ONE_USER, map[], {}, 0)
  const ROOT := Create(NewToken("r", "root", "u", "a", 0, 10, false), None, None, [], "$1")
  const SUB := Create(NewToken("s", "sub", "u", "c", 0, 10, true), Some("r"), None, [], "$2")
  const SHOW := Present("s.c", 5)
  const ROTATE := Rotate("s", 30, None, 6, "d", "$3")

  const ROOT_ROW := Token("r", "root", "u", None, None, Hash("$1", "a"), 0, 10, [], true, false, false)
  const SUB_ROW := Token("s", "sub", "u", Some("r"), None, Plain("c"), 0, 10, [], true, false, true)

  const NEW_ROW := Token("s", "sub", "u", Some("r"), None, Hash("$3", "d"), 0, 6 + 30 * DAY, [], true, false, false)

  const ONE_TOKEN := ONE_USER.(tokens := map["r" := ROOT_ROW])
  const TWO_TOKENS := ONE_USER.(tokens := map["r" := ROOT_ROW, "s" := SUB_ROW])
  const ROTATED := ONE_USER.(tokens := map["r" := ROOT_ROW, "s" := NEW_ROW])

  lemma RootCreated(w: World)
    requires w == START
    ensures Legal(w, ROOT) && Do(w, ROOT).db == ONE_TOKEN
    ensures Do(w, ROOT).log.Keys == {"r"} && Do(w, ROOT).passed == {} && Do(w, ROOT).clock == 0
  {
    assert Created(ONE_USER, ROOT.req, None, None, [], "$1").0.tokens == map["r" := ROOT_ROW];
  }

  lemma SubCreated(w: World)
    requires w.db == ONE_TOKEN && w.log.Keys == {"r"}
    ensures Legal(w, SUB) && Do(w, SUB).db == TWO_TOKENS && Do(w, SUB).passed == w.passed && Do(w, SUB).clock == w.clock
  {
    assert w.db.tokens["r"] == ROOT_ROW;
    assert TokenRefusal(w.db, SUB_ROW).None?;
    assert Created(w.db, SUB.req, Some("r"), None, [], "$2").0.tokens == TWO_TOKENS.tokens;
  }

  lemma SubShown(w: World)
    requires w.db == TWO_TOKENS && w.clock <= 5
    ensures Legal(w, SHOW) && Do(w, SHOW).db == w.db && Do(w, SHOW).passed == w.passed + {"s"} && Do(w, SHOW).clock == 5
  {
    assert "s.c" == Composite("s", "c");
    ParseIsInverse("s.c", "s", "c");
    assert w.db.tokens["s"] == SUB_ROW && w.db.tokens["r"] == ROOT_ROW;
    assert Presented(w.db, "s.c", 5) == Ok("s");
  }

  lemma SubRotated(w: World)
    requires w.db == TWO_TOKENS && "s" in w.passed && w.clock <= 6
    ensures Legal(w, ROTATE) && Call(w.db, ROTATE) == (ROTATED, Ok("s.d")) && Do(w, ROTATE).db == ROTATED
  {
    assert w.db.tokens["s"] == SUB_ROW && w.db.tokens["r"] == ROOT_ROW;
    assert WithToken(w.db, NEW_ROW).tokens == ROTATED.tokens;
    assert NoClash(ROTATED.tokens) by {
      assert !Clash(ROOT_ROW, NEW_ROW) && !Clash(NEW_ROW, ROOT_ROW);
    }
    assert "s.d" == Composite("s", "d");
  }

  lemma RotatedAccepts()
    ensures Authenticated(ROTATED.tokens, "s.d", 7) == Ok(false) && Authenticated(ROTATED.tokens, "s.$3", 7) == Ok(true)
  {
    assert "s.d" == Composite("s", "d") && "s.$3" == Composite("s", "$3");
    ParseIsInverse("s.d", "s", "d");
    ParseIsInverse("s.$3", "s", "$3");
    assert ROTATED.tokens["s"] == NEW_ROW && ROTATED.tokens["r"] == ROOT_ROW;
  }

  /** The string the rotation of the subtoken returns is refused right after it; the id with the bcrypt text is accepted. */
  lemma RotatedSubtoken()
    ensures LegalRun(START, [ROOT, SUB, SHOW, ROTATE])
    ensures Call(Run(START, [ROOT, SUB, SHOW]).db, ROTATE).1 == Ok("s.d")
    ensures var tokens := Run(START, [ROOT, SUB, SHOW, ROTATE]).db.tokens;
      Authenticated(tokens, "s.d", 7) == Ok(false) && Authenticated(tokens, "s.$3", 7) == Ok(true)
  {
    RootCreated(START);
    var first := Do(START, ROOT);
    SubCreated(first);
    var second := Do(first, SUB);
    SubShown(second);
    var third := Do(second, SHOW);
    SubRotated(third);
    RotatedAccepts();
    RunOfFour(START, ROOT, SUB, SHOW, ROTATE);
  }

  lemma RunOfFour(w: World, a: Step, b: Step, c: Step, d: Step)
    ensures Run(w, [a, b, c]) == Do(Do(Do(w, a), b), c)
    ensures Run(w, [a, b, c, d]) == Do(Do(Do(Do(w, a), b), c), d)
    ensures Legal(w, a) && Legal(Do(w, a), b) && Legal(Do(Do(w, a), b), c) && Legal(Do(Do(Do(w, a), b), c), d) ==>
      LegalRun(w, [a, b, c, d])
  {
    RunOfMore(w, a, [b, c]);
    RunOfMore(Do(w, a), b, [c]);
    RunOfOne(Do(Do(w, a), b), c);
    RunOfMore(w, a, [b, c, d]);
    RunOfMore(Do(w, a), b, [c, d]);
    RunOfMore(Do(Do(w, a), b), c, [d]);
    RunOfOne(Do(Do(Do(w, a), b), c), d);
    assert [a] + [b, c] == [a, b, c] && [b] + [c] == [b, c] && [c] + [d] == [c, d];
    assert [a] + [b, c, d] == [a, b, c, d] && [b] + [c, d] == [b, c, d];
  }

  lemma RunOfMore(w: World, s: Step, rest: seq<Step>)
    ensures Run(w, [s] + rest) == Run(Do(w, s), rest)
    ensures LegalRun(w, [s] + rest) <==> Legal(w, s) && LegalRun(Do(w, s), rest)
  {
    assert ([s] + rest)[1..] == rest;
  }

  lemma RunOfOne(w: World, s: Step)
    ensures Run(w, [s]) == Do(w, s) && (LegalRun(w, [s]) <==> Legal(w, s))
  {
    RunOfMore(w, s, []);
    assert [s] + [] == [s];
  }

  /** Asking again for a root: the empty parent id fails, the null one is answered with a string that is refused. */
  lemma RepeatedRoot()
    ensures Run(START, [ROOT]).db == ONE_TOKEN
    ensures var again := NewToken("q", "root", "u", "b", 0, 10, false);
      && CreatedOrFound(ONE_TOKEN, again, Some(""), None, [], "$9") == (ONE_TOKEN, Err(AttributeError))
      && CreatedOrFound(ONE_TOKEN, again, None, None, [], "$9") == (ONE_TOKEN, Ok("r.$1"))
      && Authenticated(ONE_TOKEN.tokens, "r.a", 5) == Ok(true) && Authenticated(ONE_TOKEN.tokens, "r.$1", 5) == Ok(false)
  {
    RootCreated(START);
    RunOfOne(START, ROOT);
    var w := Run(START, [ROOT]);
    var again := NewToken("q", "root", "u", "b", 0, 10, false);
    RepeatedRootCreation(w, "r", again, Some(""), None, [], "$9");
    RepeatedRootCreation(w, "r", again, None, None, [], "$9");
    RootAccepts();
  }

  lemma RootAccepts()
    ensures SingleHolder(ONE_TOKEN, "r") && Composite("r", "$1") == "r.$1"
    ensures Authenticated(ONE_TOKEN.tokens, "r.a", 5) == Ok(true) && Authenticated(ONE_TOKEN.tokens, "r.$1", 5) == Ok(false)
  {
    assert "r.a" == Composite("r", "a") && "r.$1" == Composite("r", "$1");
    ParseIsInverse("r.a", "r", "a");
    ParseIsInverse("r.$1", "r", "$1");
    assert ONE_TOKEN.tokens["r"] == ROOT_ROW;
  }
}
