/** Which Kerberos principals become which uids, and how the allowed realms are read from configuration. */
module Kerberos {
  import opened Prelude
  import opened Text

  datatype KerberosError = NoRealm | RealmNotAllowed | InstancePrincipal | ConfigError

  /** `s.rpartition(c)`: the parts around the last `c`, if there is one. */
  function RPartition(s: string, c: char): Option<(string, string)> {
    if s == [] then None
    else if s[|s| - 1] == c then Some((s[..|s| - 1], ""))
    else match RPartition(s[..|s| - 1], c)
      case None => None
      case Some((left, right)) => Some((left, right + [s[|s| - 1]]))
  }

  lemma LastOf(left: string, c: char, right: string)
    ensures var s := left + [c] + right; s[|s| - 1] == if right == "" then c else right[|right| - 1]
  {
  }

  lemma {:induction false} RPartitionIsLast(s: string, c: char, left: string, right: string)
    ensures RPartition(s, c) == Some((left, right)) <==> s == left + [c] + right && c !in right
    ensures RPartition(s, c).None? <==> c !in s
  {
    if s != [] {
      var front := s[..|s| - 1];
      assert s == front + [s[|s| - 1]];
      if s[|s| - 1] == c {
        LastOf(left, c, right);
        assert right == "" ==> left + [c] + right == left + [c];
        assert front + [c] + "" == front + [c];
      } else {
        var shorter := if right == "" then "" else right[..|right| - 1];
        RPartitionIsLast(front, c, left, shorter);
        LastOf(left, c, right);
        if s == left + [c] + right {
          assert right == shorter + [right[|right| - 1]];
          assert front == left + [c] + shorter;
        }
        if RPartition(s, c) == Some((left, right)) {
          var (l, r) := RPartition(front, c).value;
          assert l == left && r + [s[|s| - 1]] == right && r == shorter;
          assert left + [c] + right == front + [s[|s| - 1]];
        }
      }
    }
  }

  function PrincipalToUid(principal: string, allowed: seq<string>): Result<string, KerberosError> {
    match RPartition(principal, '@')
    case None => Err(NoRealm)
    case Some((local, realm)) =>
      if realm !in allowed then Err(RealmNotAllowed)
      else if '/' in local then Err(InstancePrincipal)
      else Ok(local)
  }

  /** The acceptor refuses any number of realms but one. */
  function AcceptorRealms(allowed: seq<string>): Result<seq<string>, KerberosError> {
    if |allowed| != 1 then Err(ConfigError) else Ok(allowed)
  }

  /** A principal becomes `uid` exactly when it is `uid`, an `@` and an allowed realm, and `uid` has no instance. */
  lemma UidRebuildsPrincipal(principal: string, allowed: seq<string>, uid: string)
    ensures PrincipalToUid(principal, allowed) == Ok(uid) <==>
      '/' !in uid && exists realm :: realm in allowed && '@' !in realm && principal == uid + "@" + realm
  {
    if PrincipalToUid(principal, allowed) == Ok(uid) {
      var (local, realm) := RPartition(principal, '@').value;
      RPartitionIsLast(principal, '@', local, realm);
      assert realm in allowed && '@' !in realm && principal == uid + "@" + realm;
    }
    if realm :| '/' !in uid && realm in allowed && '@' !in realm && principal == uid + "@" + realm {
      RPartitionIsLast(principal, '@', uid, realm);
    }
  }

  /** Each refusal, in exactly its case: no realm, a realm that is not allowed, an instance part. */
  lemma PrincipalOutcomes(principal: string, allowed: seq<string>, local: string, realm: string)
    ensures '@' !in principal ==> PrincipalToUid(principal, allowed) == Err(NoRealm)
    ensures principal == local + "@" + realm && '@' !in realm ==>
      PrincipalToUid(principal, allowed) ==
        if realm !in allowed then Err(RealmNotAllowed) else if '/' in local then Err(InstancePrincipal) else Ok(local)
  {
    RPartitionIsLast(principal, '@', local, realm);
  }

  /** No two accepted principals share a uid. */
  ghost predicate UidsAreDistinct(allowed: seq<string>) {
    forall p, q | PrincipalToUid(p, allowed).Ok? && PrincipalToUid(p, allowed) == PrincipalToUid(q, allowed) :: p == q
  }

  /** Dropping the realm is safe exactly when at most one realm can be matched, which is why the acceptor wants one. */
  lemma UidsAreDistinctIffOneRealm(allowed: seq<string>)
    ensures UidsAreDistinct(allowed) <==>
      forall r, s | r in allowed && s in allowed && '@' !in r && '@' !in s :: r == s
    ensures AcceptorRealms(allowed) == Ok(allowed) <==> exists realm :: allowed == [realm]
    ensures AcceptorRealms(allowed) != Ok(allowed) ==> AcceptorRealms(allowed) == Err(ConfigError)
    ensures AcceptorRealms(allowed).Ok? ==> UidsAreDistinct(allowed)
  {
    if |allowed| == 1 {
      assert allowed == [allowed[0]];
    }
    if forall r, s | r in allowed && s in allowed && '@' !in r && '@' !in s :: r == s {
      forall p, q | PrincipalToUid(p, allowed).Ok? && PrincipalToUid(p, allowed) == PrincipalToUid(q, allowed) ensures p == q {
        var uid := PrincipalToUid(p, allowed).value;
        UidRebuildsPrincipal(p, allowed, uid);
        UidRebuildsPrincipal(q, allowed, uid);
      }
    }
    if UidsAreDistinct(allowed) {
      forall r, s | r in allowed && s in allowed && '@' !in r && '@' !in s ensures r == s {
        UidRebuildsPrincipal("u" + "@" + r, allowed, "u");
        UidRebuildsPrincipal("u" + "@" + s, allowed, "u");
        assert "u" + "@" + r == "u" + "@" + s;
        assert r == ("u" + "@" + r)[2..] == ("u" + "@" + s)[2..] == s;
      }
    }
  }

  /** The characters `str.strip` removes. */
  predicate IsSpace(c: char) {
    || '\t' <= c <= '\r' || '\U{1c}' <= c <= ' ' || c == '\U{85}' || c == '\U{a0}' || c == '\U{1680}'
    || '\U{2000}' <= c <= '\U{200a}' || c == '\U{2028}' || c == '\U{2029}' || c == '\U{202f}'
    || c == '\U{205f}' || c == '\U{3000}'
  }

  /** There are twenty-nine of them. */
  lemma SpacesListed(c: char)
    ensures IsSpace(c) <==> c in [
      '\t', '\n', '\U{0b}', '\U{0c}', '\r', '\U{1c}', '\U{1d}', '\U{1e}', '\U{1f}', ' ', '\U{85}', '\U{a0}', '\U{1680}',
      '\U{2000}', '\U{2001}', '\U{2002}', '\U{2003}', '\U{2004}', '\U{2005}', '\U{2006}', '\U{2007}', '\U{2008}', '\U{2009}', '\U{200a}',
      '\U{2028}', '\U{2029}', '\U{202f}', '\U{205f}', '\U{3000}']
  {
    var n := c as int;
    assert n == 9 || n == 10 || n == 11 || n == 12 || n == 13 || n <= 8 || n >= 14;
  }

  predicate AllSpace(s: string) {
    forall c | c in s :: IsSpace(c)
  }

  predicate Trimmed(t: string) {
    t != "" ==> !IsSpace(t[0]) && !IsSpace(t[|t| - 1])
  }

  function Strip(s: string): (t: string)
    ensures Trimmed(t) && |t| <= |s| && forall c | c in t :: c in s
    ensures s != "" && Trimmed(s) ==> t == s
  {
    if s == "" then ""
    else if IsSpace(s[0]) then Strip(s[1..])
    else if IsSpace(s[|s| - 1]) then Strip(s[..|s| - 1])
    else s
  }

  predicate Padded(s: string, left: string, t: string, right: string) {
    s == left + t + right && AllSpace(left) && AllSpace(right)
  }

  /** `s` is `t` between two stretches of whitespace, as wide as they can be. */
  ghost predicate TrimsTo(s: string, t: string) {
    Trimmed(t) && exists left, right :: Padded(s, left, t, right)
  }

  lemma TrimsPadded(left: string, s: string, right: string, t: string)
    requires TrimsTo(s, t) && AllSpace(left) && AllSpace(right)
    ensures TrimsTo(left + s + right, t)
  {
    var l, r :| Padded(s, l, t, r);
    assert left + s + right == (left + l) + t + (r + right);
    assert Padded(left + s + right, left + l, t, r + right);
  }

  lemma TrimsOneMore(c: char, s: string, t: string)
    requires TrimsTo(s, t) && IsSpace(c)
    ensures TrimsTo([c] + s, t) && TrimsTo(s + [c], t)
  {
    TrimsPadded([c], s, "", t);
    TrimsPadded("", s, [c], t);
    assert [c] + s + "" == [c] + s && "" + s + [c] == s + [c];
  }

  lemma TrimsItself(s: string)
    requires Trimmed(s)
    ensures TrimsTo(s, s)
  {
    assert "" + s + "" == s;
    assert Padded(s, "", s, "");
  }

  lemma {:induction false} StripTrims(s: string)
    ensures TrimsTo(s, Strip(s))
  {
    hide TrimsTo, IsSpace;
    if s == "" || (!IsSpace(s[0]) && !IsSpace(s[|s| - 1])) {
      TrimsItself(s);
    } else if IsSpace(s[0]) {
      StripTrims(s[1..]);
      TrimsOneMore(s[0], s[1..], Strip(s));
      assert [s[0]] + s[1..] == s;
    } else {
      StripTrims(s[..|s| - 1]);
      TrimsOneMore(s[|s| - 1], s[..|s| - 1], Strip(s));
      assert s[..|s| - 1] + [s[|s| - 1]] == s;
    }
  }

  lemma {:induction false} TrimmedIsStripped(left: string, t: string, right: string)
    requires AllSpace(left) && AllSpace(right) && Trimmed(t)
    ensures Strip(left + t + right) == t
    decreases |left| + |right|
  {
    var s := left + t + right;
    if left != "" {
      assert s[0] == left[0] && s[1..] == left[1..] + t + right;
      TrimmedIsStripped(left[1..], t, right);
    } else if t == "" {
      if right != "" {
        assert s == right && s[1..] == "" + "" + right[1..];
        TrimmedIsStripped("", "", right[1..]);
      }
    } else if right != "" {
      assert s[0] == t[0] && s[|s| - 1] == right[|right| - 1];
      assert s[..|s| - 1] == "" + t + right[..|right| - 1];
      TrimmedIsStripped("", t, right[..|right| - 1]);
    } else {
      assert s == t;
    }
  }

  /** Stripping gives the one trimmed text that whitespace pads to `s`. */
  lemma StripIsTrim(s: string, t: string)
    ensures Strip(s) == t <==> TrimsTo(s, t)
  {
    StripTrims(s);
    if TrimsTo(s, t) {
      var left, right :| Padded(s, left, t, right);
      TrimmedIsStripped(left, t, right);
    }
  }

  predicate IsRealm(s: string) {
    s != "" && ',' !in s && Trimmed(s)
  }

  function NonBlank(items: seq<string>): (kept: seq<string>)
    ensures (forall i | 0 <= i < |items| :: ',' !in items[i]) ==> forall i | 0 <= i < |kept| :: IsRealm(kept[i])
    ensures (forall i | 0 <= i < |items| :: IsRealm(items[i])) ==> kept == items
  {
    if items == [] then []
    else if Strip(items[0]) == "" then NonBlank(items[1..])
    else [Strip(items[0])] + NonBlank(items[1..])
  }

  /** A configured value: none, a string, or a list. */
  datatype Setting = Unset | Text(text: string) | Items(items: seq<string>)

  /** `as_realm_tuple`: the non-blank pieces of a string, trimmed, or the items of a list as they are. */
  function AsRealmTuple(value: Setting): (realms: seq<string>)
    ensures value.Text? ==> forall i | 0 <= i < |realms| :: IsRealm(realms[i])
    ensures value.Items? ==> realms == value.items
  {
    match value
    case Unset => []
    case Text(text) => if text == "" then [] else NonBlank(Split(text, ','))
    case Items(items) => items
  }

  /** A string is read piece by piece, in order: each comma-free piece gives its trimmed text, or nothing if it is blank. */
  lemma RealmsOfText(piece: string, rest: string, t: string)
    requires ',' !in piece && TrimsTo(piece, t)
    ensures var realms := if t == "" then [] else [t];
      && AsRealmTuple(Text(piece)) == realms
      && AsRealmTuple(Text(piece + "," + rest)) == realms + AsRealmTuple(Text(rest))
  {
    StripIsTrim(piece, t);
    SplitFirst(piece, rest, ',');
    NonBlankFirst(piece, []);
    NonBlankFirst(piece, Split(rest, ','));
    if rest == "" {
      NonBlankFirst("", []);
    }
  }

  lemma NonBlankFirst(first: string, others: seq<string>)
    ensures NonBlank([first] + others) == (if Strip(first) == "" then [] else [Strip(first)]) + NonBlank(others)
    ensures [first] + [] == [first]
  {
    assert ([first] + others)[1..] == others;
  }

  /** Reading inverts comma-joining, and reading what was read, as a list or joined again, changes nothing. */
  lemma {:induction false} RealmsRoundTrip(realms: seq<string>, value: string)
    requires forall i | 0 <= i < |realms| :: IsRealm(realms[i])
    ensures AsRealmTuple(Text(Join(realms, ','))) == realms
    ensures AsRealmTuple(Items(realms)) == realms
    ensures AsRealmTuple(Text(Join(AsRealmTuple(Text(value)), ','))) == AsRealmTuple(Text(value))
  {
    JoinedRealms(realms);
    JoinedRealms(AsRealmTuple(Text(value)));
  }

  lemma {:induction false} JoinedRealms(realms: seq<string>)
    requires forall i | 0 <= i < |realms| :: IsRealm(realms[i])
    ensures AsRealmTuple(Text(Join(realms, ','))) == realms
  {
    if realms != [] {
      SplitUndoesJoin(realms, ',');
      assert |Join(realms, ',')| >= |realms[0]|;
    }
  }
}
