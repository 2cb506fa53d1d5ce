/** Splitting and joining on one separator, and the `id.secret` form of a token string. */
module Text {
  import opened Prelude

  function Join(parts: seq<string>, sep: char): string {
    if parts == [] then ""
    else if |parts| == 1 then parts[0]
    else parts[0] + [sep] + Join(parts[1..], sep)
  }

  /** Python's `s.split(sep)`: never empty, the pieces hold no separator, and joining them gives `s` back. */
  function Split(s: string, sep: char): (parts: seq<string>)
    ensures |parts| > 0
    ensures forall i | 0 <= i < |parts| :: sep !in parts[i]
    ensures Join(parts, sep) == s
  {
    if s == [] then [""]
    else
      var rest := Split(s[1..], sep);
      if s[0] == sep then
        assert [""] + rest != [] && ([""] + rest)[1..] == rest;
        [""] + rest
      else
        var parts := [[s[0]] + rest[0]] + rest[1..];
        assert parts[1..] == rest[1..];
        assert |rest| == 1 ==> parts == [[s[0]] + rest[0]];
        parts
  }

  lemma {:induction false} SplitFirst(p: string, rest: string, sep: char)
    requires sep !in p
    ensures Split(p, sep) == [p]
    ensures Split(p + [sep] + rest, sep) == [p] + Split(rest, sep)
  {
    var s := p + [sep] + rest;
    if p == [] {
      assert s[1..] == rest;
    } else {
      SplitFirst(p[1..], rest, sep);
      assert s[1..] == p[1..] + [sep] + rest;
      assert [p[0]] + p[1..] == p;
    }
  }

  /** Splitting undoes joining for pieces that hold no separator. */
  lemma {:induction false} SplitUndoesJoin(parts: seq<string>, sep: char)
    requires parts != []
    requires forall i | 0 <= i < |parts| :: sep !in parts[i]
    ensures Split(Join(parts, sep), sep) == parts
  {
    if |parts| == 1 {
      SplitFirst(parts[0], "", sep);
    } else {
      SplitUndoesJoin(parts[1..], sep);
      SplitFirst(parts[0], Join(parts[1..], sep), sep);
    }
  }

  function Composite(id: string, secret: string): string {
    id + "." + secret
  }

  lemma CompositeIsInjective(id: string, a: string, b: string)
    ensures Composite(id, a) == Composite(id, b) <==> a == b
  {
    assert Composite(id, a)[|id| + 1..] == a;
    assert Composite(id, b)[|id| + 1..] == b;
  }

  /** `token_id, token_val = x.split(".")`: anything but exactly two pieces is an unpacking error. */
  function Parse(x: string): Option<(string, string)> {
    var parts := Split(x, '.');
    if |parts| == 2 then Some((parts[0], parts[1])) else None
  }

  /** Printing and parsing a token string undo each other, in both directions. */
  lemma ParseIsInverse(x: string, id: string, secret: string)
    ensures Parse(x) == Some((id, secret)) <==> '.' !in id && '.' !in secret && x == Composite(id, secret)
  {
    if '.' !in id && '.' !in secret && x == Composite(id, secret) {
      SplitFirst(id, secret, '.');
      SplitFirst(secret, "", '.');
    }
    if Parse(x) == Some((id, secret)) {
      var parts := Split(x, '.');
      assert parts == [id, secret] && parts[1..] == [secret];
      assert '.' !in parts[0] && '.' !in parts[1];
      assert Join(parts, '.') == id + ['.'] + Join([secret], '.');
    }
  }
}
