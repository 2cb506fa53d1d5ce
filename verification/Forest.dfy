/**
 * The parent/child links between tokens: reachability along `parent_id`, the cascading delete as
 * a worklist, and what makes the links a forest.
 */
module Forest {
  import opened Prelude
  import opened Model

  /** `p` walks down parent links, from `p[0]` to its last element. */
  ghost predicate Chain(m: map<Id, Token>, p: seq<Id>) {
    && p != []
    && (forall i | 0 <= i < |p| :: p[i] in m)
    && (forall i | 0 < i < |p| :: m[p[i]].parent == Some(p[i - 1]))
  }

  ghost predicate Reaches(m: map<Id, Token>, roots: set<Id>, x: Id) {
    exists p :: Chain(m, p) && p[0] in roots && p[|p| - 1] == x
  }

  /** The stored roots and everything downward reachable from them. */
  ghost function Below(m: map<Id, Token>, roots: set<Id>): set<Id> {
    set x | x in m && Reaches(m, roots, x)
  }

  ghost predicate ClosedDown(m: map<Id, Token>, s: set<Id>) {
    forall y | y in m && m[y].parent.Some? && m[y].parent.value in s :: y in s
  }

  lemma BelowHasRoots(m: map<Id, Token>, roots: set<Id>)
    ensures roots * m.Keys <= Below(m, roots) <= m.Keys
  {
    forall r | r in roots && r in m ensures r in Below(m, roots) {
      assert Chain(m, [r]);
    }
  }

  lemma BelowIsClosed(m: map<Id, Token>, roots: set<Id>)
    ensures ClosedDown(m, Below(m, roots))
  {
    forall y | y in m && m[y].parent.Some? && m[y].parent.value in Below(m, roots)
      ensures y in Below(m, roots)
    {
      var p :| Chain(m, p) && p[0] in roots && p[|p| - 1] == m[y].parent.value;
      assert Chain(m, p + [y]);
      assert (p + [y])[0] in roots && (p + [y])[|p + [y]| - 1] == y;
    }
  }

  lemma {:induction false} ChainStaysIn(m: map<Id, Token>, p: seq<Id>, s: set<Id>, i: nat)
    requires Chain(m, p) && ClosedDown(m, s)
    requires p[0] in s && i < |p|
    ensures p[i] in s
  {
    if i > 0 {
      ChainStaysIn(m, p, s, i - 1);
      assert m[p[i]].parent == Some(p[i - 1]);
    }
  }

  /** `Below` is the least downward closed set holding the stored roots. */
  lemma BelowIsLeast(m: map<Id, Token>, roots: set<Id>, s: set<Id>)
    requires ClosedDown(m, s) && roots * m.Keys <= s
    ensures Below(m, roots) <= s
  {
    forall x | x in Below(m, roots) ensures x in s {
      var p :| Chain(m, p) && p[0] in roots && p[|p| - 1] == x;
      ChainStaysIn(m, p, s, |p| - 1);
    }
  }

  /** The cascade of a delete: visit each token once and queue the tokens that name it as parent. */
  method Cascade(m: map<Id, Token>, roots: set<Id>) returns (gone: set<Id>)
    ensures gone == Below(m, roots)
  {
    BelowHasRoots(m, roots);
    BelowIsClosed(m, roots);
    var work := roots * m.Keys;
    gone := {};
    while work != {}
      invariant work !! gone
      invariant roots * m.Keys <= work + gone <= Below(m, roots)
      invariant forall y | y in m && m[y].parent.Some? && m[y].parent.value in gone :: y in work + gone
      decreases m.Keys - gone
    {
      var x :| x in work;
      gone := gone + {x};
      work := work + (set y | y in m && m[y].parent == Some(x)) - gone;
    }
    BelowIsLeast(m, roots, gone);
  }

  /** A finite chain of stored ancestors leads from a root down to `x`. */
  ghost predicate Rooted(m: map<Id, Token>, x: Id) {
    exists p :: Chain(m, p) && m[p[0]].parent.None? && p[|p| - 1] == x
  }

  ghost predicate IsForest(m: map<Id, Token>) {
    forall x {:trigger Rooted(m, x)} | x in m :: Rooted(m, x)
  }

  /** `x` is its own ancestor. */
  ghost predicate OnCycle(m: map<Id, Token>, x: Id) {
    exists c :: Chain(m, c) && c[|c| - 1] == x && m[c[0]].parent == Some(x)
  }

  lemma CycleContinues(m: map<Id, Token>, x: Id)
    requires OnCycle(m, x)
    ensures x in m && m[x].parent.Some? && OnCycle(m, m[x].parent.value)
  {
    var c :| Chain(m, c) && c[|c| - 1] == x && m[c[0]].parent == Some(x);
    if |c| > 1 {
      var d := [x] + c[..|c| - 1];
      assert Chain(m, d) by {
        forall i | 0 < i < |d| ensures m[d[i]].parent == Some(d[i - 1]) {
          assert d[i] == c[i - 1];
        }
      }
      assert d[|d| - 1] == c[|c| - 2];
    }
  }

  lemma {:induction false} RootedIsOffCycle(m: map<Id, Token>, p: seq<Id>)
    requires Chain(m, p) && m[p[0]].parent.None?
    ensures !OnCycle(m, p[|p| - 1])
    decreases |p|
  {
    if |p| > 1 {
      var q := p[..|p| - 1];
      assert Chain(m, q);
      RootedIsOffCycle(m, q);
      assert m[p[|p| - 1]].parent == Some(q[|q| - 1]);
    }
    if OnCycle(m, p[|p| - 1]) {
      CycleContinues(m, p[|p| - 1]);
    }
  }

  /** In a forest no token is its own ancestor, and a token that has a parent has it stored. */
  lemma ForestHasNoCycle(m: map<Id, Token>)
    requires IsForest(m)
    ensures forall x | x in m :: !OnCycle(m, x)
    ensures forall x | x in m && m[x].parent.Some? :: m[x].parent.value in m
  {
    forall x | x in m ensures !OnCycle(m, x) && (m[x].parent.Some? ==> m[x].parent.value in m) {
      assert Rooted(m, x);
      var p :| Chain(m, p) && m[p[0]].parent.None? && p[|p| - 1] == x;
      RootedIsOffCycle(m, p);
      if |p| > 1 {
        assert p[|p| - 2] in m && m[p[|p| - 1]].parent == Some(p[|p| - 2]);
      }
    }
  }

  /** Rootedness only depends on the keys and parent links of the chain that shows it. */
  lemma RootedTransfers(m: map<Id, Token>, n: map<Id, Token>, p: seq<Id>)
    requires Chain(m, p) && m[p[0]].parent.None?
    requires forall i | 0 <= i < |p| :: p[i] in n && n[p[i]].parent == m[p[i]].parent
    ensures Rooted(n, p[|p| - 1])
  {
    assert Chain(n, p);
  }

  lemma RootedChild(m: map<Id, Token>, x: Id)
    requires x in m
    requires m[x].parent.Some? ==> Rooted(m, m[x].parent.value)
    ensures Rooted(m, x)
  {
    if m[x].parent.None? {
      assert Chain(m, [x]);
    } else {
      var p :| Chain(m, p) && m[p[0]].parent.None? && p[|p| - 1] == m[x].parent.value;
      var q := p + [x];
      assert Chain(m, q) && q[0] == p[0] && q[|q| - 1] == x;
    }
  }

  /** Adding a token under a stored parent, or as a root, keeps a forest. */
  lemma ForestGrows(m: map<Id, Token>, t: Token)
    requires IsForest(m) && t.id !in m
    requires t.parent.Some? ==> t.parent.value in m
    ensures IsForest(m[t.id := t])
  {
    var n := m[t.id := t];
    forall x | x in m ensures Rooted(n, x) {
      assert Rooted(m, x);
      var p :| Chain(m, p) && m[p[0]].parent.None? && p[|p| - 1] == x;
      RootedTransfers(m, n, p);
    }
    RootedChild(n, t.id);
  }

  lemma ChainAvoids(m: map<Id, Token>, gone: set<Id>, p: seq<Id>, i: nat)
    requires ClosedDown(m, gone) && Chain(m, p) && i < |p|
    requires p[|p| - 1] !in gone
    ensures p[i] !in gone
  {
    if p[i] in gone {
      assert Chain(m, p[i..]);
      ChainStaysIn(m, p[i..], gone, |p| - 1 - i);
    }
  }

  /** Deleting a downward closed set keeps a forest. */
  lemma ForestShrinks(m: map<Id, Token>, gone: set<Id>)
    requires IsForest(m) && ClosedDown(m, gone)
    ensures IsForest(m - gone)
  {
    forall x | x in m - gone ensures Rooted(m - gone, x) {
      assert Rooted(m, x);
      var p :| Chain(m, p) && m[p[0]].parent.None? && p[|p| - 1] == x;
      forall i | 0 <= i < |p| ensures p[i] !in gone {
        ChainAvoids(m, gone, p, i);
      }
      RootedTransfers(m, m - gone, p);
    }
  }

  /** Updates that leave the parent links alone keep a forest. */
  lemma ForestKeeps(m: map<Id, Token>, n: map<Id, Token>)
    requires IsForest(m) && m.Keys == n.Keys
    requires forall k | k in m :: n[k].parent == m[k].parent
    ensures IsForest(n)
  {
    forall x | x in n ensures Rooted(n, x) {
      assert x in m;
      assert Rooted(m, x);
      var p :| Chain(m, p) && m[p[0]].parent.None? && p[|p| - 1] == x;
      RootedTransfers(m, n, p);
    }
  }
}
