/** Dependency graphs of instructions: paths, ancestors and linear extensions. */
module DependencyGraphs {
  import opened Prelude

  /** The dependencies of each instruction; a dependency may be unknown or listed twice. */
  type Graph = map<Name, seq<Name>>

  // ----- Ancestors -----

  predicate Edge(g: Graph, n: Name, d: Name) {
    n in g && d in g[n]
  }

  /** A walk along dependencies, of one step or more. */
  ghost predicate Walk(g: Graph, p: seq<Name>) {
    |p| >= 2 && forall i | 0 <= i < |p| - 1 :: Edge(g, p[i], p[i + 1])
  }

  ghost predicate WalkBetween(g: Graph, p: seq<Name>, n: Name, a: Name) {
    Walk(g, p) && p[0] == n && p[|p| - 1] == a
  }

  ghost predicate Ancestor(g: Graph, n: Name, a: Name) {
    exists p :: WalkBetween(g, p, n, a)
  }

  lemma {:induction false} EdgeIsAncestor(g: Graph, n: Name, d: Name)
    requires Edge(g, n, d)
    ensures Ancestor(g, n, d)
  {
    assert WalkBetween(g, [n, d], n, d);
  }

  lemma {:induction false} AncestorTransitive(g: Graph, n: Name, a: Name, b: Name)
    requires Ancestor(g, n, a) && Ancestor(g, a, b)
    ensures Ancestor(g, n, b)
  {
    var p :| WalkBetween(g, p, n, a);
    var q :| WalkBetween(g, q, a, b);
    var r := p + q[1..];
    forall i | 0 <= i < |r| - 1 ensures Edge(g, r[i], r[i + 1]) {
      if i < |p| - 1 {
        assert Edge(g, p[i], p[i + 1]);
      } else {
        assert r[i] == q[i - |p| + 1] && r[i + 1] == q[i - |p| + 2];
        assert Edge(g, q[i - |p| + 1], q[i - |p| + 2]);
      }
    }
    assert WalkBetween(g, r, n, b);
  }

  /** The set is closed under dependencies. */
  ghost predicate Closed(g: Graph, s: set<Name>) {
    forall x, d | x in s && Edge(g, x, d) :: d in s
  }

  lemma {:induction false} WalkStaysInside(g: Graph, p: seq<Name>, s: set<Name>, i: nat)
    requires Walk(g, p) && Closed(g, s) && p[1] in s && 1 <= i < |p|
    ensures p[i] in s
  {
    if i > 1 {
      WalkStaysInside(g, p, s, i - 1);
      assert Edge(g, p[i - 1], p[i - 1 + 1]);
    }
  }

  /** A closed set that contains the direct dependencies contains every ancestor. */
  lemma {:induction false} ClosedHasAncestors(g: Graph, n: Name, s: set<Name>)
    requires Closed(g, s) && forall d | Edge(g, n, d) :: d in s
    ensures forall a | Ancestor(g, n, a) :: a in s
  {
    forall a | Ancestor(g, n, a) ensures a in s {
      var p :| WalkBetween(g, p, n, a);
      assert Edge(g, p[0], p[0 + 1]);
      WalkStaysInside(g, p, s, |p| - 1);
    }
  }

  // ----- Linear extensions -----

  /** Everything the instruction at `i` depends on stands before it. */
  ghost predicate DepsBefore(g: Graph, ord: seq<Name>, i: nat)
    requires i < |ord|
  {
    forall d | Edge(g, ord[i], d) :: d in ord[..i]
  }

  /** An order of all instructions in which each comes after its dependencies. */
  ghost predicate Linear(g: Graph, ord: seq<Name>) {
    && Distinct(ord)
    && (forall n :: n in ord <==> n in g)
    && forall i | 0 <= i < |ord| :: DepsBefore(g, ord, i)
  }

  ghost predicate Acyclic(g: Graph) {
    exists ord :: Linear(g, ord)
  }

  ghost predicate Precedes(ord: seq<Name>, a: Name, b: Name) {
    exists i, j :: 0 <= i < j < |ord| && ord[i] == a && ord[j] == b
  }

  lemma {:induction false} WalkGoesBack(g: Graph, ord: seq<Name>, p: seq<Name>, i: nat, j: nat)
    requires Linear(g, ord) && Walk(g, p) && 1 <= i < |p| && j < |ord| && ord[j] == p[0]
    ensures p[i] in ord[..j]
  {
    hide Distinct;
    if i == 1 {
      assert Edge(g, p[0], p[0 + 1]);
      assert DepsBefore(g, ord, j);
    } else {
      WalkGoesBack(g, ord, p, i - 1, j);
      var m :| 0 <= m < j && ord[m] == p[i - 1];
      assert Edge(g, p[i - 1], p[i - 1 + 1]);
      assert DepsBefore(g, ord, m);
      var l :| 0 <= l < m && ord[l] == p[i];
      assert ord[..j][l] == p[i];
    }
  }

  /** An ancestor stands earlier in every linear extension. */
  lemma {:induction false} AncestorsPrecede(g: Graph, ord: seq<Name>, n: Name, a: Name)
    requires Linear(g, ord) && n in g && Ancestor(g, n, a)
    ensures Precedes(ord, a, n) && a in g
  {
    hide Distinct, DepsBefore;
    var p :| WalkBetween(g, p, n, a);
    var j :| 0 <= j < |ord| && ord[j] == n;
    WalkGoesBack(g, ord, p, |p| - 1, j);
    var i :| 0 <= i < j && ord[i] == a;
    assert a in ord;
  }

  lemma {:induction false} NoReturn(ord: seq<Name>, a: Name, b: Name)
    requires Distinct(ord) && Precedes(ord, a, b)
    ensures !Precedes(ord, b, a) && a != b
  {
    var i, j :| 0 <= i < j < |ord| && ord[i] == a && ord[j] == b;
  }

  /** In an acyclic graph nothing is its own ancestor. */
  lemma {:induction false} NoSelfAncestor(g: Graph, n: Name)
    requires Acyclic(g) && n in g
    ensures !Ancestor(g, n, n)
  {
    if Ancestor(g, n, n) {
      var ord :| Linear(g, ord);
      AncestorsPrecede(g, ord, n, n);
      NoReturn(ord, n, n);
    }
  }

  // ----- A non-ancestor can come later -----

  function Keep(ord: seq<Name>, s: set<Name>): seq<Name> {
    if ord == [] then []
    else (if ord[0] in s then [ord[0]] else []) + Keep(ord[1..], s)
  }

  lemma {:induction false} KeepMembers(ord: seq<Name>, s: set<Name>)
    ensures forall n :: n in Keep(ord, s) <==> n in ord && n in s
    ensures Distinct(ord) ==> Distinct(Keep(ord, s))
  {
    if ord != [] {
      KeepMembers(ord[1..], s);
      assert ord == [ord[0]] + ord[1..];
      if Distinct(ord) {
        assert forall i, j | 0 <= i < j < |ord[1..]| :: ord[1..][i] == ord[i + 1] && ord[1..][j] == ord[j + 1];
        assert ord[0] !in ord[1..];
      }
    }
  }

  /** Where a kept element came from: what was kept before it stood before it. */
  lemma {:induction false} KeepSplits(ord: seq<Name>, s: set<Name>, i: nat) returns (j: nat)
    requires i < |Keep(ord, s)|
    ensures j < |ord| && ord[j] == Keep(ord, s)[i] && Keep(ord[..j], s) == Keep(ord, s)[..i]
  {
    if ord[0] in s && i == 0 {
      j := 0;
      assert ord[..0] == [];
    } else {
      var first := if ord[0] in s then 1 else 0;
      var k := KeepSplits(ord[1..], s, i - first);
      j := k + 1;
      assert ord[..j] == [ord[0]] + ord[1..][..k];
      assert ord[..j][1..] == ord[1..][..k];
    }
  }

  /** Putting a closed set first, each part in its old order, gives another linear extension. */
  lemma {:induction false} ClosedFirst(g: Graph, ord: seq<Name>, s: set<Name>)
    requires Linear(g, ord) && Closed(g, s)
    ensures Linear(g, Keep(ord, s) + Keep(ord, g.Keys - s))
  {
    hide Linear, Keep, Closed;
    FrontAndBack(g, ord, s);
    var first, second := Keep(ord, s), Keep(ord, g.Keys - s);
    var out := first + second;
    forall i | 0 <= i < |out| ensures DepsBefore(g, out, i) {
      if i < |first| {
        FrontKeepsDeps(g, ord, s, second, i);
      } else {
        BackKeepsDeps(g, ord, s, i - |first|);
      }
    }
    assert Linear(g, out) by { LinearFrom(g, out); }
  }

  lemma {:induction false} LinearFrom(g: Graph, out: seq<Name>)
    requires Distinct(out) && (forall n :: n in out <==> n in g) && forall i | 0 <= i < |out| :: DepsBefore(g, out, i)
    ensures Linear(g, out)
  {
  }

  lemma {:induction false} FrontAndBack(g: Graph, ord: seq<Name>, s: set<Name>)
    requires Linear(g, ord)
    ensures var out := Keep(ord, s) + Keep(ord, g.Keys - s); Distinct(out) && forall n :: n in out <==> n in g
  {
    KeepMembers(ord, s);
    KeepMembers(ord, g.Keys - s);
    hide Keep, DepsBefore;
    var first, second := Keep(ord, s), Keep(ord, g.Keys - s);
    forall i, j | 0 <= i < j < |first + second| ensures (first + second)[i] != (first + second)[j] {
      if i < |first| <= j {
        assert first[i] in first && second[j - |first|] in second;
      }
    }
  }

  lemma {:induction false} FrontKeepsDeps(g: Graph, ord: seq<Name>, s: set<Name>, more: seq<Name>, i: nat)
    requires Linear(g, ord) && Closed(g, s) && i < |Keep(ord, s)|
    ensures DepsBefore(g, Keep(ord, s) + more, i)
  {
    var out := Keep(ord, s) + more;
    var j := KeepSplits(ord, s, i);
    KeepMembers(ord[..j], s);
    KeepMembers(ord, s);
    hide Keep, Distinct;
    assert out[..i] == Keep(ord, s)[..i];
    assert out[i] == ord[j] && out[i] in Keep(ord, s);
    assert DepsBefore(g, ord, j);
  }

  lemma {:induction false} BackKeepsDeps(g: Graph, ord: seq<Name>, s: set<Name>, i: nat)
    requires Linear(g, ord) && i < |Keep(ord, g.Keys - s)|
    ensures DepsBefore(g, Keep(ord, s) + Keep(ord, g.Keys - s), |Keep(ord, s)| + i)
  {
    var first, second := Keep(ord, s), Keep(ord, g.Keys - s);
    var j := KeepSplits(ord, g.Keys - s, i);
    KeepMembers(ord[..j], g.Keys - s);
    KeepMembers(ord, s);
    hide Keep, Distinct;
    var out, at := first + second, |first| + i;
    assert out[..at] == first + second[..i];
    assert out[at] == ord[j];
    forall d | Edge(g, out[at], d) ensures d in out[..at] {
      assert DepsBefore(g, ord, j);
      var m :| 0 <= m < j && ord[m] == d;
      assert d in ord;
    }
  }

  /** The ancestors of `n` that are instructions, and `n`. */
  ghost function Below(g: Graph, n: Name): set<Name> {
    set a | a in g && (a == n || Ancestor(g, n, a))
  }

  /**
   Ancestry is exactly what all linear extensions agree on: in a graph that has one, `a` is an ancestor
   of `n` iff `a` stands before `n` in every linear extension.
   */
  lemma {:induction false} AncestorIffAlwaysBefore(g: Graph, n: Name, a: Name)
    requires Acyclic(g) && n in g && a in g && a != n
    ensures Ancestor(g, n, a) <==> forall ord | Linear(g, ord) :: Precedes(ord, a, n)
  {
    if Ancestor(g, n, a) {
      forall ord | Linear(g, ord) ensures Precedes(ord, a, n) {
        AncestorsPrecede(g, ord, n, a);
      }
    } else {
      var ord :| Linear(g, ord);
      var s := Below(g, n);
      BelowIsClosed(g, ord, n);
      ClosedFirst(g, ord, s);
      KeepMembers(ord, s);
      KeepMembers(ord, g.Keys - s);
      var first, second := Keep(ord, s), Keep(ord, g.Keys - s);
      hide Keep, Linear, Closed, Ancestor, Distinct;
      assert n in s && a !in s && n in ord && a in ord by { InLinear(g, ord); }
      var i :| 0 <= i < |first| && first[i] == n;
      var j :| 0 <= j < |second| && second[j] == a;
      var out := first + second;
      assert out[i] == n && out[|first| + j] == a;
      assert Precedes(out, n, a);
      assert Linear(g, out);
      assert !Precedes(out, a, n) by { LinearDistinct(g, out); NoReturn(out, n, a); }
    }
  }

  lemma {:induction false} InLinear(g: Graph, ord: seq<Name>)
    requires Linear(g, ord)
    ensures forall n :: n in ord <==> n in g
  {
  }

  lemma {:induction false} LinearDistinct(g: Graph, ord: seq<Name>)
    requires Linear(g, ord)
    ensures Distinct(ord)
  {
  }

  lemma {:induction false} BelowIsClosed(g: Graph, ord: seq<Name>, n: Name)
    requires Linear(g, ord) && n in g
    ensures Closed(g, Below(g, n))
  {
    forall x, d | x in Below(g, n) && Edge(g, x, d) ensures d in Below(g, n) {
      EdgeIsAncestor(g, x, d);
      if x != n {
        AncestorTransitive(g, n, x, d);
      }
      AncestorsPrecede(g, ord, n, d);
    }
  }
}
