/** Kahn's loop over a dependency graph, and the memoised ancestor closure. */
module TopologicalSort {
  import opened Prelude
  import opened DependencyGraphs

  // ----- Cycles -----

  ghost predicate KnownDeps(g: Graph) {
    forall n, d | Edge(g, n, d) :: d in g
  }

  ghost predicate HasCycle(g: Graph) {
    exists n :: n in g && Ancestor(g, n, n)
  }

  /** Every member depends on another member. */
  ghost predicate Stuck(g: Graph, s: set<Name>) {
    forall n | n in s :: DependsInside(g, s, n)
  }

  ghost predicate DependsInside(g: Graph, s: set<Name>, n: Name) {
    exists d :: d in s && Edge(g, n, d)
  }

  ghost predicate Chain(g: Graph, p: seq<Name>) {
    forall i | 0 <= i < |p| - 1 :: Edge(g, p[i], p[i + 1])
  }

  lemma {:induction false} DistinctFits<T(!new)>(p: seq<T>, s: set<T>)
    requires Distinct(p) && forall i | 0 <= i < |p| :: p[i] in s
    ensures |p| <= |s|
  {
    if p != [] {
      var last := p[|p| - 1];
      DistinctFits(p[..|p| - 1], s - {last});
    }
  }

  lemma {:induction false} NextInside(g: Graph, s: set<Name>, n: Name) returns (d: Name)
    requires DependsInside(g, s, n)
    ensures d in s && Edge(g, n, d)
  {
    d :| d in s && Edge(g, n, d);
  }

  lemma {:induction false} ChainSnoc(g: Graph, p: seq<Name>, d: Name)
    requires Chain(g, p) && p != [] && Edge(g, p[|p| - 1], d)
    ensures Chain(g, p + [d])
  {
  }

  lemma {:induction false} BackEdge(g: Graph, p: seq<Name>, i: nat)
    requires Chain(g, p) && i < |p| && Edge(g, p[|p| - 1], p[i])
    ensures HasCycle(g)
  {
    var loop := p[i..] + [p[i]];
    forall j | 0 <= j < |loop| - 1 ensures Edge(g, loop[j], loop[j + 1]) {
      if j < |p[i..]| - 1 {
        assert Edge(g, p[i + j], p[i + j + 1]);
      }
    }
    assert WalkBetween(g, loop, p[i], p[i]);
    assert Edge(g, loop[0], loop[1]);
  }

  /** Walking on inside a stuck set, one comes back to where one has been. */
  lemma {:induction false} StuckHasCycle(g: Graph, s: set<Name>, p: seq<Name>)
    requires Stuck(g, s) && p != [] && Distinct(p) && Chain(g, p) && forall i | 0 <= i < |p| :: p[i] in s
    ensures HasCycle(g)
    decreases |s| - |p|
  {
    hide DependsInside, HasCycle, Chain;
    assert DependsInside(g, s, p[|p| - 1]);
    hide Stuck;
    var d := NextInside(g, s, p[|p| - 1]);
    if d in p {
      var i :| 0 <= i < |p| && p[i] == d;
      BackEdge(g, p, i);
    } else {
      DistinctFits(p + [d], s);
      ChainSnoc(g, p, d);
      StuckHasCycle(g, s, p + [d]);
    }
  }

  // ----- Counting missing dependencies -----

  /** How many entries of the list are not done; an entry listed twice counts twice. */
  function Missing(deps: seq<Name>, done: set<Name>): nat {
    if deps == [] then 0 else (if deps[0] in done then 0 else 1) + Missing(deps[1..], done)
  }

  lemma {:induction false} MissingAll(deps: seq<Name>)
    ensures Missing(deps, {}) == |deps|
  {
    if deps != [] {
      MissingAll(deps[1..]);
    }
  }

  lemma {:induction false} MissingNone(deps: seq<Name>, done: set<Name>)
    ensures Missing(deps, done) == 0 <==> forall d | d in deps :: d in done
  {
    if deps != [] {
      MissingNone(deps[1..], done);
      var rest := deps[1..];
      assert forall d :: d in deps <==> d == deps[0] || d in rest by {
        assert deps == [deps[0]] + rest;
      }
    }
  }

  lemma {:induction false} MissingLess(deps: seq<Name>, done: set<Name>, x: Name)
    requires x !in done
    ensures Missing(deps, done) == Missing(deps, done + {x}) + Count(deps, x)
  {
    if deps != [] {
      MissingLess(deps[1..], done, x);
    }
  }

  // ----- Kahn's loop -----

  type Degrees = map<Name, nat>
  type Dependents = map<Name, seq<Name>>

  /** Each instruction is listed under a dependency as often as it names it. */
  ghost predicate Lists(g: Graph, dependents: Dependents) {
    dependents.Keys == g.Keys
    && forall d, n | d in g && n in g :: Count(dependents[d], n) == Count(g[n], d) && ListsOnly(g, dependents[d])
  }

  predicate ListsOnly(g: Graph, list: seq<Name>) {
    forall i | 0 <= i < |list| :: list[i] in g
  }

  /** The degrees are exact once `done` is done and the entries of `pending` are still to be subtracted. */
  ghost predicate Exact(g: Graph, indegree: Degrees, done: set<Name>, pending: seq<Name>) {
    indegree.Keys == g.Keys
    && forall n | n in g :: indegree[n] == Missing(g[n], done) + Count(pending, n)
  }

  /** The queue and the order together hold, once each, exactly the instructions of degree zero. */
  ghost predicate ZeroesQueued(g: Graph, indegree: Degrees, queued: seq<Name>) {
    && indegree.Keys == g.Keys
    && Distinct(queued)
    && forall n :: n in queued <==> n in g && indegree[n] == 0
  }

  ghost predicate Ordered(g: Graph, ord: seq<Name>) {
    Distinct(ord) && (forall i | 0 <= i < |ord| :: ord[i] in g && DepsBefore(g, ord, i))
  }

  function Members(s: seq<Name>): set<Name> {
    set x | x in s
  }

  method InitialDegrees(g: Graph) returns (indegree: Degrees)
    ensures Exact(g, indegree, {}, [])
  {
    indegree := map[];
    var left := g.Keys;
    while left != {}
      invariant left <= g.Keys && indegree.Keys == g.Keys - left
      invariant forall n | n in indegree :: indegree[n] == Missing(g[n], {})
    {
      var n := Pick(left);
      MissingAll(g[n]);
      indegree := indegree[n := |g[n]|];
      left := left - {n};
    }
  }

  /** The dependencies of the instructions in `seen` are listed, each as often as it is named. */
  ghost predicate ListedSoFar(g: Graph, dependents: Dependents, seen: set<Name>) {
    dependents.Keys == g.Keys
    && forall d, n | d in g && n in g ::
         Count(dependents[d], n) == (if n in seen then Count(g[n], d) else 0) && ListsOnly(g, dependents[d])
  }

  method ListOne(g: Graph, dependents: Dependents, seen: set<Name>, name: Name) returns (after: Dependents)
    requires ListedSoFar(g, dependents, seen) && name in g && name !in seen
    ensures ListedSoFar(g, after, seen + {name})
  {
    hide Count;
    after := dependents;
    var deps := g[name];
    forall d ensures Count(deps[..0], d) == 0 {
      CountNone(deps[..0], d);
    }
    for i := 0 to |deps|
      invariant after.Keys == g.Keys
      invariant forall d | d in g :: ListsOnly(g, after[d])
      invariant forall d, n | d in g && n in g :: n != name ==> Count(after[d], n) == Count(dependents[d], n)
      invariant forall d | d in g :: Count(after[d], name) == Count(deps[..i], d)
    {
      var dep := deps[i];
      assert deps[..i + 1] == deps[..i] + [dep];
      forall d ensures Count(deps[..i + 1], d) == Count(deps[..i], d) + (if dep == d then 1 else 0) {
        CountSnoc(deps[..i], dep, d);
      }
      if dep in after {
        forall n ensures Count(after[dep] + [name], n) == Count(after[dep], n) + (if name == n then 1 else 0) {
          CountSnoc(after[dep], name, n);
        }
        after := after[dep := after[dep] + [name]];
      }
    }
    assert deps[..|deps|] == deps;
  }

  method ListDependents(g: Graph) returns (dependents: Dependents)
    ensures Lists(g, dependents)
  {
    dependents := map n | n in g :: [];
    var left := g.Keys;
    while left != {}
      invariant left <= g.Keys && ListedSoFar(g, dependents, g.Keys - left)
    {
      var name := Pick(left);
      dependents := ListOne(g, dependents, g.Keys - left, name);
      left := left - {name};
      assert g.Keys - left == g.Keys - (left + {name}) + {name};
    }
  }

  method InitialReady(g: Graph, indegree: Degrees) returns (ready: seq<Name>)
    requires indegree.Keys == g.Keys
    ensures ZeroesQueued(g, indegree, ready)
  {
    ready := [];
    var left := g.Keys;
    while left != {}
      invariant left <= g.Keys && Distinct(ready)
      invariant forall n :: n in ready <==> n in g && n !in left && indegree[n] == 0
    {
      var n := Pick(left);
      if indegree[n] == 0 {
        ready := ready + [n];
      }
      left := left - {n};
    }
  }

  /** One entry of a dependents list: the degree goes down, never below zero, and a degree that reaches zero is queued. */
  lemma {:induction false} OneLess(g: Graph, indegree: Degrees, done: set<Name>, pending: seq<Name>)
    requires Exact(g, indegree, done, pending) && pending != [] && pending[0] in g
    ensures indegree[pending[0]] >= 1
    ensures Exact(g, indegree[pending[0] := indegree[pending[0]] - 1], done, pending[1..])
  {
    hide Missing;
    assert forall n :: Count(pending, n) == (if pending[0] == n then 1 else 0) + Count(pending[1..], n);
  }

  lemma {:induction false} ZeroQueued(g: Graph, indegree: Degrees, order: seq<Name>, ready: seq<Name>, n: Name)
    requires ZeroesQueued(g, indegree, order + ready) && n in g && indegree[n] >= 1
    ensures var after := indegree[n := indegree[n] - 1];
            ZeroesQueued(g, after, order + (if after[n] == 0 then ready + [n] else ready))
  {
    var after := indegree[n := indegree[n] - 1];
    var queued := order + ready;
    assert n !in queued;
    if after[n] == 0 {
      assert order + (ready + [n]) == queued + [n];
      forall m ensures m in queued + [n] <==> m in queued || m == n {
      }
    }
  }

  /** Subtracts a finished instruction from the degrees of those that depend on it. */
  method Relax(g: Graph, indegree: Degrees, nexts: seq<Name>, order: seq<Name>, ready: seq<Name>, ghost done: set<Name>)
    returns (indegree': Degrees, ready': seq<Name>)
    requires Exact(g, indegree, done, nexts) && ListsOnly(g, nexts) && ZeroesQueued(g, indegree, order + ready)
    ensures Exact(g, indegree', done, []) && ZeroesQueued(g, indegree', order + ready')
  {
    hide Exact, ZeroesQueued;
    indegree', ready' := indegree, ready;
    assert nexts[0..] == nexts;
    for i := 0 to |nexts|
      invariant Exact(g, indegree', done, nexts[i..]) && ZeroesQueued(g, indegree', order + ready')
    {
      var n := nexts[i];
      assert nexts[i..][0] == n && nexts[i..][1..] == nexts[i + 1..];
      OneLess(g, indegree', done, nexts[i..]);
      assert indegree'.Keys == g.Keys by { ExactKeys(g, indegree', done, nexts[i..]); }
      ZeroQueued(g, indegree', order, ready', n);
      indegree' := indegree'[n := indegree'[n] - 1];
      if indegree'[n] == 0 {
        ready' := ready' + [n];
      }
    }
    assert nexts[|nexts|..] == [];
  }

  lemma {:induction false} ExactKeys(g: Graph, indegree: Degrees, done: set<Name>, pending: seq<Name>)
    requires Exact(g, indegree, done, pending)
    ensures indegree.Keys == g.Keys
  {
  }

  ghost predicate KahnInv(g: Graph, indegree: Degrees, order: seq<Name>, ready: seq<Name>) {
    Exact(g, indegree, Members(order), []) && ZeroesQueued(g, indegree, order + ready) && Ordered(g, order)
  }

  /** Taking the first ready instruction keeps the order valid, and leaves its dependents to be subtracted. */
  lemma {:induction false} TakeReady(g: Graph, dependents: Dependents, indegree: Degrees, order: seq<Name>, ready: seq<Name>)
    requires Lists(g, dependents) && KahnInv(g, indegree, order, ready) && ready != []
    ensures ready[0] in g && ready[0] !in order && ListsOnly(g, dependents[ready[0]])
    ensures Exact(g, indegree, Members(order + [ready[0]]), dependents[ready[0]])
    ensures ZeroesQueued(g, indegree, (order + [ready[0]]) + ready[1..])
    ensures Ordered(g, order + [ready[0]])
  {
    var name := ready[0];
    assert order + ready == (order + [name]) + ready[1..];
    assert (order + ready)[|order|] == name;
    assert name in order + ready;
    forall i | 0 <= i < |order| ensures order[i] != name {
      assert (order + ready)[i] == order[i];
    }
    assert Members(order + [name]) == Members(order) + {name};
    forall n | n in g ensures indegree[n] == Missing(g[n], Members(order + [name])) + Count(dependents[name], n) {
      MissingLess(g[n], Members(order), name);
    }
    MissingNone(g[name], Members(order));
    hide Missing, Count, Lists, ZeroesQueued;
    AppendOrdered(g, order, name);
  }

  lemma {:induction false} AppendOrdered(g: Graph, order: seq<Name>, name: Name)
    requires Ordered(g, order) && name in g && name !in order && forall d | d in g[name] :: d in Members(order)
    ensures Ordered(g, order + [name])
  {
    var out := order + [name];
    forall i | 0 <= i < |out| ensures out[i] in g && DepsBefore(g, out, i) {
      assert out[..i] == order[..i];
      if i < |order| {
        assert DepsBefore(g, order, i);
      } else {
        assert order[..i] == order;
      }
    }
  }

  /** When nothing is ready any more, what is not ordered is stuck on something not ordered. */
  lemma {:induction false} LeftoverIsStuck(g: Graph, indegree: Degrees, order: seq<Name>, n: Name) returns (d: Name)
    requires KahnInv(g, indegree, order, []) && n in g && n !in order
    ensures Edge(g, n, d) && d !in order
  {
    assert order + [] == order;
    MissingNone(g[n], Members(order));
    hide Missing;
    assert indegree[n] != 0;
    d :| d in g[n] && d !in Members(order);
  }

  lemma {:induction false} OrderedSize(g: Graph, order: seq<Name>)
    requires Ordered(g, order)
    ensures |order| <= |g|
    ensures |order| == |g| <==> forall n | n in g :: n in order
  {
    hide DepsBefore;
    assert forall k :: k in order <==> k in Members(order);
    DistinctSize(order, Members(order));
    assert Members(order) <= g.Keys by {
      forall k | k in order ensures k in g {
        var i :| 0 <= i < |order| && order[i] == k;
      }
    }
    SubsetSize(Members(order), g.Keys);
    assert |g| == |g.Keys|;
    if forall n | n in g :: n in order {
      assert g.Keys == Members(order);
    }
  }

  /** A full order is a linear extension; an incomplete one leaves none, and leaves a cycle if all dependencies are known. */
  lemma {:induction false} KahnVerdict(g: Graph, indegree: Degrees, order: seq<Name>)
    requires KahnInv(g, indegree, order, [])
    ensures |order| == |g| ==> Linear(g, order)
    ensures |order| == |g| <==> Acyclic(g)
    ensures KnownDeps(g) ==> (|order| != |g| <==> HasCycle(g))
  {
    OrderedSize(g, order);
    if |order| == |g| {
      OrderedIsLinear(g, order);
      hide Ancestor;
      forall n | n in g ensures !Ancestor(g, n, n) {
        NoSelfAncestor(g, n);
      }
    } else {
      var n :| n in g && n !in order;
      LeftoverHasNoOrder(g, indegree, order, n);
      if KnownDeps(g) {
        LeftoverHasCycle(g, indegree, order, n);
      }
    }
  }

  lemma {:induction false} OrderedIsLinear(g: Graph, order: seq<Name>)
    requires Ordered(g, order) && forall n | n in g :: n in order
    ensures Linear(g, order)
  {
    hide DepsBefore, Distinct;
    forall n ensures n in order <==> n in g {
      if n in order {
        var i :| 0 <= i < |order| && order[i] == n;
      }
    }
  }

  lemma {:induction false} LeftoverHasNoOrder(g: Graph, indegree: Degrees, order: seq<Name>, n: Name)
    requires KahnInv(g, indegree, order, []) && n in g && n !in order
    ensures !Acyclic(g)
  {
    if Acyclic(g) {
      var ord :| Linear(g, ord);
      assert n in ord;
      var i :| 0 <= i < |ord| && ord[i] == n;
      Descend(g, indegree, order, ord, i);
    }
  }

  /** In a linear extension, following missing dependencies from a leftover never ends; so there is none. */
  lemma {:induction false} Descend(g: Graph, indegree: Degrees, order: seq<Name>, ord: seq<Name>, i: nat)
    requires KahnInv(g, indegree, order, []) && Linear(g, ord) && i < |ord| && ord[i] !in order
    ensures false
    decreases i
  {
    assert ord[i] in ord;
    var d := LeftoverIsStuck(g, indegree, order, ord[i]);
    hide KahnInv;
    assert DepsBefore(g, ord, i);
    var j :| 0 <= j < i && ord[j] == d;
    Descend(g, indegree, order, ord, j);
  }

  lemma {:induction false} LeftoverInside(g: Graph, indegree: Degrees, order: seq<Name>, s: set<Name>, m: Name)
    requires KahnInv(g, indegree, order, []) && KnownDeps(g) && s == (set m | m in g && m !in order) && m in s
    ensures DependsInside(g, s, m)
  {
    var d := LeftoverIsStuck(g, indegree, order, m);
    hide KahnInv;
    assert d in s;
  }

  lemma {:induction false} LeftoverHasCycle(g: Graph, indegree: Degrees, order: seq<Name>, n: Name)
    requires KahnInv(g, indegree, order, []) && KnownDeps(g) && n in g && n !in order
    ensures HasCycle(g)
  {
    hide KahnInv, HasCycle;
    var s := set m | m in g && m !in order;
    assert Stuck(g, s) by {
      hide DependsInside;
      forall m | m in s ensures DependsInside(g, s, m) {
        LeftoverInside(g, indegree, order, s, m);
      }
    }
    hide Stuck;
    StuckHasCycle(g, s, [n]);
  }

  /**
   Kahn's loop, with the iteration order of the maps left open. The order is complete iff the graph has a
   linear extension, and then it is one. If all dependencies are known, it is incomplete iff there is a cycle.
   */
  method Kahn(g: Graph) returns (order: seq<Name>)
    ensures |order| == |g| ==> Linear(g, order)
    ensures |order| == |g| <==> Acyclic(g)
    ensures KnownDeps(g) ==> (|order| != |g| <==> HasCycle(g))
  {
    var indegree := InitialDegrees(g);
    var dependents := ListDependents(g);
    var ready := InitialReady(g, indegree);
    order := [];
    assert order + ready == ready && Members(order) == {};
    while ready != []
      invariant KahnInv(g, indegree, order, ready)
      decreases |g| - |order|
    {
      var name := ready[0];
      TakeReady(g, dependents, indegree, order, ready);
      hide KahnInv, Exact, ZeroesQueued, Lists;
      ready := ready[1..];
      order := order + [name];
      OrderedSize(g, order);
      indegree, ready := Relax(g, indegree, dependents[name], order, ready, Members(order));
      assert KahnInv(g, indegree, order, ready) by { KahnInvFrom(g, indegree, order, ready); }
    }
    KahnVerdict(g, indegree, order);
  }

  lemma {:induction false} KahnInvFrom(g: Graph, indegree: Degrees, order: seq<Name>, ready: seq<Name>)
    requires Exact(g, indegree, Members(order), []) && ZeroesQueued(g, indegree, order + ready) && Ordered(g, order)
    ensures KahnInv(g, indegree, order, ready)
  {
  }

  // ----- The memoised closure -----

  type Closure = map<Name, set<Name>>

  ghost predicate IsClosureOf(g: Graph, n: Name, s: set<Name>) {
    forall a :: a in s <==> Ancestor(g, n, a)
  }

  /** Every remembered set is exactly the ancestors of its instruction. */
  ghost predicate Remembers(g: Graph, cache: Closure) {
    forall n | n in cache :: IsClosureOf(g, n, cache[n])
  }

  /** All names that occur as a dependency. */
  ghost function Mentioned(g: Graph): set<Name> {
    set n, i | n in g && 0 <= i < |g[n]| :: g[n][i]
  }

  lemma {:induction false} AncestorsAreMentioned(g: Graph, n: Name, a: Name)
    requires Ancestor(g, n, a)
    ensures a in Mentioned(g)
  {
    var p :| WalkBetween(g, p, n, a);
    assert Edge(g, p[|p| - 2], p[|p| - 2 + 1]);
    var m := p[|p| - 2];
    var i :| 0 <= i < |g[m]| && g[m][i] == a;
  }

  ghost predicate AllAncestors(g: Graph, n: Name, s: set<Name>) {
    forall a | a in s :: Ancestor(g, n, a)
  }

  /** What is still to be looked at stands on the stack: dependencies of `n` or of what was seen, and only ancestors of `n`. */
  ghost predicate Exploring(g: Graph, n: Name, seen: set<Name>, stack: seq<Name>) {
    && AllAncestors(g, n, seen + Members(stack))
    && (forall d | Edge(g, n, d) :: d in seen || d in stack)
    && (forall x, d | x in seen && Edge(g, x, d) :: d in seen || d in stack)
  }

  lemma {:induction false} ExploreStart(g: Graph, n: Name)
    ensures Exploring(g, n, {}, if n in g then g[n] else [])
  {
    forall d | Edge(g, n, d) ensures Ancestor(g, n, d) {
      EdgeIsAncestor(g, n, d);
    }
    hide Ancestor;
    assert forall d | n in g && d in g[n] :: Edge(g, n, d);
  }

  lemma {:induction false} ExploreDone(g: Graph, n: Name, seen: set<Name>)
    requires Exploring(g, n, seen, [])
    ensures IsClosureOf(g, n, seen)
  {
    hide Ancestor;
    assert Closed(g, seen);
    ClosedHasAncestors(g, n, seen);
    forall a ensures a in seen <==> Ancestor(g, n, a) {
      assert a in seen ==> a in seen + Members([]);
    }
  }

  lemma {:induction false} InStack(stack: seq<Name>, d: Name)
    requires stack != []
    ensures d in stack <==> d in stack[..|stack| - 1] || d == stack[|stack| - 1]
  {
    assert stack == stack[..|stack| - 1] + [stack[|stack| - 1]];
  }

  /** The top was seen before, or is unknown and has no dependencies. */
  lemma {:induction false} ExploreSkip(g: Graph, n: Name, seen: set<Name>, stack: seq<Name>)
    requires Exploring(g, n, seen, stack) && stack != []
    requires var cur := stack[|stack| - 1]; cur in seen || cur !in g
    ensures Exploring(g, n, seen + {stack[|stack| - 1]}, stack[..|stack| - 1])
  {
    hide Ancestor;
    var cur, rest := stack[|stack| - 1], stack[..|stack| - 1];
    forall d ensures d in stack <==> d in rest || d == cur {
      InStack(stack, d);
    }
    forall a | a in seen + {cur} + Members(rest) ensures Ancestor(g, n, a) {
      assert a in seen + Members(stack);
    }
  }

  /** The top is new and its dependencies go on the stack. */
  lemma {:induction false} ExplorePush(g: Graph, n: Name, seen: set<Name>, stack: seq<Name>)
    requires Exploring(g, n, seen, stack) && stack != [] && stack[|stack| - 1] in g
    ensures var cur := stack[|stack| - 1];
            Exploring(g, n, seen + {cur}, stack[..|stack| - 1] + g[cur])
  {
    hide Ancestor;
    var cur, rest := stack[|stack| - 1], stack[..|stack| - 1];
    forall d ensures d in stack <==> d in rest || d == cur {
      InStack(stack, d);
    }
    assert cur in seen + Members(stack);
    forall a | a in seen + {cur} + Members(rest + g[cur]) ensures Ancestor(g, n, a) {
      if a in g[cur] && a !in seen + Members(stack) {
        EdgeIsAncestor(g, cur, a);
        AncestorTransitive(g, n, cur, a);
      } else {
        assert a in seen + Members(stack);
      }
    }
  }

  /** The top is new and its ancestors are remembered. */
  lemma {:induction false} ExploreHit(g: Graph, n: Name, seen: set<Name>, stack: seq<Name>, hit: set<Name>)
    requires Exploring(g, n, seen, stack) && stack != [] && IsClosureOf(g, stack[|stack| - 1], hit)
    ensures Exploring(g, n, seen + {stack[|stack| - 1]} + hit, stack[..|stack| - 1])
  {
    hide Ancestor;
    var cur, rest := stack[|stack| - 1], stack[..|stack| - 1];
    forall d ensures d in stack <==> d in rest || d == cur {
      InStack(stack, d);
    }
    assert cur in seen + Members(stack);
    forall a | a in seen + {cur} + hit + Members(rest) ensures Ancestor(g, n, a) {
      if a in hit {
        AncestorTransitive(g, n, cur, a);
      } else {
        assert a in seen + Members(stack);
      }
    }
    forall x, d | x in seen + {cur} + hit && Edge(g, x, d) ensures d in seen + {cur} + hit || d in rest {
      EdgeIsAncestor(g, x, d);
      if x in hit {
        AncestorTransitive(g, cur, x, d);
      }
    }
  }

  /**
   The ancestors of an instruction, found by a walk that reuses remembered closures. Whatever is
   remembered already, the result is exactly the transitive closure, and stays remembered.
   */
  method Ancestors(g: Graph, name: Name, cache: Closure) returns (seen: set<Name>, cache': Closure)
    requires Remembers(g, cache)
    ensures IsClosureOf(g, name, seen)
    ensures Remembers(g, cache') && cache' == cache[name := seen]
  {
    hide Ancestor;
    if name in cache {
      seen, cache' := cache[name], cache;
      assert cache' == cache[name := seen];
      return;
    }
    seen := {};
    var stack := if name in g then g[name] else [];
    ExploreStart(g, name);
    hide IsClosureOf;
    while stack != []
      invariant Exploring(g, name, seen, stack)
      decreases Mentioned(g) - seen, |stack|
    {
      var cur := stack[|stack| - 1];
      TopIsMentioned(g, name, seen, stack);
      hide Exploring, Mentioned;
      if cur in seen || cur !in g {
        ExploreSkip(g, name, seen, stack);
        seen := seen + {cur};
        stack := stack[..|stack| - 1];
      } else if cur in cache {
        ExploreHit(g, name, seen, stack, cache[cur]);
        stack := stack[..|stack| - 1];
        seen := seen + {cur} + cache[cur];
      } else {
        ExplorePush(g, name, seen, stack);
        stack := stack[..|stack| - 1] + g[cur];
        seen := seen + {cur};
      }
    }
    ExploreDone(g, name, seen);
    cache' := cache[name := seen];
  }

  lemma {:induction false} TopIsMentioned(g: Graph, n: Name, seen: set<Name>, stack: seq<Name>)
    requires Exploring(g, n, seen, stack) && stack != []
    ensures stack[|stack| - 1] in Mentioned(g)
  {
    hide Ancestor;
    assert stack[|stack| - 1] in seen + Members(stack);
    AncestorsAreMentioned(g, n, stack[|stack| - 1]);
  }
}
