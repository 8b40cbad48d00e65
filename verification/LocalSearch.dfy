/**
 Complete searches: the beam over all regions, replay of assignments, and local search.
 */
module LocalSearch {
  import opened Prelude
  import opened PlacementStates
  import opened PlacementAccounting
  import opened PlanScores
  import opened BeamSearch

  // ----- Replay -----

  /** A candidate, with its index, for each of the first regions in order. */
  type Assignment = seq<(nat, Candidate)>

  /** The state in which the regions are placed as assigned, or nothing if some cannot be. */
  function Replay(u: Search, asg: Assignment): (r: Option<SearchState>)
    requires ValidSearch(u) && |asg| <= |u.p.order|
    ensures r.Some? ==> Shaped(u.p, r.value)
    decreases |asg|
  {
    if asg == [] then Some(NewState(u.p))
    else
      var last := |asg| - 1;
      match Replay(u, asg[..last])
      case None => None
      case Some(s) => Extend(u.p, s, u.p.order[last], asg[last].0, asg[last].1)
  }

  ghost function StepsOf(u: Search, asg: Assignment): (steps: seq<Placing>)
    requires |asg| <= |u.p.order|
    ensures |steps| == |asg| && forall i | 0 <= i < |asg| :: steps[i] == Placing(u.p.order[i], asg[i].0, asg[i].1)
  {
    seq(|asg|, i requires 0 <= i < |asg| => Placing(u.p.order[i], asg[i].0, asg[i].1))
  }

  /** A replay is a run of placements, so what holds of every run holds of every plan. */
  lemma {:induction false} ReplayIsARun(u: Search, asg: Assignment)
    requires ValidSearch(u) && |asg| <= |u.p.order|
    ensures InRange(u.p, StepsOf(u, asg)) && Replay(u, asg) == PlaceAll(u.p, StepsOf(u, asg))
    decreases |asg|
  {
    hide Extend;
    if asg != [] {
      var last := |asg| - 1;
      ReplayIsARun(u, asg[..last]);
      assert StepsOf(u, asg)[..last] == StepsOf(u, asg[..last]);
    }
  }

  /** Each assigned candidate is in the pool of its region under its index. */
  ghost predicate FromPools(u: Search, asg: Assignment)
    requires ValidSearch(u) && |asg| <= |u.p.order|
  {
    forall i | 0 <= i < |asg| :: asg[i] in u.pools[u.p.order[i]]
  }

  function Indices(asg: Assignment): (r: seq<nat>)
    ensures |r| == |asg| && forall i | 0 <= i < |asg| :: r[i] == asg[i].0
  {
    seq(|asg|, i requires 0 <= i < |asg| => asg[i].0)
  }

  /** The state is the replay of this assignment from the pools, which its candidate indices spell. */
  ghost predicate Replays(u: Search, asg: Assignment, s: SearchState)
    requires ValidSearch(u)
  {
    |asg| <= |u.p.order| && FromPools(u, asg) && Replay(u, asg) == Some(s) && s.cands == Indices(asg)
  }

  ghost predicate IsReplay(u: Search, s: SearchState)
    requires ValidSearch(u)
  {
    exists asg :: Replays(u, asg, s)
  }

  // ----- The beam over all regions -----

  function BeamAfter(u: Search, n: nat): (beam: seq<SearchState>)
    requires ValidSearch(u) && n <= |u.p.order|
    ensures BeamOk(u.p, beam, n)
  {
    if n == 0 then [NewState(u.p)]
    else
      StepKeepsBeam(u, BeamAfter(u, n - 1), u.p.order[n - 1], n - 1);
      BeamStep(u, BeamAfter(u, n - 1), u.p.order[n - 1])
  }

  lemma {:induction false} ReplayExtends(u: Search, asg: Assignment, s: SearchState, c: (nat, Candidate))
    requires ValidSearch(u) && Replays(u, asg, s) && |asg| < |u.p.order| && c in u.pools[u.p.order[|asg|]] && Shaped(u.p, s)
    requires Extend(u.p, s, u.p.order[|asg|], c.0, c.1).Some?
    ensures Replays(u, asg + [c], Extend(u.p, s, u.p.order[|asg|], c.0, c.1).value)
  {
    var more := asg + [c];
    assert more[..|asg|] == asg;
    ExtendAppends(u.p, s, u.p.order[|asg|], c.0, c.1);
    hide Extend, Replay;
    assert Replay(u, more) == Extend(u.p, s, u.p.order[|asg|], c.0, c.1) by { ReplayStep(u, more); }
    assert Indices(more) == Indices(asg) + [c.0];
  }

  lemma {:induction false} ReplayStep(u: Search, asg: Assignment)
    requires ValidSearch(u) && 0 < |asg| <= |u.p.order|
    ensures var last := |asg| - 1;
            Replay(u, asg) == match Replay(u, asg[..last])
              case None => None
              case Some(s) => Extend(u.p, s, u.p.order[last], asg[last].0, asg[last].1)
  {
  }

  ghost predicate AllReplays(u: Search, es: seq<Entry>)
    requires ValidSearch(u)
  {
    forall i | 0 <= i < |es| :: IsReplay(u, es[i].state)
  }

  lemma {:induction false} ChildrenAreReplays(u: Search, s: SearchState, asg: Assignment, pool: Pool, parents: seq<nat>)
    requires ValidSearch(u) && Shaped(u.p, s) && Replays(u, asg, s) && |asg| < |u.p.order|
    requires forall i | 0 <= i < |pool| :: pool[i] in u.pools[u.p.order[|asg|]]
    ensures AllReplays(u, Children(u, s, u.p.order[|asg|], pool, parents))
    decreases |pool|
  {
    if pool != [] {
      ChildrenAreReplays(u, s, asg, pool[..|pool| - 1], parents);
      var c := pool[|pool| - 1];
      hide Extend, AnalyticScore, Replays, ValidSearch;
      if Extend(u.p, s, u.p.order[|asg|], c.0, c.1).Some? {
        ReplayExtends(u, asg, s, c);
      }
    }
  }

  lemma {:induction false} ExpansionIsReplays(u: Search, beam: seq<SearchState>, n: nat)
    requires ValidSearch(u) && AllShaped(u.p, beam) && n < |u.p.order|
    requires forall i | 0 <= i < |beam| :: IsReplay(u, beam[i]) && |beam[i].cands| == n
    ensures AllReplays(u, Expansion(u, beam, u.p.order[n]))
    decreases |beam|
  {
    if beam != [] {
      var init, s := beam[..|beam| - 1], beam[|beam| - 1];
      ExpansionIsReplays(u, init, n);
      var asg :| Replays(u, asg, s);
      assert |asg| == n;
      ChildrenAreReplays(u, s, asg, u.pools[u.p.order[n]], DeviceSeq(u, s.cands, |s.cands|));
      hide IsReplay, Children, DeviceSeq;
    }
  }

  /** Pruning and selection keep only what was there. */
  lemma {:induction false} SelectedAreReplays(u: Search, es: seq<Entry>, k: nat, i: nat)
    requires ValidSearch(u) && EntriesOk(u.p, es, k) && AllReplays(u, es)
    requires i < |SelectBeam(Survivors(es), u.cfg.beamWidth)|
    ensures IsReplay(u, SelectBeam(Survivors(es), u.cfg.beamWidth)[i])
  {
    hide IsReplay, EntriesOk, ValidSearch, SelectBeam, Survivors;
    SurvivorsOk(u.p, es, k);
    SurvivorsAreEntries(es);
    var kept := Survivors(es);
    SelectedOk(u.p, kept, k, u.cfg.beamWidth);
    var out := SelectBeam(kept, u.cfg.beamWidth);
    assert StateIn(kept, out[i]);
    var j :| 0 <= j < |kept| && kept[j].state == out[i];
    assert kept[j] in es;
    var m :| 0 <= m < |es| && es[m] == kept[j];
  }

  ghost predicate BeamReplays(u: Search, beam: seq<SearchState>)
    requires ValidSearch(u)
  {
    forall i | 0 <= i < |beam| :: IsReplay(u, beam[i])
  }

  lemma {:induction false} StepAreReplays(u: Search, beam: seq<SearchState>, n: nat)
    requires ValidSearch(u) && n < |u.p.order| && BeamOk(u.p, beam, n) && BeamReplays(u, beam)
    ensures BeamReplays(u, BeamStep(u, beam, u.p.order[n]))
  {
    hide IsReplay, AllReplays, Expansion, Survivors, SelectBeam;
    ExpansionIsReplays(u, beam, n);
    ExpansionIsDistinct(u, beam, u.p.order[n], n);
    var out := BeamStep(u, beam, u.p.order[n]);
    forall i | 0 <= i < |out| ensures IsReplay(u, out[i]) {
      SelectedAreReplays(u, Expansion(u, beam, u.p.order[n]), n + 1, i);
    }
  }

  lemma {:induction false} BeamAfterStep(u: Search, n: nat)
    requires ValidSearch(u) && n < |u.p.order|
    ensures u.p.order[n] < |u.p.regions| && AllShaped(u.p, BeamAfter(u, n))
    ensures BeamAfter(u, n + 1) == BeamStep(u, BeamAfter(u, n), u.p.order[n])
  {
  }

  lemma {:induction false} EmptyReplay(u: Search)
    requires ValidSearch(u)
    ensures BeamReplays(u, BeamAfter(u, 0))
  {
    hide NewState;
    assert NewState(u.p).cands == [] by { NewIsEmpty(u.p); }
    assert Replays(u, [], NewState(u.p));
  }

  lemma {:induction false} NewIsEmpty(p: Problem)
    ensures NewState(p).cands == []
  {
  }

  /** Every state of the beam is the replay of the candidates it records; the pruning invents nothing. */
  lemma {:induction false} BeamStatesAreReplays(u: Search, n: nat)
    requires ValidSearch(u) && n <= |u.p.order|
    ensures BeamReplays(u, BeamAfter(u, n))
  {
    hide *;
    if n == 0 {
      EmptyReplay(u);
    } else {
      BeamStatesAreReplays(u, n - 1);
      BeamAfterStep(u, n - 1);
      StepAreReplays(u, BeamAfter(u, n - 1), n - 1);
    }
  }

  /** The beam over all regions, with any number of workers. It is the same whatever that number. */
  method SearchBeam(u: Search, workers: nat) returns (beam: seq<SearchState>)
    requires ValidSearch(u)
    ensures beam == BeamAfter(u, |u.p.order|)
  {
    beam := [NewState(u.p)];
    hide BeamStep, AllShaped, ValidSearch;
    for n := 0 to |u.p.order|
      invariant beam == BeamAfter(u, n)
    {
      OrderInRange(u, n);
      beam := StepBeam(u, beam, u.p.order[n], workers, n);
    }
  }

  lemma {:induction false} OrderInRange(u: Search, n: nat)
    requires ValidSearch(u) && n < |u.p.order|
    ensures u.p.order[n] < |u.p.regions|
  {
  }

  // ----- Replay from a cached prefix -----

  /** Carries on from a state in which the first `from` regions are placed. */
  function ReplayFrom(u: Search, asg: Assignment, from: nat, s: SearchState): Option<SearchState>
    requires ValidSearch(u) && Shaped(u.p, s) && from <= |asg| <= |u.p.order|
    decreases |asg| - from
  {
    if from == |asg| then Some(s)
    else
      match Extend(u.p, s, u.p.order[from], asg[from].0, asg[from].1)
      case None => None
      case Some(s') => ReplayFrom(u, asg, from + 1, s')
  }

  lemma {:induction false} ReplayFails(u: Search, asg: Assignment, n: nat)
    requires ValidSearch(u) && n <= |asg| <= |u.p.order| && Replay(u, asg[..n]).None?
    ensures Replay(u, asg).None?
    decreases |asg| - n
  {
    if n == |asg| {
      assert asg[..n] == asg;
    } else {
      assert asg[..n + 1][..n] == asg[..n];
      hide Extend;
      ReplayFails(u, asg, n + 1);
    }
  }

  /** Replaying from the state after a prefix is replaying everything. */
  lemma {:induction false} PrefixReplayIsFullReplay(u: Search, asg: Assignment, from: nat, s: SearchState)
    requires ValidSearch(u) && Shaped(u.p, s) && from <= |asg| <= |u.p.order| && Replay(u, asg[..from]) == Some(s)
    ensures ReplayFrom(u, asg, from, s) == Replay(u, asg)
    decreases |asg| - from
  {
    if from == |asg| {
      assert asg[..from] == asg;
    } else {
      assert asg[..from + 1][..from] == asg[..from];
      ReplayStep(u, asg[..from + 1]);
      hide Extend, Replay;
      var next := Extend(u.p, s, u.p.order[from], asg[from].0, asg[from].1);
      if next.None? {
        ReplayFails(u, asg, from + 1);
      } else {
        PrefixReplayIsFullReplay(u, asg, from + 1, next.value);
      }
    }
  }

  lemma {:induction false} ReplayFromStep(u: Search, asg: Assignment, from: nat, s: SearchState)
    requires ValidSearch(u) && Shaped(u.p, s) && from < |asg| <= |u.p.order|
    ensures var next := Extend(u.p, s, u.p.order[from], asg[from].0, asg[from].1);
            ReplayFrom(u, asg, from, s) == if next.None? then None else ReplayFrom(u, asg, from + 1, next.value)
  {
    hide Extend;
  }

  lemma {:induction false} ReplayFromEnd(u: Search, asg: Assignment, s: SearchState)
    requires ValidSearch(u) && Shaped(u.p, s) && |asg| <= |u.p.order|
    ensures ReplayFrom(u, asg, |asg|, s) == Some(s)
  {
  }

  /** The loop of the implementation: from the prefix if there is one, from scratch otherwise. */
  method ReplayAssignment(u: Search, asg: Assignment, from: nat, prefix: Option<SearchState>) returns (r: Option<SearchState>)
    requires ValidSearch(u) && |asg| == |u.p.order| && from <= |asg|
    requires prefix.Some? ==> Shaped(u.p, prefix.value) && Replay(u, asg[..from]) == prefix
    ensures r == Replay(u, asg)
  {
    hide Extend, ReplayFrom, NewState;
    var state, start := NewState(u.p), 0;
    assert asg[..0] == [];
    assert Replay(u, asg[..0]) == Some(state);
    hide Replay;
    if prefix.Some? && from > 0 {
      state, start := prefix.value, from;
    }
    PrefixReplayIsFullReplay(u, asg, start, state);
    for step := start to |asg|
      invariant Shaped(u.p, state) && ReplayFrom(u, asg, step, state) == Replay(u, asg)
    {
      OrderInRange(u, step);
      ReplayFromStep(u, asg, step, state);
      hide ValidSearch, Shaped;
      var next := ExtendState(u.p, state, u.p.order[step], asg[step].0, asg[step].1);
      if next.None? {
        return None;
      }
      state := next.value;
    }
    ReplayFromEnd(u, asg, state);
    return Some(state);
  }

  /** The states before each step, or nothing if the assignment cannot be replayed. */
  ghost predicate PrefixesOf(u: Search, asg: Assignment, prefixes: seq<SearchState>)
    requires ValidSearch(u) && |asg| <= |u.p.order|
  {
    prefixes == [] || (|prefixes| == |asg| + 1 && forall i | 0 <= i <= |asg| :: PrefixAt(u, asg, i, prefixes[i]))
  }

  ghost predicate PrefixAt(u: Search, asg: Assignment, i: nat, s: SearchState)
    requires ValidSearch(u) && i <= |asg| <= |u.p.order|
  {
    Shaped(u.p, s) && Replay(u, asg[..i]) == Some(s)
  }

  method BuildPrefixes(u: Search, asg: Assignment) returns (prefixes: seq<SearchState>)
    requires ValidSearch(u) && |asg| == |u.p.order|
    ensures PrefixesOf(u, asg, prefixes)
  {
    var cursor := NewState(u.p);
    prefixes := [cursor];
    assert asg[..0] == [];
    assert PrefixAt(u, asg, 0, cursor);
    for step := 0 to |asg|
      invariant |prefixes| == step + 1 && cursor == prefixes[step]
      invariant forall i | 0 <= i <= step :: PrefixAt(u, asg, i, prefixes[i])
    {
      assert PrefixAt(u, asg, step, prefixes[step]);
      hide Extend;
      assert asg[..step + 1][..step] == asg[..step];
      ReplayStep(u, asg[..step + 1]);
      var next := ExtendState(u.p, cursor, u.p.order[step], asg[step].0, asg[step].1);
      hide Replay;
      if next.None? {
        return [];
      }
      cursor := next.value;
      assert PrefixAt(u, asg, step + 1, cursor);
      prefixes := prefixes + [cursor];
    }
  }

  // ----- The assignment a state records -----

  lemma {:induction false} LookupFinds(pool: Pool, ci: nat)
    ensures var r := Lookup(pool, ci); r.Some? ==> (ci, r.value) in pool
    ensures Lookup(pool, ci).None? ==> forall i | 0 <= i < |pool| :: pool[i].0 != ci
  {
    if pool != [] && pool[0].0 != ci {
      LookupFinds(pool[1..], ci);
      assert pool == [pool[0]] + pool[1..];
    }
  }

  lemma {:induction false} SameIndex(pool: Pool, a: (nat, Candidate), b: (nat, Candidate))
    requires UniqueIndices(pool) && a in pool && b in pool && a.0 == b.0
    ensures a == b
  {
    var i :| 0 <= i < |pool| && pool[i] == a;
    var j :| 0 <= j < |pool| && pool[j] == b;
  }

  /** Looks the recorded indices up in the pools; gives up if one is not there. */
  method AssignmentOf(u: Search, cands: seq<nat>) returns (r: Option<Assignment>)
    requires ValidSearch(u) && |cands| == |u.p.order|
    ensures r.Some? ==> |r.value| == |cands| && FromPools(u, r.value) && Indices(r.value) == cands
    ensures r.None? ==> forall asg: Assignment | |asg| == |cands| && FromPools(u, asg) :: Indices(asg) != cands
  {
    var asg: Assignment := [];
    for step := 0 to |cands|
      invariant |asg| == step && FromPools(u, asg)
      invariant forall i | 0 <= i < step :: asg[i].0 == cands[i]
    {
      var pool := u.pools[u.p.order[step]];
      var found := Lookup(pool, cands[step]);
      LookupFinds(pool, cands[step]);
      if found.None? {
        forall other: Assignment | |other| == |cands| && FromPools(u, other) ensures Indices(other) != cands {
          assert other[step] in pool;
          assert Indices(other)[step] == other[step].0;
        }
        return None;
      }
      asg := asg + [(cands[step], found.value)];
    }
    return Some(asg);
  }

  lemma {:induction false} AssignmentIsUnique(u: Search, a: Assignment, b: Assignment)
    requires ValidSearch(u) && |a| == |b| <= |u.p.order| && FromPools(u, a) && FromPools(u, b) && Indices(a) == Indices(b)
    ensures a == b
  {
    forall i | 0 <= i < |a| ensures a[i] == b[i] {
      assert Indices(a)[i] == Indices(b)[i];
      SameIndex(u.pools[u.p.order[i]], a[i], b[i]);
    }
  }

  // ----- Local search -----

  const EPSILON := 0.000000000000001

  function ScoreOf(u: Search, s: SearchState): real {
    AnalyticScore(u.cfg, u.p.capacities, s)
  }

  /** Replacing the candidate at `index` gives no plan, or one that is not better by more than the tolerance. */
  ghost predicate NotBetter(u: Search, asg: Assignment, index: nat, alt: (nat, Candidate), score: real)
    requires ValidSearch(u) && index < |asg| <= |u.p.order|
  {
    var trial := Replay(u, asg[index := alt]);
    trial.Some? ==> score <= ScoreOf(u, trial.value) + EPSILON
  }

  ghost predicate OptimalAt(u: Search, asg: Assignment, score: real, index: nat)
    requires ValidSearch(u) && index < |asg| <= |u.p.order|
  {
    forall j | 0 <= j < |u.pools[u.p.order[index]]| :: NotBetter(u, asg, index, u.pools[u.p.order[index]][j], score)
  }

  predicate SameKernel(a: (nat, Candidate), b: (nat, Candidate)) {
    a.0 == b.0 && a.1.device == b.1.device && a.1.kernel == b.1.kernel && a.1.dtype == b.1.dtype && a.1.backend == b.1.backend
  }

  /** What the search at one region holds: the old plan, or a better one that differs from it there. */
  ghost predicate Incumbent(u: Search, asg: Assignment, index: nat, best: SearchState, inc: (nat, Candidate), s: SearchState)
    requires ValidSearch(u) && index < |asg| == |u.p.order|
  {
    || (inc == asg[index] && s == best)
    || (inc.0 != asg[index].0 && Replays(u, asg[index := inc], s) && ScoreOf(u, s) + EPSILON < ScoreOf(u, best))
  }

  lemma {:induction false} TakeAlternate(u: Search, asg: Assignment, index: nat, best: SearchState, alt: (nat, Candidate), s: SearchState)
    requires ValidSearch(u) && index < |asg| == |u.p.order| && Replays(u, asg, best)
    requires alt in u.pools[u.p.order[index]] && Replay(u, asg[index := alt]) == Some(s) && ScoreOf(u, s) + EPSILON < ScoreOf(u, best)
    ensures Incumbent(u, asg, index, best, alt, s)
  {
    hide AnalyticScore, Replay;
    ReplayCands(u, asg[index := alt], s);
    assert asg[index := asg[index]] == asg;
  }

  lemma {:induction false} LastCand(u: Search, asg: Assignment, s: SearchState)
    requires ValidSearch(u) && 0 < |asg| <= |u.p.order| && Replay(u, asg) == Some(s)
    ensures var before := Replay(u, asg[..|asg| - 1]); before.Some? && s.cands == before.value.cands + [asg[|asg| - 1].0]
  {
    var last := |asg| - 1;
    ReplayStep(u, asg);
    var before := Replay(u, asg[..last]).value;
    hide Extend, Replay;
    ExtendAppends(u.p, before, u.p.order[last], asg[last].0, asg[last].1);
  }

  lemma {:induction false} IndicesSnoc(asg: Assignment)
    requires asg != []
    ensures Indices(asg) == Indices(asg[..|asg| - 1]) + [asg[|asg| - 1].0]
  {
    hide *;
  }

  /** The indices a replay records are those of its assignment. */
  lemma {:induction false} ReplayCands(u: Search, asg: Assignment, s: SearchState)
    requires ValidSearch(u) && |asg| <= |u.p.order| && Replay(u, asg) == Some(s)
    ensures s.cands == Indices(asg)
    decreases |asg|
  {
    if asg == [] {
      NewIsEmpty(u.p);
    } else {
      hide *;
      var last := |asg| - 1;
      LastCand(u, asg, s);
      ReplayCands(u, asg[..last], Replay(u, asg[..last]).value);
      IndicesSnoc(asg);
    }
  }

  /** An alternate that is the incumbent is skipped, and rightly: it is as good as itself. */
  lemma {:induction false} SkippedIsNotBetter(u: Search, asg: Assignment, index: nat, best: SearchState, inc: (nat, Candidate), s: SearchState, alt: (nat, Candidate))
    requires ValidSearch(u) && index < |asg| == |u.p.order| && Replays(u, asg, best) && Incumbent(u, asg, index, best, inc, s)
    requires alt in u.pools[u.p.order[index]] && alt.0 == inc.0
    ensures NotBetter(u, asg, index, alt, ScoreOf(u, s))
  {
    hide AnalyticScore, Replay;
    assert inc in u.pools[u.p.order[index]] by {
      assert inc == asg[index] || asg[index := inc][index] == inc;
    }
    SameIndex(u.pools[u.p.order[index]], alt, inc);
    assert asg[index := asg[index]] == asg;
  }

  /** One region: tries every candidate of its pool in place of the assigned one. */
  method TryAlternates(u: Search, asg: Assignment, index: nat, best: SearchState, prefixes: seq<SearchState>)
    returns (inc: (nat, Candidate), state: SearchState)
    requires ValidSearch(u) && index < |asg| == |u.p.order| && Replays(u, asg, best) && PrefixesOf(u, asg, prefixes)
    ensures Incumbent(u, asg, index, best, inc, state)
    ensures OptimalAt(u, asg, ScoreOf(u, state), index)
  {
    hide AnalyticScore, Replay, Replays, Incumbent;
    var pool := u.pools[u.p.order[index]];
    inc, state := asg[index], best;
    assert Incumbent(u, asg, index, best, inc, state) by { StartingIncumbent(u, asg, index, best); }
    for j := 0 to |pool|
      invariant Incumbent(u, asg, index, best, inc, state)
      invariant forall i | 0 <= i < j :: NotBetter(u, asg, index, pool[i], ScoreOf(u, state))
    {
      var alt := pool[j];
      if SameKernel(alt, inc) {
        SkippedIsNotBetter(u, asg, index, best, inc, state, alt);
      } else {
        var trial := asg[index := alt];
        assert trial[..index] == asg[..index];
        var prefix := if |prefixes| > index then Some(prefixes[index]) else None;
        assert prefix.Some? ==> PrefixAt(u, asg, index, prefix.value);
        var replayed := ReplayAssignment(u, trial, index, prefix);
        if replayed.Some? && ScoreOf(u, replayed.value) + EPSILON < ScoreOf(u, state) {
          LowerThanBest(u, asg, index, best, inc, state);
          TakeAlternate(u, asg, index, best, alt, replayed.value);
          inc, state := alt, replayed.value;
        }
      }
    }
  }

  lemma {:induction false} StartingIncumbent(u: Search, asg: Assignment, index: nat, best: SearchState)
    requires ValidSearch(u) && index < |asg| == |u.p.order|
    ensures Incumbent(u, asg, index, best, asg[index], best)
  {
  }

  lemma {:induction false} LowerThanBest(u: Search, asg: Assignment, index: nat, best: SearchState, inc: (nat, Candidate), s: SearchState)
    requires ValidSearch(u) && index < |asg| == |u.p.order| && Incumbent(u, asg, index, best, inc, s)
    ensures ScoreOf(u, s) <= ScoreOf(u, best)
  {
    hide AnalyticScore;
  }

  /** No single replacement improves the plan by more than the tolerance. */
  ghost predicate LocallyOptimal(u: Search, asg: Assignment, s: SearchState)
    requires ValidSearch(u) && |asg| == |u.p.order|
  {
    forall index | 0 <= index < |asg| :: OptimalAt(u, asg, ScoreOf(u, s), index)
  }

  /** One pass over all regions. If it changes nothing, the plan is locally optimal. */
  method ImprovePass(u: Search, asg: Assignment, best: SearchState)
    returns (asg': Assignment, best': SearchState, improvements: nat)
    requires ValidSearch(u) && |asg| == |u.p.order| && Replays(u, asg, best)
    ensures |asg'| == |u.p.order| && Replays(u, asg', best')
    ensures ScoreOf(u, best') + improvements as real * EPSILON <= ScoreOf(u, best)
    ensures improvements == 0 ==> asg' == asg && best' == best && LocallyOptimal(u, asg, best)
  {
    hide AnalyticScore, Replay, Replays, OptimalAt;
    asg', best', improvements := asg, best, 0;
    var prefixes := BuildPrefixes(u, asg);
    for index := 0 to |asg|
      invariant |asg'| == |u.p.order| && Replays(u, asg', best') && PrefixesOf(u, asg', prefixes)
      invariant ScoreOf(u, best') + improvements as real * EPSILON <= ScoreOf(u, best)
      invariant improvements == 0 ==> asg' == asg && best' == best
      invariant improvements == 0 ==> forall i | 0 <= i < index :: OptimalAt(u, asg, ScoreOf(u, best), i)
    {
      hide PrefixesOf;
      var inc, state := TryAlternates(u, asg', index, best', prefixes);
      var was := asg'[index];
      if inc.0 != was.0 || inc.1.device != was.1.device || inc.1.kernel != was.1.kernel || inc.1.dtype != was.1.dtype {
        ChangedIsBetter(u, asg', index, best', inc, state);
        asg' := asg'[index := inc];
        best' := state;
        improvements := improvements + 1;
        prefixes := [];
        assert PrefixesOf(u, asg', prefixes) by { NoPrefixes(u, asg'); }
      } else {
        UnchangedIsSame(u, asg', index, best', inc, state);
      }
    }
  }

  lemma {:induction false} NoPrefixes(u: Search, asg: Assignment)
    requires ValidSearch(u) && |asg| <= |u.p.order|
    ensures PrefixesOf(u, asg, [])
  {
  }

  lemma {:induction false} ChangedIsBetter(u: Search, asg: Assignment, index: nat, best: SearchState, inc: (nat, Candidate), s: SearchState)
    requires ValidSearch(u) && index < |asg| == |u.p.order| && Incumbent(u, asg, index, best, inc, s) && inc != asg[index]
    ensures Replays(u, asg[index := inc], s) && ScoreOf(u, s) + EPSILON < ScoreOf(u, best)
  {
    hide AnalyticScore, Replays;
  }

  lemma {:induction false} UnchangedIsSame(u: Search, asg: Assignment, index: nat, best: SearchState, inc: (nat, Candidate), s: SearchState)
    requires ValidSearch(u) && index < |asg| == |u.p.order| && Incumbent(u, asg, index, best, inc, s) && inc.0 == asg[index].0
    ensures s == best
  {
    hide AnalyticScore, Replays;
  }

  /** If the indices of the state are all in the pools, the state is the replay of those candidates. */
  ghost predicate Recorded(u: Search, s: SearchState)
    requires ValidSearch(u)
  {
    forall asg: Assignment | Spells(u, asg, s) :: Replay(u, asg) == Some(s)
  }

  ghost predicate Spells(u: Search, asg: Assignment, s: SearchState)
    requires ValidSearch(u)
  {
    |asg| == |u.p.order| && FromPools(u, asg) && Indices(asg) == s.cands
  }

  /** The complete states of the beam are of this kind. */
  lemma {:induction false} BeamIsRecorded(u: Search, i: nat)
    requires ValidSearch(u) && i < |BeamAfter(u, |u.p.order|)|
    ensures Recorded(u, BeamAfter(u, |u.p.order|)[i]) && |BeamAfter(u, |u.p.order|)[i].cands| == |u.p.order|
  {
    var beam := BeamAfter(u, |u.p.order|);
    var s := beam[i];
    BeamStatesAreReplays(u, |u.p.order|);
    hide BeamAfter, Replay;
    assert IsReplay(u, s);
    var asg :| Replays(u, asg, s);
    forall other: Assignment | Spells(u, other, s) ensures Replay(u, other) == Some(s) {
      AssignmentIsUnique(u, asg, other);
    }
  }

  /**
   Local search from a complete state. The score never rises, and falls by more than the tolerance with each
   improvement. The plan stays the replay of its assignment, and if the search stops for lack of
   improvement, no single replacement improves it by more than the tolerance. A state with
   an index that is not in the pools is returned as it is.
   */
  method LocalSearchImprove(u: Search, best: SearchState)
    returns (best': SearchState, improvements: nat, ghost asg: Assignment, ghost converged: bool)
    requires ValidSearch(u) && |best.cands| == |u.p.order| && Recorded(u, best)
    ensures ScoreOf(u, best') + improvements as real * EPSILON <= ScoreOf(u, best)
    ensures (forall other: Assignment :: !Spells(u, other, best)) ==> best' == best && improvements == 0
    ensures (exists other: Assignment :: Spells(u, other, best)) ==>
      && |asg| == |u.p.order| && Replays(u, asg, best')
      && (if converged then LocallyOptimal(u, asg, best') else improvements >= u.cfg.localSearchIters)
  {
    hide AnalyticScore, Replay, LocallyOptimal;
    best', improvements, asg, converged := best, 0, [], false;
    var found := AssignmentOf(u, best.cands);
    if found.None? {
      return;
    }
    var plan := found.value;
    assert Spells(u, plan, best);
    assert Replays(u, plan, best);
    hide Replays, Spells, FromPools;
    asg := plan;
    for round := 0 to u.cfg.localSearchIters
      invariant |plan| == |u.p.order| && Replays(u, plan, best') && asg == plan && !converged
      invariant ScoreOf(u, best') + improvements as real * EPSILON <= ScoreOf(u, best) && improvements >= round
    {
      var more;
      plan, best', more := ImprovePass(u, plan, best');
      asg := plan;
      improvements := improvements + more;
      if more == 0 {
        converged := true;
        break;
      }
    }
  }

  /**
   Whatever plan replays its assignment, as every state of the beam and every result of local search
   does, accounts exactly for its memory and is consistent in its times.
   */
  lemma {:induction false} PlansAreAccounted(u: Search, asg: Assignment, s: SearchState)
    requires ValidSearch(u) && Replays(u, asg, s) && Distinct(u.p.order) && CountsExact(u.p)
    ensures Shaped(u.p, s)
    ensures MemoryOk(u.p, s.memory, Placed(StepsOf(u, asg)), [])
    ensures TimesOk(u.p, s, Placed(StepsOf(u, asg)))
    ensures asg != [] ==> RequestRate(s.clock, 1) == 1.0 / Makespan(s.clock.finish)
  {
    ReplayIsARun(u, asg);
    hide MemoryOk, TimesOk, RequestRate, Makespan, Replay, PlaceAll, CountsExact, Placed, Valid;
    var steps := StepsOf(u, asg);
    assert OncePerRegion(steps);
    MemoryIsExact(u.p, steps);
    TimesAreConsistent(u.p, steps);
    if asg != [] {
      ThroughputIsOneOverMakespan(u.p, steps);
    }
  }
}
