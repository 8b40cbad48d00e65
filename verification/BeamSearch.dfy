/**
 One step of the beam search: expansion, dominance pruning, selection.

 The functions say what the step computes. The method computes it with any number of
 workers and with the pruning table visited in any order.
 */
module BeamSearch {
  import opened Prelude
  import opened PlacementStates
  import opened PlacementAccounting
  import opened PlanScores

  type Pool = seq<(nat, Candidate)>

  /** A search: the problem, its configuration, and the candidates left for each region. */
  datatype Search = Search(p: Problem, cfg: Config, pools: seq<Pool>)

  /** No pool has two candidates of one index; that is how pools are made, by numbering the candidates. */
  ghost predicate UniqueIndices(pool: Pool) {
    forall i, j | 0 <= i < j < |pool| :: pool[i].0 != pool[j].0
  }

  ghost predicate ValidSearch(u: Search) {
    Valid(u.p) && |u.pools| == |u.p.regions| && forall r: nat | r < |u.pools| :: UniqueIndices(u.pools[r])
  }

  datatype Entry = Entry(score: real, state: SearchState, devices: seq<nat>)

  // ----- Expansion -----

  function Lookup(pool: Pool, ci: nat): Option<Candidate> {
    if pool == [] then None else if pool[0].0 == ci then Some(pool[0].1) else Lookup(pool[1..], ci)
  }

  /** The devices of the first `n` placements, found again through the pools. */
  function DeviceSeq(u: Search, cands: seq<nat>, n: nat): seq<nat>
    requires n <= |cands|
  {
    if n == 0 then []
    else
      var found := if n - 1 < |u.p.order| && u.p.order[n - 1] < |u.pools| then Lookup(u.pools[u.p.order[n - 1]], cands[n - 1]) else None;
      DeviceSeq(u, cands, n - 1) + [if found.Some? then found.value.device else 0]
  }

  /** The children of one state, in the order of the pool. */
  function Children(u: Search, s: SearchState, region: nat, pool: Pool, parents: seq<nat>): seq<Entry>
    requires Valid(u.p) && Shaped(u.p, s) && region < |u.p.regions|
  {
    if pool == [] then []
    else
      var (ci, c) := pool[|pool| - 1];
      var before := Children(u, s, region, pool[..|pool| - 1], parents);
      match Extend(u.p, s, region, ci, c)
      case None => before
      case Some(s') => before + [Entry(AnalyticScore(u.cfg, u.p.capacities, s'), s', parents + [c.device])]
  }

  ghost predicate AllShaped(p: Problem, beam: seq<SearchState>) {
    forall i | 0 <= i < |beam| :: Shaped(p, beam[i])
  }

  function Offspring(u: Search, s: SearchState, region: nat): seq<Entry>
    requires ValidSearch(u) && Shaped(u.p, s) && region < |u.p.regions|
  {
    Children(u, s, region, u.pools[region], DeviceSeq(u, s.cands, |s.cands|))
  }

  /** The children of all states, in order. */
  function Expansion(u: Search, beam: seq<SearchState>, region: nat): seq<Entry>
    requires ValidSearch(u) && AllShaped(u.p, beam) && region < |u.p.regions|
  {
    if beam == [] then []
    else Expansion(u, beam[..|beam| - 1], region) + Offspring(u, beam[|beam| - 1], region)
  }

  lemma {:induction false} ExpansionAppend(u: Search, a: seq<SearchState>, b: seq<SearchState>, region: nat)
    requires ValidSearch(u) && AllShaped(u.p, a) && AllShaped(u.p, b) && region < |u.p.regions|
    ensures Expansion(u, a + b, region) == Expansion(u, a, region) + Expansion(u, b, region)
    decreases |b|
  {
    hide Offspring, ValidSearch;
    if b == [] {
      assert a + b == a;
    } else {
      assert (a + b)[..|a + b| - 1] == a + b[..|b| - 1];
      ExpansionAppend(u, a, b[..|b| - 1], region);
    }
  }

  lemma {:induction false} ChildrenSnoc(u: Search, s: SearchState, region: nat, pool: Pool, i: nat, parents: seq<nat>)
    requires Valid(u.p) && Shaped(u.p, s) && region < |u.p.regions| && i < |pool|
    ensures var r := Extend(u.p, s, region, pool[i].0, pool[i].1);
            Children(u, s, region, pool[..i + 1], parents) == Children(u, s, region, pool[..i], parents)
            + if r.None? then [] else [Entry(AnalyticScore(u.cfg, u.p.capacities, r.value), r.value, parents + [pool[i].1.device])]
  {
    hide Extend, AnalyticScore;
    assert pool[..i + 1][..i] == pool[..i];
  }

  method ExpandOne(u: Search, s: SearchState, region: nat) returns (local_: seq<Entry>)
    requires ValidSearch(u) && Shaped(u.p, s) && region < |u.p.regions|
    ensures local_ == Offspring(u, s, region)
  {
    hide AnalyticScore, Extend, DeviceSeq, Valid, Shaped;
    local_ := [];
    var pool := u.pools[region];
    var parents := DeviceSeq(u, s.cands, |s.cands|);
    assert Children(u, s, region, pool[..0], parents) == [];
    hide Children;
    for i := 0 to |pool|
      invariant local_ == Children(u, s, region, pool[..i], parents)
    {
      ChildrenSnoc(u, s, region, pool, i, parents);
      var (ci, c) := pool[i];
      var extended := ExtendState(u.p, s, region, ci, c);
      if extended.Some? {
        local_ := local_ + [Entry(AnalyticScore(u.cfg, u.p.capacities, extended.value), extended.value, parents + [c.device])];
      }
    }
    assert pool[..|pool|] == pool;
  }

  method ExpandChunk(u: Search, chunk: seq<SearchState>, region: nat) returns (local_: seq<Entry>)
    requires ValidSearch(u) && AllShaped(u.p, chunk) && region < |u.p.regions|
    ensures local_ == Expansion(u, chunk, region)
  {
    local_ := [];
    for i := 0 to |chunk|
      invariant local_ == Expansion(u, chunk[..i], region)
    {
      hide Offspring, ValidSearch;
      assert chunk[..i + 1][..i] == chunk[..i];
      var more := ExpandOne(u, chunk[i], region);
      local_ := local_ + more;
    }
    assert chunk[..|chunk|] == chunk;
  }

  lemma {:induction false} PartShaped(p: Problem, beam: seq<SearchState>, i: nat, j: nat)
    requires AllShaped(p, beam) && i <= j <= |beam|
    ensures AllShaped(p, beam[i..j])
  {
    hide Shaped;
  }

  /** The row of one worker is added to those before it. */
  method AddRow(u: Search, beam: seq<SearchState>, region: nat, at: nat, end: nat, flat: seq<Entry>) returns (flat': seq<Entry>)
    requires ValidSearch(u) && AllShaped(u.p, beam) && region < |u.p.regions| && at <= end <= |beam|
    requires AllShaped(u.p, beam[..at]) && flat == Expansion(u, beam[..at], region)
    ensures AllShaped(u.p, beam[..end]) && flat' == Expansion(u, beam[..end], region)
  {
    hide Expansion, ValidSearch, AllShaped;
    PartShaped(u.p, beam, at, end);
    PartShaped(u.p, beam, 0, end);
    assert beam[0..end] == beam[..end] == beam[..at] + beam[at..end];
    var row := ExpandChunk(u, beam[at..end], region);
    ExpansionAppend(u, beam[..at], beam[at..end], region);
    flat' := flat + row;
  }

  /** How many states one worker gets. */
  function ChunkSize(states: nat, workers: nat): (size: nat)
    ensures size >= 1
  {
    var chunks := if workers < states then Max(workers, 1) else Max(states, 1);
    Max((states + chunks - 1) / chunks, 1)
  }

  /** The beam is cut into chunks, one per worker; the rows are put together in order. */
  method ExpandChunked(u: Search, beam: seq<SearchState>, region: nat, workers: nat) returns (flat: seq<Entry>)
    requires ValidSearch(u) && AllShaped(u.p, beam) && region < |u.p.regions|
    ensures flat == Expansion(u, beam, region)
  {
    var size := ChunkSize(|beam|, workers);
    flat := [];
    var at := 0;
    assert Expansion(u, beam[..0], region) == [];
    hide Expansion, ValidSearch, Shaped, ChunkSize;
    while at < |beam|
      invariant at <= |beam| && AllShaped(u.p, beam[..at])
      invariant flat == Expansion(u, beam[..at], region)
    {
      var end := if at + size < |beam| then at + size else |beam|;
      flat := AddRow(u, beam, region, at, end, flat);
      at := end;
    }
    assert beam[..|beam|] == beam;
  }

  // ----- Distinct placements -----

  ghost predicate DistinctCands(beam: seq<SearchState>) {
    forall i, j | 0 <= i < j < |beam| :: beam[i].cands != beam[j].cands
  }

  ghost predicate DistinctEntries(es: seq<Entry>) {
    forall i, j | 0 <= i < j < |es| :: es[i].state.cands != es[j].state.cands
  }

  predicate IsChild(e: Entry, s: SearchState, pool: Pool) {
    |e.state.cands| == |s.cands| + 1 && e.state.cands[..|s.cands|] == s.cands
    && exists i :: 0 <= i < |pool| && e.state.cands[|s.cands|] == pool[i].0
  }

  lemma {:induction false} ChildrenAreDistinct(u: Search, s: SearchState, region: nat, pool: Pool, parents: seq<nat>)
    requires Valid(u.p) && Shaped(u.p, s) && region < |u.p.regions| && UniqueIndices(pool)
    ensures var es := Children(u, s, region, pool, parents);
            && (forall i | 0 <= i < |es| :: IsChild(es[i], s, pool) && Shaped(u.p, es[i].state))
            && DistinctEntries(es)
  {
    if pool != [] {
      var init := pool[..|pool| - 1];
      ChildrenAreDistinct(u, s, region, init, parents);
      var (ci, c) := pool[|pool| - 1];
      var before := Children(u, s, region, init, parents);
      var es := Children(u, s, region, pool, parents);
      ExtendAppends(u.p, s, region, ci, c);
      hide Extend, AnalyticScore, Children;
      forall i | 0 <= i < |before| ensures IsChild(before[i], s, pool) && before[i].state.cands[|s.cands|] != ci {
        var k :| 0 <= k < |init| && before[i].state.cands[|s.cands|] == init[k].0;
        assert init[k] == pool[k];
      }
      assert pool[|pool| - 1].0 == ci;
    }
  }

  lemma {:induction false} ExtendAppends(p: Problem, s: SearchState, region: nat, ci: nat, c: Candidate)
    requires Valid(p) && Shaped(p, s) && region < |p.regions|
    ensures var r := Extend(p, s, region, ci, c); r.Some? ==> r.value.cands == s.cands + [ci]
  {
    hide ArriveAll, ConsumedAll, Produced;
  }

  /** All states have `k` placements, no two the same ones. */
  ghost predicate BeamOk(p: Problem, beam: seq<SearchState>, k: nat) {
    AllShaped(p, beam) && DistinctCands(beam) && forall i | 0 <= i < |beam| :: |beam[i].cands| == k
  }

  ghost predicate FromBeam(e: Entry, beam: seq<SearchState>, k: nat) {
    |e.state.cands| == k + 1 && exists i :: 0 <= i < |beam| && beam[i].cands == e.state.cands[..k]
  }

  ghost predicate EntriesOk(p: Problem, es: seq<Entry>, k: nat) {
    DistinctEntries(es) && forall i | 0 <= i < |es| :: Shaped(p, es[i].state) && |es[i].state.cands| == k
  }

  lemma {:induction false} ExpansionIsDistinct(u: Search, beam: seq<SearchState>, region: nat, k: nat)
    requires ValidSearch(u) && BeamOk(u.p, beam, k) && region < |u.p.regions|
    ensures EntriesOk(u.p, Expansion(u, beam, region), k + 1)
    ensures forall i | 0 <= i < |Expansion(u, beam, region)| :: FromBeam(Expansion(u, beam, region)[i], beam, k)
    decreases |beam|
  {
    if beam != [] {
      var init, s := beam[..|beam| - 1], beam[|beam| - 1];
      ExpansionIsDistinct(u, init, region, k);
      ChildrenAreDistinct(u, s, region, u.pools[region], DeviceSeq(u, s.cands, |s.cands|));
      var before, more := Expansion(u, init, region), Offspring(u, s, region);
      hide Children, DeviceSeq, ValidSearch, Shaped;
      assert Expansion(u, beam, region) == before + more;
      hide Expansion, Offspring;
      JoinEntries(u.p, before, more, init, s, k, u.pools[region]);
      forall i | 0 <= i < |before + more| ensures FromBeam((before + more)[i], beam, k) {
        FromLonger(before, more, init, s, k, u.pools[region], i);
      }
    }
  }

  lemma {:induction false} FromLonger(before: seq<Entry>, more: seq<Entry>, init: seq<SearchState>, s: SearchState, k: nat, pool: Pool, i: nat)
    requires (forall j | 0 <= j < |before| :: FromBeam(before[j], init, k))
    requires (forall j | 0 <= j < |more| :: IsChild(more[j], s, pool)) && |s.cands| == k && i < |before + more|
    ensures FromBeam((before + more)[i], init + [s], k)
  {
    var beam := init + [s];
    if i < |before| {
      assert FromBeam(before[i], init, k);
      var j :| 0 <= j < |init| && init[j].cands == before[i].state.cands[..k];
      assert beam[j] == init[j];
    } else {
      assert beam[|init|] == s;
      assert IsChild(more[i - |before|], s, pool);
    }
  }

  lemma {:induction false} JoinEntries(p: Problem, before: seq<Entry>, more: seq<Entry>, init: seq<SearchState>, s: SearchState, k: nat, pool: Pool)
    requires EntriesOk(p, before, k + 1) && (forall j | 0 <= j < |before| :: FromBeam(before[j], init, k))
    requires DistinctEntries(more) && (forall j | 0 <= j < |more| :: IsChild(more[j], s, pool) && Shaped(p, more[j].state))
    requires |s.cands| == k && DistinctCands(init + [s])
    ensures EntriesOk(p, before + more, k + 1)
  {
    hide Shaped;
    forall i, j | 0 <= i < |before| && 0 <= j < |more| ensures before[i].state.cands != more[j].state.cands {
      assert FromBeam(before[i], init, k) && IsChild(more[j], s, pool);
      var m :| 0 <= m < |init| && init[m].cands == before[i].state.cands[..k];
      assert (init + [s])[m] == init[m] && (init + [s])[|init|] == s;
    }
  }

  // ----- Dominance -----

  /** What two states must share for one to stand for the other; times are compared in picoseconds. */
  datatype DomKey = DomKey(devices: seq<nat>, live: seq<(nat, nat)>, deviceFree: seq<(nat, int)>, linkFree: seq<(nat, int)>)

  function NonZero(xs: seq<nat>, n: nat): seq<(nat, nat)>
    requires n <= |xs|
  {
    if n == 0 then [] else NonZero(xs, n - 1) + (if xs[n - 1] > 0 then [(n - 1, xs[n - 1])] else [])
  }

  function Rounded(xs: seq<real>, n: nat): seq<(nat, int)>
    requires n <= |xs|
  {
    if n == 0 then []
    else Rounded(xs, n - 1) + (if xs[n - 1] > 0.0 then [(n - 1, (xs[n - 1] * 1000000000000.0 + 0.5).Floor)] else [])
  }

  function KeyOf(e: Entry): DomKey {
    var s := e.state;
    DomKey(e.devices, NonZero(s.memory.live, |s.memory.live|),
           Rounded(s.clock.deviceFree, |s.clock.deviceFree|), Rounded(s.clock.linkFree, |s.clock.linkFree|))
  }

  predicate LexLess(a: seq<nat>, b: seq<nat>) {
    b != [] && (a == [] || a[0] < b[0] || (a[0] == b[0] && LexLess(a[1..], b[1..])))
  }

  function Abs(x: real): real {
    if x < 0.0 then -x else x
  }

  /** Scores closer than this count as equal. */
  const TIE := 0.000000000000000001

  /** The entry that is there already stays: its score is lower, or nearly the same and its placements come first. */
  predicate Stays(old_: Entry, new_: Entry) {
    old_.score < new_.score
    || (Abs(old_.score - new_.score) < TIE
        && (LexLess(old_.state.cands, new_.state.cands) || old_.state.cands == new_.state.cands))
  }

  function FindKey(es: seq<Entry>, key: DomKey): (r: Option<nat>)
    ensures r.Some? ==> r.value < |es| && KeyOf(es[r.value]) == key
    ensures r.None? ==> forall i | 0 <= i < |es| :: KeyOf(es[i]) != key
    decreases |es|
  {
    if es == [] then None
    else if KeyOf(es[|es| - 1]) == key then Some(|es| - 1)
    else FindKey(es[..|es| - 1], key)
  }

  function Challenged(kept: seq<Entry>, e: Entry): seq<Entry> {
    var at := FindKey(kept, KeyOf(e));
    match at
    case None => kept + [e]
    case Some(i) => if Stays(kept[i], e) then kept else kept[i := e]
  }

  /** The entries that survive, one per key, in the order in which their keys first appeared. */
  function Survivors(es: seq<Entry>): seq<Entry> {
    if es == [] then [] else Challenged(Survivors(es[..|es| - 1]), es[|es| - 1])
  }

  ghost predicate OnePerKey(es: seq<Entry>) {
    forall i, j | 0 <= i < j < |es| :: KeyOf(es[i]) != KeyOf(es[j])
  }

  lemma {:induction false} SurvivorsFrom(es: seq<Entry>, i: nat) returns (j: nat)
    requires i < |Survivors(es)|
    ensures j < |es| && es[j] == Survivors(es)[i]
    decreases |es|
  {
    SurvivorsStep(es);
    var init, e := es[..|es| - 1], es[|es| - 1];
    var kept := Survivors(init);
    hide Survivors, FindKey, Stays, KeyOf;
    if Challenged(kept, e)[i] == e {
      j := |es| - 1;
    } else {
      j := SurvivorsFrom(init, i);
    }
  }

  /** No placement is invented: every survivor is an entry. */
  lemma {:induction false} SurvivorsAreEntries(es: seq<Entry>)
    ensures forall e | e in Survivors(es) :: e in es
  {
    hide Survivors;
    forall e | e in Survivors(es) ensures e in es {
      var i :| 0 <= i < |Survivors(es)| && Survivors(es)[i] == e;
      var j := SurvivorsFrom(es, i);
    }
  }

  /** The last entry differs from every survivor of those before it. */
  lemma {:induction false} LastIsNew(p: Problem, es: seq<Entry>, k: nat)
    requires EntriesOk(p, es, k) && es != []
    ensures var (kept, e) := (Survivors(es[..|es| - 1]), es[|es| - 1]);
            && EntriesOk(p, es[..|es| - 1], k) && Shaped(p, e.state) && |e.state.cands| == k
            && forall i | 0 <= i < |kept| :: kept[i].state.cands != e.state.cands
  {
    hide Shaped, Survivors;
    var init, e := es[..|es| - 1], es[|es| - 1];
    var kept := Survivors(init);
    forall i | 0 <= i < |kept| ensures kept[i].state.cands != e.state.cands {
      var j := SurvivorsFrom(init, i);
      assert es[j] == kept[i];
    }
  }

  /** One entry per key survives, with different placements, and at least one if there was any. */
  lemma {:induction false} SurvivorsOk(p: Problem, es: seq<Entry>, k: nat)
    requires EntriesOk(p, es, k)
    ensures EntriesOk(p, Survivors(es), k) && OnePerKey(Survivors(es))
    ensures es != [] ==> Survivors(es) != []
    decreases |es|
  {
    if es == [] {
      NoKeys();
    } else {
      hide *;
      LastIsNew(p, es, k);
      SurvivorsOk(p, es[..|es| - 1], k);
      SurvivorsStep(es);
      ChallengeOk(p, Survivors(es[..|es| - 1]), es[|es| - 1], k);
    }
  }

  /** A challenge keeps every key, lowers the score under the challenged key or leaves it within the tolerance, and touches no other. */
  lemma {:induction false} ChallengeImproves(kept: seq<Entry>, e: Entry)
    ensures |Challenged(kept, e)| >= |kept|
    ensures forall i | 0 <= i < |kept| :: KeyOf(Challenged(kept, e)[i]) == KeyOf(kept[i]) && Challenged(kept, e)[i].score <= kept[i].score
    ensures exists i :: 0 <= i < |Challenged(kept, e)| && Beats(Challenged(kept, e)[i], e)
  {
    hide KeyOf;
    var at := FindKey(kept, KeyOf(e));
    hide FindKey;
    var after := Challenged(kept, e);
    match at {
      case None => assert after[|kept|] == e;
      case Some(i) => assert Beats(after[i], e);
    }
  }

  /** Same key, and not worse by the tolerance or more. */
  predicate Beats(a: Entry, b: Entry) {
    KeyOf(a) == KeyOf(b) && a.score < b.score + TIE
  }

  /** Every entry has a survivor under its key that does not score worse by the tolerance or more. */
  lemma {:induction false} SurvivorIsBest(es: seq<Entry>, j: nat) returns (i: nat)
    requires j < |es|
    ensures i < |Survivors(es)| && Beats(Survivors(es)[i], es[j])
    decreases |es|
  {
    SurvivorsStep(es);
    hide Survivors, Challenged, KeyOf;
    var init, e := es[..|es| - 1], es[|es| - 1];
    var kept := Survivors(init);
    ChallengeImproves(kept, e);
    if j == |es| - 1 {
      i :| 0 <= i < |Challenged(kept, e)| && Beats(Challenged(kept, e)[i], e);
    } else {
      i := SurvivorIsBest(init, j);
      assert init[j] == es[j];
      assert KeyOf(Challenged(kept, e)[i]) == KeyOf(kept[i]);
    }
  }

  lemma {:induction false} NoKeys()
    ensures OnePerKey([])
  {
  }

  lemma {:induction false} SurvivorsStep(es: seq<Entry>)
    requires es != []
    ensures Survivors(es) == Challenged(Survivors(es[..|es| - 1]), es[|es| - 1])
  {
  }

  lemma {:induction false} ChallengeOk(p: Problem, kept: seq<Entry>, e: Entry, k: nat)
    requires EntriesOk(p, kept, k) && OnePerKey(kept) && Shaped(p, e.state) && |e.state.cands| == k
    requires forall i | 0 <= i < |kept| :: kept[i].state.cands != e.state.cands
    ensures EntriesOk(p, Challenged(kept, e), k) && OnePerKey(Challenged(kept, e)) && Challenged(kept, e) != []
  {
    hide Shaped, KeyOf, Stays;
  }

  // ----- Selection -----

  /** The order of the beam: score, then devices, then placements. */
  predicate Before(a: Entry, b: Entry) {
    a.score < b.score
    || (a.score == b.score
        && (LexLess(a.devices, b.devices) || (a.devices == b.devices && LexLess(a.state.cands, b.state.cands))))
  }

  function Inserted(ranked: seq<Entry>, e: Entry): seq<Entry> {
    if ranked == [] then [e]
    else if Before(e, ranked[0]) then [e] + ranked
    else [ranked[0]] + Inserted(ranked[1..], e)
  }

  function Ranked(es: seq<Entry>): seq<Entry> {
    if es == [] then [] else Inserted(Ranked(es[..|es| - 1]), es[|es| - 1])
  }

  function StatesOf(es: seq<Entry>): (r: seq<SearchState>)
    ensures |r| == |es| && forall i | 0 <= i < |es| :: r[i] == es[i].state
  {
    seq(|es|, i requires 0 <= i < |es| => es[i].state)
  }

  function SelectBeam(es: seq<Entry>, width: nat): seq<SearchState> {
    var ranked := Ranked(es);
    var keep := Max(width, 1);
    StatesOf(if |ranked| > keep then ranked[..keep] else ranked)
  }

  lemma {:induction false} LexTotal(a: seq<nat>, b: seq<nat>)
    ensures a == b || LexLess(a, b) || LexLess(b, a)
    ensures !(LexLess(a, b) && LexLess(b, a)) && !LexLess(a, a)
  {
    if a != [] && b != [] {
      LexTotal(a[1..], b[1..]);
      assert a[0] == b[0] && a[1..] == b[1..] ==> a == [a[0]] + a[1..] == [b[0]] + b[1..] == b;
    }
    if a != [] {
      LexTotal(a[1..], a[1..]);
    }
  }

  lemma {:induction false} LexTransitive(a: seq<nat>, b: seq<nat>, c: seq<nat>)
    requires LexLess(a, b) && LexLess(b, c)
    ensures LexLess(a, c)
  {
    if a != [] && a[0] == b[0] && b[0] == c[0] {
      LexTransitive(a[1..], b[1..], c[1..]);
    }
  }

  lemma {:induction false} BeforeIsAnOrder(a: Entry, b: Entry, c: Entry)
    ensures !(Before(a, b) && Before(b, a))
    ensures Before(a, b) && Before(b, c) ==> Before(a, c)
    ensures a.state.cands != b.state.cands ==> Before(a, b) || Before(b, a)
  {
    LexTotal(a.devices, b.devices);
    LexTotal(a.state.cands, b.state.cands);
    if LexLess(a.devices, b.devices) && LexLess(b.devices, c.devices) {
      LexTransitive(a.devices, b.devices, c.devices);
    }
    if LexLess(a.state.cands, b.state.cands) && LexLess(b.state.cands, c.state.cands) {
      LexTransitive(a.state.cands, b.state.cands, c.state.cands);
    }
    hide LexLess;
  }

  ghost predicate Sorted(es: seq<Entry>) {
    forall i, j | 0 <= i < j < |es| :: Before(es[i], es[j])
  }

  lemma {:induction false} InsertedOk(ranked: seq<Entry>, e: Entry)
    requires Sorted(ranked) && forall i | 0 <= i < |ranked| :: ranked[i].state.cands != e.state.cands
    ensures Sorted(Inserted(ranked, e)) && multiset(Inserted(ranked, e)) == multiset(ranked) + multiset{e}
  {
    hide Before;
    if ranked == [] {
    } else if Before(e, ranked[0]) {
      forall j | 0 <= j < |ranked| ensures Before(e, ranked[j]) {
        BeforeIsAnOrder(e, ranked[0], ranked[j]);
      }
    } else {
      var rest := ranked[1..];
      assert ranked == [ranked[0]] + rest;
      InsertedOk(rest, e);
      BeforeIsAnOrder(ranked[0], e, e);
      var more := Inserted(rest, e);
      hide Inserted;
      FirstStays(ranked, e, more);
    }
  }

  lemma {:induction false} FirstStays(ranked: seq<Entry>, e: Entry, more: seq<Entry>)
    requires ranked != [] && Sorted(ranked) && Before(ranked[0], e) && multiset(more) == multiset(ranked[1..]) + multiset{e}
    ensures forall j | 0 <= j < |more| :: Before(ranked[0], more[j])
  {
    hide Before;
    var rest := ranked[1..];
    forall j | 0 <= j < |more| ensures Before(ranked[0], more[j]) {
      assert more[j] in multiset(more);
      if more[j] != e {
        assert more[j] in rest;
        var i :| 0 <= i < |rest| && rest[i] == more[j];
        assert ranked[i + 1] == more[j];
      }
    }
  }

  lemma {:induction false} RankedOk(es: seq<Entry>)
    requires DistinctEntries(es)
    ensures Sorted(Ranked(es)) && multiset(Ranked(es)) == multiset(es)
  {
    if es != [] {
      var init, e := es[..|es| - 1], es[|es| - 1];
      assert es == init + [e];
      RankedOk(init);
      var ranked := Ranked(init);
      hide Sorted;
      forall i | 0 <= i < |ranked| ensures ranked[i].state.cands != e.state.cands {
        assert ranked[i] in multiset(ranked);
        assert ranked[i] in init;
        var j :| 0 <= j < |init| && init[j] == ranked[i];
        assert es[j] == ranked[i];
      }
      InsertedOk(ranked, e);
    }
  }

  lemma {:induction false} FirstIsFirst(a: seq<Entry>, b: seq<Entry>)
    requires Sorted(a) && Sorted(b) && multiset(a) == multiset(b) && a != [] && b != []
    ensures a[0] == b[0]
  {
    hide Before;
    if a[0] != b[0] {
      assert a[0] in multiset(b) && b[0] in multiset(a);
      var i :| 0 <= i < |b| && b[i] == a[0];
      var j :| 0 <= j < |a| && a[j] == b[0];
      assert Before(b[0], b[i]) && Before(a[0], a[j]);
      BeforeIsAnOrder(a[0], b[0], b[0]);
    }
  }

  /** There is only one way to sort the same entries. */
  lemma {:induction false} SortedIsUnique(a: seq<Entry>, b: seq<Entry>)
    requires Sorted(a) && Sorted(b) && multiset(a) == multiset(b)
    ensures a == b
  {
    if a == [] || b == [] {
      assert |a| == |multiset(a)| == |multiset(b)| == |b|;
    } else {
      FirstIsFirst(a, b);
      TailOf(a);
      TailOf(b);
      assert Sorted(a[1..]) && Sorted(b[1..]) by { hide Before; }
      hide Sorted, Before;
      SortedIsUnique(a[1..], b[1..]);
    }
  }

  lemma {:induction false} TailOf<T>(a: seq<T>)
    requires a != []
    ensures a == [a[0]] + a[1..] && multiset(a[1..]) == multiset(a) - multiset{a[0]}
  {
    assert a == [a[0]] + a[1..];
  }

  /** The selection does not depend on the order in which it is given the entries. */
  lemma {:induction false} SelectionIsOrderFree(es: seq<Entry>, es': seq<Entry>, width: nat)
    requires DistinctEntries(es) && DistinctEntries(es') && multiset(es) == multiset(es')
    ensures SelectBeam(es, width) == SelectBeam(es', width)
  {
    RankedOk(es);
    RankedOk(es');
    hide Sorted, Ranked;
    SortedIsUnique(Ranked(es), Ranked(es'));
  }

  /** The selected states are those of the first entries in the order of the beam; none that was left out comes before one that was taken. */
  lemma {:induction false} SelectionIsBest(es: seq<Entry>, width: nat)
    requires DistinctEntries(es)
    ensures var n := if |es| > Max(width, 1) then Max(width, 1) else |es|;
            && |Ranked(es)| == |es| && multiset(Ranked(es)) == multiset(es) && SelectBeam(es, width) == StatesOf(Ranked(es)[..n])
            && (forall i, j | 0 <= i < n <= j < |es| :: Before(Ranked(es)[i], Ranked(es)[j]))
  {
    RankedOk(es);
    hide Ranked, Before;
    assert |Ranked(es)| == |multiset(Ranked(es))| == |multiset(es)| == |es|;
    assert Ranked(es)[..|es|] == Ranked(es);
  }

  // ----- One step -----

  /** The beam after placing one more region. */
  function BeamStep(u: Search, beam: seq<SearchState>, region: nat): seq<SearchState>
    requires ValidSearch(u) && AllShaped(u.p, beam) && region < |u.p.regions|
  {
    SelectBeam(Survivors(Expansion(u, beam, region)), u.cfg.beamWidth)
  }

  lemma {:induction false} SelectedOk(p: Problem, es: seq<Entry>, k: nat, width: nat)
    requires EntriesOk(p, es, k)
    ensures BeamOk(p, SelectBeam(es, width), k)
    ensures forall i | 0 <= i < |SelectBeam(es, width)| :: StateIn(es, SelectBeam(es, width)[i])
    ensures es != [] ==> SelectBeam(es, width) != []
  {
    SelectionIsBest(es, width);
    var n := if |es| > Max(width, 1) then Max(width, 1) else |es|;
    var ranked := Ranked(es);
    hide Ranked, Shaped, SelectBeam, Before, Max;
    RankedDistinct(es, ranked);
    var out := SelectBeam(es, width);
    forall i | 0 <= i < |out| ensures Shaped(p, out[i]) && |out[i].cands| == k && StateIn(es, out[i]) {
      RankedFrom(p, es, ranked, k, i);
    }
  }

  ghost predicate StateIn(es: seq<Entry>, s: SearchState) {
    exists i :: 0 <= i < |es| && es[i].state == s
  }

  lemma {:induction false} RankedFrom(p: Problem, es: seq<Entry>, ranked: seq<Entry>, k: nat, i: nat)
    requires EntriesOk(p, es, k) && multiset(ranked) == multiset(es) && i < |ranked|
    ensures Shaped(p, ranked[i].state) && |ranked[i].state.cands| == k && StateIn(es, ranked[i].state)
  {
    hide Shaped, DistinctEntries;
    assert ranked[i] in multiset(ranked);
    assert ranked[i] in es;
    var j :| 0 <= j < |es| && es[j] == ranked[i];
  }

  lemma {:induction false} CountDistinct(es: seq<Entry>, e: Entry)
    requires DistinctEntries(es)
    ensures multiset(es)[e] <= 1
  {
    if es != [] {
      var init := es[..|es| - 1];
      assert es == init + [es[|es| - 1]];
      CountDistinct(init, e);
    }
  }

  /** Entries with different placements keep them different in any order. */
  lemma {:induction false} RankedDistinct(es: seq<Entry>, ranked: seq<Entry>)
    requires DistinctEntries(es) && multiset(ranked) == multiset(es)
    ensures DistinctEntries(ranked)
  {
    forall i, j | 0 <= i < j < |ranked| ensures ranked[i].state.cands != ranked[j].state.cands {
      assert ranked[i] in multiset(ranked) && ranked[j] in multiset(ranked);
      var a :| 0 <= a < |es| && es[a] == ranked[i];
      var b :| 0 <= b < |es| && es[b] == ranked[j];
      if ranked[i] == ranked[j] {
        CountDistinct(es, ranked[i]);
        Twice(ranked, i, j);
      }
    }
  }

  lemma {:induction false} Twice<T>(s: seq<T>, i: nat, j: nat)
    requires i < j < |s| && s[i] == s[j]
    ensures multiset(s)[s[i]] >= 2
  {
    assert s == s[..j] + s[j..];
    assert s[i] in s[..j] && s[j] in s[j..];
  }

  /** A step keeps the states shaped, of equal length and different. */
  lemma {:induction false} StepKeepsBeam(u: Search, beam: seq<SearchState>, region: nat, k: nat)
    requires ValidSearch(u) && BeamOk(u.p, beam, k) && region < |u.p.regions|
    ensures BeamOk(u.p, BeamStep(u, beam, region), k + 1)
  {
    ExpansionIsDistinct(u, beam, region, k);
    var es := Expansion(u, beam, region);
    hide Expansion, EntriesOk, Survivors, SelectBeam, ValidSearch, FromBeam, BeamOk;
    SurvivorsOk(u.p, es, k + 1);
    SelectedOk(u.p, Survivors(es), k + 1, u.cfg.beamWidth);
  }

  // ----- The same with a table and workers -----

  type Table = map<DomKey, Entry>

  /** The table holds the survivors under their keys. */
  ghost predicate Holds(table: Table, kept: seq<Entry>) {
    && (forall i | 0 <= i < |kept| :: KeyOf(kept[i]) in table && table[KeyOf(kept[i])] == kept[i])
    && (forall key | key in table :: exists i :: 0 <= i < |kept| && KeyOf(kept[i]) == key)
    && OnePerKey(kept)
  }

  lemma {:induction false} HoldsReplaced(table: Table, kept: seq<Entry>, e: Entry, i: nat)
    requires Holds(table, kept) && i < |kept| && KeyOf(kept[i]) == KeyOf(e)
    ensures Holds(table[KeyOf(e) := e], kept[i := e])
  {
    hide KeyOf;
    var after := kept[i := e];
    forall k | k in table ensures exists j :: 0 <= j < |after| && KeyOf(after[j]) == k {
      var j :| 0 <= j < |kept| && KeyOf(kept[j]) == k;
      assert KeyOf(after[j]) == k;
    }
  }

  lemma {:induction false} HoldsAdded(table: Table, kept: seq<Entry>, e: Entry)
    requires Holds(table, kept) && forall i | 0 <= i < |kept| :: KeyOf(kept[i]) != KeyOf(e)
    ensures KeyOf(e) !in table && Holds(table[KeyOf(e) := e], kept + [e])
  {
    hide KeyOf;
    var after := kept + [e];
    assert after[|kept|] == e;
    forall k | k in table ensures exists j :: 0 <= j < |after| && KeyOf(after[j]) == k {
      var j :| 0 <= j < |kept| && KeyOf(kept[j]) == k;
      assert after[j] == kept[j];
    }
  }

  lemma {:induction false} HoldsChallenge(table: Table, kept: seq<Entry>, e: Entry)
    requires Holds(table, kept)
    ensures var key := KeyOf(e);
            Holds(if key in table && Stays(table[key], e) then table else table[key := e], Challenged(kept, e))
  {
    hide KeyOf, Stays;
    var at := FindKey(kept, KeyOf(e));
    if at.Some? {
      assert table[KeyOf(e)] == kept[at.value] && KeyOf(e) in table;
      hide Holds, FindKey;
      HoldsReplaced(table, kept, e, at.value);
    } else {
      hide Holds, FindKey;
      HoldsAdded(table, kept, e);
    }
  }

  method Prune(es: seq<Entry>) returns (table: Table)
    ensures Holds(table, Survivors(es))
  {
    table := map[];
    assert es[..0] == [];
    for n := 0 to |es|
      invariant Holds(table, Survivors(es[..n]))
    {
      hide Holds, KeyOf, Stays;
      var e := es[n];
      assert es[..n + 1][..n] == es[..n];
      SurvivorsStep(es[..n + 1]);
      HoldsChallenge(table, Survivors(es[..n]), e);
      hide Survivors;
      var key := KeyOf(e);
      if !(key in table && Stays(table[key], e)) {
        table := table[key := e];
      }
    }
    assert es[..|es|] == es;
  }

  /** The values of the table, visited in any order. */
  method ValuesOf(table: Table, ghost kept: seq<Entry>) returns (values: seq<Entry>)
    requires Holds(table, kept)
    ensures multiset(values) == multiset(kept)
  {
    values := [];
    var left := table.Keys;
    ghost var rest := kept;
    assert HoldsLeft(table, left, rest) by { hide KeyOf; }
    hide HoldsLeft, Holds, KeyOf;
    while left != {}
      invariant left <= table.Keys
      invariant HoldsLeft(table, left, rest)
      invariant multiset(values) + multiset(rest) == multiset(kept)
    {
      var key := Pick(left);
      ghost var i := PlaceOf(table, left, rest, key);
      DropOne(table, left, rest, i);
      SplitAt(rest, i);
      rest := rest[..i] + rest[i + 1..];
      values := values + [table[key]];
      left := left - {key};
    }
    FirstKeyLeft(table, left, rest);
  }

  lemma {:induction false} FirstKeyLeft(table: Table, left: set<DomKey>, rest: seq<Entry>)
    requires HoldsLeft(table, left, rest)
    ensures rest != [] ==> KeyOf(rest[0]) in left
  {
    hide KeyOf;
  }

  ghost predicate HoldsLeft(table: Table, left: set<DomKey>, rest: seq<Entry>) {
    && left <= table.Keys
    && (forall i | 0 <= i < |rest| :: KeyOf(rest[i]) in left && table[KeyOf(rest[i])] == rest[i])
    && (forall key | key in left :: exists i :: 0 <= i < |rest| && KeyOf(rest[i]) == key)
    && OnePerKey(rest)
  }

  lemma {:induction false} PlaceOf(table: Table, left: set<DomKey>, rest: seq<Entry>, key: DomKey) returns (i: nat)
    requires HoldsLeft(table, left, rest) && key in left
    ensures i < |rest| && KeyOf(rest[i]) == key && key in table && rest[i] == table[key]
  {
    hide KeyOf;
    i :| 0 <= i < |rest| && KeyOf(rest[i]) == key;
  }

  lemma {:induction false} DropOne(table: Table, left: set<DomKey>, rest: seq<Entry>, i: nat)
    requires HoldsLeft(table, left, rest) && i < |rest|
    ensures HoldsLeft(table, left - {KeyOf(rest[i])}, rest[..i] + rest[i + 1..])
  {
    hide KeyOf;
    var out := rest[..i] + rest[i + 1..];
    assert forall j | 0 <= j < |out| :: out[j] == rest[if j < i then j else j + 1];
    forall key | key in left - {KeyOf(rest[i])} ensures exists j :: 0 <= j < |out| && KeyOf(out[j]) == key {
      var j :| 0 <= j < |rest| && KeyOf(rest[j]) == key;
      var m := if j < i then j else j - 1;
      assert out[m] == rest[j];
    }
  }

  lemma {:induction false} SplitAt<T>(s: seq<T>, i: nat)
    requires i < |s|
    ensures multiset(s) == multiset(s[..i] + s[i + 1..]) + multiset{s[i]}
  {
    assert s == s[..i] + [s[i]] + s[i + 1..];
  }

  /** However many workers expand the beam and however the table is visited, the result is the same. */
  method StepBeam(u: Search, beam: seq<SearchState>, region: nat, workers: nat, ghost k: nat) returns (next: seq<SearchState>)
    requires ValidSearch(u) && BeamOk(u.p, beam, k) && region < |u.p.regions|
    ensures next == BeamStep(u, beam, region)
  {
    var es := ExpandChunked(u, beam, region, workers);
    ExpansionIsDistinct(u, beam, region, k);
    hide Expansion, ValidSearch, BeamOk, FromBeam, EntriesOk;
    SurvivorsOk(u.p, es, k + 1);
    var table := Prune(es);
    hide Survivors, Holds;
    var values := ValuesOf(table, Survivors(es));
    ghost var kept := Survivors(es);
    assert DistinctEntries(kept) by { EntriesAreDistinct(u.p, kept, k + 1); }
    hide SelectBeam, DistinctEntries;
    RankedDistinct(kept, values);
    SelectionIsOrderFree(values, kept, u.cfg.beamWidth);
    next := SelectBeam(values, u.cfg.beamWidth);
  }

  lemma {:induction false} EntriesAreDistinct(p: Problem, es: seq<Entry>, k: nat)
    requires EntriesOk(p, es, k)
    ensures DistinctEntries(es)
  {
  }
}
