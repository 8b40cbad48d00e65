/**
 Partial placements of regions on devices, and the step that places one more region.

 Times are real numbers. What the machine model says about a transfer is a function of the problem.
 */
module PlacementStates {
  import opened Prelude

  type Duration = d: real | 0.0 <= d

  /** A transfer between two devices; the link is its interned id, if it has one. */
  datatype Estimate = Estimate(link: Option<nat>, duration: Duration, measured: bool, hostStaged: bool)

  datatype Candidate = Candidate(device: nat, backend: Name, kernel: Name, dtype: Name, latency: real, workspace: nat)

  datatype Region = Region(name: Name, deps: seq<nat>, outputBytes: nat, stateBytes: nat, consumers: int)

  datatype Problem = Problem(
    regions: seq<Region>, order: seq<nat>, devices: nat, capacities: seq<nat>,
    edgeBytes: map<(nat, nat), nat>, transfer: (nat, nat, nat) -> Option<Estimate>, allowed: set<nat>)

  /** Dependencies and allowed devices exist. */
  ghost predicate Valid(p: Problem) {
    && (forall r, i | 0 <= r < |p.regions| && 0 <= i < |p.regions[r].deps| :: p.regions[r].deps[i] < |p.regions|)
    && (forall d | d in p.allowed :: d < p.devices)
    && (forall i | 0 <= i < |p.order| :: p.order[i] < |p.regions|)
  }

  function CapacityAt(capacities: seq<nat>, device: nat): nat {
    if device < |capacities| then capacities[device] else 0
  }

  function Capacity(p: Problem, device: nat): nat {
    CapacityAt(p.capacities, device)
  }

  // ----- The state -----

  datatype Clock = Clock(finish: seq<real>, deviceFree: seq<real>, linkFree: seq<real>, deviceBusy: seq<real>, linkBusy: seq<real>)

  datatype Memory = Memory(live: seq<nat>, peak: seq<nat>, home: seq<Option<nat>>, bytes: seq<nat>, remaining: seq<int>)

  datatype Traffic = Traffic(bytes: nat, latency: real, unmeasured: nat, hostStaged: nat)

  /** The state is grouped into what is placed, when, where in memory, and what was moved. */
  datatype SearchState = SearchState(cands: seq<nat>, clock: Clock, memory: Memory, traffic: Traffic)

  ghost predicate ClockShaped(p: Problem, c: Clock) {
    && |c.finish| == |p.regions| && |c.deviceFree| == |c.deviceBusy| == p.devices && |c.linkFree| == |c.linkBusy|
  }

  ghost predicate MemoryShaped(p: Problem, m: Memory) {
    && |m.live| == |m.peak| == p.devices && |m.home| == |m.bytes| == |m.remaining| == |p.regions|
    && (forall r: nat | r < |p.regions| && m.home[r].Some? :: m.home[r].value < p.devices)
  }

  ghost predicate Shaped(p: Problem, s: SearchState) {
    ClockShaped(p, s.clock) && MemoryShaped(p, s.memory)
  }

  function Repeat<T>(n: nat, x: T): (xs: seq<T>)
    ensures |xs| == n && forall i | 0 <= i < n :: xs[i] == x
  {
    seq(n, i => x)
  }

  function NewState(p: Problem): (s: SearchState)
    ensures Shaped(p, s)
  {
    var (n, d) := (|p.regions|, p.devices);
    SearchState([],
      Clock(Repeat(n, 0.0), Repeat(d, 0.0), [], Repeat(d, 0.0), []),
      Memory(Repeat(d, 0), Repeat(d, 0), Repeat(n, None), Repeat(n, 0), seq(n, i requires 0 <= i < n => p.regions[i].consumers)),
      Traffic(0, 0.0, 0, 0))
  }

  function RMax(a: real, b: real): (m: real)
    ensures m >= a && m >= b && (m == a || m == b)
  {
    if a < b then b else a
  }

  // ----- Inputs arrive -----

  datatype Arrival = Arrival(clock: Clock, traffic: Traffic, ready: real, incoming: nat)

  /** Links get a slot when they are first used. */
  function WithLink(c: Clock, link: nat): (c': Clock)
    requires |c.linkFree| == |c.linkBusy|
    ensures |c'.linkFree| == |c'.linkBusy| > link
    ensures c'.finish == c.finish && c'.deviceFree == c.deviceFree && c'.deviceBusy == c.deviceBusy
    ensures forall l | 0 <= l < |c'.linkFree| :: c'.linkFree[l] == (if l < |c.linkFree| then c.linkFree[l] else 0.0)
    ensures forall l | 0 <= l < |c'.linkBusy| :: c'.linkBusy[l] == (if l < |c.linkBusy| then c.linkBusy[l] else 0.0)
  {
    if |c.linkFree| <= link then
      var more := Repeat(link + 1 - |c.linkFree|, 0.0);
      c.(linkFree := c.linkFree + more, linkBusy := c.linkBusy + more)
    else c
  }

  function Moved(a: Arrival, link: nat, from: real, e: Estimate, nbytes: nat): Arrival
    requires |a.clock.linkFree| == |a.clock.linkBusy|
  {
    var c := WithLink(a.clock, link);
    var end := RMax(from, c.linkFree[link]) + e.duration;
    Arrival(
      c.(linkFree := c.linkFree[link := end], linkBusy := c.linkBusy[link := c.linkBusy[link] + e.duration]),
      Traffic(a.traffic.bytes + nbytes, a.traffic.latency + e.duration,
              a.traffic.unmeasured + (if e.measured then 0 else 1), a.traffic.hostStaged + (if e.hostStaged then 1 else 0)),
      RMax(a.ready, end), a.incoming + nbytes)
  }

  /** One dependency: local if it was placed on the same device, moved over a link otherwise. */
  function Arrive(p: Problem, m: Memory, region: nat, device: nat, dep: nat, a: Arrival): (r: Option<Arrival>)
    requires MemoryShaped(p, m) && ClockShaped(p, a.clock) && dep < |p.regions|
    ensures r.Some? ==> ClockShaped(p, r.value.clock)
  {
    match m.home[dep]
    case None => None
    case Some(home) =>
      var nbytes := if (dep, region) in p.edgeBytes then p.edgeBytes[(dep, region)] else m.bytes[dep];
      if home == device then Some(a.(ready := RMax(a.ready, a.clock.finish[dep])))
      else
        match p.transfer(home, device, nbytes)
        case None => None
        case Some(e) => if e.link.None? then None else Some(Moved(a, e.link.value, a.clock.finish[dep], e, nbytes))
  }

  ghost predicate DepsExist(p: Problem, deps: seq<nat>) {
    forall i | 0 <= i < |deps| :: deps[i] < |p.regions|
  }

  function ArriveAll(p: Problem, m: Memory, region: nat, device: nat, deps: seq<nat>, a: Arrival): (r: Option<Arrival>)
    requires MemoryShaped(p, m) && ClockShaped(p, a.clock) && DepsExist(p, deps)
    ensures r.Some? ==> ClockShaped(p, r.value.clock)
    decreases |deps|
  {
    if deps == [] then Some(a)
    else
      match Arrive(p, m, region, device, deps[0], a)
      case None => None
      case Some(a') => ArriveAll(p, m, region, device, deps[1..], a')
  }

  // ----- Memory -----

  /** The output of `dep` is dropped when its last consumer has been placed. */
  function Consumed(p: Problem, m: Memory, dep: nat): (m': Memory)
    requires MemoryShaped(p, m) && dep < |p.regions|
    ensures MemoryShaped(p, m') && m'.home == m.home && m'.bytes == m.bytes && m'.peak == m.peak
  {
    var left := m.remaining[dep] - 1;
    var m1 := m.(remaining := m.remaining[dep := left]);
    if left <= 0 && m.home[dep].Some? then
      var d := m.home[dep].value;
      m1.(live := m1.live[d := SatSub(m1.live[d], m1.bytes[dep])])
    else m1
  }

  function ConsumedAll(p: Problem, m: Memory, deps: seq<nat>): (m': Memory)
    requires MemoryShaped(p, m) && DepsExist(p, deps)
    ensures MemoryShaped(p, m') && m'.home == m.home && m'.bytes == m.bytes && m'.peak == m.peak
    decreases |deps|
  {
    if deps == [] then m else ConsumedAll(p, Consumed(p, m, deps[0]), deps[1..])
  }

  /** The output of a region is put on its device, unless nobody will read it. */
  function Produced(p: Problem, m: Memory, region: nat, device: nat, instantaneous: nat): (m': Memory)
    requires MemoryShaped(p, m) && region < |p.regions| && device < p.devices
    ensures MemoryShaped(p, m')
  {
    var out := p.regions[region].outputBytes;
    var with_ := m.live[device] + out;
    Memory(
      m.live[device := if m.remaining[region] <= 0 then SatSub(with_, out) else with_],
      m.peak[device := Max(m.peak[device], instantaneous)],
      m.home[region := Some(device)], m.bytes[region := out], m.remaining)
  }

  // ----- Placing a region -----

  const MIN_LATENCY := 0.000000000001

  function Run(c: Clock, region: nat, device: nat, ready: real, latency: real): Clock
    requires region < |c.finish| && device < |c.deviceFree| && device < |c.deviceBusy|
  {
    var end := RMax(ready, c.deviceFree[device]) + latency;
    c.(finish := c.finish[region := end], deviceFree := c.deviceFree[device := end],
       deviceBusy := c.deviceBusy[device := c.deviceBusy[device] + latency])
  }

  function Instantaneous(p: Problem, m: Memory, region: nat, c: Candidate, incoming: nat): nat
    requires region < |p.regions| && c.device < |m.live|
  {
    m.live[c.device] + incoming + p.regions[region].stateBytes + p.regions[region].outputBytes + c.workspace
  }

  /** The state after placing `region` as candidate `ci`, or nothing if that is not possible. */
  function Extend(p: Problem, s: SearchState, region: nat, ci: nat, c: Candidate): (r: Option<SearchState>)
    requires Valid(p) && Shaped(p, s) && region < |p.regions|
    ensures r.Some? ==> Shaped(p, r.value)
  {
    if c.device !in p.allowed then None
    else
      var deps := p.regions[region].deps;
      match ArriveAll(p, s.memory, region, c.device, deps, Arrival(s.clock, s.traffic, 0.0, 0))
      case None => None
      case Some(a) =>
        var need := Instantaneous(p, s.memory, region, c, a.incoming);
        if Capacity(p, c.device) > 0 && need > Capacity(p, c.device) then None
        else
          Some(SearchState(
            s.cands + [ci],
            Run(a.clock, region, c.device, a.ready, RMax(c.latency, MIN_LATENCY)),
            ConsumedAll(p, Produced(p, s.memory, region, c.device, need), deps),
            a.traffic))
  }

  /** The same with the loops of the implementation. */
  method ExtendState(p: Problem, s: SearchState, region: nat, ci: nat, c: Candidate) returns (r: Option<SearchState>)
    requires Valid(p) && Shaped(p, s) && region < |p.regions|
    ensures r == Extend(p, s, region, ci, c)
  {
    if c.device !in p.allowed {
      return None;
    }
    var deps := p.regions[region].deps;
    var a := Arrival(s.clock, s.traffic, 0.0, 0);
    ghost var arrived := ArriveAll(p, s.memory, region, c.device, deps, a);
    hide Arrive, Consumed, Produced;
    for i := 0 to |deps|
      invariant ClockShaped(p, a.clock)
      invariant ArriveAll(p, s.memory, region, c.device, deps[i..], a) == arrived
    {
      assert deps[i..][1..] == deps[i + 1..];
      var next := Arrive(p, s.memory, region, c.device, deps[i], a);
      if next.None? {
        return None;
      }
      a := next.value;
    }
    var need := Instantaneous(p, s.memory, region, c, a.incoming);
    if Capacity(p, c.device) > 0 && need > Capacity(p, c.device) {
      return None;
    }
    var m := Produced(p, s.memory, region, c.device, need);
    ghost var consumed := ConsumedAll(p, m, deps);
    for i := 0 to |deps|
      invariant MemoryShaped(p, m)
      invariant ConsumedAll(p, m, deps[i..]) == consumed
    {
      assert deps[i..][1..] == deps[i + 1..];
      m := Consumed(p, m, deps[i]);
    }
    var clock := Run(a.clock, region, c.device, a.ready, RMax(c.latency, MIN_LATENCY));
    return Some(SearchState(s.cands + [ci], clock, m, a.traffic));
  }
}
