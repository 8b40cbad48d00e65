/** What every sequence of placements keeps: exact memory accounting and consistent times. */
module PlacementAccounting {
  import opened Prelude
  import opened PlacementStates

  // ----- Runs -----

  datatype Placing = Placing(region: nat, cand: nat, kernel: Candidate)

  ghost predicate InRange(p: Problem, steps: seq<Placing>) {
    forall i | 0 <= i < |steps| :: steps[i].region < |p.regions|
  }

  /** Placing regions one after the other, starting with none. */
  ghost function PlaceAll(p: Problem, steps: seq<Placing>): (r: Option<SearchState>)
    requires Valid(p) && InRange(p, steps)
    ensures r.Some? ==> Shaped(p, r.value)
    decreases |steps|
  {
    if steps == [] then Some(NewState(p))
    else
      var last := steps[|steps| - 1];
      match PlaceAll(p, steps[..|steps| - 1])
      case None => None
      case Some(s) => Extend(p, s, last.region, last.cand, last.kernel)
  }

  ghost predicate OncePerRegion(steps: seq<Placing>) {
    forall i, j | 0 <= i < j < |steps| :: steps[i].region != steps[j].region
  }

  ghost function Placed(steps: seq<Placing>): set<nat> {
    set i | 0 <= i < |steps| :: steps[i].region
  }

  lemma {:induction false} PlacedSnoc(steps: seq<Placing>)
    requires steps != []
    ensures Placed(steps) == Placed(steps[..|steps| - 1]) + {steps[|steps| - 1].region}
    ensures OncePerRegion(steps) ==> OncePerRegion(steps[..|steps| - 1]) && steps[|steps| - 1].region !in Placed(steps[..|steps| - 1])
  {
    var init := steps[..|steps| - 1];
    forall r | r in Placed(steps) ensures r in Placed(init) + {steps[|steps| - 1].region} {
      var i :| 0 <= i < |steps| && steps[i].region == r;
      assert i < |init| ==> init[i] == steps[i];
    }
    forall r | r in Placed(init) ensures r in Placed(steps) {
      var i :| 0 <= i < |init| && init[i].region == r;
      assert init[i] == steps[i];
    }
  }

  // ----- Consumers still to be placed -----

  /** The dependency entries that name `r`, among the regions below `n` that are not placed; double entries count twice. */
  ghost function Owed(p: Problem, r: nat, placed: set<nat>, n: nat): nat
    requires n <= |p.regions|
  {
    if n == 0 then 0
    else Owed(p, r, placed, n - 1) + (if n - 1 in placed then 0 else Count(p.regions[n - 1].deps, r))
  }

  lemma {:induction false} OwedLess(p: Problem, r: nat, placed: set<nat>, q: nat, n: nat)
    requires n <= |p.regions| && q < |p.regions| && q !in placed
    ensures Owed(p, r, placed + {q}, n) + (if q < n then Count(p.regions[q].deps, r) else 0) == Owed(p, r, placed, n)
  {
    if n > 0 {
      OwedLess(p, r, placed, q, n - 1);
    }
  }

  lemma {:induction false} NothingOwed(p: Problem, r: nat, placed: set<nat>, n: nat)
    requires n <= |p.regions| && forall q | 0 <= q < n :: q in placed
    ensures Owed(p, r, placed, n) == 0
  {
    if n > 0 {
      NothingOwed(p, r, placed, n - 1);
    }
  }

  /** The problem's consumer counts are the numbers of dependency entries. */
  ghost predicate CountsExact(p: Problem) {
    forall r: nat | r < |p.regions| :: p.regions[r].consumers == Owed(p, r, {}, |p.regions|)
  }

  // ----- Sums of bytes -----

  function Total(xs: seq<nat>): nat {
    if xs == [] then 0 else xs[|xs| - 1] + Total(xs[..|xs| - 1])
  }

  lemma {:induction false} TotalUpdate(xs: seq<nat>, i: nat, v: nat)
    requires i < |xs|
    ensures Total(xs[i := v]) == Total(xs) - xs[i] + v && xs[i] <= Total(xs)
  {
    var last := |xs| - 1;
    if i == last {
      assert xs[i := v][..last] == xs[..last];
    } else {
      TotalUpdate(xs[..last], i, v);
      assert xs[i := v][..last] == xs[..last][i := v];
    }
  }

  lemma {:induction false} TotalZero(xs: seq<nat>)
    requires forall i | 0 <= i < |xs| :: xs[i] == 0
    ensures Total(xs) == 0
  {
    if xs != [] {
      TotalZero(xs[..|xs| - 1]);
    }
  }

  predicate HeldOn(m: Memory, d: nat, r: nat)
    requires r < |m.home| && r < |m.remaining|
  {
    m.home[r] == Some(d) && m.remaining[r] > 0
  }

  /** The bytes each region holds on device `d`: its output, while it is there and still has a consumer to come. */
  ghost function Held(m: Memory, d: nat): (xs: seq<nat>)
    requires |m.home| == |m.bytes| == |m.remaining|
    ensures |xs| == |m.home| && forall r | 0 <= r < |xs| :: xs[r] == (if HeldOn(m, d, r) then m.bytes[r] else 0)
  {
    seq(|m.home|, r requires 0 <= r < |m.home| => if HeldOn(m, d, r) then m.bytes[r] else 0)
  }

  /** Live bytes are exact on every device. */
  ghost predicate LiveExact(p: Problem, m: Memory)
    requires MemoryShaped(p, m)
  {
    forall d | 0 <= d < p.devices :: m.live[d] == Total(Held(m, d))
  }

  /** Where outputs are, and how many consumers they have to come once `rest` has been consumed too. */
  ghost predicate Consumers(p: Problem, m: Memory, placed: set<nat>, rest: seq<nat>)
    requires MemoryShaped(p, m)
  {
    && (forall r: nat | r < |p.regions| :: m.home[r].Some? <==> r in placed)
    && (forall r: nat | r < |p.regions| && r in placed :: m.bytes[r] == p.regions[r].outputBytes)
    && (forall r: nat | r < |p.regions| :: m.remaining[r] == Owed(p, r, placed, |p.regions|) + Count(rest, r))
  }

  ghost predicate WithinPeak(p: Problem, m: Memory)
    requires MemoryShaped(p, m)
  {
    forall d | 0 <= d < p.devices :: m.live[d] <= m.peak[d] && (Capacity(p, d) > 0 ==> m.peak[d] <= Capacity(p, d))
  }

  ghost predicate MemoryOk(p: Problem, m: Memory, placed: set<nat>, rest: seq<nat>)
    requires MemoryShaped(p, m)
  {
    Consumers(p, m, placed, rest) && LiveExact(p, m) && WithinPeak(p, m)
  }

  lemma {:induction false} ConsumeLive(p: Problem, m: Memory, dep: nat, d: nat)
    requires MemoryShaped(p, m) && LiveExact(p, m) && dep < |p.regions| && m.home[dep].Some? && m.remaining[dep] >= 1 && d < p.devices
    ensures Consumed(p, m, dep).live[d] == Total(Held(Consumed(p, m, dep), d)) <= m.live[d]
    ensures m.home[dep] == Some(d) ==> m.bytes[dep] <= m.live[d]
  {
    var m' := Consumed(p, m, dep);
    hide Total;
    TotalUpdate(Held(m, d), dep, Held(m', d)[dep]);
    assert Held(m', d) == Held(m, d)[dep := Held(m', d)[dep]];
  }

  /** Consuming one entry never takes away more than is there. */
  lemma {:induction false} ConsumeOne(p: Problem, m: Memory, placed: set<nat>, rest: seq<nat>)
    requires MemoryShaped(p, m) && MemoryOk(p, m, placed, rest) && rest != [] && rest[0] < |p.regions| && rest[0] in placed
    ensures MemoryOk(p, Consumed(p, m, rest[0]), placed, rest[1..])
    ensures m.home[rest[0]].Some? && m.bytes[rest[0]] <= m.live[m.home[rest[0]].value]
  {
    var dep := rest[0];
    var m' := Consumed(p, m, dep);
    assert forall r: nat :: Count(rest, r) == (if dep == r then 1 else 0) + Count(rest[1..], r);
    hide Owed, Total, Held, Count;
    ConsumeLive(p, m, dep, m.home[dep].value);
    forall d: nat | d < p.devices ensures m'.live[d] == Total(Held(m', d)) <= m.live[d] {
      ConsumeLive(p, m, dep, d);
    }
  }

  lemma {:induction false} ConsumeAll(p: Problem, m: Memory, placed: set<nat>, rest: seq<nat>)
    requires MemoryShaped(p, m) && MemoryOk(p, m, placed, rest) && DepsExist(p, rest) && forall i | 0 <= i < |rest| :: rest[i] in placed
    ensures MemoryOk(p, ConsumedAll(p, m, rest), placed, [])
    decreases |rest|
  {
    if rest != [] {
      ConsumeOne(p, m, placed, rest);
      hide MemoryOk, Consumed;
      ConsumeAll(p, Consumed(p, m, rest[0]), placed, rest[1..]);
    }
  }

  lemma {:induction false} ProduceOwes(p: Problem, m: Memory, placed: set<nat>, region: nat, r: nat)
    requires MemoryShaped(p, m) && Consumers(p, m, placed, []) && region < |p.regions| && region !in placed && r < |p.regions|
    ensures m.remaining[r] == Owed(p, r, placed + {region}, |p.regions|) + Count(p.regions[region].deps, r)
  {
    OwedLess(p, r, placed, region, |p.regions|);
    CountNone<nat>([], r);
  }

  lemma {:induction false} Produce(p: Problem, m: Memory, placed: set<nat>, region: nat, device: nat, need: nat)
    requires MemoryShaped(p, m) && MemoryOk(p, m, placed, []) && region < |p.regions| && region !in placed && device < p.devices
    requires m.live[device] + p.regions[region].outputBytes <= need && (Capacity(p, device) > 0 ==> need <= Capacity(p, device))
    ensures MemoryOk(p, Produced(p, m, region, device, need), placed + {region}, p.regions[region].deps)
  {
    var m' := Produced(p, m, region, device, need);
    assert m'.remaining == m.remaining;
    hide Total, Owed, Count;
    forall r: nat | r < |p.regions|
      ensures m'.remaining[r] == Owed(p, r, placed + {region}, |p.regions|) + Count(p.regions[region].deps, r)
    {
      ProduceOwes(p, m, placed, region, r);
    }
    forall d | 0 <= d < p.devices ensures m'.live[d] == Total(Held(m', d)) {
      TotalUpdate(Held(m, d), region, Held(m', d)[region]);
      assert Held(m', d) == Held(m, d)[region := Held(m', d)[region]];
    }
  }

  /** A region that arrives has all its dependencies placed. */
  lemma {:induction false} ArrivedFromHome(p: Problem, m: Memory, region: nat, device: nat, deps: seq<nat>, a: Arrival, i: nat)
    requires MemoryShaped(p, m) && ClockShaped(p, a.clock) && DepsExist(p, deps)
    requires ArriveAll(p, m, region, device, deps, a).Some? && i < |deps|
    ensures m.home[deps[i]].Some?
    decreases |deps|
  {
    var a' := Arrive(p, m, region, device, deps[0], a).value;
    if i > 0 {
      hide Arrive;
      ArrivedFromHome(p, m, region, device, deps[1..], a', i - 1);
    }
  }

  lemma {:induction false} ExtendMemory(p: Problem, s: SearchState, region: nat, ci: nat, c: Candidate, placed: set<nat>)
    requires Valid(p) && Shaped(p, s) && region < |p.regions| && region !in placed
    requires MemoryOk(p, s.memory, placed, []) && Extend(p, s, region, ci, c).Some?
    ensures MemoryOk(p, Extend(p, s, region, ci, c).value.memory, placed + {region}, [])
  {
    var deps := p.regions[region].deps;
    var start := Arrival(s.clock, s.traffic, 0.0, 0);
    var a := ArriveAll(p, s.memory, region, c.device, deps, start).value;
    var need := Instantaneous(p, s.memory, region, c, a.incoming);
    forall i | 0 <= i < |deps| ensures deps[i] in placed {
      ArrivedFromHome(p, s.memory, region, c.device, deps, start, i);
    }
    hide ArriveAll, Owed, Total, LiveExact, WithinPeak;
    assert region !in deps;
    Produce(p, s.memory, placed, region, c.device, need);
    var m := Produced(p, s.memory, region, c.device, need);
    assert forall i | 0 <= i < |deps| :: deps[i] in placed + {region};
    hide MemoryOk, Produced, ConsumedAll;
    ConsumeAll(p, m, placed + {region}, deps);
  }

  lemma {:induction false} NewMemory(p: Problem)
    requires CountsExact(p)
    ensures MemoryOk(p, NewState(p).memory, {}, [])
  {
    var m := NewState(p).memory;
    forall r: nat ensures Count<nat>([], r) == 0 {
    }
    forall d | 0 <= d < p.devices ensures Total(Held(m, d)) == 0 {
      TotalZero(Held(m, d));
    }
  }

  /**
   After any placements of different regions, if the consumer counts are the numbers of dependency
   entries: live bytes on each device are exactly the outputs placed there that still have a
   consumer to come, they are within the peak, and the peak is within the capacity where there is one.
   */
  lemma {:induction false} MemoryIsExact(p: Problem, steps: seq<Placing>)
    requires Valid(p) && InRange(p, steps) && OncePerRegion(steps) && CountsExact(p) && PlaceAll(p, steps).Some?
    ensures MemoryOk(p, PlaceAll(p, steps).value.memory, Placed(steps), [])
    decreases |steps|
  {
    if steps == [] {
      NewMemory(p);
      assert Placed(steps) == {};
    } else {
      var init, last := steps[..|steps| - 1], steps[|steps| - 1];
      PlacedSnoc(steps);
      MemoryIsExact(p, init);
      hide MemoryOk, Extend, CountsExact, Valid;
      ExtendMemory(p, PlaceAll(p, init).value, last.region, last.cand, last.kernel, Placed(init));
    }
  }

  /** Once every region is placed nothing is live. */
  lemma {:induction false} NothingLiveAtTheEnd(p: Problem, steps: seq<Placing>, d: nat)
    requires Valid(p) && InRange(p, steps) && OncePerRegion(steps) && CountsExact(p) && PlaceAll(p, steps).Some?
    requires (forall r: nat | r < |p.regions| :: r in Placed(steps)) && d < p.devices
    ensures PlaceAll(p, steps).value.memory.live[d] == 0
  {
    MemoryIsExact(p, steps);
    var m := PlaceAll(p, steps).value.memory;
    hide PlaceAll, Valid, CountsExact, Placed;
    forall r: nat | r < |p.regions| ensures Held(m, d)[r] == 0 {
      NothingOwed(p, r, Placed(steps), |p.regions|);
      CountNone<nat>([], r);
    }
    TotalZero(Held(m, d));
  }

  // ----- Times -----

  /** The makespan: the latest finish, and zero if there is none. */
  function Makespan(finish: seq<real>): (m: real)
    ensures 0.0 <= m && forall r | 0 <= r < |finish| :: finish[r] <= m
    ensures m == 0.0 || exists r :: 0 <= r < |finish| && finish[r] == m
  {
    if finish == [] then 0.0
    else
      var rest := Makespan(finish[..|finish| - 1]);
      var last := finish[|finish| - 1];
      assert rest > 0.0 ==> exists r :: 0 <= r < |finish| && finish[r] == rest by {
        if rest > 0.0 {
          var r :| 0 <= r < |finish[..|finish| - 1]| && finish[..|finish| - 1][r] == rest;
          assert finish[r] == rest;
        }
      }
      assert finish[|finish| - 1] == last;
      RMax(rest, last)
  }

  ghost function Sum(xs: seq<real>): real {
    if xs == [] then 0.0 else xs[|xs| - 1] + Sum(xs[..|xs| - 1])
  }

  lemma {:induction false} SumAt(xs: seq<real>, i: nat, v: real)
    requires i < |xs|
    ensures Sum(xs[i := v]) == Sum(xs) - xs[i] + v
  {
    var last := |xs| - 1;
    if i == last {
      assert xs[i := v][..last] == xs[..last];
    } else {
      SumAt(xs[..last], i, v);
      assert xs[i := v][..last] == xs[..last][i := v];
    }
  }

  lemma {:induction false} SumZero(xs: seq<real>)
    requires forall i | 0 <= i < |xs| :: xs[i] == 0.0
    ensures Sum(xs) == 0.0
  {
    if xs != [] {
      SumZero(xs[..|xs| - 1]);
    }
  }

  /** Busy time is at most the time at which the resource is free, which is at most `until`. */
  ghost predicate BusyWithin(busy: seq<real>, free: seq<real>, until: real) {
    |busy| == |free| && forall i | 0 <= i < |busy| :: 0.0 <= busy[i] <= free[i] <= until
  }

  ghost predicate FinishedWithin(finish: seq<real>, until: real) {
    forall i | 0 <= i < |finish| :: 0.0 <= finish[i] <= until
  }

  /** Transfers done so far end by `until`; the latest input is ready by `ready`; and all of it takes no longer than the work `bound`. */
  ghost predicate ArrivalOk(a: Arrival, until: real, bound: real) {
    && 0.0 <= a.ready <= until <= bound && 0.0 <= a.traffic.latency
    && BusyWithin(a.clock.linkBusy, a.clock.linkFree, until)
    && FinishedWithin(a.clock.finish, until)
  }

  lemma {:induction false} MoveOk(a: Arrival, link: nat, dep: nat, e: Estimate, nbytes: nat, until: real, bound: real) returns (until': real)
    requires ArrivalOk(a, until, bound) && dep < |a.clock.finish|
    ensures ArrivalOk(Moved(a, link, a.clock.finish[dep], e, nbytes), until', bound + e.duration)
    ensures until' == RMax(until, Moved(a, link, a.clock.finish[dep], e, nbytes).ready)
    ensures Moved(a, link, a.clock.finish[dep], e, nbytes).traffic.latency == a.traffic.latency + e.duration
  {
    var a' := Moved(a, link, a.clock.finish[dep], e, nbytes);
    until' := RMax(until, a'.ready);
  }

  /** The inputs of a region: what they delay is bounded by the time the new transfers take. */
  lemma {:induction false} ArriveOk(p: Problem, m: Memory, region: nat, device: nat, deps: seq<nat>, a: Arrival, until: real, bound: real)
    requires MemoryShaped(p, m) && ClockShaped(p, a.clock) && DepsExist(p, deps) && ArrivalOk(a, until, bound)
    requires ArriveAll(p, m, region, device, deps, a).Some?
    ensures var r := ArriveAll(p, m, region, device, deps, a).value;
            && ArrivalOk(r, RMax(until, r.ready), bound + (r.traffic.latency - a.traffic.latency))
            && a.ready <= r.ready
            && r.clock.finish == a.clock.finish && r.clock.deviceFree == a.clock.deviceFree && r.clock.deviceBusy == a.clock.deviceBusy
    decreases |deps|
  {
    if deps != [] {
      var next := Arrive(p, m, region, device, deps[0], a).value;
      var until' := ArriveOneOk(p, m, region, device, deps[0], a, until, bound);
      hide Arrive, ArrivalOk;
      ArriveOk(p, m, region, device, deps[1..], next, until', bound + (next.traffic.latency - a.traffic.latency));
    }
  }

  lemma {:induction false} ArriveOneOk(p: Problem, m: Memory, region: nat, device: nat, dep: nat, a: Arrival, until: real, bound: real)
    returns (until': real)
    requires MemoryShaped(p, m) && ClockShaped(p, a.clock) && dep < |p.regions| && ArrivalOk(a, until, bound)
    requires Arrive(p, m, region, device, dep, a).Some?
    ensures var r := Arrive(p, m, region, device, dep, a).value;
            && ArrivalOk(r, until', bound + (r.traffic.latency - a.traffic.latency)) && until' == RMax(until, r.ready)
            && a.ready <= r.ready
            && r.clock.finish == a.clock.finish && r.clock.deviceFree == a.clock.deviceFree && r.clock.deviceBusy == a.clock.deviceBusy
  {
    var r := Arrive(p, m, region, device, dep, a).value;
    until' := RMax(until, r.ready);
    var home := m.home[dep].value;
    if home != device {
      var nbytes := if (dep, region) in p.edgeBytes then p.edgeBytes[(dep, region)] else m.bytes[dep];
      var e := p.transfer(home, device, nbytes).value;
      var u := MoveOk(a, e.link.value, dep, e, nbytes, until, bound);
    }
  }

  /** Busy times, free times and finish times are within the makespan, and that is within the work done. */
  ghost predicate TimesOk(p: Problem, s: SearchState, placed: set<nat>)
    requires Shaped(p, s)
  {
    var until := Makespan(s.clock.finish);
    && BusyWithin(s.clock.deviceBusy, s.clock.deviceFree, until)
    && BusyWithin(s.clock.linkBusy, s.clock.linkFree, until)
    && FinishedWithin(s.clock.finish, until)
    && 0.0 <= s.traffic.latency && until <= Sum(s.clock.deviceBusy) + s.traffic.latency
    && (forall r: nat | r < |p.regions| && r !in placed :: s.clock.finish[r] == 0.0)
    && (placed != {} ==> until >= MIN_LATENCY)
  }

  lemma {:induction false} LaterMakespan(finish: seq<real>, region: nat, end: real, bound: real)
    requires region < |finish| && finish[region] == 0.0 && 0.0 <= end <= bound && Makespan(finish) <= bound
    ensures Makespan(finish) <= Makespan(finish[region := end]) <= bound && end <= Makespan(finish[region := end])
  {
    var later := finish[region := end];
    var (m, m') := (Makespan(finish), Makespan(later));
    assert later[region] == end;
    if m > 0.0 {
      var r :| 0 <= r < |finish| && finish[r] == m;
      assert later[r] == m;
    }
    if m' > 0.0 {
      var r :| 0 <= r < |later| && later[r] == m';
      assert r != region ==> finish[r] == m';
    }
  }

  lemma {:induction false} RunTimes(p: Problem, a: Arrival, region: nat, device: nat, latency: real, placed: set<nat>, until: real, work: real)
    requires ClockShaped(p, a.clock) && region < |p.regions| && device < p.devices && latency >= MIN_LATENCY
    requires until == Makespan(a.clock.finish) <= work + a.traffic.latency
    requires ArrivalOk(a, RMax(until, a.ready), work + a.traffic.latency) && BusyWithin(a.clock.deviceBusy, a.clock.deviceFree, until)
    requires work == Sum(a.clock.deviceBusy) && region !in placed
    requires forall r: nat | r < |p.regions| && r !in placed :: a.clock.finish[r] == 0.0
    ensures var c := Run(a.clock, region, device, a.ready, latency);
            var m := Makespan(c.finish);
            && BusyWithin(c.deviceBusy, c.deviceFree, m) && BusyWithin(c.linkBusy, c.linkFree, m) && FinishedWithin(c.finish, m)
            && MIN_LATENCY <= m <= Sum(c.deviceBusy) + a.traffic.latency
            && forall r: nat | r < |p.regions| && r !in placed + {region} :: c.finish[r] == 0.0
  {
    hide Makespan, Sum;
    var c := Run(a.clock, region, device, a.ready, latency);
    var end := RMax(a.ready, a.clock.deviceFree[device]) + latency;
    SumAt(a.clock.deviceBusy, device, a.clock.deviceBusy[device] + latency);
    assert a.clock.deviceFree[device] <= until && 0.0 <= a.clock.deviceBusy[device];
    LaterMakespan(a.clock.finish, region, end, work + a.traffic.latency + latency);
    var m := Makespan(c.finish);
    LaterFinish(a.clock.finish, region, end);
    hide BusyWithin, FinishedWithin;
    LaterBusy(a.clock.linkBusy, a.clock.linkFree, RMax(until, a.ready), m);
    BusyRun(a.clock.deviceBusy, a.clock.deviceFree, until, device, end, latency, m);
  }

  lemma {:induction false} LaterFinish(finish: seq<real>, region: nat, end: real)
    requires region < |finish| && 0.0 <= end && forall i | 0 <= i < |finish| :: 0.0 <= finish[i]
    ensures FinishedWithin(finish[region := end], Makespan(finish[region := end]))
  {
  }

  lemma {:induction false} LaterBusy(busy: seq<real>, free: seq<real>, until: real, until': real)
    requires BusyWithin(busy, free, until) && until <= until'
    ensures BusyWithin(busy, free, until')
  {
  }

  lemma {:induction false} BusyRun(busy: seq<real>, free: seq<real>, until: real, i: nat, end: real, latency: real, until': real)
    requires BusyWithin(busy, free, until) && i < |busy| && 0.0 <= latency && free[i] + latency <= end <= until' && until <= until'
    ensures BusyWithin(busy[i := busy[i] + latency], free[i := end], until')
  {
  }

  lemma {:induction false} ExtendTimes(p: Problem, s: SearchState, region: nat, ci: nat, c: Candidate, placed: set<nat>)
    requires Valid(p) && Shaped(p, s) && region < |p.regions| && region !in placed
    requires TimesOk(p, s, placed) && Extend(p, s, region, ci, c).Some?
    ensures TimesOk(p, Extend(p, s, region, ci, c).value, placed + {region})
  {
    var deps := p.regions[region].deps;
    var start := Arrival(s.clock, s.traffic, 0.0, 0);
    var a := ArriveAll(p, s.memory, region, c.device, deps, start).value;
    var until := Makespan(s.clock.finish);
    hide Makespan, Sum, ConsumedAll, Produced, ArriveAll, Run;
    ArriveOk(p, s.memory, region, c.device, deps, start, until, Sum(s.clock.deviceBusy) + s.traffic.latency);
    RunTimes(p, a, region, c.device, RMax(c.latency, MIN_LATENCY), placed, until, Sum(s.clock.deviceBusy));
  }

  /** After any placements of different regions the times are consistent. */
  lemma {:induction false} TimesAreConsistent(p: Problem, steps: seq<Placing>)
    requires Valid(p) && InRange(p, steps) && OncePerRegion(steps) && PlaceAll(p, steps).Some?
    ensures TimesOk(p, PlaceAll(p, steps).value, Placed(steps))
    decreases |steps|
  {
    if steps == [] {
      var s := NewState(p);
      SumZero(s.clock.deviceBusy);
      assert Placed(steps) == {};
    } else {
      var init, last := steps[..|steps| - 1], steps[|steps| - 1];
      PlacedSnoc(steps);
      TimesAreConsistent(p, init);
      hide TimesOk, Extend, Valid;
      ExtendTimes(p, PlaceAll(p, init).value, last.region, last.cand, last.kernel, Placed(init));
    }
  }

  function InitiationInterval(c: Clock): real {
    RMax(RMax(Makespan(c.deviceBusy), Makespan(c.linkBusy)), MIN_LATENCY)
  }

  /** Requests per second: what the busiest resource allows, and what the requests in flight allow. */
  function RequestRate(c: Clock, inflight: nat): (t: real)
  {
    var saturation := 1.0 / InitiationInterval(c);
    var closed := Max(inflight, 1) as real / RMax(Makespan(c.finish), MIN_LATENCY);
    if saturation < closed then saturation else closed
  }

  lemma {:induction false} Reciprocal(x: real, y: real)
    requires 0.0 < x <= y
    ensures 0.0 < 1.0 / y <= 1.0 / x
  {
    assert 1.0 / x - 1.0 / y == (y - x) / (x * y);
  }

  /**
   After any placement of at least one region: no device or link is busy longer than the makespan, the
   makespan is at most the total of computation and transfer times, so the initiation interval is at most
   the makespan, and with one request in flight the reported throughput is one over the makespan.
   */
  lemma {:induction false} ThroughputIsOneOverMakespan(p: Problem, steps: seq<Placing>)
    requires Valid(p) && InRange(p, steps) && OncePerRegion(steps) && steps != [] && PlaceAll(p, steps).Some?
    ensures var s := PlaceAll(p, steps).value;
            var m := Makespan(s.clock.finish);
            && (forall d | 0 <= d < |s.clock.deviceBusy| :: s.clock.deviceBusy[d] <= m)
            && (forall l | 0 <= l < |s.clock.linkBusy| :: s.clock.linkBusy[l] <= m)
            && 0.0 < m <= Sum(s.clock.deviceBusy) + s.traffic.latency
            && InitiationInterval(s.clock) <= m
            && RequestRate(s.clock, 1) == 1.0 / m
  {
    TimesAreConsistent(p, steps);
    var s := PlaceAll(p, steps).value;
    assert steps[0].region in Placed(steps);
    hide PlaceAll, Valid, Sum, Placed;
    var m := Makespan(s.clock.finish);
    BusyBelow(s.clock.deviceBusy, s.clock.deviceFree, m);
    BusyBelow(s.clock.linkBusy, s.clock.linkFree, m);
    hide Makespan;
    Reciprocal(InitiationInterval(s.clock), m);
  }

  lemma {:induction false} BusyBelow(busy: seq<real>, free: seq<real>, until: real)
    requires BusyWithin(busy, free, until) && 0.0 <= until
    ensures Makespan(busy) <= until
  {
  }
}
