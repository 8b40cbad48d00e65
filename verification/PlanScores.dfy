/** The scores that rank partial and complete placements; lower is better. */
module PlanScores {
  import opened Prelude
  import opened PlacementStates
  import opened PlacementAccounting

  datatype Objective = Latency | Throughput | Memory | Balanced | Weighted

  datatype Config = Config(
    objective: Objective, weightLatency: real, weightThroughput: real, weightMemory: real,
    beamWidth: nat, localSearchIters: nat)

  /** What one device adds: its peak as a share of its capacity, or one if it is used and has none. */
  function DevicePressure(peak: nat, capacity: nat): real {
    if capacity > 0 then peak as real / capacity as real else if peak > 0 then 1.0 else 0.0
  }

  function PressureUpTo(peak: seq<nat>, capacities: seq<nat>, n: nat): real
    requires n <= |peak|
  {
    if n == 0 then 0.0 else PressureUpTo(peak, capacities, n - 1) + DevicePressure(peak[n - 1], CapacityAt(capacities, n - 1))
  }

  function Pressure(peak: seq<nat>, capacities: seq<nat>): real {
    PressureUpTo(peak, capacities, |peak|)
  }

  method MemoryPressure(peak: seq<nat>, capacities: seq<nat>) returns (pressure: real)
    ensures pressure == Pressure(peak, capacities)
  {
    pressure := 0.0;
    for i := 0 to |peak|
      invariant pressure == PressureUpTo(peak, capacities, i)
    {
      var capacity := CapacityAt(capacities, i);
      if capacity > 0 {
        pressure := pressure + peak[i] as real / capacity as real;
      } else if peak[i] > 0 {
        pressure := pressure + 1.0;
      }
    }
  }

  lemma {:induction false} DevicePressureGrows(peak: nat, peak': nat, capacity: nat)
    requires peak <= peak'
    ensures 0.0 <= DevicePressure(peak, capacity) <= DevicePressure(peak', capacity)
    ensures capacity > 0 && peak <= capacity ==> DevicePressure(peak, capacity) <= 1.0
  {
  }

  /** Pressure never falls when peaks rise, and devices within their capacity add at most one each. */
  lemma {:induction false} PressureGrows(peak: seq<nat>, peak': seq<nat>, capacities: seq<nat>, n: nat)
    requires |peak| == |peak'| && n <= |peak| && forall i | 0 <= i < |peak| :: peak[i] <= peak'[i]
    ensures 0.0 <= PressureUpTo(peak, capacities, n) <= PressureUpTo(peak', capacities, n)
    ensures (forall i | 0 <= i < n :: CapacityAt(capacities, i) > 0 ==> peak[i] <= capacities[i]) ==>
      PressureUpTo(peak, capacities, n) <= n as real
  {
    if n > 0 {
      PressureGrows(peak, peak', capacities, n - 1);
      DevicePressureGrows(peak[n - 1], peak'[n - 1], CapacityAt(capacities, n - 1));
      hide DevicePressure;
      if CapacityAt(capacities, n - 1) == 0 {
        UnboundedPressure(peak[n - 1]);
      }
    }
  }

  lemma {:induction false} UnboundedPressure(peak: nat)
    ensures DevicePressure(peak, 0) <= 1.0
  {
  }

  lemma {:induction false} TotalGrows(peak: seq<nat>, peak': seq<nat>)
    requires |peak| == |peak'| && forall i | 0 <= i < |peak| :: peak[i] <= peak'[i]
    ensures Total(peak) <= Total(peak')
  {
    if peak != [] {
      TotalGrows(peak[..|peak| - 1], peak'[..|peak'| - 1]);
    }
  }

  /** The score of the beam and of local search. */
  function AnalyticScore(cfg: Config, capacities: seq<nat>, s: SearchState): real {
    Score(cfg, Makespan(s.clock.finish), InitiationInterval(s.clock), Total(s.memory.peak), Pressure(s.memory.peak, capacities))
  }

  function Score(cfg: Config, latency: real, cycle: real, peak: nat, pressure: real): real {
    match cfg.objective
    case Latency => latency + 0.000001 * cycle + 0.000000001 * pressure
    case Throughput => cycle + 0.001 * latency + 0.000000001 * pressure
    case Memory => peak as real + 0.001 * pressure + 0.000000001 * latency
    case Balanced => latency + cycle + 0.05 * pressure
    case Weighted => cfg.weightLatency * latency + cfg.weightThroughput * cycle + cfg.weightMemory * pressure
  }

  /** The score that compares finalists across subsets. */
  function FinalistScore(cfg: Config, capacities: seq<nat>, latency: real, throughput: real, peak: seq<nat>): real {
    var interval := 1.0 / RMax(throughput, MIN_LATENCY);
    match cfg.objective
    case Latency => latency
    case Throughput => interval
    case Memory => Total(peak) as real + 0.000000001 * latency
    case Balanced => latency + interval + 0.05 * Pressure(peak, capacities)
    case Weighted => cfg.weightLatency * latency + cfg.weightThroughput * interval + cfg.weightMemory * Pressure(peak, capacities)
  }

  lemma {:induction false} Scaled(w: real, a: real, b: real)
    requires 0.0 <= w && a <= b
    ensures w * a <= w * b
  {
  }

  lemma {:induction false} ScoreGrows(cfg: Config, latency: real, cycle: real, peak: nat, pressure: real, latency': real, cycle': real, peak': nat, pressure': real)
    requires 0.0 <= cfg.weightLatency && 0.0 <= cfg.weightThroughput && 0.0 <= cfg.weightMemory
    requires latency <= latency' && cycle <= cycle' && peak <= peak' && pressure <= pressure'
    ensures Score(cfg, latency, cycle, peak, pressure) <= Score(cfg, latency', cycle', peak', pressure')
  {
    Scaled(cfg.weightLatency, latency, latency');
    Scaled(cfg.weightThroughput, cycle, cycle');
    Scaled(cfg.weightMemory, pressure, pressure');
  }

  /** One state is nowhere later, nowhere busier and nowhere fuller than another. */
  ghost predicate NoWorse(s: SearchState, s': SearchState) {
    && |s.clock.finish| == |s'.clock.finish| && (forall i | 0 <= i < |s.clock.finish| :: s.clock.finish[i] <= s'.clock.finish[i])
    && |s.clock.deviceBusy| == |s'.clock.deviceBusy| && (forall i | 0 <= i < |s.clock.deviceBusy| :: s.clock.deviceBusy[i] <= s'.clock.deviceBusy[i])
    && |s.clock.linkBusy| <= |s'.clock.linkBusy| && (forall i | 0 <= i < |s.clock.linkBusy| :: s.clock.linkBusy[i] <= s'.clock.linkBusy[i])
    && |s.memory.peak| == |s'.memory.peak| && (forall i | 0 <= i < |s.memory.peak| :: s.memory.peak[i] <= s'.memory.peak[i])
  }

  lemma {:induction false} MakespanGrows(a: seq<real>, b: seq<real>)
    requires |a| <= |b| && forall i | 0 <= i < |a| :: a[i] <= b[i]
    ensures Makespan(a) <= Makespan(b)
  {
    var m := Makespan(a);
    if m > 0.0 {
      var r :| 0 <= r < |a| && a[r] == m;
      assert b[r] <= Makespan(b);
    }
  }

  /** With weights that are not negative, a state that is no worse in any respect never scores higher. */
  lemma {:induction false} ScoreIsMonotone(cfg: Config, capacities: seq<nat>, s: SearchState, s': SearchState)
    requires 0.0 <= cfg.weightLatency && 0.0 <= cfg.weightThroughput && 0.0 <= cfg.weightMemory
    requires NoWorse(s, s')
    ensures AnalyticScore(cfg, capacities, s) <= AnalyticScore(cfg, capacities, s')
  {
    hide Makespan, Score, PressureUpTo, Total;
    MakespanGrows(s.clock.finish, s'.clock.finish);
    MakespanGrows(s.clock.deviceBusy, s'.clock.deviceBusy);
    MakespanGrows(s.clock.linkBusy, s'.clock.linkBusy);
    TotalGrows(s.memory.peak, s'.memory.peak);
    PressureGrows(s.memory.peak, s'.memory.peak, capacities, |s.memory.peak|);
    ScoreGrows(cfg, Makespan(s.clock.finish), InitiationInterval(s.clock), Total(s.memory.peak), Pressure(s.memory.peak, capacities),
               Makespan(s'.clock.finish), InitiationInterval(s'.clock), Total(s'.memory.peak), Pressure(s'.memory.peak, capacities));
  }

  lemma {:induction false} TwiceInverted(m: real)
    requires 0.0 < m <= 1000000000000.0
    ensures 1.0 / m >= MIN_LATENCY && 1.0 / (1.0 / m) == m
  {
    assert m * MIN_LATENCY <= 1.0;
    assert 1.0 / m - MIN_LATENCY == (1.0 - m * MIN_LATENCY) / m;
  }

  /**
   With one request in flight, finalists ranked by throughput are ranked by latency: the two scores of a
   placement are the same number, its makespan (up to the 10^12 seconds at which throughput is cut off).
   */
  lemma {:induction false} OneRequestRanksByLatency(p: Problem, steps: seq<Placing>, cfg: Config)
    requires Valid(p) && InRange(p, steps) && OncePerRegion(steps) && steps != [] && PlaceAll(p, steps).Some?
    requires Makespan(PlaceAll(p, steps).value.clock.finish) <= 1000000000000.0
    ensures var s := PlaceAll(p, steps).value;
            var m := Makespan(s.clock.finish);
            var rate := RequestRate(s.clock, 1);
            && FinalistScore(cfg.(objective := Throughput), p.capacities, m, rate, s.memory.peak) == m
            && FinalistScore(cfg.(objective := Latency), p.capacities, m, rate, s.memory.peak) == m
  {
    ThroughputIsOneOverMakespan(p, steps);
    hide PlaceAll, Makespan, RequestRate, Valid, Sum, InitiationInterval;
    TwiceInverted(Makespan(PlaceAll(p, steps).value.clock.finish));
  }
}
