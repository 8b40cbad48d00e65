/**
 Pin counts of cached chunks.

 An insertion starts with no pins even if the entry it replaces is held. This module says exactly which steps
 make the pin count of an entry differ from the number of its holders, and which steps end that.
 */
module StreamingPins {
  import opened Prelude
  import opened ChunkCaches
  import opened PackFiles
  import opened StreamingStores
  import opened StreamingProtocol
  import opened StreamingWakeups
  import opened StreamingGuarantees

  /** The pin count of the key is the number of threads that hold its entry. */
  ghost predicate Exact(w: World, k: Name) {
    PinCount(w.s.cache.slots, k) == |Pinners(w.threads, k)|
  }

  /** A worker stores the key over an entry that is pinned. */
  predicate Overwrites(w: World, act: Action, k: Name) {
    Storing(Was(w.threads, Mover(act)), k) && PinCount(w.s.cache.slots, k) > 0
  }

  /** The only thread that holds the entry lets go of it. */
  ghost predicate LastRelease(w: World, act: Action, k: Name) {
    Pin(Was(w.threads, Mover(act))) == Some(k) && |Pinners(w.threads, k)| == 1
  }

  // ----- One step -----

  /** Who holds an entry can only let go of it. */
  lemma {:induction false} HolderLetsGo(u: Setup, w: World, act: Action)
    requires Enabled(u, w, act) && Pin(Was(w.threads, Mover(act))).Some?
    ensures Mover(act) in Next(u, w, act).threads && Pin(Next(u, w, act).threads[Mover(act)]) == None
  {
    hide Stored, ReadKey, WorkStep, CloseStep, StartFails, Unpinned;
  }

  lemma {:induction false} PinsMove(u: Setup, w: World, act: Action, k: Name)
    requires CacheOk(w.s.cache) && Enabled(u, w, act)
    ensures var (w', was) := (Next(u, w, act), Was(w.threads, Mover(act)));
            && Mover(act) in w'.threads
            && var now := w'.threads[Mover(act)];
               && (Pin(was).Some? ==> Pin(now) == None) && (Storing(was, k) ==> Pin(was) == Pin(now) == None)
               && PinCount(w'.s.cache.slots, k)
                  == (if Storing(was, k) then 0
                      else SatSub(PinCount(w.s.cache.slots, k), Bit(Pin(was) == Some(k))) + Bit(Pin(now) == Some(k)))
               && |Pinners(w'.threads, k)| == |Pinners(w.threads, k)| - Bit(Pin(was) == Some(k)) + Bit(Pin(now) == Some(k))
  {
    var _, _ := KindOf(u, w, act);
    CacheKindOf(u, w, act);
    var (w', id) := (Next(u, w, act), Mover(act));
    hide Next, Enabled, Mover, Kind, CacheKind, Pinners, CacheOk, Storing, PinCount, Pin;
    if Pin(Was(w.threads, id)).Some? {
      HolderLetsGo(u, w, act);
    }
    CountMoved(u, w.s, Was(w.threads, id), w'.s, w'.threads[id], k);
    PinnersMoved(w.threads, id, w'.threads[id], k);
  }

  /**
   Exactly how the pin count of a key comes to differ from the number of its holders, and how it ceases to: a
   worker stores the key over a pinned entry; the last holder lets go.
   */
  lemma {:induction false} PinsBreakExactly(u: Setup, w: World, act: Action, k: Name)
    requires Inv(u, w) && Enabled(u, w, act)
    ensures Exact(Next(u, w, act), k) <==> if Exact(w, k) then !Overwrites(w, act, k) else LastRelease(w, act, k)
  {
    assert PinCount(w.s.cache.slots, k) <= |Pinners(w.threads, k)|;
    hide *;
    assert CacheOk(w.s.cache) by { InvCache(u, w); }
    PinsMove(u, w, act, k);
    PinArithmetic(w, Next(u, w, act), act, k);
  }

  lemma {:induction false} InvCache(u: Setup, w: World)
    requires Inv(u, w)
    ensures CacheOk(w.s.cache)
  {
    hide CacheOk;
  }

  lemma {:induction false} PinArithmetic(w: World, w': World, act: Action, k: Name)
    requires Mover(act) in w'.threads && PinCount(w.s.cache.slots, k) <= |Pinners(w.threads, k)|
    requires var (was, now) := (Was(w.threads, Mover(act)), w'.threads[Mover(act)]);
             && (Pin(was).Some? ==> Pin(now) == None) && (Storing(was, k) ==> Pin(was) == Pin(now) == None)
             && PinCount(w'.s.cache.slots, k)
                == (if Storing(was, k) then 0
                    else SatSub(PinCount(w.s.cache.slots, k), Bit(Pin(was) == Some(k))) + Bit(Pin(now) == Some(k)))
             && |Pinners(w'.threads, k)| == |Pinners(w.threads, k)| - Bit(Pin(was) == Some(k)) + Bit(Pin(now) == Some(k))
    ensures Exact(w', k) <==> if Exact(w, k) then !Overwrites(w, act, k) else LastRelease(w, act, k)
  {
    hide PinCount, Pinners, Pin, Storing, Mover, Was;
  }

  // ----- Runs -----

  ghost predicate OverwritesAt(u: Setup, acts: seq<Action>, k: Name, i: nat)
    requires i < |acts|
  {
    Enabled(u, At(u, acts, i), acts[i]) && Overwrites(At(u, acts, i), acts[i], k)
  }

  ghost predicate LastReleaseAt(u: Setup, acts: seq<Action>, k: Name, i: nat)
    requires i < |acts|
  {
    Enabled(u, At(u, acts, i), acts[i]) && LastRelease(At(u, acts, i), acts[i], k)
  }

  /** Step `i` stored over a pinned entry, and its holders have not all let go since. */
  ghost predicate OverwrittenSince(u: Setup, acts: seq<Action>, k: Name, i: nat) {
    i < |acts| && OverwritesAt(u, acts, k, i) && forall j: nat | i < j < |acts| :: !LastReleaseAt(u, acts, k, j)
  }

  ghost predicate Overwritten(u: Setup, acts: seq<Action>, k: Name) {
    exists i: nat :: OverwrittenSince(u, acts, k, i)
  }

  lemma {:induction false} SamePins(u: Setup, acts: seq<Action>, k: Name, n: nat, i: nat)
    requires i < n <= |acts|
    ensures OverwritesAt(u, acts[..n], k, i) == OverwritesAt(u, acts, k, i)
    ensures LastReleaseAt(u, acts[..n], k, i) == LastReleaseAt(u, acts, k, i)
  {
    hide Enabled, Overwrites, LastRelease, At;
    AtShorter(u, acts, n, i);
  }

  lemma {:induction false} StillOverwritten(u: Setup, acts: seq<Action>, k: Name, i: nat)
    requires acts != [] && i < |acts| - 1
    ensures OverwrittenSince(u, acts, k, i) <==>
            OverwrittenSince(u, acts[..|acts| - 1], k, i) && !LastReleaseAt(u, acts, k, |acts| - 1)
  {
    hide OverwritesAt, LastReleaseAt;
    var n := |acts| - 1;
    forall j: nat | j < n
      ensures OverwritesAt(u, acts[..n], k, j) == OverwritesAt(u, acts, k, j) && LastReleaseAt(u, acts[..n], k, j) == LastReleaseAt(u, acts, k, j)
    {
      SamePins(u, acts, k, n, j);
    }
  }

  lemma {:induction false} OverwrittenInside(u: Setup, acts: seq<Action>, k: Name, i: nat)
    requires OverwrittenSince(u, acts, k, i)
    ensures i < |acts|
  {
  }

  lemma {:induction false} OverwrittenSnoc(u: Setup, acts: seq<Action>, k: Name)
    requires acts != []
    ensures var n := |acts| - 1;
            Overwritten(u, acts, k) <==>
            OverwritesAt(u, acts, k, n) || (Overwritten(u, acts[..n], k) && !LastReleaseAt(u, acts, k, n))
  {
    hide OverwritesAt, LastReleaseAt;
    var n := |acts| - 1;
    assert OverwrittenSince(u, acts, k, n) <==> OverwritesAt(u, acts, k, n);
    hide OverwrittenSince;
    if i: nat :| OverwrittenSince(u, acts, k, i) {
      OverwrittenInside(u, acts, k, i);
      if i < n {
        StillOverwritten(u, acts, k, i);
      }
    }
    if i: nat :| OverwrittenSince(u, acts[..n], k, i) {
      OverwrittenInside(u, acts[..n], k, i);
      StillOverwritten(u, acts, k, i);
    }
  }

  /** A worker that stores holds nothing, so what it overwrites is not released by the same step. */
  lemma {:induction false} StoringHoldsNothing(w: World, act: Action, k: Name)
    ensures Overwrites(w, act, k) ==> !LastRelease(w, act, k)
  {
    hide Pinners;
  }

  lemma {:induction false} NothingOverwritten(u: Setup, k: Name)
    ensures Exact(Run(u, Initial(), []), k) && !Overwritten(u, [], k)
  {
    assert Pinners(map[], k) == {};
  }

  lemma {:induction false} ExactIffNotOverwritten(u: Setup, acts: seq<Action>, k: Name)
    ensures Exact(Run(u, Initial(), acts), k) <==> !Overwritten(u, acts, k)
    decreases |acts|
  {
    hide Exact, Enabled, Next, Run, Overwrites, LastRelease;
    if acts == [] {
      NothingOverwritten(u, k);
    } else {
      var n := |acts| - 1;
      var w, act := At(u, acts, n), acts[n];
      ExactIffNotOverwritten(u, acts[..n], k);
      OverwrittenSnoc(u, acts, k);
      RunStep(u, acts);
      hide Overwritten;
      if Enabled(u, w, act) {
        EveryRunKeepsInv(u, acts[..n]);
        PinsBreakExactly(u, w, act, k);
        StoringHoldsNothing(w, act, k);
      }
    }
  }

  /**
   After every run an entry's pin count is at most the number of callers that hold it, and it is exactly that number
   iff no worker has stored the key over a pinned entry whose holders have not all let go since. If
   it is exact, what callers hold is cached: it was neither evicted nor removed.
   */
  lemma {:induction false} PinsAreHolders(u: Setup, acts: seq<Action>, k: Name)
    ensures var w := Run(u, Initial(), acts);
            && PinCount(w.s.cache.slots, k) <= |Pinners(w.threads, k)|
            && (PinCount(w.s.cache.slots, k) == |Pinners(w.threads, k)| <==> !Overwritten(u, acts, k))
            && WellFormed(w.s.cache)
            && (!Overwritten(u, acts, k) ==> forall id | id in w.threads && Pin(w.threads[id]) == Some(k) :: k in w.s.cache.slots)
  {
    EveryRunKeepsInv(u, acts);
    ExactIffNotOverwritten(u, acts, k);
    var w := Run(u, Initial(), acts);
    hide Run, AwakeOk, Truth, Cover, CloseOk, Placed, WellFormed, Overwritten;
    if Exact(w, k) {
      forall id | id in w.threads && Pin(w.threads[id]) == Some(k) ensures k in w.s.cache.slots {
        assert id in Pinners(w.threads, k);
      }
    }
  }

  // ----- Single flight protects pins -----

  lemma {:induction false} FlightStoresAnew(w: World, act: Action, k: Name)
    requires SingleFlight(w.s, w.threads)
    ensures !Overwrites(w, act, k)
  {
    var id := Mover(act);
    hide Mover;
    if id in w.threads {
      assert CarrierOk(w.s, w.threads[id]);
    }
  }

  /** As long as the store was not emptied while a worker was busy, every pin count is the number of holders. */
  lemma {:induction false} FlightKeepsPins(u: Setup, acts: seq<Action>, k: Name)
    requires forall j: nat | j < |acts| :: !TearsAt(u, acts, j)
    ensures Exact(Run(u, Initial(), acts), k)
  {
    ExactIffNotOverwritten(u, acts, k);
    hide Exact, Run, TearsAt;
    forall i: nat ensures !OverwrittenSince(u, acts, k, i) {
      if i < |acts| {
        NeverOverwrites(u, acts, k, i);
      }
    }
  }

  lemma {:induction false} NeverOverwrites(u: Setup, acts: seq<Action>, k: Name, i: nat)
    requires i < |acts| && forall j: nat | j < |acts| :: !TearsAt(u, acts, j)
    ensures !OverwritesAt(u, acts, k, i)
  {
    hide TearsAt, Run, Enabled, SingleFlight, Overwrites;
    forall j: nat | j < i ensures !TearsAt(u, acts[..i], j) {
      SameTears(u, acts, i, j);
    }
    StartsInFlight(u, acts[..i]);
    FlightSince(u, acts[..i], 0);
    AtShorter(u, acts, i, i);
    FlightStoresAnew(At(u, acts, i), acts[i], k);
  }
}
