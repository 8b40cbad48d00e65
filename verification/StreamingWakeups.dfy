/**
 Who will come for a queued key.

 A key is queued by a thread that will then wake a worker. This module says exactly which steps leave
 a queued key with nobody on the way to it, and which steps bring somebody again.
 */
module StreamingWakeups {
  import opened Prelude
  import opened ChunkCaches
  import opened PackFiles
  import opened StreamingStores
  import opened StreamingProtocol

  /** This thread will look at the queue, or will wake one that does, or will empty it. */
  predicate Poised(sleeping: set<nat>, id: nat, th: Thread) {
    match th
    case Acquirer(a) => a.AtEnsure? || a.AtNotify?
    case Prefetcher(h) => ((h.AtKeys? || h.Unpinning?) && h.queued) || h.HintEnsure? || h.HintNotify? || h.Failing?
    case Closer(_) => false
    case Worker(k) => !k.Left? && id !in sleeping
  }

  ghost predicate PoisedAt(w: World, id: nat) {
    id in w.threads && Poised(w.sleeping, id, w.threads[id])
  }

  ghost predicate AnyPoised(w: World) {
    exists id :: PoisedAt(w, id)
  }

  /** The store is open, a key is queued, and nobody is on the way to it. */
  ghost predicate Unattended(w: World) {
    w.s.queue != [] && !w.s.closed && !AnyPoised(w)
  }

  /** An acquirer fails to start a worker while a key is queued in an open store and no other thread is poised. */
  ghost predicate Strands(w: World, act: Action) {
    && act.Ensure? && !act.ok && act.id in w.threads && w.threads[act.id].Acquirer?
    && w.s.queue != [] && !w.s.closed && forall p | p != act.id :: !PoisedAt(w, p)
  }

  /** An acquirer or a prefetcher queues a new key, or the store is closed. */
  predicate Recovers(u: Setup, w: World, act: Action) {
    act.Advance? && act.id in w.threads &&
    match w.threads[act.id]
    case Acquirer(a) => a.Asking? && a.key !in w.s.cache.slots && a.key !in w.s.waiters
    case Prefetcher(h) =>
      h.AtKeys? && h.keys != [] && |w.s.queue| < u.queueLimit && h.keys[0] !in w.s.cache.slots && !Known(w.s, h.keys[0])
    case Closer(c) => c.Closing?
    case Worker(_) => false
  }

  // ----- From an attended state -----

  /** A thread that was on its way to the queue still is, unless it notified, gave up or found the queue empty. */
  lemma {:induction false} PoisedMoves(u: Setup, w: World, act: Action)
    requires AwakeOk(w) && Enabled(u, w, act) && PoisedAt(w, Mover(act)) && !Notifier(w.threads[Mover(act)])
    ensures var (w', id) := (Next(u, w, act), Mover(act));
            || w'.s.queue == [] || w'.s.closed || PoisedAt(w', id)
            || (act.Ensure? && !act.ok && w.threads[id].Acquirer?)
  {
    hide Stored, ReadKey, AcquireStep, Touched, Unpinned, Hinted, Finished, ThreadAwake, CarriedKeys, StartFails;
  }

  lemma {:induction false} NotifyMoves(u: Setup, w: World, act: Action)
    requires Enabled(u, w, act) && Mover(act) in w.threads && Notifier(w.threads[Mover(act)])
    ensures var w' := Next(u, w, act);
            && w'.threads == w.threads[Mover(act) := w'.threads[Mover(act)]] && Mover(act) in w'.threads
            && (if act.NotifyOne? && w.sleeping != {} then w'.sleeping == w.sleeping - {act.woken} && act.woken in w.sleeping else w'.sleeping == {})
  {
    hide Stored, ReadKey, AcquireStep, WorkStep, CarriedKeys, StartFails;
  }

  /** A worker that is awake. */
  predicate AwakeWorker(w: World, id: nat) {
    id in w.threads && w.threads[id].Worker? && !w.threads[id].k.Left? && id !in w.sleeping
  }

  /** A notification finds a worker: one that is awake, or one it wakes. */
  lemma {:induction false} NotifyWakes(u: Setup, w: World, act: Action) returns (h: nat)
    requires AwakeOk(w) && Enabled(u, w, act) && !w.s.closed
    requires Mover(act) in w.threads && Notifier(w.threads[Mover(act)])
    ensures AwakeWorker(Next(u, w, act), h)
  {
    var id := Mover(act);
    assert ThreadAwake(w, w.threads[id]);
    NotifyMoves(u, w, act);
    h := FirstOf(w.handles);
    if act.NotifyOne? && w.sleeping != {} {
      h := act.woken;
    }
    assert ThreadAwake(w, w.threads[h]);
    hide Next, Enabled;
  }

  /** Whoever puts a key into an empty queue is on the way to wake a worker. */
  lemma {:induction false} QueuingIsPoised(s: Shared, th: Thread, s': Shared, th': Thread, k: Name, t: nat, sleeping: set<nat>, id: nat)
    requires Kind(s, th, s', th', k, t) && s.queue == [] && s'.queue != []
    ensures Poised(sleeping, id, th')
  {
  }

  lemma {:induction false} BystanderPoised(w: World, w': World, id: nat, p: nat)
    requires PoisedAt(w, p) && p != id
    requires id in w'.threads && w'.threads == w.threads[id := w'.threads[id]] && w'.sleeping <= w.sleeping + {id}
    ensures PoisedAt(w', p)
  {
  }

  lemma {:induction false} MoverPoised(u: Setup, w: World, act: Action)
    requires AwakeOk(w) && Enabled(u, w, act) && PoisedAt(w, Mover(act)) && !w.s.closed
    requires !(act.Ensure? && !act.ok && w.threads[Mover(act)].Acquirer?)
    requires var w' := Next(u, w, act); w'.s.queue != [] && !w'.s.closed
    ensures AnyPoised(Next(u, w, act))
  {
    var w' := Next(u, w, act);
    hide Next, Enabled, AwakeOk, Mover;
    if Notifier(w.threads[Mover(act)]) {
      var h := NotifyWakes(u, w, act);
      assert PoisedAt(w', h);
    } else {
      hide Poised;
      PoisedMoves(u, w, act);
    }
  }

  /** A queued key keeps somebody on the way to it through every step but one. */
  lemma {:induction false} StaysAttended(u: Setup, w: World, act: Action)
    requires AwakeOk(w) && Enabled(u, w, act) && !Unattended(w) && !Strands(w, act)
    requires w.s.closed ==> Next(u, w, act).s.closed
    ensures !Unattended(Next(u, w, act))
  {
    var w' := Next(u, w, act);
    var id := Mover(act);
    hide Next, Enabled, AwakeOk, Mover, Kind, Poised;
    if w'.s.queue != [] && !w'.s.closed {
      var k, t := KindOf(u, w, act);
      SleepMoves(u, w, act);
      if w.s.queue == [] {
        QueuingIsPoised(w.s, Was(w.threads, id), w'.s, w'.threads[id], k, t, w'.sleeping, id);
        assert PoisedAt(w', id);
      } else if p :| PoisedAt(w, p) && p != id {
        BystanderPoised(w, w', id, p);
      } else {
        assert PoisedAt(w, id);
        assert act.Ensure? ==> id == act.id by { MoverOfEnsure(act); }
        MoverPoised(u, w, act);
      }
    }
  }

  lemma {:induction false} MoverOfEnsure(act: Action)
    ensures act.Ensure? ==> Mover(act) == act.id
  {
  }

  lemma {:induction false} StrandingMoves(u: Setup, w: World, act: Action)
    requires Enabled(u, w, act) && act.Ensure? && !act.ok && w.threads[act.id].Acquirer?
    ensures var w' := Next(u, w, act);
            && w'.s == w.s && w'.sleeping == w.sleeping && w'.threads == w.threads[act.id := w'.threads[act.id]]
            && act.id in w'.threads && !Poised(w'.sleeping, act.id, w'.threads[act.id])
  {
    hide ThreadStep, CarriedKeys, StartFails;
  }

  lemma {:induction false} StrandingStrands(u: Setup, w: World, act: Action)
    requires Enabled(u, w, act) && Strands(w, act)
    ensures Unattended(Next(u, w, act))
  {
    hide Next, Enabled, Poised;
    StrandingMoves(u, w, act);
    var w' := Next(u, w, act);
    forall p ensures !PoisedAt(w', p) {
      assert p != act.id ==> !PoisedAt(w, p);
    }
  }

  // ----- From an unattended state -----

  /** In an unattended state no thread moves but to queue a key, to close, or without effect on the queue. */
  lemma {:induction false} IdleAcquire(s: Shared, a: Acquire, sleeping: set<nat>, id: nat)
    requires !a.AtEnsure? && !a.AtNotify?
    ensures var (s', a') := AcquireStep(s, a);
            var queues := a.Asking? && a.key !in s.cache.slots && a.key !in s.waiters;
            && (if queues then s'.queue != [] else s'.queue == s.queue) && s'.closed == s.closed
            && (Poised(sleeping, id, Acquirer(a')) <==> queues)
  {
    if a.Probing? || a.Asking? || a.Rechecking? {
      TouchHits(s.cache, a.key);
    }
    hide Touched, Unpinned;
  }

  lemma {:induction false} IdleHint(s: Shared, h: Hint, limit: nat, sleeping: set<nat>, id: nat)
    requires !Poised(sleeping, id, Prefetcher(h))
    ensures var (s', h') := HintStep(s, h, limit);
            var queues := h.AtKeys? && h.keys != [] && |s.queue| < limit && h.keys[0] !in s.cache.slots && !Known(s, h.keys[0]);
            && (if queues then s'.queue != [] else s'.queue == s.queue) && s'.closed == s.closed
            && (Poised(sleeping, id, Prefetcher(h')) <==> queues)
  {
    if h.AtKeys? && h.keys != [] {
      TouchHits(s.cache, h.keys[0]);
    }
    hide Touched, Unpinned, Known;
  }

  lemma {:induction false} IdleAdvance(u: Setup, w: World, id: nat)
    requires AwakeOk(w) && CloseOk(w) && Unattended(w) && id in w.threads && Ready(w, id)
    ensures var w' := Next(u, w, Advance(id));
            && w'.threads == w.threads[id := w'.threads[id]] && id in w'.threads
            && w'.s.queue != [] && w'.sleeping == w.sleeping
            && (w'.s.closed || Poised(w'.sleeping, id, w'.threads[id]) <==> Recovers(u, w, Advance(id)))
  {
    assert !PoisedAt(w, id);
    assert ThreadAwake(w, w.threads[id]) && DrainerOk(w, w.threads[id]);
    hide ThreadAwake, AcquireStep, HintStep, CarriedKeys, AwakeOk, CloseOk, Known, PoisedAt;
    match w.threads[id] {
      case Acquirer(a) => IdleAcquire(w.s, a, w.sleeping, id);
      case Prefetcher(h) => IdleHint(w.s, h, u.queueLimit, w.sleeping, id);
      case Closer(c) => IdleClose(w, c);
      case Worker(k) =>
    }
  }

  lemma {:induction false} IdleClose(w: World, c: Close)
    requires ThreadAwake(w, Closer(c)) && DrainerOk(w, Closer(c)) && !w.s.closed
    ensures c.Closing? || c.CloseOver?
  {
  }

  lemma {:induction false} IdleOther(u: Setup, w: World, act: Action)
    requires Unattended(w) && Enabled(u, w, act) && !act.Advance?
    ensures var (w', id) := (Next(u, w, act), Mover(act));
            && w'.threads == w.threads[id := w'.threads[id]] && id in w'.threads
            && w'.s.queue == w.s.queue && w'.s.closed == w.s.closed && w'.sleeping == w.sleeping
            && !Poised(w'.sleeping, id, w'.threads[id])
  {
    hide ThreadStep, CarriedKeys, StartFails;
    assert !PoisedAt(w, if act.Spawn? then act.parent else Mover(act));
  }

  lemma {:induction false} NobodyElse(w: World, w': World, id: nat)
    requires !AnyPoised(w) && id in w'.threads && w'.threads == w.threads[id := w'.threads[id]] && w'.sleeping == w.sleeping
    requires !Poised(w'.sleeping, id, w'.threads[id])
    ensures !AnyPoised(w')
  {
    hide Poised;
    forall p ensures !PoisedAt(w', p) {
      assert !PoisedAt(w, p);
    }
  }

  /** What ends being unattended, exactly. */
  lemma {:induction false} UnattendedStep(u: Setup, w: World, act: Action)
    requires AwakeOk(w) && CloseOk(w) && Enabled(u, w, act) && Unattended(w)
    ensures Unattended(Next(u, w, act)) <==> !Recovers(u, w, act)
  {
    var w' := Next(u, w, act);
    var id := Mover(act);
    if act.Advance? {
      IdleAdvance(u, w, act.id);
      assert id == act.id;
    } else {
      IdleOther(u, w, act);
      assert !Recovers(u, w, act);
    }
    hide Next, Enabled, AwakeOk, CloseOk, Mover, Poised, Recovers;
    if Poised(w'.sleeping, id, w'.threads[id]) {
      assert PoisedAt(w', id);
    } else {
      NobodyElse(w, w', id);
    }
  }

  /**
   Exactly how a queued key comes to have nobody on the way to it, and how it ceases to: an acquirer fails to
   start a worker while no other thread is poised; somebody queues another key, or the store is closed.
   */
  lemma {:induction false} UnattendedExactly(u: Setup, w: World, act: Action)
    requires Inv(u, w) && Enabled(u, w, act)
    ensures Unattended(Next(u, w, act)) <==> if Unattended(w) then !Recovers(u, w, act) else Strands(w, act)
  {
    hide *;
    assert AwakeOk(w) && CloseOk(w) by { InvWakes(u, w); }
    CloseFlags(u, w, act);
    if Unattended(w) {
      UnattendedStep(u, w, act);
    } else if Strands(w, act) {
      StrandingStrands(u, w, act);
    } else {
      StaysAttended(u, w, act);
    }
  }

  lemma {:induction false} InvWakes(u: Setup, w: World)
    requires Inv(u, w)
    ensures AwakeOk(w) && CloseOk(w)
  {
    hide AwakeOk, CloseOk;
  }

  // ----- Over runs -----

  ghost function At(u: Setup, acts: seq<Action>, i: nat): World
    requires i <= |acts|
  {
    Run(u, Initial(), acts[..i])
  }

  ghost predicate StrandsAt(u: Setup, acts: seq<Action>, i: nat)
    requires i < |acts|
  {
    Enabled(u, At(u, acts, i), acts[i]) && Strands(At(u, acts, i), acts[i])
  }

  ghost predicate RecoversAt(u: Setup, acts: seq<Action>, i: nat)
    requires i < |acts|
  {
    Enabled(u, At(u, acts, i), acts[i]) && Recovers(u, At(u, acts, i), acts[i])
  }

  /** Step `i` left a queued key unattended, and no step since has brought anybody to it. */
  ghost predicate StrandedSince(u: Setup, acts: seq<Action>, i: nat) {
    i < |acts| && StrandsAt(u, acts, i) && forall j: nat | i < j < |acts| :: !RecoversAt(u, acts, j)
  }

  ghost predicate Stranded(u: Setup, acts: seq<Action>) {
    exists i: nat :: StrandedSince(u, acts, i)
  }

  lemma {:induction false} AtShorter(u: Setup, acts: seq<Action>, n: nat, i: nat)
    requires i <= n <= |acts|
    ensures At(u, acts[..n], i) == At(u, acts, i)
  {
    assert acts[..n][..i] == acts[..i];
  }

  lemma {:induction false} RunStep(u: Setup, acts: seq<Action>)
    requires acts != []
    ensures var before := At(u, acts, |acts| - 1);
            Run(u, Initial(), acts) == if Enabled(u, before, acts[|acts| - 1]) then Next(u, before, acts[|acts| - 1]) else before
  {
    hide Next, Enabled;
  }

  lemma {:induction false} SamePast(u: Setup, acts: seq<Action>, n: nat, i: nat)
    requires i < n <= |acts|
    ensures StrandsAt(u, acts[..n], i) == StrandsAt(u, acts, i) && RecoversAt(u, acts[..n], i) == RecoversAt(u, acts, i)
  {
    hide Enabled, Strands, Recovers, At;
    AtShorter(u, acts, n, i);
  }

  lemma {:induction false} StillStranded(u: Setup, acts: seq<Action>, i: nat)
    requires acts != [] && i < |acts| - 1
    ensures StrandedSince(u, acts, i) <==> StrandedSince(u, acts[..|acts| - 1], i) && !RecoversAt(u, acts, |acts| - 1)
  {
    hide StrandsAt, RecoversAt;
    var n := |acts| - 1;
    forall j: nat | j < n ensures StrandsAt(u, acts[..n], j) == StrandsAt(u, acts, j) && RecoversAt(u, acts[..n], j) == RecoversAt(u, acts, j) {
      SamePast(u, acts, n, j);
    }
  }

  /** Being stranded goes on, begins and ends with the last step as it should. */
  lemma {:induction false} StrandedSnoc(u: Setup, acts: seq<Action>)
    requires acts != []
    ensures var n := |acts| - 1;
            Stranded(u, acts) <==> StrandsAt(u, acts, n) || (Stranded(u, acts[..n]) && !RecoversAt(u, acts, n))
  {
    hide StrandsAt, RecoversAt;
    var n := |acts| - 1;
    assert StrandedSince(u, acts, n) <==> StrandsAt(u, acts, n);
    hide StrandedSince;
    if i: nat :| StrandedSince(u, acts, i) {
      StrandedInside(u, acts, i);
      if i < n {
        StillStranded(u, acts, i);
      }
    }
    if i: nat :| StrandedSince(u, acts[..n], i) {
      StrandedInside(u, acts[..n], i);
      StillStranded(u, acts, i);
    }
  }

  lemma {:induction false} StrandedInside(u: Setup, acts: seq<Action>, i: nat)
    requires StrandedSince(u, acts, i)
    ensures i < |acts|
  {
  }

  /** After every run: a queued key is unattended iff some step stranded it and no step since recovered it. */
  lemma {:induction false} UnattendedIffStranded(u: Setup, acts: seq<Action>)
    ensures Unattended(Run(u, Initial(), acts)) <==> Stranded(u, acts)
    decreases |acts|
  {
    hide Unattended, Enabled, Next, Run, Strands, Recovers;
    if acts == [] {
      NothingStranded(u);
    } else {
      var n := |acts| - 1;
      var w, act := At(u, acts, n), acts[n];
      UnattendedIffStranded(u, acts[..n]);
      StrandedSnoc(u, acts);
      RunStep(u, acts);
      hide Stranded;
      if Enabled(u, w, act) {
        EveryRunKeepsInv(u, acts[..n]);
        UnattendedExactly(u, w, act);
        StrandingIsAttended(u, w, act);
      }
    }
  }

  lemma {:induction false} NothingStranded(u: Setup)
    ensures !Unattended(Run(u, Initial(), [])) && !Stranded(u, [])
  {
  }

  /** Who is about to fail to start a worker is still poised, so nothing is stranded twice. */
  lemma {:induction false} StrandingIsAttended(u: Setup, w: World, act: Action)
    requires Enabled(u, w, act)
    ensures Strands(w, act) ==> !Unattended(w)
  {
    hide StartFails;
    if Strands(w, act) {
      assert PoisedAt(w, act.id);
    }
  }
}
