/**
 A helped sleeper can be served.

 From every reachable state in which a sleeping acquirer has a helper, some continuation of the threads that
 exist, and of workers they start, marks the sleeper's ticket done. A sleeper without a helper is not
 served before another key is queued or the store is closed.
 */
module StreamingProgress {
  import opened Prelude
  import opened ChunkCaches
  import opened PackFiles
  import opened StreamingStores
  import opened StreamingProtocol
  import opened StreamingWakeups
  import opened StreamingGuarantees

  /** No new call begins and no start of a worker fails. */
  ghost predicate Steady(acts: seq<Action>) {
    forall i | 0 <= i < |acts| :: !acts[i].Begin? && (acts[i].Ensure? ==> acts[i].ok)
  }

  ghost predicate LeadsBy(u: Setup, w: World, more: seq<Action>, t: nat) {
    Steady(more) && t in Run(u, w, more).s.done
  }

  /** Some steady continuation marks the ticket done. */
  ghost predicate Leads(u: Setup, w: World, t: nat) {
    exists more :: LeadsBy(u, w, more, t)
  }

  lemma {:induction false} LeadsNow(u: Setup, w: World, t: nat)
    requires t in w.s.done
    ensures Leads(u, w, t)
  {
    assert LeadsBy(u, w, [], t);
  }

  lemma {:induction false} LeadsOn(u: Setup, w: World, act: Action, t: nat)
    requires Enabled(u, w, act) && !act.Begin? && (act.Ensure? ==> act.ok) && Leads(u, Next(u, w, act), t)
    ensures Leads(u, w, t)
  {
    hide Enabled, Next, Run;
    var more :| LeadsBy(u, Next(u, w, act), more, t);
    RunOne(u, w, act);
    RunAppend(u, w, [act], more);
    assert LeadsBy(u, w, [act] + more, t);
  }

  // ----- A ticket in hand -----

  lemma {:induction false} HolderMoves(u: Setup, w: World, id: nat, t: nat) returns (act: Action)
    requires id in w.threads && t in InHand(w.threads[id])
    ensures Enabled(u, w, act) && !act.Begin? && !act.Ensure?
    ensures var w' := Next(u, w, act);
            t in w'.s.done || (w.threads[id].Closer? && w.threads[id].c.CloseNotify? && id in w'.threads
                               && w'.threads[id] == Closer(CloseSignal(w.threads[id].c.held)))
  {
    hide StartFails, CarriedKeys, AcquireStep, HintStep;
    act := if t in Held(w.threads[id]) then Mark(id, t) else Advance(id);
  }

  lemma {:induction false} HolderServes(u: Setup, w: World, id: nat, t: nat)
    requires id in w.threads && t in InHand(w.threads[id])
    ensures Leads(u, w, t)
  {
    hide Enabled, Next, Leads;
    var act := HolderMoves(u, w, id, t);
    var w' := Next(u, w, act);
    if t !in w'.s.done {
      var act' := HolderMoves(u, w', id, t);
      LeadsNow(u, Next(u, w', act'), t);
      LeadsOn(u, w', act', t);
    } else {
      LeadsNow(u, w', t);
    }
    LeadsOn(u, w, act, t);
  }

  // ----- A worker at work -----

  /** How many sections the worker has left until it looks at the queue again. */
  function Rest(k: Work): nat {
    match k
    case Reading(_) => 5
    case Caching(_, _) => 4
    case ClearingError(_) => 3
    case RecordingError(_, _) => 3
    case Finishing(_) => 2
    case Signalling(_) => 1
    case _ => 0
  }

  /** The ticket is registered for a key that this worker has, or that is `i` places from the front of the queue. */
  ghost predicate Ahead(w: World, id: nat, k: Name, t: nat, i: nat) {
    && AwakeWorker(w, id) && Registered(w.s, k, t)
    && (Carried(w.threads[id]) == Some(k) || (i < |w.s.queue| && w.s.queue[i] == k))
  }

  ghost function Distance(w: World, id: nat, k: Name, i: nat): nat
    requires AwakeWorker(w, id)
  {
    if Carried(w.threads[id]) == Some(k) then 0 else i + 1
  }

  /** One section brings a worker nearer to the key, or puts the ticket into its hands. */
  lemma {:induction false} WorkerNears(u: Setup, w: World, id: nat, k: Name, t: nat, i: nat) returns (i': nat)
    requires Ahead(w, id, k, t, i)
    ensures Enabled(u, w, Advance(id))
    ensures var w' := Next(u, w, Advance(id));
            || (id in w'.threads && t in InHand(w'.threads[id]))
            || (&& Ahead(w', id, k, t, i')
                && (|| Distance(w', id, k, i') < Distance(w, id, k, i)
                    || (Distance(w', id, k, i') == Distance(w, id, k, i) && Rest(w'.threads[id].k) < Rest(w.threads[id].k))))
  {
    hide Stored, ReadKey, CarriedKeys, StartFails, AcquireStep, HintStep, CloseStep;
    i' := if w.threads[id] == Worker(Looking) && i > 0 then i - 1 else i;
  }

  lemma {:induction false} WorkerServes(u: Setup, w: World, id: nat, k: Name, t: nat, i: nat)
    requires Ahead(w, id, k, t, i)
    ensures Leads(u, w, t)
    decreases Distance(w, id, k, i), Rest(w.threads[id].k)
  {
    var i' := WorkerNears(u, w, id, k, t, i);
    hide Enabled, Next, Leads, Ahead, InHand;
    var w' := Next(u, w, Advance(id));
    if id in w'.threads && t in InHand(w'.threads[id]) {
      HolderServes(u, w', id, t);
    } else {
      WorkerServes(u, w', id, k, t, i');
    }
    LeadsOn(u, w, Advance(id), t);
  }

  // ----- Somebody on the way to the queue -----

  /** The store is open and the key waits in the queue. */
  ghost predicate Waiting(u: Setup, w: World, k: Name, t: nat) {
    Inv(u, w) && !w.s.closed && Registered(w.s, k, t) && k in w.s.queue
  }

  lemma {:induction false} AwakeServes(u: Setup, w: World, id: nat, k: Name, t: nat)
    requires Registered(w.s, k, t) && k in w.s.queue && AwakeWorker(w, id)
    ensures Leads(u, w, t)
  {
    var i: nat :| i < |w.s.queue| && w.s.queue[i] == k;
    WorkerServes(u, w, id, k, t, i);
  }

  lemma {:induction false} NotifierAct(u: Setup, w: World, id: nat) returns (act: Action)
    requires id in w.threads && Notifier(w.threads[id])
    ensures Enabled(u, w, act) && !act.Begin? && !act.Ensure? && Mover(act) == id && Next(u, w, act).s == w.s
  {
    hide StartFails, CarriedKeys;
    act := Advance(id);
    if w.threads[id].Acquirer? {
      var woken := 0;
      if w.sleeping != {} {
        woken := FirstOf(w.sleeping);
      }
      act := NotifyOne(id, woken);
    }
  }

  lemma {:induction false} NotifierServes(u: Setup, w: World, id: nat, k: Name, t: nat)
    requires Waiting(u, w, k, t) && id in w.threads && Notifier(w.threads[id])
    ensures Leads(u, w, t)
  {
    var act := NotifierAct(u, w, id);
    InvWakes(u, w);
    hide Enabled, Next, Inv, Leads, Notifier, Mover, AwakeOk;
    var h := NotifyWakes(u, w, act);
    AwakeServes(u, Next(u, w, act), h, k, t);
    LeadsOn(u, w, act, t);
  }

  lemma {:induction false} SpawnAct(u: Setup, w: World, id: nat) returns (act: Action)
    requires AwakeOk(w) && id in w.threads && AtSpawn(w.threads[id])
    ensures Enabled(u, w, act) && !act.Begin? && (act.Ensure? ==> act.ok) && Next(u, w, act).s == w.s
    ensures var w' := Next(u, w, act);
            AwakeWorker(w', Mover(act)) || (Mover(act) == id && id in w'.threads && Notifier(w'.threads[id]))
  {
    hide StartFails, CarriedKeys, ThreadStep;
    if |w.handles| >= u.workers {
      act := Ensure(id, true);
    } else {
      var worker := FreshId(w.threads.Keys);
      act := Spawn(id, worker);
    }
  }

  lemma {:induction false} StarterServes(u: Setup, w: World, id: nat, k: Name, t: nat)
    requires Waiting(u, w, k, t) && id in w.threads && AtSpawn(w.threads[id])
    ensures Leads(u, w, t)
  {
    InvWakes(u, w);
    var act := SpawnAct(u, w, id);
    hide Enabled, Next, Inv, Leads, Notifier, Mover, AwakeOk, AwakeWorker, AtSpawn;
    var w' := Next(u, w, act);
    if AwakeWorker(w', Mover(act)) {
      AwakeServes(u, w', Mover(act), k, t);
    } else {
      StepKeepsInv(u, w, act);
      NotifierServes(u, w', id, k, t);
    }
    LeadsOn(u, w, act, t);
  }

  /** The prefetcher has queued a key and has others to look at. */
  predicate Queuing(th: Thread) {
    th.Prefetcher? && (th.h.AtKeys? || th.h.Unpinning?) && th.h.queued
  }

  function KeysLeft(th: Thread): nat
    requires Queuing(th)
  {
    if th.h.AtKeys? then 2 * |th.h.keys| else 2 * |th.h.keys| + 1
  }

  lemma {:induction false} HintNears(s: Shared, h: Hint, limit: nat, k: Name, t: nat)
    requires Queuing(Prefetcher(h)) && Registered(s, k, t) && k in s.queue
    ensures var (s', h') := HintStep(s, h, limit);
            && s'.closed == s.closed && Registered(s', k, t) && k in s'.queue
            && (h'.HintEnsure? || (Queuing(Prefetcher(h')) && KeysLeft(Prefetcher(h')) < KeysLeft(Prefetcher(h))))
  {
    hide Touched, Unpinned, Known;
  }

  lemma {:induction false} QueuingAdvances(u: Setup, w: World, id: nat, k: Name, t: nat)
    requires Registered(w.s, k, t) && k in w.s.queue && id in w.threads && Queuing(w.threads[id])
    ensures Enabled(u, w, Advance(id))
    ensures var w' := Next(u, w, Advance(id));
            && w'.s.closed == w.s.closed && Registered(w'.s, k, t) && k in w'.s.queue && id in w'.threads
            && (AtSpawn(w'.threads[id]) || (Queuing(w'.threads[id]) && KeysLeft(w'.threads[id]) < KeysLeft(w.threads[id])))
  {
    HintNears(w.s, w.threads[id].h, u.queueLimit, k, t);
    hide HintStep, CarriedKeys, StartFails, KeysLeft;
  }

  lemma {:induction false} QueuingServes(u: Setup, w: World, id: nat, k: Name, t: nat)
    requires Waiting(u, w, k, t) && id in w.threads && Queuing(w.threads[id])
    ensures Leads(u, w, t)
    decreases KeysLeft(w.threads[id])
  {
    QueuingAdvances(u, w, id, k, t);
    StepKeepsInv(u, w, Advance(id));
    hide Enabled, Next, Inv, Leads, Queuing, AtSpawn, KeysLeft;
    var w' := Next(u, w, Advance(id));
    if AtSpawn(w'.threads[id]) {
      StarterServes(u, w', id, k, t);
    } else {
      QueuingServes(u, w', id, k, t);
    }
    LeadsOn(u, w, Advance(id), t);
  }

  // ----- The store is emptied -----

  lemma {:induction false} EmptyingCollects(u: Setup, w: World, id: nat, k: Name, t: nat)
    requires id in w.threads && Empties(w.threads[id]) && Registered(w.s, k, t)
    ensures Enabled(u, w, Advance(id))
    ensures var w' := Next(u, w, Advance(id)); id in w'.threads && t in InHand(w'.threads[id])
  {
    hide CarriedKeys, StartFails, AllFailed, Drained, AcquireStep, WorkStep;
    assert w.s.waiters[k] in w.s.waiters.Values;
  }

  lemma {:induction false} EmptyingServes(u: Setup, w: World, id: nat, k: Name, t: nat)
    requires id in w.threads && Empties(w.threads[id]) && Registered(w.s, k, t)
    ensures Leads(u, w, t)
  {
    EmptyingCollects(u, w, id, k, t);
    hide Enabled, Next, Leads, InHand;
    HolderServes(u, Next(u, w, Advance(id)), id, t);
    LeadsOn(u, w, Advance(id), t);
  }

  // ----- Every helped sleeper -----

  lemma {:induction false} PoisedIs(w: World, id: nat)
    requires PoisedAt(w, id)
    ensures AwakeWorker(w, id) || Notifier(w.threads[id]) || AtSpawn(w.threads[id]) || Queuing(w.threads[id]) || Empties(w.threads[id])
  {
  }

  lemma {:induction false} PoisedServes(u: Setup, w: World, id: nat, k: Name, t: nat)
    requires Waiting(u, w, k, t) && PoisedAt(w, id)
    ensures Leads(u, w, t)
  {
    PoisedIs(w, id);
    hide Inv, Leads, AwakeWorker, Notifier, AtSpawn, Queuing, Empties, Poised;
    if AwakeWorker(w, id) {
      AwakeServes(u, w, id, k, t);
    } else if Notifier(w.threads[id]) {
      NotifierServes(u, w, id, k, t);
    } else if AtSpawn(w.threads[id]) {
      StarterServes(u, w, id, k, t);
    } else if Queuing(w.threads[id]) {
      QueuingServes(u, w, id, k, t);
    } else {
      EmptyingServes(u, w, id, k, t);
    }
  }

  lemma {:induction false} CarrierServes(u: Setup, w: World, id: nat, k: Name, t: nat)
    requires AwakeOk(w) && Registered(w.s, k, t) && Carrier(w.threads, id, k)
    ensures Leads(u, w, t)
  {
    WorkerServes(u, w, id, k, t, 0);
  }

  lemma {:induction false} HelpedSleeper(u: Setup, w: World, id: nat)
    requires Inv(u, w) && Sleeper(w, id)
    requires !Unattended(w) || w.threads[id].a.ticket in Hands(w.threads)
    ensures Leads(u, w, w.threads[id].a.ticket)
  {
    var (k, t) := (w.threads[id].a.key, w.threads[id].a.ticket);
    assert Covered(w.s, w.threads, w.threads[id]) && SleeperOk(w, w.threads[id]);
    hide Hands, CarriedKeys, Truth, PinsBounded, CacheOk, AwakeOk, PoisedAt, Leads;
    if t in Hands(w.threads) {
      var j := HolderOf(w.threads, t);
      HolderServes(u, w, j, t);
    } else if k in CarriedKeys(w.threads) {
      var j := CarrierOf(w.threads, k);
      CarrierServes(u, w, j, k, t);
    } else if w.s.closed {
      var j :| j in w.threads && w.threads[j] == Closer(Draining);
      EmptyingServes(u, w, j, k, t);
    } else {
      assert k in w.s.queue;
      var j :| PoisedAt(w, j);
      PoisedServes(u, w, j, k, t);
    }
  }

  /** After every run: a sleeper with a helper can be served by the threads there are. */
  lemma {:induction false} HelpedSleeperCanBeServed(u: Setup, acts: seq<Action>, id: nat)
    requires var w := Run(u, Initial(), acts);
             Sleeper(w, id) && HasHelper(w, w.threads[id].a.key, w.threads[id].a.ticket)
    ensures var w := Run(u, Initial(), acts);
            exists more :: Steady(more) && w.threads[id].a.ticket in Run(u, Initial(), acts + more).s.done
  {
    EveryRunKeepsInv(u, acts);
    var w := Run(u, Initial(), acts);
    var t := w.threads[id].a.ticket;
    InvParts(u, w);
    HelperIff(w, id);
    hide Run, Inv, Sleeper, HasHelper, Hands, Unattended;
    HelpedSleeper(u, w, id);
    var more :| LeadsBy(u, w, more, t);
    RunAppend(u, Initial(), acts, more);
  }

  lemma {:induction false} InvParts(u: Setup, w: World)
    requires Inv(u, w)
    ensures Cover(w.s, w.threads) && Placed(w.s, w.threads) && CloseOk(w) && AwakeOk(w)
  {
    hide Cover, Placed, CloseOk, AwakeOk;
  }

  // ----- A sleeper without a helper -----

  /** The thread sleeps, and nobody is on the way to mark its ticket. */
  ghost predicate Forsaken(w: World, id: nat) {
    Sleeper(w, id) && Unattended(w) && w.threads[id].a.ticket !in Hands(w.threads)
  }

  /** The step marks no ticket but one it had in hand, and takes none into its hands. */
  ghost predicate TakesNoTicket(w: World, w': World, id: nat) {
    && id in w'.threads && w'.threads == w.threads[id := w'.threads[id]]
    && InHand(w'.threads[id]) <= InHand(Was(w.threads, id))
    && w'.s.done <= w.s.done + InHand(Was(w.threads, id))
  }

  /** While a queued key is unattended, a step only marks what it had in hand. */
  lemma {:induction false} IdleMarks(u: Setup, w: World, act: Action)
    requires AwakeOk(w) && CloseOk(w) && Unattended(w) && Enabled(u, w, act)
    ensures TakesNoTicket(w, Next(u, w, act), Mover(act))
  {
    if act.Advance? {
      IdleAdvances(u, w, act.id);
    } else {
      OtherMarks(u, w, act);
    }
    hide Next, Enabled, TakesNoTicket;
  }

  lemma {:induction false} OtherMarks(u: Setup, w: World, act: Action)
    requires Enabled(u, w, act) && !act.Advance?
    ensures TakesNoTicket(w, Next(u, w, act), Mover(act))
  {
    hide ThreadStep, StartFails;
  }

  lemma {:induction false} IdleAdvances(u: Setup, w: World, id: nat)
    requires AwakeOk(w) && CloseOk(w) && Unattended(w) && id in w.threads && Ready(w, id)
    ensures TakesNoTicket(w, Next(u, w, Advance(id)), id)
  {
    assert !PoisedAt(w, id);
    assert ThreadAwake(w, w.threads[id]) && DrainerOk(w, w.threads[id]);
    IdleThread(u, w, id);
    hide ThreadStep, CarriedKeys, AwakeOk, CloseOk, Unattended, ThreadAwake, DrainerOk, Ready, PoisedAt, InHand;
  }

  lemma {:induction false} IdleThread(u: Setup, w: World, id: nat)
    requires id in w.threads && Ready(w, id) && !PoisedAt(w, id) && !w.s.closed
    requires ThreadAwake(w, w.threads[id]) && DrainerOk(w, w.threads[id]) && (id in w.sleeping ==> w.threads[id] == Worker(Looking))
    ensures var (s', th') := ThreadStep(u, w.s, w.threads[id], w.handles);
            InHand(th') <= InHand(w.threads[id]) && s'.done == w.s.done
  {
    hide Touched, Unpinned, Known, WorkStep;
    match w.threads[id] {
      case Closer(c) => IdleClose(w, c);
      case _ =>
    }
  }

  lemma {:induction false} SleeperStays(u: Setup, w: World, act: Action, id: nat)
    requires Enabled(u, w, act) && Sleeper(w, id)
    ensures Mover(act) != id
  {
    hide StartFails;
  }

  lemma {:induction false} ForsakenStays(u: Setup, w: World, act: Action, id: nat)
    requires Inv(u, w) && Enabled(u, w, act) && Forsaken(w, id) && !Recovers(u, w, act)
    ensures Forsaken(Next(u, w, act), id) && Next(u, w, act).threads[id] == w.threads[id]
  {
    hide *;
    assert AwakeOk(w) && CloseOk(w) by { InvWakes(u, w); }
    assert Sleeper(w, id) && Unattended(w) by { ForsakenParts(w, id); }
    UnattendedExactly(u, w, act);
    IdleMarks(u, w, act);
    SleeperStays(u, w, act, id);
    ForsakenMoved(w, Next(u, w, act), Mover(act), id);
  }

  lemma {:induction false} ForsakenParts(w: World, id: nat)
    requires Forsaken(w, id)
    ensures Sleeper(w, id) && Unattended(w)
  {
    hide Sleeper, Unattended, Hands;
  }

  lemma {:induction false} ForsakenMoved(w: World, w': World, mover: nat, id: nat)
    requires Forsaken(w, id) && Unattended(w') && mover != id && TakesNoTicket(w, w', mover)
    ensures Forsaken(w', id) && w'.threads[id] == w.threads[id]
  {
    hide Unattended, InHand;
    var t := w.threads[id].a.ticket;
    NothingInHand();
    assert t !in InHand(Was(w.threads, mover));
    forall j | j in w'.threads ensures t !in InHand(w'.threads[j]) {
    }
  }

  lemma {:induction false} NothingInHand()
    ensures InHand(Acquirer(Released)) == {}
  {
  }

  lemma {:induction false} UnhelpedIsForsaken(u: Setup, w: World, id: nat)
    requires Inv(u, w) && Sleeper(w, id) && !HasHelper(w, w.threads[id].a.key, w.threads[id].a.ticket)
    ensures Forsaken(w, id)
  {
    InvParts(u, w);
    HelperIff(w, id);
    hide Inv, Sleeper, HasHelper, Hands, Unattended;
  }

  lemma {:induction false} ForsakenSince(u: Setup, acts: seq<Action>, n: nat, id: nat)
    requires n <= |acts| && Forsaken(At(u, acts, n), id)
    requires forall j: nat | n <= j < |acts| :: !RecoversAt(u, acts, j)
    ensures var w := At(u, acts, |acts|); Forsaken(w, id) && w.threads[id] == At(u, acts, n).threads[id]
    decreases |acts|
  {
    hide At, RecoversAt, Forsaken;
    if n < |acts| {
      var m := |acts| - 1;
      forall j: nat | n <= j < m ensures !RecoversAt(u, acts[..m], j) {
        SamePast(u, acts, m, j);
      }
      AtShorter(u, acts, m, n);
      AtShorter(u, acts, m, m);
      ForsakenSince(u, acts[..m], n, id);
      assert !RecoversAt(u, acts, m);
      ForsakenLast(u, acts, id);
    }
  }

  lemma {:induction false} ForsakenLast(u: Setup, acts: seq<Action>, id: nat)
    requires acts != [] && Forsaken(At(u, acts, |acts| - 1), id) && !RecoversAt(u, acts, |acts| - 1)
    ensures var w := At(u, acts, |acts|); Forsaken(w, id) && w.threads[id] == At(u, acts, |acts| - 1).threads[id]
  {
    var m := |acts| - 1;
    EveryRunKeepsInv(u, acts[..m]);
    RunStep(u, acts);
    assert acts[..|acts|] == acts;
    hide Run, Enabled, Next, Recovers, Inv, Forsaken;
    if Enabled(u, At(u, acts, m), acts[m]) {
      ForsakenStays(u, At(u, acts, m), acts[m], id);
    }
  }

  /**
   A sleeper that has no helper sleeps on, its ticket unmarked, for as long as nobody queues another key and
   the store is not closed.
   */
  lemma {:induction false} UnhelpedSleeperSleepsOn(u: Setup, acts: seq<Action>, n: nat, id: nat)
    requires n <= |acts| && Sleeper(At(u, acts, n), id)
    requires !HasHelper(At(u, acts, n), At(u, acts, n).threads[id].a.key, At(u, acts, n).threads[id].a.ticket)
    requires forall j: nat | n <= j < |acts| :: !RecoversAt(u, acts, j)
    ensures var w := Run(u, Initial(), acts); Sleeper(w, id) && w.threads[id] == At(u, acts, n).threads[id]
  {
    EveryRunKeepsInv(u, acts[..n]);
    UnhelpedIsForsaken(u, At(u, acts, n), id);
    assert acts[..|acts|] == acts;
    hide Run, Inv, Forsaken, HasHelper, RecoversAt, Sleeper;
    ForsakenSince(u, acts, n, id);
    ForsakenParts(At(u, acts, |acts|), id);
  }

  // ----- Every call of close can finish -----

  ghost predicate GoesBy(u: Setup, w: World, more: seq<Action>, w': World) {
    Steady(more) && Run(u, w, more) == w'
  }

  /** Some steady continuation leads from one state to the other. */
  ghost predicate GoesTo(u: Setup, w: World, w': World) {
    exists more :: GoesBy(u, w, more, w')
  }

  lemma {:induction false} GoesNowhere(u: Setup, w: World)
    ensures GoesTo(u, w, w)
  {
    assert GoesBy(u, w, [], w);
  }

  lemma {:induction false} GoesOn(u: Setup, w: World, act: Action, w': World)
    requires Enabled(u, w, act) && !act.Begin? && (act.Ensure? ==> act.ok) && GoesTo(u, Next(u, w, act), w')
    ensures GoesTo(u, w, w')
  {
    hide Enabled, Next, Run;
    var more :| GoesBy(u, Next(u, w, act), more, w');
    RunOne(u, w, act);
    RunAppend(u, w, [act], more);
    assert GoesBy(u, w, [act] + more, w');
  }

  lemma {:induction false} GoesBoth(u: Setup, a: World, b: World, c: World)
    requires GoesTo(u, a, b) && GoesTo(u, b, c)
    ensures GoesTo(u, a, c)
  {
    hide Run;
    var p :| GoesBy(u, a, p, b);
    var q :| GoesBy(u, b, q, c);
    RunAppend(u, a, p, q);
    assert GoesBy(u, a, p + q, c);
  }

  /** The store is closed and no worker sleeps. */
  predicate Winding(w: World) {
    w.s.closed && w.sleeping == {}
  }

  /** How far the worker is from leaving, if the queue is empty. */
  function Stages(k: Work): nat {
    if k.Left? then 0 else 1 + Rest(k)
  }

  /** In a closed store a worker's section takes it nearer to leaving and moves nobody else. */
  lemma {:induction false} WorkerWinds(u: Setup, w: World, id: nat)
    requires Winding(w) && id in w.threads && w.threads[id].Worker? && !w.threads[id].k.Left?
    ensures Enabled(u, w, Advance(id))
    ensures var w' := Next(u, w, Advance(id));
            && Winding(w') && id in w'.threads && w'.threads[id].Worker? && w'.threads == w.threads[id := w'.threads[id]]
            && (|| |w'.s.queue| < |w.s.queue|
                || (|w'.s.queue| == |w.s.queue| && Stages(w'.threads[id].k) < Stages(w.threads[id].k)))
  {
    hide Stored, ReadKey, CarriedKeys, StartFails, AcquireStep, HintStep, CloseStep;
  }

  /** So every worker can leave: it empties the queue and goes. */
  lemma {:induction false} WorkerLeaves(u: Setup, w: World, id: nat) returns (w': World)
    requires Winding(w) && id in w.threads && w.threads[id].Worker?
    ensures GoesTo(u, w, w') && Winding(w') && w'.threads == w.threads[id := Worker(Left)]
    decreases |w.s.queue|, Stages(w.threads[id].k)
  {
    if w.threads[id].k.Left? {
      GoesNowhere(u, w);
      w' := w;
      assert w.threads == w.threads[id := Worker(Left)];
    } else {
      WorkerWinds(u, w, id);
      hide Enabled, Next, GoesTo, Winding, Stages;
      w' := WorkerLeaves(u, Next(u, w, Advance(id)), id);
      GoesOn(u, w, Advance(id), w');
      assert w'.threads == w.threads[id := Worker(Left)];
    }
  }

  /** The workers have left and nobody else has moved. */
  ghost predicate OnlyLeave(w: World, workers: set<nat>, w': World) {
    && w'.threads.Keys == w.threads.Keys
    && forall i | i in w.threads :: w'.threads[i] == if i in workers then Worker(Left) else w.threads[i]
  }

  lemma {:induction false} AllLeave(u: Setup, w: World, workers: set<nat>) returns (w': World)
    requires Winding(w) && forall h | h in workers :: h in w.threads && w.threads[h].Worker?
    ensures GoesTo(u, w, w') && OnlyLeave(w, workers, w')
    decreases workers
  {
    hide GoesTo, Winding;
    if workers == {} {
      GoesNowhere(u, w);
      w' := w;
    } else {
      var h := FirstOf(workers);
      var v := WorkerLeaves(u, w, h);
      w' := AllLeave(u, v, workers - {h});
      GoesBoth(u, w, v, w');
    }
  }

  function CloseStages(c: Close): nat {
    match c
    case Closing => 5
    case Draining => 4
    case CloseNotify(_) => 3
    case CloseSignal(_) => 2
    case Joining(_) => 1
    case CloseOver => 0
  }

  function HeldBy(c: Close): set<nat> {
    if c.CloseSignal? then c.held else {}
  }

  /** Up to the join, close never waits. */
  lemma {:induction false} CloserMoves(u: Setup, w: World, id: nat) returns (act: Action)
    requires id in w.threads && w.threads[id].Closer? && !w.threads[id].c.Joining? && !w.threads[id].c.CloseOver?
    ensures Enabled(u, w, act) && !act.Begin? && !act.Ensure?
    ensures var w' := Next(u, w, act);
            && id in w'.threads && w'.threads[id].Closer?
            && var (c, c') := (w.threads[id].c, w'.threads[id].c);
               CloseStages(c') < CloseStages(c) || (CloseStages(c') == CloseStages(c) && HeldBy(c') < HeldBy(c))
  {
    hide CarriedKeys, StartFails, AcquireStep, HintStep, WorkStep, Drained;
    var c := w.threads[id].c;
    if c.CloseSignal? && c.held != {} {
      var t := FirstOf(c.held);
      act := Mark(id, t);
    } else {
      act := Advance(id);
    }
  }

  /** The workers leave, and the join is over. */
  lemma {:induction false} JoinEnds(u: Setup, w: World, id: nat) returns (w': World)
    requires AwakeOk(w) && id in w.threads && w.threads[id].Closer? && w.threads[id].c.Joining?
    ensures GoesTo(u, w, w') && id in w'.threads && w'.threads[id] == Closer(CloseOver)
  {
    assert ThreadAwake(w, w.threads[id]);
    hide GoesTo, AwakeOk;
    var v := AllLeave(u, w, w.threads[id].c.workers);
    w' := JoinOver(u, v, id);
    GoesNowhere(u, w');
    GoesOn(u, v, Advance(id), w');
    GoesBoth(u, w, v, w');
  }

  lemma {:induction false} JoinOver(u: Setup, w: World, id: nat) returns (w': World)
    requires id in w.threads && w.threads[id].Closer? && w.threads[id].c.Joining?
    requires forall h | h in w.threads[id].c.workers :: h in w.threads && w.threads[h] == Worker(Left)
    ensures Enabled(u, w, Advance(id)) && w' == Next(u, w, Advance(id))
    ensures id in w'.threads && w'.threads[id] == Closer(CloseOver)
  {
    hide StartFails, CarriedKeys;
    w' := Next(u, w, Advance(id));
  }

  lemma {:induction false} CloseEnds(u: Setup, w: World, id: nat) returns (w': World)
    requires Inv(u, w) && id in w.threads && w.threads[id].Closer?
    ensures GoesTo(u, w, w') && id in w'.threads && w'.threads[id] == Closer(CloseOver)
    decreases CloseStages(w.threads[id].c), HeldBy(w.threads[id].c)
  {
    var c := w.threads[id].c;
    if c.CloseOver? {
      GoesNowhere(u, w);
      w' := w;
    } else if c.Joining? {
      InvWakes(u, w);
      hide Inv, AwakeOk, GoesTo;
      w' := JoinEnds(u, w, id);
    } else {
      hide Inv, GoesTo, Enabled, Next, CloseStages, HeldBy;
      var act := CloserMoves(u, w, id);
      StepKeepsInv(u, w, act);
      w' := CloseEnds(u, Next(u, w, act), id);
      GoesOn(u, w, act, w');
    }
  }

  /** After every run: a call of close, wherever it stands, can finish without new calls and without failed starts. */
  lemma {:induction false} CloseCanFinish(u: Setup, acts: seq<Action>, id: nat)
    requires var w := Run(u, Initial(), acts); id in w.threads && w.threads[id].Closer?
    ensures exists more :: Steady(more) && OverAfter(u, acts + more, id)
  {
    EveryRunKeepsInv(u, acts);
    var w := Run(u, Initial(), acts);
    hide Run, Inv;
    var w' := CloseEnds(u, w, id);
    var more :| GoesBy(u, w, more, w');
    RunAppend(u, Initial(), acts, more);
    assert OverAfter(u, acts + more, id);
  }

  ghost predicate OverAfter(u: Setup, acts: seq<Action>, id: nat) {
    var w := Run(u, Initial(), acts);
    id in w.threads && w.threads[id] == Closer(CloseOver)
  }
}
