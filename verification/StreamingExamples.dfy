/** Runs of the streaming store that show why its guarantees have the conditions they have. */
module StreamingExamples {
  import opened Prelude
  import opened ChunkCaches
  import opened PackFiles
  import opened StreamingStores
  import opened StreamingProtocol
  import opened StreamingWakeups
  import opened StreamingGuarantees
  import opened StreamingPins

  // ----- Building runs -----

  ghost predicate Reaches(u: Setup, w: World, w': World) {
    exists acts :: Run(u, w, acts) == w'
  }

  lemma {:induction false} ReachesTwice(u: Setup, a: World, b: World, c: World)
    requires Reaches(u, a, b) && Reaches(u, b, c)
    ensures Reaches(u, a, c)
  {
    hide Run;
    var p :| Run(u, a, p) == b;
    var q :| Run(u, b, q) == c;
    RunAppend(u, a, p, q);
  }

  lemma {:induction false} OneStep(u: Setup, w: World, act: Action)
    requires Enabled(u, w, act)
    ensures Reaches(u, w, Next(u, w, act))
  {
    hide Enabled, Next, Run;
    RunOne(u, w, act);
  }

  /** A section that wakes nobody, puts nobody to sleep and empties nothing. */
  predicate Plain(s: Shared, th: Thread) {
    !NotifiesAll(th) && !FallsAsleep(s, th) && !Empties(th) && !(th.Closer? && th.c.CloseSignal?)
  }

  /** A thread runs its next section. */
  lemma {:induction false} Go(u: Setup, w: World, id: nat, s: Shared, th: Thread) returns (w': World)
    requires id in w.threads && Ready(w, id) && Plain(w.s, w.threads[id])
    requires ThreadStep(u, w.s, w.threads[id], w.handles) == (s, th)
    ensures w' == w.(s := s, threads := w.threads[id := th]) && Reaches(u, w, w')
  {
    hide ThreadStep, CarriedKeys, Reaches, StartFails;
    OneStep(u, w, Advance(id));
    w' := Next(u, w, Advance(id));
  }

  lemma {:induction false} Start(u: Setup, w: World, id: nat, call: Thread) returns (w': World)
    requires id !in w.threads && Starting(call)
    ensures w' == w.(threads := w.threads[id := call]) && Reaches(u, w, w')
  {
    hide ThreadStep, CarriedKeys, Reaches, StartFails;
    OneStep(u, w, Begin(id, call));
    w' := Next(u, w, Begin(id, call));
  }

  lemma {:induction false} StartWorker(u: Setup, w: World, parent: nat, worker: nat) returns (w': World)
    requires parent in w.threads && AtSpawn(w.threads[parent]) && worker !in w.threads && |w.handles| < u.workers
    ensures w' == w.(threads := w.threads[worker := Worker(Looking)], handles := w.handles + {worker}) && Reaches(u, w, w')
  {
    hide ThreadStep, CarriedKeys, Reaches, StartFails;
    OneStep(u, w, Spawn(parent, worker));
    w' := Next(u, w, Spawn(parent, worker));
  }

  lemma {:induction false} FailToStart(u: Setup, w: World, id: nat) returns (w': World)
    requires id in w.threads && AtSpawn(w.threads[id]) && |w.handles| < u.workers
    ensures Reaches(u, w, w')
    ensures w' == w.(threads := w.threads[id := Ensured(w.threads[id], false)], gaveUp := w.gaveUp || w.threads[id].Acquirer?)
  {
    hide ThreadStep, CarriedKeys, Reaches;
    OneStep(u, w, Ensure(id, false));
    w' := Next(u, w, Ensure(id, false));
  }

  lemma {:induction false} ColdSections(u: Setup, s: Shared, k: Name, handles: set<nat>)
    requires !s.closed && s.cache.slots == map[]
    ensures ThreadStep(u, s, Acquirer(Called(k)), handles) == (s, Acquirer(Probing(k)))
    ensures ThreadStep(u, s, Acquirer(Probing(k)), handles) == (s, Acquirer(Asking(k)))
    ensures k in s.waiters ==> ThreadStep(u, s, Acquirer(Asking(k)), handles) == (s, Acquirer(AtDoneLock(k, s.waiters[k])))
    ensures k !in s.waiters ==> ThreadStep(u, s, Acquirer(Asking(k)), handles) == (Demanded(s, k), Acquirer(AtEnsure(k, s.tickets)))
  {
    hide HintStep, CloseStep, WorkStep, Without;
  }

  /** A caller asks for a key while nothing is cached, up to the state lock. */
  lemma {:induction false} GoToLock(u: Setup, w: World, id: nat, k: Name) returns (w': World)
    requires id !in w.threads && !w.s.closed && w.s.cache.slots == map[]
    ensures w' == w.(threads := w.threads[id := Acquirer(Asking(k))]) && Reaches(u, w, w')
  {
    ColdSections(u, w.s, k, w.handles);
    hide ThreadStep, Reaches;
    var a := Start(u, w, id, Acquirer(Called(k)));
    var b := Go(u, a, id, w.s, Acquirer(Probing(k)));
    w' := Go(u, b, id, w.s, Acquirer(Asking(k)));
    ReachesTwice(u, w, a, b);
    ReachesTwice(u, w, b, w');
    assert w'.threads == w.threads[id := Acquirer(Asking(k))];
  }

  lemma {:induction false} GoAndDemand(u: Setup, w: World, id: nat, k: Name) returns (w': World)
    requires id !in w.threads && !w.s.closed && w.s.cache.slots == map[] && k !in w.s.waiters
    ensures w' == w.(s := Demanded(w.s, k), threads := w.threads[id := Acquirer(AtEnsure(k, w.s.tickets))]) && Reaches(u, w, w')
  {
    ColdSections(u, w.s, k, w.handles);
    hide ThreadStep, Reaches, Demanded;
    var a := GoToLock(u, w, id, k);
    w' := Go(u, a, id, Demanded(w.s, k), Acquirer(AtEnsure(k, w.s.tickets)));
    ReachesTwice(u, w, a, w');
    assert w'.threads == w.threads[id := Acquirer(AtEnsure(k, w.s.tickets))];
  }

  /** A caller asks for a key that somebody waits for already, and sleeps. */
  lemma {:induction false} GoAndSleep(u: Setup, w: World, id: nat, k: Name) returns (w': World)
    requires id !in w.threads && !w.s.closed && w.s.cache.slots == map[] && k in w.s.waiters && w.s.waiters[k] !in w.s.done
    ensures w' == w.(threads := w.threads[id := Acquirer(Blocked(k, w.s.waiters[k]))]) && Reaches(u, w, w')
  {
    ColdSections(u, w.s, k, w.handles);
    assert ThreadStep(u, w.s, Acquirer(AtDoneLock(k, w.s.waiters[k])), w.handles) == (w.s, Acquirer(Blocked(k, w.s.waiters[k])));
    hide ThreadStep, Reaches;
    var a := GoToLock(u, w, id, k);
    var b := Go(u, a, id, w.s, Acquirer(AtDoneLock(k, w.s.waiters[k])));
    w' := Go(u, b, id, w.s, Acquirer(Blocked(k, w.s.waiters[k])));
    ReachesTwice(u, w, a, b);
    ReachesTwice(u, w, b, w');
    assert w'.threads == w.threads[id := Acquirer(Blocked(k, w.s.waiters[k]))];
  }

  // ----- A failed start -----

  /**
   The condition on starting workers is needed. If the first acquirer cannot start one, it leaves its key
   registered; a second acquirer then sleeps on that ticket and no thread has anything left to do.
   */
  lemma {:induction false} FailedStartStrandsWaiter(u: Setup, k: Name) returns (acts: seq<Action>)
    ensures var w := Run(u, Initial(), acts);
            && 1 in w.threads && w.threads[1] == Acquirer(Blocked(k, 0)) && 0 !in w.s.done && !w.s.closed
            && forall act: Action | !act.Begin? :: !Enabled(u, w, act)
  {
    var a := GoAndDemand(u, Initial(), 0, k);
    assert a.s.waiters == map[k := 0] && a.s.cache.slots == map[] && a.handles == {} && a.s.done == {};
    hide Run, Demanded;
    var b := FailToStart(u, a, 0);
    assert b.threads == map[0 := Acquirer(Refused(k, NoWorkers))];
    var c := GoAndSleep(u, b, 1, k);
    ReachesTwice(u, Initial(), a, b);
    ReachesTwice(u, Initial(), b, c);
    NothingToDo(u, c, k);
    acts :| Run(u, Initial(), acts) == c;
  }

  lemma {:induction false} NothingToDo(u: Setup, w: World, k: Name)
    requires w.threads == map[0 := Acquirer(Refused(k, NoWorkers)), 1 := Acquirer(Blocked(k, 0))] && 0 !in w.s.done
    ensures forall act: Action | !act.Begin? :: !Enabled(u, w, act)
  {
    hide StartFails;
  }

  // ----- An emptied store -----

  /** An acquirer gets a worker to read its key. */
  lemma {:induction false} AskAndRead(u: Setup, w: World, id: nat, worker: nat, k: Name) returns (w': World)
    requires id !in w.threads && worker !in w.threads && id != worker
    requires !w.s.closed && w.s.cache.slots == map[] && w.s.queue == [] && k !in w.s.waiters
    requires |w.handles| < u.workers && worker !in w.sleeping
    ensures Reaches(u, w, w') && w'.threads == w.threads[id := Acquirer(AtEnsure(k, w.s.tickets))][worker := Worker(Reading(k))]
    ensures w' == w.(s := Demanded(w.s, k).(queue := []), threads := w'.threads, handles := w.handles + {worker})
  {
    var a := GoAndDemand(u, w, id, k);
    var b := StartWorker(u, a, id, worker);
    TakeSection(u, b.s, k, b.handles);
    hide ThreadStep, Reaches;
    w' := Go(u, b, worker, b.s.(queue := []), Worker(Reading(k)));
    ReachesTwice(u, w, a, b);
    ReachesTwice(u, w, b, w');
    assert w'.threads == w.threads[id := Acquirer(AtEnsure(k, w.s.tickets))][worker := Worker(Reading(k))];
  }

  lemma {:induction false} TakeSection(u: Setup, s: Shared, k: Name, handles: set<nat>)
    requires s.queue == [k]
    ensures ThreadStep(u, s, Worker(Looking), handles) == (s.(queue := []), Worker(Reading(k)))
  {
    hide AcquireStep, HintStep, CloseStep;
    assert s.queue[1..] == [];
  }

  lemma {:induction false} HintSections(u: Setup, s: Shared, q: Name, handles: set<nat>)
    requires !s.closed && s.cache.slots == map[] && s.queue == [] && q !in s.inflight && u.queueLimit >= 1
    ensures ThreadStep(u, s, Prefetcher(Hinting([q])), handles) == (s, Prefetcher(AtKeys([q], false)))
    ensures ThreadStep(u, s, Prefetcher(AtKeys([q], false)), handles) == (Hinted(s, q), Prefetcher(AtKeys([], true)))
    ensures ThreadStep(u, Hinted(s, q), Prefetcher(AtKeys([], true)), handles) == (Hinted(s, q), Prefetcher(HintEnsure))
  {
    hide AcquireStep, WorkStep, CloseStep, Without;
    assert [q][1..] == [];
  }

  /** A prefetch queues a key. */
  lemma {:induction false} GoAndQueue(u: Setup, w: World, id: nat, q: Name) returns (w': World)
    requires id !in w.threads && !w.s.closed && w.s.cache.slots == map[] && w.s.queue == []
    requires q !in w.s.inflight && u.queueLimit >= 1
    ensures Reaches(u, w, w') && w' == w.(s := Hinted(w.s, q), threads := w.threads[id := Prefetcher(AtKeys([], true))])
  {
    HintSections(u, w.s, q, w.handles);
    hide ThreadStep, Hinted, Reaches;
    var a := Start(u, w, id, Prefetcher(Hinting([q])));
    var b := Go(u, a, id, w.s, Prefetcher(AtKeys([q], false)));
    w' := Go(u, b, id, Hinted(w.s, q), Prefetcher(AtKeys([], true)));
    ReachesTwice(u, w, a, b);
    ReachesTwice(u, w, b, w');
    assert w'.threads == w.threads[id := Prefetcher(AtKeys([], true))];
  }

  /** A prefetch queues a key and fails to start a worker. */
  lemma {:induction false} FailingPrefetch(u: Setup, w: World, id: nat, q: Name) returns (w': World)
    requires id !in w.threads && !w.s.closed && w.s.cache.slots == map[] && w.s.queue == []
    requires q !in w.s.inflight && u.queueLimit >= 1 && |w.handles| < u.workers
    ensures Reaches(u, w, w') && w' == w.(s := Hinted(w.s, q), threads := w.threads[id := Prefetcher(Failing)])
  {
    HintSections(u, w.s, q, w.handles);
    hide ThreadStep, Hinted, Reaches;
    var a := GoAndQueue(u, w, id, q);
    var b := Go(u, a, id, Hinted(w.s, q), Prefetcher(HintEnsure));
    w' := FailToStart(u, b, id);
    ReachesTwice(u, w, a, b);
    ReachesTwice(u, w, b, w');
    assert w'.threads == w.threads[id := Prefetcher(Failing)];
  }

  lemma {:induction false} EmptyStore(u: Setup, w: World, id: nat) returns (w': World)
    requires id in w.threads && w.threads[id] == Prefetcher(Failing)
    ensures Enabled(u, w, Advance(id)) && w' == Next(u, w, Advance(id)) && w'.s == AllFailed(w.s, NoWorkers)
    ensures w'.handles == w.handles && w'.sleeping == w.sleeping
    ensures w'.threads == w.threads[id := Prefetcher(FailSignal(w.s.waiters.Values))]
  {
    hide CarriedKeys, AcquireStep, WorkStep, CloseStep, AllFailed;
    w' := Next(u, w, Advance(id));
  }

  lemma {:induction false} EmptiedFacts(s: Shared)
    ensures var e := AllFailed(s, NoWorkers);
            e.queue == [] && e.waiters == map[] && e.cache == s.cache && e.closed == s.closed
  {
  }

  /** Two workers read one key at the same time, in a run whose step at `emptied` ended single flight. */
  ghost predicate ReadTwice(u: Setup, acts: seq<Action>, k: Name, emptied: nat) {
    && emptied < |acts|
    && (var (w, act) := (At(u, acts, emptied), acts[emptied]);
        && Enabled(u, w, act) && Empties(Was(w.threads, Mover(act))) && SingleFlight(w.s, w.threads)
        && !SingleFlight(Next(u, w, act).s, Next(u, w, act).threads))
    && (var w := Run(u, Initial(), acts);
        exists i, j :: i != j && Carrier(w.threads, i, k) && Carrier(w.threads, j, k))
  }

  lemma {:induction false} FlightEnds(u: Setup, w: World, id: nat, worker: nat)
    requires Inv(u, w) && SingleFlight(w.s, w.threads) && id in w.threads && w.threads[id] == Prefetcher(Failing)
    requires worker in w.threads && Carried(w.threads[worker]).Some? && Enabled(u, w, Advance(id))
    ensures var w' := Next(u, w, Advance(id)); !SingleFlight(w'.s, w'.threads)
  {
    hide SingleFlight, Next, CarriedKeys, Enabled;
    CarrierCounts(w.threads, worker);
    FlightBreaksExactly(u, w, Advance(id));
  }

  lemma {:induction false} AssembleRun(u: Setup, w: World, id: nat, w': World, k: Name, i: nat, j: nat) returns (acts: seq<Action>, emptied: nat)
    requires Reaches(u, Initial(), w) && SingleFlight(w.s, w.threads) && id in w.threads && w.threads[id] == Prefetcher(Failing)
    requires i in w.threads && Carried(w.threads[i]).Some?
    requires Enabled(u, w, Advance(id)) && Reaches(u, Next(u, w, Advance(id)), w')
    requires Carrier(w'.threads, i, k) && Carrier(w'.threads, j, k) && i != j
    ensures ReadTwice(u, acts, k, emptied)
  {
    hide Run, Next, Enabled, SingleFlight, Inv, Carrier, CarriedKeys;
    var p :| Run(u, Initial(), p) == w;
    var q :| Run(u, Next(u, w, Advance(id)), q) == w';
    EveryRunKeepsInv(u, p);
    FlightEnds(u, w, id, i);
    RunOne(u, w, Advance(id));
    RunAppend(u, Initial(), p, [Advance(id)]);
    RunAppend(u, Initial(), p + [Advance(id)], q);
    acts, emptied := p + [Advance(id)] + q, |p|;
    assert acts[..emptied] == p && acts[emptied] == Advance(id);
  }

  /** A worker is started and reads a key; no other can be started, and the acquirer gives up. */
  lemma {:induction false} ReadAndGiveUp(u: Setup, k: Name) returns (w: World)
    requires u.workers >= 2
    ensures Reaches(u, Initial(), w) && w.handles == {10} && w.sleeping == {}
    ensures w.threads == map[0 := Acquirer(Refused(k, NoWorkers)), 10 := Worker(Reading(k))]
    ensures w.s == Shared([], {k}, map[k := 0], map[], EMPTY_CACHE, false, {}, 1)
  {
    var a := AskAndRead(u, Initial(), 0, 10, k);
    assert a.handles == {10};
    hide Reaches;
    w := FailToStart(u, a, 0);
    ReachesTwice(u, Initial(), a, w);
  }

  /** Then a prefetch cannot start a worker either, and is about to empty the store. */
  lemma {:induction false} ReadAndFail(u: Setup, k: Name, q: Name) returns (w: World)
    requires u.workers >= 2 && u.queueLimit >= 1 && k != q
    ensures Reaches(u, Initial(), w) && SingleFlight(w.s, w.threads)
    ensures !w.s.closed && w.s.cache == EMPTY_CACHE && w.handles == {10} && w.sleeping == {}
    ensures w.threads == map[0 := Acquirer(Refused(k, NoWorkers)), 10 := Worker(Reading(k)), 1 := Prefetcher(Failing)]
  {
    var a := ReadAndGiveUp(u, k);
    hide Reaches, SingleFlight;
    w := FailingPrefetch(u, a, 1, q);
    ReachesTwice(u, Initial(), a, w);
    HintedFlight(a.s, w.threads, k, q);
  }

  lemma {:induction false} HintedFlight(s: Shared, threads: map<nat, Thread>, k: Name, q: Name)
    requires k != q && s == Shared([], {k}, map[k := 0], map[], EMPTY_CACHE, false, {}, 1)
    requires threads == map[0 := Acquirer(Refused(k, NoWorkers)), 10 := Worker(Reading(k)), 1 := Prefetcher(Failing)]
    ensures SingleFlight(Hinted(s, q), threads)
    ensures Hinted(s, q).cache == EMPTY_CACHE && !Hinted(s, q).closed
  {
    assert Hinted(s, q).queue == [q] && Hinted(s, q).inflight == {k, q} && Hinted(s, q).waiters == map[k := 0, q := 1];
  }

  /** The prefetch empties the store; a new acquirer registers the key again, and a second worker reads it too. */
  lemma {:induction false} TwoReaders(u: Setup, w: World, k: Name) returns (w': World)
    requires u.workers >= 2 && !w.s.closed && w.s.cache == EMPTY_CACHE && w.handles == {10} && w.sleeping == {}
    requires w.threads == map[0 := Acquirer(Refused(k, NoWorkers)), 10 := Worker(Reading(k)), 1 := Prefetcher(Failing)]
    ensures Enabled(u, w, Advance(1)) && Reaches(u, Next(u, w, Advance(1)), w')
    ensures !w'.s.closed && w'.s.cache == EMPTY_CACHE && w'.sleeping == {}
    ensures w'.threads.Keys == {0, 1, 2, 10, 11} && w'.threads[10] == w'.threads[11] == Worker(Reading(k))
  {
    hide Reaches, AllFailed, Enabled, Next;
    var a := EmptyStore(u, w, 1);
    EmptiedFacts(w.s);
    w' := AskAndRead(u, a, 2, 11, k);
  }

  /**
   The condition on emptying is needed. A worker reads a key, a prefetch fails and empties the store, a new
   acquirer registers the key again, and a second worker reads it too.
   */
  lemma {:induction false} SameKeyReadTwice(u: Setup, k: Name, q: Name) returns (acts: seq<Action>, emptied: nat)
    requires u.workers >= 2 && u.queueLimit >= 1 && k != q
    ensures ReadTwice(u, acts, k, emptied)
  {
    hide Reaches, ReadTwice, Enabled, Next, SingleFlight;
    var a := ReadAndFail(u, k, q);
    var b := TwoReaders(u, a, k);
    acts, emptied := AssembleRun(u, a, 1, b, k, 10, 11);
  }

  // ----- A held entry is overwritten -----

  lemma {:induction false} GoAndLoad(u: Setup, w: World, worker: nat, k: Name) returns (w': World)
    requires worker in w.threads && w.threads[worker] == Worker(Reading(k)) && ReadKey(u.reader, k).Ok?
    ensures Reaches(u, w, w') && w' == w.(threads := w.threads[worker := Worker(Caching(k, ReadKey(u.reader, k).value))])
  {
    hide Reaches, ReadKey;
    w' := Go(u, w, worker, w.s, Worker(Caching(k, ReadKey(u.reader, k).value)));
  }

  lemma {:induction false} GoAndStore(u: Setup, w: World, worker: nat, k: Name, data: Bytes) returns (w': World)
    requires worker in w.threads && w.threads[worker] == Worker(Caching(k, data))
    ensures Reaches(u, w, w')
    ensures w' == w.(s := w.s.(cache := Stored(w.s.cache, k, data, u.capacity)), threads := w.threads[worker := Worker(ClearingError(k))])
  {
    hide Reaches, Stored;
    w' := Go(u, w, worker, w.s.(cache := Stored(w.s.cache, k, data, u.capacity)), Worker(ClearingError(k)));
  }

  lemma {:induction false} HitSections(u: Setup, s: Shared, k: Name, handles: set<nat>)
    requires !s.closed && k in s.cache.slots
    ensures ThreadStep(u, s, Acquirer(Called(k)), handles) == (s, Acquirer(Probing(k)))
    ensures ThreadStep(u, s, Acquirer(Probing(k)), handles)
            == (s.(cache := Touched(s.cache, k).0), Acquirer(Holding(k, s.cache.slots[k].data)))
  {
    hide HintStep, CloseStep, WorkStep, Without;
  }

  /** An acquirer finds its key cached and holds the entry. */
  lemma {:induction false} GoAndHold(u: Setup, w: World, id: nat, k: Name) returns (w': World)
    requires id !in w.threads && !w.s.closed && k in w.s.cache.slots
    ensures Reaches(u, w, w')
    ensures w' == w.(s := w.s.(cache := Touched(w.s.cache, k).0), threads := w.threads[id := Acquirer(Holding(k, w.s.cache.slots[k].data))])
  {
    HitSections(u, w.s, k, w.handles);
    hide ThreadStep, Reaches, Touched;
    var a := Start(u, w, id, Acquirer(Called(k)));
    var b := Go(u, a, id, w.s, Acquirer(Probing(k)));
    w' := Go(u, b, id, w.s.(cache := Touched(w.s.cache, k).0), Acquirer(Holding(k, w.s.cache.slots[k].data)));
    ReachesTwice(u, w, a, b);
    ReachesTwice(u, w, b, w');
    assert w'.threads == w.threads[id := Acquirer(Holding(k, w.s.cache.slots[k].data))];
  }

  lemma {:induction false} StoredIsThere(u: Setup, w: World, k: Name, data: Bytes)
    requires CacheOk(w.s.cache)
    ensures var c := Stored(w.s.cache, k, data, u.capacity); k in c.slots && c.slots[k] == Slot(data, 0)
  {
    hide Inserted, WellFormed;
    StoredIsInserted(w.s.cache, k, data, u.capacity);
    InsertMakesRoom(w.s.cache, k, data, u.capacity);
  }

  /** Of two readers of a key one stores it, and an acquirer holds it before the other does. */
  lemma {:induction false} HoldBetween(u: Setup, w: World, k: Name) returns (w': World)
    requires ReadKey(u.reader, k).Ok? && !w.s.closed && CacheOk(w.s.cache)
    requires w.threads.Keys == {0, 1, 2, 10, 11} && w.threads[10] == w.threads[11] == Worker(Reading(k))
    ensures Reaches(u, w, w') && PinCount(w'.s.cache.slots, k) == 1
    ensures w'.threads.Keys == {0, 1, 2, 3, 10, 11} && Pin(w'.threads[3]) == Some(k) && Storing(w'.threads[10], k)
  {
    var data := ReadKey(u.reader, k).value;
    StoredIsThere(u, w, k, data);
    hide Reaches, ReadKey, Stored, CacheOk;
    var a := GoAndLoad(u, w, 11, k);
    var b := GoAndStore(u, a, 11, k, data);
    var c := GoAndHold(u, b, 3, k);
    w' := GoAndLoad(u, c, 10, k);
    ReachesTwice(u, w, a, b);
    ReachesTwice(u, w, b, c);
    ReachesTwice(u, w, c, w');
  }

  lemma {:induction false} ReachBetween(u: Setup, k: Name, q: Name) returns (w: World)
    requires u.workers >= 2 && u.queueLimit >= 1 && k != q && ReadKey(u.reader, k).Ok?
    ensures Reaches(u, Initial(), w) && Inv(u, w) && PinCount(w.s.cache.slots, k) == 1
    ensures w.threads.Keys == {0, 1, 2, 3, 10, 11} && Pin(w.threads[3]) == Some(k) && Storing(w.threads[10], k)
  {
    hide Reaches, Enabled, Next, SingleFlight, Inv, ReadKey, CacheOk, PinCount, Storing, Pin;
    var a := ReadAndFail(u, k, q);
    var b := TwoReaders(u, a, k);
    OneStep(u, a, Advance(1));
    ReachesTwice(u, Initial(), a, Next(u, a, Advance(1)));
    ReachesTwice(u, Initial(), Next(u, a, Advance(1)), b);
    ReachedInv(u, b);
    InvCache(u, b);
    w := HoldBetween(u, b, k);
    ReachesTwice(u, Initial(), b, w);
    ReachedInv(u, w);
  }

  lemma {:induction false} ReachedInv(u: Setup, w: World)
    requires Reaches(u, Initial(), w)
    ensures Inv(u, w)
  {
    hide Inv, Run;
    var p :| Run(u, Initial(), p) == w;
    EveryRunKeepsInv(u, p);
  }

  lemma {:induction false} PinIsLost(u: Setup, w: World, k: Name)
    requires Inv(u, w) && PinCount(w.s.cache.slots, k) == 1
    requires w.threads.Keys == {0, 1, 2, 3, 10, 11} && Pin(w.threads[3]) == Some(k) && Storing(w.threads[10], k)
    ensures Enabled(u, w, Advance(10))
    ensures var w' := Next(u, w, Advance(10));
            3 in w'.threads && Pin(w'.threads[3]) == Some(k) && PinCount(w'.s.cache.slots, k) == 0 && !Exact(w', k)
  {
    var act := Advance(10);
    assert Enabled(u, w, act) && Mover(act) == 10;
    var _, _ := KindOf(u, w, act);
    InvCache(u, w);
    hide Next, Enabled, Inv, CacheOk, Kind, Storing, Pin;
    PinsMove(u, w, act, k);
    var w' := Next(u, w, act);
    assert w'.threads[3] == w.threads[3];
    assert 3 in Pinners(w'.threads, k);
  }

  /**
   Pins can be lost. After two workers came to read one key, the first stores it, an acquirer holds the entry, and
   the second stores over it: the entry counts no pins while the acquirer holds it.
   */
  lemma {:induction false} HeldEntryLosesItsPin(u: Setup, k: Name, q: Name) returns (acts: seq<Action>)
    requires u.workers >= 2 && u.queueLimit >= 1 && k != q && ReadKey(u.reader, k).Ok?
    ensures var w := Run(u, Initial(), acts);
            3 in w.threads && Pin(w.threads[3]) == Some(k) && PinCount(w.s.cache.slots, k) == 0 && Overwritten(u, acts, k)
  {
    var v := ReachBetween(u, k, q);
    var p :| Run(u, Initial(), p) == v;
    acts := p + [Advance(10)];
    PinIsLost(u, v, k);
    hide Run, Enabled, Next, Overwritten, PinCount, Pin;
    RunOne(u, v, Advance(10));
    RunAppend(u, Initial(), p, [Advance(10)]);
    ExactIffNotOverwritten(u, acts, k);
  }
}
