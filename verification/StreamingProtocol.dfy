/**
 Every interleaving of acquirers, prefetchers, I/O workers and closers over one streaming store.

 A world is the shared state plus any number of threads, each stopped between two atomic
 sections. A blocked thread is one without an enabled action. A run is any sequence of actions.
 */
module StreamingProtocol {
  import opened Prelude
  import opened ChunkCaches
  import opened PackFiles
  import opened StreamingStores

  type WorkerCount = n: nat | 1 <= n <= 64 witness 1

  datatype Setup = Setup(reader: OpenReader, capacity: nat, queueLimit: nat, workers: WorkerCount)

  /** Where a call of `acquire_bytes` stands. */
  datatype Acquire =
    | Called(key: Name)
    | Probing(key: Name)
    | Asking(key: Name)
    | AtEnsure(key: Name, ticket: nat)
    | AtNotify(key: Name, ticket: nat)
    | AtDoneLock(key: Name, ticket: nat)
    | Blocked(key: Name, ticket: nat)
    | Rechecking(key: Name)
    | TakingError(key: Name)
    | Holding(key: Name, data: Bytes)
    | Refused(key: Name, failure: Failure)
    | Released

  /** Where a call of `prefetch` stands. */
  datatype Hint =
    | Hinting(keys: seq<Name>)
    | AtKeys(keys: seq<Name>, queued: bool)
    | Unpinning(hit: Name, keys: seq<Name>, queued: bool)
    | HintEnsure
    | HintNotify
    | Failing
    | FailSignal(held: set<nat>)
    | HintOver

  /** Where a call of `close` stands. */
  datatype Close =
    | Closing
    | Draining
    | CloseNotify(held: set<nat>)
    | CloseSignal(held: set<nat>)
    | Joining(workers: set<nat>)
    | CloseOver

  /** Where a worker stands. */
  datatype Work =
    | Looking
    | Reading(key: Name)
    | Caching(key: Name, data: Bytes)
    | ClearingError(key: Name)
    | RecordingError(key: Name, error: PackError)
    | Finishing(key: Name)
    | Signalling(ticket: nat)
    | Left

  datatype Thread = Acquirer(a: Acquire) | Prefetcher(h: Hint) | Closer(c: Close) | Worker(k: Work)

  /**
   `sleeping` holds the workers waiting on the condition variable, `handles` the workers in the
   store's handle list. The flags record that `close` has drained the store, that `fail_pending` has
   run, and that an acquirer gave up because no worker could be started.
   */
  datatype World = World(
    s: Shared, threads: map<nat, Thread>, sleeping: set<nat>, handles: set<nat>,
    drained: bool, failed: bool, gaveUp: bool)

  function Initial(): World {
    World(Fresh(), map[], {}, {}, false, false, false)
  }

  // ----- One section of one thread -----

  function AcquireStep(s: Shared, a: Acquire): (Shared, Acquire) {
    match a
    case Called(k) => (s, if s.closed then Refused(k, StoreClosed) else Probing(k))
    case Probing(k) =>
      var (cache, hit) := Touched(s.cache, k);
      if hit.Some? then (s.(cache := cache), Holding(k, hit.value)) else (s, Asking(k))
    case Asking(k) =>
      var (s', answer) := Asked(s, k);
      (s', match answer case Hit(data) => Holding(k, data) case Join(t) => AtDoneLock(k, t) case Load(t) => AtEnsure(k, t))
    case AtDoneLock(k, t) =>
      (s, if t in s.done then Rechecking(k) else if s.closed then Refused(k, StoreClosed) else Blocked(k, t))
    case Blocked(k, t) => (s, AtDoneLock(k, t))
    case Rechecking(k) =>
      var (cache, hit) := Touched(s.cache, k);
      if hit.Some? then (s.(cache := cache), Holding(k, hit.value)) else (s, TakingError(k))
    case TakingError(k) =>
      if k in s.errors then (s.(errors := s.errors - {k}), Refused(k, s.errors[k])) else (s, Called(k))
    case Holding(k, _) => (s.(cache := Unpinned(s.cache, k)), Released)
    case _ => (s, a)
  }

  function HintStep(s: Shared, h: Hint, limit: nat): (Shared, Hint) {
    match h
    case Hinting(keys) => (s, if s.closed then HintOver else AtKeys(keys, false))
    case AtKeys(keys, queued) =>
      if keys == [] || |s.queue| >= limit then (s, if queued then HintEnsure else HintOver)
      else
        var (cache, hit) := Touched(s.cache, keys[0]);
        if hit.Some? then (s.(cache := cache), Unpinning(keys[0], keys[1..], queued))
        else (Hinted(s, keys[0]), AtKeys(keys[1..], queued || !Known(s, keys[0])))
    case Unpinning(k, rest, queued) => (s.(cache := Unpinned(s.cache, k)), AtKeys(rest, queued))
    case HintNotify => (s, HintOver)
    case Failing => (AllFailed(s, NoWorkers), FailSignal(s.waiters.Values))
    case FailSignal(_) => (s, HintOver)
    case _ => (s, h)
  }

  function CloseStep(s: Shared, c: Close, handles: set<nat>): (Shared, Close) {
    match c
    case Closing => if s.closed then (s, CloseOver) else (s.(closed := true), Draining)
    case Draining => (Drained(s), CloseNotify(s.waiters.Values))
    case CloseNotify(held) => (s, CloseSignal(held))
    case CloseSignal(_) => (s, Joining(handles))
    case Joining(_) => (s, CloseOver)
    case CloseOver => (s, c)
  }

  /** The cache after an insertion. The queue it is given never has duplicates or unknown keys. */
  ghost function Stored(c: Cache, k: Name, data: Bytes, capacity: nat): Cache {
    if Covers(c.slots, c.recency) && Distinct(c.recency) then Inserted(c, k, data, capacity) else c
  }

  ghost function WorkStep(u: Setup, s: Shared, k: Work): (Shared, Work) {
    match k
    case Looking =>
      var (s', work) := Looked(s);
      (s', match work case Take(key) => Reading(key) case Leave => Left case Sleep => Looking)
    case Reading(key) =>
      (s, match ReadKey(u.reader, key) case Ok(data) => Caching(key, data) case Err(e) => RecordingError(key, e))
    case Caching(key, data) => (s.(cache := Stored(s.cache, key, data, u.capacity)), ClearingError(key))
    case ClearingError(key) => (s.(errors := s.errors - {key}), Finishing(key))
    case RecordingError(key, e) => (s.(errors := s.errors[key := ReadFailed(e)]), Finishing(key))
    case Finishing(key) =>
      var (s', ticket) := Finished(s, key);
      (s', if ticket.Some? then Signalling(ticket.value) else Looking)
    case Signalling(t) => (Signalled(s, t), Looking)
    case Left => (s, k)
  }

  ghost function ThreadStep(u: Setup, s: Shared, th: Thread, handles: set<nat>): (Shared, Thread) {
    match th
    case Acquirer(a) => var (s', a') := AcquireStep(s, a); (s', Acquirer(a'))
    case Prefetcher(h) => var (s', h') := HintStep(s, h, u.queueLimit); (s', Prefetcher(h'))
    case Closer(c) => var (s', c') := CloseStep(s, c, handles); (s', Closer(c'))
    case Worker(k) => var (s', k') := WorkStep(u, s, k); (s', Worker(k'))
  }

  // ----- Runs -----

  datatype Action =
    | Begin(id: nat, call: Thread)
    | Spawn(parent: nat, worker: nat)
    | Ensure(id: nat, ok: bool)
    | NotifyOne(id: nat, woken: nat)
    | Mark(id: nat, marked: nat)
    | Advance(id: nat)

  predicate AtSpawn(th: Thread) {
    (th.Acquirer? && th.a.AtEnsure?) || (th.Prefetcher? && th.h.HintEnsure?)
  }

  function Held(th: Thread): set<nat> {
    match th
    case Prefetcher(h) => if h.FailSignal? then h.held else {}
    case Closer(c) => if c.CloseSignal? then c.held else {}
    case _ => {}
  }

  predicate Starting(th: Thread) {
    (th.Acquirer? && th.a.Called?) || (th.Prefetcher? && th.h.Hinting?) || (th.Closer? && th.c.Closing?)
  }

  /** The thread's next section needs no choice and does not have to wait. */
  predicate Ready(w: World, id: nat)
    requires id in w.threads
  {
    match w.threads[id]
    case Acquirer(a) =>
      !a.AtEnsure? && !a.AtNotify? && !a.Refused? && !a.Released? && (a.Blocked? ==> a.ticket in w.s.done)
    case Prefetcher(h) => !h.HintEnsure? && !h.HintOver? && (h.FailSignal? ==> h.held == {})
    case Closer(c) =>
      !c.CloseOver? && (c.CloseSignal? ==> c.held == {})
      && (c.Joining? ==> forall h | h in c.workers :: h in w.threads && w.threads[h] == Worker(Left))
    case Worker(k) => !k.Left? && (k.Looking? ==> id !in w.sleeping)
  }

  /** `ensure_workers` can fail: a worker is missing and cannot be started, or one has already left. */
  predicate StartFails(u: Setup, w: World) {
    |w.handles| < u.workers || exists h | h in w.handles :: h in w.threads && w.threads[h] == Worker(Left)
  }

  predicate Enabled(u: Setup, w: World, act: Action) {
    match act
    case Begin(id, call) => id !in w.threads && Starting(call)
    case Spawn(parent, worker) =>
      parent in w.threads && AtSpawn(w.threads[parent]) && worker !in w.threads && |w.handles| < u.workers
    case Ensure(id, ok) =>
      id in w.threads && AtSpawn(w.threads[id]) && (if ok then |w.handles| >= u.workers else StartFails(u, w))
    case NotifyOne(id, woken) =>
      id in w.threads && w.threads[id].Acquirer? && w.threads[id].a.AtNotify? && (w.sleeping == {} || woken in w.sleeping)
    case Mark(id, marked) => id in w.threads && marked in Held(w.threads[id])
    case Advance(id) => id in w.threads && Ready(w, id)
  }

  /** The caller of `ensure_workers` goes on, or gives up. */
  function Ensured(th: Thread, ok: bool): Thread
    requires AtSpawn(th)
  {
    match th
    case Acquirer(a) => Acquirer(if ok then AtNotify(a.key, a.ticket) else Refused(a.key, NoWorkers))
    case Prefetcher(_) => Prefetcher(if ok then HintNotify else Failing)
  }

  function Marked(th: Thread, t: nat): Thread
    requires t in Held(th)
  {
    match th
    case Prefetcher(h) => Prefetcher(FailSignal(h.held - {t}))
    case Closer(c) => Closer(CloseSignal(c.held - {t}))
  }

  predicate NotifiesAll(th: Thread) {
    (th.Prefetcher? && th.h.HintNotify?) || (th.Closer? && th.c.CloseNotify?)
  }

  /** The thread is about to forget all that is pending. */
  predicate Empties(th: Thread) {
    th == Closer(Draining) || th == Prefetcher(Failing)
  }

  predicate FallsAsleep(s: Shared, th: Thread) {
    th == Worker(Looking) && s.queue == [] && !s.closed
  }

  ghost function Next(u: Setup, w: World, act: Action): World
    requires Enabled(u, w, act)
  {
    match act
    case Begin(id, call) => w.(threads := w.threads[id := call])
    case Spawn(_, worker) => w.(threads := w.threads[worker := Worker(Looking)], handles := w.handles + {worker})
    case Ensure(id, ok) =>
      w.(threads := w.threads[id := Ensured(w.threads[id], ok)],
         gaveUp := w.gaveUp || (w.threads[id].Acquirer? && !ok))
    case NotifyOne(id, woken) =>
      var a := w.threads[id].a;
      w.(threads := w.threads[id := Acquirer(AtDoneLock(a.key, a.ticket))], sleeping := w.sleeping - {woken})
    case Mark(id, t) => w.(s := Signalled(w.s, t), threads := w.threads[id := Marked(w.threads[id], t)])
    case Advance(id) =>
      var th := w.threads[id];
      var (s', th') := ThreadStep(u, w.s, th, w.handles);
      World(s', w.threads[id := th'],
            if NotifiesAll(th) then {} else if FallsAsleep(w.s, th) then w.sleeping + {id} else w.sleeping,
            if th.Closer? && th.c.CloseSignal? then {} else w.handles,
            w.drained || th == Closer(Draining),
            w.failed || th == Prefetcher(Failing),
            w.gaveUp)
  }

  /** A run; an action that is not enabled is skipped. */
  ghost function Run(u: Setup, w: World, acts: seq<Action>): World
    decreases |acts|
  {
    if acts == [] then w
    else
      var before := Run(u, w, acts[..|acts| - 1]);
      var act := acts[|acts| - 1];
      if Enabled(u, before, act) then Next(u, before, act) else before
  }

  lemma {:induction false} RunAppend(u: Setup, w: World, a: seq<Action>, b: seq<Action>)
    ensures Run(u, w, a + b) == Run(u, Run(u, w, a), b)
    decreases |b|
  {
    hide Enabled, Next;
    if b == [] {
      assert a + b == a;
    } else {
      assert (a + b)[..|a + b| - 1] == a + b[..|b| - 1];
      RunAppend(u, w, a, b[..|b| - 1]);
    }
  }

  lemma {:induction false} RunOne(u: Setup, w: World, act: Action)
    requires Enabled(u, w, act)
    ensures Run(u, w, [act]) == Next(u, w, act)
  {
    hide Enabled, Next;
    assert [act][..0] == [];
    assert Run(u, w, []) == w;
  }

  // ----- What a thread holds -----

  /** The ticket an acquirer waits for, or is about to. */
  function Waits(a: Acquire): Option<(Name, nat)> {
    if a.AtEnsure? || a.AtNotify? || a.AtDoneLock? || a.Blocked? then Some((a.key, a.ticket)) else None
  }

  function Awaits(th: Thread): Option<(Name, nat)> {
    if th.Acquirer? then Waits(th.a) else None
  }

  /** The tickets a thread is about to mark done. */
  function InHand(th: Thread): set<nat> {
    match th
    case Acquirer(_) => {}
    case Prefetcher(h) => if h.FailSignal? then h.held else {}
    case Closer(c) => if c.CloseNotify? || c.CloseSignal? then c.held else {}
    case Worker(k) => if k.Signalling? then {k.ticket} else {}
  }

  /** The key a worker has taken from the queue and not finished. */
  function Carries(k: Work): Option<Name> {
    if k.Looking? || k.Signalling? || k.Left? then None else Some(k.key)
  }

  function Carried(th: Thread): Option<Name> {
    if th.Worker? then Carries(th.k) else None
  }

  /** The cache entry a thread has pinned and not yet released. */
  function Pin(th: Thread): Option<Name> {
    match th
    case Acquirer(a) => if a.Holding? then Some(a.key) else None
    case Prefetcher(h) => if h.Unpinning? then Some(h.hit) else None
    case _ => None
  }

  ghost function Hands(threads: map<nat, Thread>): set<nat> {
    set id, t | id in threads && t in InHand(threads[id]) :: t
  }

  ghost function CarriedKeys(threads: map<nat, Thread>): set<Name> {
    set id | id in threads && Carried(threads[id]).Some? :: Carried(threads[id]).value
  }

  lemma {:induction false} HandsMoved(threads: map<nat, Thread>, id: nat, th: Thread, t: nat)
    requires t in Hands(threads)
    ensures t in Hands(threads[id := th]) || (id in threads && t in InHand(threads[id]))
  {
    var i :| i in threads && t in InHand(threads[i]);
    if i != id {
      assert threads[id := th][i] == threads[i];
    }
  }

  lemma {:induction false} InHandIsHeld(threads: map<nat, Thread>, id: nat)
    requires id in threads
    ensures InHand(threads[id]) <= Hands(threads)
  {
  }

  // ----- The kinds of steps -----

  predicate Registered(s: Shared, k: Name, t: nat) {
    k in s.waiters && s.waiters[k] == t
  }

  predicate SameDesk(s: Shared, s': Shared) {
    s'.queue == s.queue && s'.inflight == s.inflight && s'.waiters == s.waiters && s'.done == s.done && s'.tickets == s.tickets
  }

  /** A section that registers, takes, finishes and marks nothing. */
  ghost predicate Quiet(s: Shared, th: Thread, s': Shared, th': Thread) {
    && SameDesk(s, s')
    && InHand(th') == InHand(th) && Carried(th') == Carried(th)
    && (Awaits(th').None? || Awaits(th') == Awaits(th) || Registered(s, Awaits(th').value.0, Awaits(th').value.1))
  }

  /** An acquirer registers a key nobody waits for. */
  ghost predicate Loads(s: Shared, th: Thread, s': Shared, th': Thread, k: Name) {
    && th == Acquirer(Asking(k)) && k !in s.cache.slots && k !in s.waiters
    && s' == Demanded(s, k) && th' == Acquirer(AtEnsure(k, s.tickets))
  }

  /** A prefetcher registers an unknown key. */
  ghost predicate Hints(s: Shared, th: Thread, s': Shared, th': Thread, k: Name) {
    && th.Prefetcher? && th.h.AtKeys? && k !in s.cache.slots && !Known(s, k)
    && s' == Hinted(s, k) && th'.Prefetcher? && th'.h.AtKeys? && th'.h.queued
  }

  ghost predicate Takes(s: Shared, th: Thread, s': Shared, th': Thread) {
    th == Worker(Looking) && s.queue != [] && s' == s.(queue := s.queue[1..]) && th' == Worker(Reading(s.queue[0]))
  }

  ghost predicate Finishes(s: Shared, th: Thread, s': Shared, th': Thread, k: Name) {
    && th == Worker(Finishing(k)) && s' == Finished(s, k).0
    && th' == Worker(if k in s.waiters then Signalling(s.waiters[k]) else Looking)
  }

  ghost predicate Marks(s: Shared, th: Thread, s': Shared, th': Thread, t: nat) {
    && s' == Signalled(s, t) && InHand(th) <= InHand(th') + {t}
    && Carried(th) == Carried(th') == None && Awaits(th').None? && Pin(th) == Pin(th') == None
  }

  /** `close` or `fail_pending` forgets all that is pending. */
  ghost predicate Emptied(s: Shared, th: Thread, s': Shared, th': Thread) {
    && s' == Drained(s).(errors := s'.errors) && InHand(th') == s.waiters.Values
    && InHand(th) == {} && Carried(th) == Carried(th') == None && Awaits(th').None? && Pin(th) == Pin(th') == None
    && Empties(th)
  }

  ghost predicate Kind(s: Shared, th: Thread, s': Shared, th': Thread, k: Name, t: nat) {
    || Quiet(s, th, s', th')
    || Loads(s, th, s', th', k)
    || Hints(s, th, s', th', k)
    || Takes(s, th, s', th')
    || Finishes(s, th, s', th', k)
    || Marks(s, th, s', th', t)
    || Emptied(s, th, s', th')
  }

  lemma {:induction false} AcquireKind(s: Shared, a: Acquire) returns (k: Name)
    ensures var (s', a') := AcquireStep(s, a);
            Quiet(s, Acquirer(a), s', Acquirer(a')) || Loads(s, Acquirer(a), s', Acquirer(a'), k)
  {
    k := if a.Released? then EMPTY_NAME else a.key;
    TouchHits(s.cache, k);
    hide Touched, Unpinned;
  }

  lemma {:induction false} HintKind(s: Shared, h: Hint, limit: nat) returns (k: Name)
    requires h.FailSignal? ==> h.held == {}
    ensures var (s', h') := HintStep(s, h, limit);
            || Quiet(s, Prefetcher(h), s', Prefetcher(h')) || Hints(s, Prefetcher(h), s', Prefetcher(h'), k)
            || Emptied(s, Prefetcher(h), s', Prefetcher(h'))
  {
    k := if h.AtKeys? && h.keys != [] then h.keys[0] else EMPTY_NAME;
    TouchHits(s.cache, k);
    hide Touched, Unpinned;
  }

  lemma {:induction false} CloseKind(s: Shared, c: Close, handles: set<nat>)
    requires c.CloseSignal? ==> c.held == {}
    ensures var (s', c') := CloseStep(s, c, handles);
            Quiet(s, Closer(c), s', Closer(c')) || Emptied(s, Closer(c), s', Closer(c'))
  {
  }

  lemma {:induction false} WorkKind(u: Setup, s: Shared, k: Work) returns (key: Name, t: nat)
    ensures var (s', k') := WorkStep(u, s, k);
            || Quiet(s, Worker(k), s', Worker(k')) || Takes(s, Worker(k), s', Worker(k'))
            || Finishes(s, Worker(k), s', Worker(k'), key) || Marks(s, Worker(k), s', Worker(k'), t)
  {
    hide ReadKey, Stored;
    key := if k.Finishing? then k.key else EMPTY_NAME;
    t := if k.Signalling? then k.ticket else 0;
  }

  /** The thread before a step; one that does not exist yet holds nothing, like one that is over. */
  function Was(threads: map<nat, Thread>, id: nat): Thread {
    if id in threads then threads[id] else Acquirer(Released)
  }

  lemma {:induction false} ThreadKind(u: Setup, w: World, id: nat) returns (k: Name, t: nat)
    requires id in w.threads && Ready(w, id)
    ensures var (s', th') := ThreadStep(u, w.s, w.threads[id], w.handles);
            Kind(w.s, w.threads[id], s', th', k, t)
  {
    hide AcquireStep, HintStep, CloseStep, WorkStep, Quiet, Loads, Hints, Takes, Finishes, Marks, Emptied;
    k, t := EMPTY_NAME, 0;
    match w.threads[id] {
      case Acquirer(a) => k := AcquireKind(w.s, a);
      case Prefetcher(h) => k := HintKind(w.s, h, u.queueLimit);
      case Closer(c) => CloseKind(w.s, c, w.handles);
      case Worker(j) => k, t := WorkKind(u, w.s, j);
    }
  }

  /** The thread an action moves. */
  function Mover(act: Action): nat {
    match act
    case Begin(id, _) => id
    case Spawn(_, worker) => worker
    case Ensure(id, _) => id
    case NotifyOne(id, _) => id
    case Mark(id, _) => id
    case Advance(id) => id
  }

  lemma {:induction false} OtherKind(u: Setup, w: World, act: Action) returns (t: nat)
    requires Enabled(u, w, act) && !act.Advance?
    ensures var (w', id) := (Next(u, w, act), Mover(act));
            && id in w'.threads && w'.threads == w.threads[id := w'.threads[id]]
            && (Quiet(w.s, Was(w.threads, id), w'.s, w'.threads[id])
                || Marks(w.s, Was(w.threads, id), w'.s, w'.threads[id], t))
  {
    hide ThreadStep;
    t := if act.Mark? then act.marked else 0;
  }

  /** Every action moves one thread by a section of one of seven kinds. */
  lemma {:induction false} KindOf(u: Setup, w: World, act: Action) returns (k: Name, t: nat)
    requires Enabled(u, w, act)
    ensures var (w', id) := (Next(u, w, act), Mover(act));
            && id in w'.threads && w'.threads == w.threads[id := w'.threads[id]]
            && Kind(w.s, Was(w.threads, id), w'.s, w'.threads[id], k, t)
  {
    hide Quiet, Loads, Hints, Takes, Finishes, Marks, Emptied, ThreadStep;
    k, t := EMPTY_NAME, 0;
    if act.Advance? {
      k, t := ThreadKind(u, w, act.id);
    } else {
      t := OtherKind(u, w, act);
    }
  }

  // ----- No lost waiter -----

  /** A ticket that will be marked done: it is already, or it is registered, or a thread has it in hand. */
  ghost predicate Pending(s: Shared, threads: map<nat, Thread>, k: Name, t: nat) {
    t < s.tickets && (t in s.done || Registered(s, k, t) || t in Hands(threads))
  }

  ghost predicate Covered(s: Shared, threads: map<nat, Thread>, th: Thread) {
    Awaits(th).Some? ==> Pending(s, threads, Awaits(th).value.0, Awaits(th).value.1)
  }

  ghost predicate Cover(s: Shared, threads: map<nat, Thread>) {
    && (forall id | id in threads :: Covered(s, threads, threads[id]))
    && (forall k | k in s.waiters :: s.waiters[k] < s.tickets)
  }

  /** A step that moves one thread and drops no ticket. */
  lemma {:induction false} CoverMoved(s: Shared, threads: map<nat, Thread>, s': Shared, id: nat, th: Thread)
    requires Cover(s, threads)
    requires s.tickets <= s'.tickets && s.done <= s'.done
    requires forall k | k in s.waiters ::
      Registered(s', k, s.waiters[k]) || s.waiters[k] in InHand(th) || s.waiters[k] in s'.done
    requires InHand(Was(threads, id)) <= InHand(th) + s'.done
    requires forall k | k in s'.waiters :: Registered(s, k, s'.waiters[k]) || s'.waiters[k] < s'.tickets
    requires Awaits(th).None? || Awaits(Was(threads, id)) == Awaits(th)
             || Registered(s', Awaits(th).value.0, Awaits(th).value.1)
    ensures Cover(s', threads[id := th])
  {
    hide Hands, Awaits;
    var threads' := threads[id := th];
    InHandIsHeld(threads', id);
    forall i | i in threads' ensures Covered(s', threads', threads'[i]) {
      var a := Awaits(threads'[i]);
      NobodyAwaits();
      if a.Some? && Awaits(Was(threads, i)) == a {
        assert Covered(s, threads, threads[i]);
        if a.value.1 in Hands(threads) {
          HandsMoved(threads, id, th, a.value.1);
        }
      }
    }
  }

  lemma {:induction false} NobodyAwaits()
    ensures Awaits(Acquirer(Released)) == None
  {
  }

  lemma {:induction false} CoverTaken(s: Shared, threads: map<nat, Thread>, s': Shared, id: nat, th: Thread, k: Name)
    requires Cover(s, threads)
    requires Finishes(s, Was(threads, id), s', th, k) || Emptied(s, Was(threads, id), s', th)
    ensures Cover(s', threads[id := th])
  {
    hide Cover;
    assert forall j | j in s.waiters :: s.waiters[j] in s.waiters.Values;
    CoverMoved(s, threads, s', id, th);
  }

  lemma {:induction false} CoverAdded(s: Shared, threads: map<nat, Thread>, s': Shared, id: nat, th: Thread, k: Name)
    requires Cover(s, threads) && (Loads(s, Was(threads, id), s', th, k) || Hints(s, Was(threads, id), s', th, k))
    ensures Cover(s', threads[id := th])
  {
    CoverMoved(s, threads, s', id, th);
  }

  /** No section drops a ticket. */
  lemma {:induction false} CoverKept(s: Shared, threads: map<nat, Thread>, s': Shared, id: nat, th: Thread, k: Name, t: nat)
    requires Cover(s, threads) && Kind(s, Was(threads, id), s', th, k, t)
    ensures Cover(s', threads[id := th])
  {
    hide Cover, Finishes, Emptied, Loads, Hints;
    var was := Was(threads, id);
    if Finishes(s, was, s', th, k) || Emptied(s, was, s', th) {
      CoverTaken(s, threads, s', id, th, k);
    } else if Loads(s, was, s', th, k) || Hints(s, was, s', th, k) {
      CoverAdded(s, threads, s', id, th, k);
    } else {
      CoverMoved(s, threads, s', id, th);
    }
  }

  // ----- Registered keys are queued or carried -----

  /** A key that somebody may wait for is queued or in a worker's hands. */
  ghost predicate Placed(s: Shared, threads: map<nat, Thread>) {
    forall k | k in s.waiters :: k in s.queue || k in CarriedKeys(threads)
  }

  lemma {:induction false} CarriedMoved(threads: map<nat, Thread>, id: nat, th: Thread, k: Name)
    ensures k in CarriedKeys(threads[id := th]) <== k in CarriedKeys(threads) && Carried(Was(threads, id)) != Some(k)
    ensures k in CarriedKeys(threads[id := th]) <== Carried(th) == Some(k)
  {
    var threads' := threads[id := th];
    if Carried(th) == Some(k) {
      assert id in threads' && Carried(threads'[id]) == Some(k);
    } else if k in CarriedKeys(threads) && Carried(Was(threads, id)) != Some(k) {
      var i :| i in threads && Carried(threads[i]) == Some(k);
      assert threads'[i] == threads[i];
    }
  }

  lemma {:induction false} PlacedKept(s: Shared, threads: map<nat, Thread>, s': Shared, id: nat, th: Thread, k: Name, t: nat)
    requires Placed(s, threads) && Kind(s, Was(threads, id), s', th, k, t)
    ensures Placed(s', threads[id := th])
  {
    hide CarriedKeys;
    forall j | j in s'.waiters ensures j in s'.queue || j in CarriedKeys(threads[id := th]) {
      CarriedMoved(threads, id, th, j);
      if Takes(s, Was(threads, id), s', th) {
        assert s.queue == [s.queue[0]] + s'.queue;
      }
    }
  }

  // ----- What sections do to the cache -----

  predicate KeepsCache(s: Shared, th: Thread, s': Shared, th': Thread) {
    && s'.cache == s.cache && Pin(th') == Pin(th) && (th.Worker? ==> !th.k.Caching?)
    && (Unstored(th') && Carried(th).Some? ==> Unstored(th))
  }

  /** The thread carries a key that it has not stored. */
  predicate Unstored(th: Thread) {
    th.Worker? && (th.k.Reading? || th.k.Caching?)
  }

  /** A hit: the thread pins the entry and, if it is an acquirer, has its bytes. */
  predicate Pins(s: Shared, th: Thread, s': Shared, th': Thread) {
    && Pin(th) == None && Pin(th').Some? && Pin(th').value in s.cache.slots && Carried(th) == None
    && s'.cache == Touched(s.cache, Pin(th').value).0
    && (th'.Acquirer? ==> th' == Acquirer(Holding(Pin(th').value, s.cache.slots[Pin(th').value].data)))
  }

  predicate Unpins(s: Shared, th: Thread, s': Shared, th': Thread) {
    Pin(th).Some? && Pin(th') == None && s'.cache == Unpinned(s.cache, Pin(th).value) && Carried(th) == None
  }

  ghost predicate Stores(u: Setup, s: Shared, th: Thread, s': Shared, th': Thread) {
    && th.Worker? && th.k.Caching? && th' == Worker(ClearingError(th.k.key))
    && s'.cache == Stored(s.cache, th.k.key, th.k.data, u.capacity)
  }

  ghost predicate CacheKind(u: Setup, s: Shared, th: Thread, s': Shared, th': Thread) {
    KeepsCache(s, th, s', th') || Pins(s, th, s', th') || Unpins(s, th, s', th') || Stores(u, s, th, s', th')
  }

  lemma {:induction false} AcquireCache(u: Setup, s: Shared, a: Acquire)
    ensures var (s', a') := AcquireStep(s, a); CacheKind(u, s, Acquirer(a), s', Acquirer(a'))
  {
    hide Without, Unpinned;
  }

  lemma {:induction false} HintCache(u: Setup, s: Shared, h: Hint)
    ensures var (s', h') := HintStep(s, h, u.queueLimit); CacheKind(u, s, Prefetcher(h), s', Prefetcher(h'))
  {
    hide Without, Unpinned;
  }

  lemma {:induction false} WorkCache(u: Setup, s: Shared, k: Work)
    ensures var (s', k') := WorkStep(u, s, k); CacheKind(u, s, Worker(k), s', Worker(k'))
  {
    hide ReadKey, Stored;
  }

  lemma {:induction false} CacheKindOf(u: Setup, w: World, act: Action)
    requires Enabled(u, w, act)
    ensures var (w', id) := (Next(u, w, act), Mover(act));
            id in w'.threads && CacheKind(u, w.s, Was(w.threads, id), w'.s, w'.threads[id])
  {
    hide AcquireStep, HintStep, WorkStep, Pins, Unpins, Stores;
    if act.Advance? {
      match w.threads[act.id] {
        case Acquirer(a) => AcquireCache(u, w.s, a);
        case Prefetcher(h) => HintCache(u, w.s, h);
        case Closer(c) =>
        case Worker(k) => WorkCache(u, w.s, k);
      }
    } else {
      hide ThreadStep;
    }
  }

  // ----- Single flight -----

  /** The key this thread works on is registered, is not queued any more and, until stored, is not cached. */
  predicate CarrierOk(s: Shared, th: Thread) {
    Carried(th).Some? ==>
      var k := Carried(th).value;
      k in s.inflight && k !in s.queue && (Unstored(th) ==> k !in s.cache.slots)
  }

  ghost predicate OneCarrier(threads: map<nat, Thread>) {
    forall i, j | i in threads && j in threads && Carried(threads[i]).Some? && Carried(threads[i]) == Carried(threads[j]) :: i == j
  }

  predicate QueueOk(s: Shared) {
    forall i | 0 <= i < |s.queue| :: s.queue[i] in s.inflight && s.queue[i] !in s.cache.slots
  }

  ghost predicate SingleFlight(s: Shared, threads: map<nat, Thread>) {
    && s.waiters.Keys == s.inflight
    && Distinct(s.queue) && QueueOk(s)
    && (forall id | id in threads :: CarrierOk(s, threads[id]))
    && OneCarrier(threads)
  }

  /** A section caches a key only if its thread carried that key and was to store it. */
  lemma {:induction false} OnlyStoringAdds(u: Setup, s: Shared, th: Thread, s': Shared, th': Thread, k: Name)
    requires CacheKind(u, s, th, s', th') && CacheOk(s.cache) && k in s'.cache.slots
    ensures k in s.cache.slots || (Stores(u, s, th, s', th') && th.k.key == k)
  {
    if Stores(u, s, th, s', th') {
      hide Inserted, WellFormed;
      InsertMakesRoom(s.cache, th.k.key, th.k.data, u.capacity);
    }
  }

  ghost predicate CacheOk(c: Cache) {
    WellFormed(c) && Covers(c.slots, c.recency)
  }

  lemma {:induction false} StoredIsInserted(c: Cache, k: Name, data: Bytes, capacity: nat)
    requires CacheOk(c)
    ensures Distinct(c.recency) && Stored(c, k, data, capacity) == Inserted(c, k, data, capacity)
  {
    hide SumValues, Inserted;
  }

  lemma {:induction false} CacheKept(u: Setup, s: Shared, th: Thread, s': Shared, th': Thread)
    requires CacheKind(u, s, th, s', th') && CacheOk(s.cache)
    ensures CacheOk(s'.cache)
  {
    if Stores(u, s, th, s', th') {
      StoredIsInserted(s.cache, th.k.key, th.k.data, u.capacity);
      InsertKeeps(s.cache, th.k.key, th.k.data, u.capacity);
    } else if Pins(s, th, s', th') {
      TouchKeeps(s.cache, Pin(th').value);
    } else if Unpins(s, th, s', th') {
      UnpinKeeps(s.cache, Pin(th).value);
    }
    hide WellFormed, Inserted, Stored, Touched, Unpinned;
    WellFormedCovers(s'.cache);
  }

  /** What a section may add to the cache, and how a thread comes to carry a key it has not stored. */
  ghost predicate OnlyAdds(s: Shared, th: Thread, s': Shared, th': Thread) {
    && (forall x | x in s'.cache.slots && x !in s.cache.slots :: Carried(th) == Some(x) && !Unstored(th'))
    && (Unstored(th') && Carried(th).Some? ==> Unstored(th))
  }

  lemma {:induction false} CacheGrowth(u: Setup, s: Shared, th: Thread, s': Shared, th': Thread)
    requires CacheKind(u, s, th, s', th') && CacheOk(s.cache)
    ensures OnlyAdds(s, th, s', th')
  {
    hide CacheOk, Stored;
    forall x | x in s'.cache.slots && x !in s.cache.slots ensures Carried(th) == Some(x) && !Unstored(th') {
      OnlyStoringAdds(u, s, th, s', th', x);
    }
  }

  lemma {:induction false} FlightQuiet(s: Shared, threads: map<nat, Thread>, s': Shared, id: nat, th: Thread)
    requires SingleFlight(s, threads) && Quiet(s, Was(threads, id), s', th) && OnlyAdds(s, Was(threads, id), s', th)
    ensures SingleFlight(s', threads[id := th])
  {
    hide Distinct, InHand;
    var threads' := threads[id := th];
    var was := Was(threads, id);
    assert CarrierOk(s, was);
    forall i | 0 <= i < |s'.queue| ensures s'.queue[i] in s'.inflight && s'.queue[i] !in s'.cache.slots {
      var q := s.queue[i];
      assert q in s.queue && q !in s.cache.slots;
      assert Carried(was) != Some(q);
    }
    forall i | i in threads' ensures CarrierOk(s', threads'[i]) {
      if i != id {
        assert CarrierOk(s, threads[i]);
        assert Carried(was).Some? ==> id in threads;
      }
    }
    forall i, j | i in threads' && j in threads' && Carried(threads'[i]).Some? && Carried(threads'[i]) == Carried(threads'[j])
      ensures i == j
    {
      assert Carried(Was(threads, i)) == Carried(threads'[i]) && Carried(Was(threads, j)) == Carried(threads'[j]);
    }
  }

  lemma {:induction false} FlightRegisters(s: Shared, threads: map<nat, Thread>, s': Shared, id: nat, th: Thread, k: Name)
    requires SingleFlight(s, threads) && (Loads(s, Was(threads, id), s', th, k) || Hints(s, Was(threads, id), s', th, k))
    ensures SingleFlight(s', threads[id := th])
  {
    var threads' := threads[id := th];
    assert k !in s.inflight && k !in s.queue && s'.inflight == s.inflight + {k} && s'.waiters.Keys == s.waiters.Keys + {k};
    DistinctCons(k, s.queue);
    forall i | 0 <= i < |s'.queue| ensures s'.queue[i] in s'.inflight && s'.queue[i] !in s'.cache.slots {
      assert s'.queue[i] == k || s'.queue[i] in s.queue;
    }
    forall i | i in threads' ensures CarrierOk(s', threads'[i]) {
      if i != id {
        assert CarrierOk(s, threads[i]);
      }
    }
  }

  lemma {:induction false} FlightTakes(s: Shared, threads: map<nat, Thread>, s': Shared, id: nat, th: Thread)
    requires SingleFlight(s, threads) && Takes(s, Was(threads, id), s', th)
    ensures SingleFlight(s', threads[id := th])
  {
    var threads' := threads[id := th];
    var head := s.queue[0];
    assert s.queue == [head] + s'.queue;
    DistinctTail(head, s'.queue);
    forall i | i in threads' ensures CarrierOk(s', threads'[i]) && (i != id ==> Carried(threads'[i]) != Some(head)) {
      if i != id {
        assert CarrierOk(s, threads[i]);
        assert head in s.queue;
      }
    }
  }

  lemma {:induction false} FlightFinishes(s: Shared, threads: map<nat, Thread>, s': Shared, id: nat, th: Thread, k: Name)
    requires SingleFlight(s, threads) && Finishes(s, Was(threads, id), s', th, k)
    ensures SingleFlight(s', threads[id := th])
  {
    var threads' := threads[id := th];
    assert CarrierOk(s, Was(threads, id));
    forall i | 0 <= i < |s'.queue| ensures s'.queue[i] in s'.inflight && s'.queue[i] !in s'.cache.slots {
      assert s.queue[i] in s.queue;
    }
    forall i | i in threads' ensures CarrierOk(s', threads'[i]) {
      if i != id {
        assert CarrierOk(s, threads[i]);
        assert Carried(threads[i]).Some? ==> Carried(threads[i]) != Carried(threads[id]);
      }
    }
  }

  lemma {:induction false} FlightMarks(s: Shared, threads: map<nat, Thread>, s': Shared, id: nat, th: Thread, t: nat)
    requires SingleFlight(s, threads) && Marks(s, Was(threads, id), s', th, t)
    ensures SingleFlight(s', threads[id := th])
  {
    var threads' := threads[id := th];
    forall i | i in threads' ensures CarrierOk(s', threads'[i]) {
      if i != id {
        assert CarrierOk(s, threads[i]);
      }
    }
  }

  lemma {:induction false} FlightEmptied(s: Shared, threads: map<nat, Thread>, s': Shared, id: nat, th: Thread)
    requires SingleFlight(s, threads) && Emptied(s, Was(threads, id), s', th) && CarriedKeys(threads) == {}
    ensures SingleFlight(s', threads[id := th])
  {
    var threads' := threads[id := th];
    forall i | i in threads' ensures Carried(threads'[i]).None? {
      if i != id {
        CarrierCounts(threads, i);
      }
    }
  }

  lemma {:induction false} CarrierCounts(threads: map<nat, Thread>, i: nat)
    requires i in threads
    ensures Carried(threads[i]).Some? ==> Carried(threads[i]).value in CarriedKeys(threads)
  {
  }

  /** Every section keeps single flight, unless it empties the store while a worker is busy. */
  lemma {:induction false} FlightKept(u: Setup, s: Shared, threads: map<nat, Thread>, s': Shared, id: nat, th: Thread, k: Name, t: nat)
    requires SingleFlight(s, threads) && CacheOk(s.cache)
    requires var was := Was(threads, id);
             && Kind(s, was, s', th, k, t) && CacheKind(u, s, was, s', th)
             && (Empties(was) ==> CarriedKeys(threads) == {})
    ensures SingleFlight(s', threads[id := th])
  {
    hide SingleFlight, CacheOk, CacheKind, Quiet, Loads, Hints, Takes, Finishes, Marks, OnlyAdds, CarriedKeys;
    var was := Was(threads, id);
    if Quiet(s, was, s', th) {
      CacheGrowth(u, s, was, s', th);
      FlightQuiet(s, threads, s', id, th);
    } else if Loads(s, was, s', th, k) || Hints(s, was, s', th, k) {
      FlightRegisters(s, threads, s', id, th, k);
    } else if Takes(s, was, s', th) {
      FlightTakes(s, threads, s', id, th);
    } else if Finishes(s, was, s', th, k) {
      FlightFinishes(s, threads, s', id, th, k);
    } else if Emptied(s, was, s', th) {
      FlightEmptied(s, threads, s', id, th);
    } else {
      FlightMarks(s, threads, s', id, th, t);
    }
  }

  // ----- Bytes and errors come from the file -----

  ghost predicate SlotsTrue(u: Setup, slots: Slots) {
    forall k | k in slots :: ReadKey(u.reader, k) == Ok(slots[k].data)
  }

  /** A recorded failure is that of reading this key, or the one `fail_pending` leaves. */
  ghost predicate FailureTrue(u: Setup, k: Name, f: Failure, failed: bool) {
    match f
    case ReadFailed(e) => ReadKey(u.reader, k) == Err(e)
    case NoWorkers => failed
    case StoreClosed => false
  }

  ghost predicate ErrorsTrue(u: Setup, errors: map<Name, Failure>, failed: bool) {
    forall k | k in errors :: FailureTrue(u, k, errors[k], failed)
  }

  /** What a thread has read, returned or refused is justified. */
  ghost predicate ThreadTrue(u: Setup, th: Thread, closed: bool, gaveUp: bool) {
    match th
    case Acquirer(a) =>
      && (a.Holding? ==> ReadKey(u.reader, a.key) == Ok(a.data))
      && (a.Refused? ==> if a.failure.StoreClosed? then closed else FailureTrue(u, a.key, a.failure, gaveUp))
    case Worker(k) =>
      && (k.Caching? ==> ReadKey(u.reader, k.key) == Ok(k.data))
      && (k.RecordingError? ==> ReadKey(u.reader, k.key) == Err(k.error))
    case _ => true
  }

  lemma {:induction false} StoredTrue(u: Setup, c: Cache, k: Name, data: Bytes)
    requires CacheOk(c) && SlotsTrue(u, c.slots) && ReadKey(u.reader, k) == Ok(data)
    ensures SlotsTrue(u, Stored(c, k, data, u.capacity).slots)
  {
    StoredIsInserted(c, k, data, u.capacity);
    hide Inserted, WellFormed, ReadKey, Stored, Covers;
    InsertMakesRoom(c, k, data, u.capacity);
  }

  lemma {:induction false} SlotsKept(u: Setup, s: Shared, th: Thread, s': Shared, th': Thread, closed: bool, gaveUp: bool)
    requires CacheKind(u, s, th, s', th') && CacheOk(s.cache) && SlotsTrue(u, s.cache.slots) && ThreadTrue(u, th, closed, gaveUp)
    ensures SlotsTrue(u, s'.cache.slots)
  {
    hide ReadKey, Stored, CacheOk, Without;
    if Stores(u, s, th, s', th') {
      StoredTrue(u, s.cache, th.k.key, th.k.data);
    }
  }

  lemma {:induction false} AcquireTrue(u: Setup, s: Shared, a: Acquire, failed: bool, gaveUp: bool)
    requires SlotsTrue(u, s.cache.slots) && ErrorsTrue(u, s.errors, failed) && ThreadTrue(u, Acquirer(a), s.closed, failed || gaveUp)
    ensures var (s', a') := AcquireStep(s, a);
            ErrorsTrue(u, s'.errors, failed) && s'.closed == s.closed && ThreadTrue(u, Acquirer(a'), s.closed, failed || gaveUp)
  {
    hide ReadKey, Without;
  }

  lemma {:induction false} HintTrue(u: Setup, s: Shared, h: Hint, failed: bool)
    requires ErrorsTrue(u, s.errors, failed)
    ensures var (s', h') := HintStep(s, h, u.queueLimit);
            ErrorsTrue(u, s'.errors, failed || h.Failing?) && s'.closed == s.closed
  {
    hide ReadKey, Touched, Unpinned;
  }

  lemma {:induction false} WorkTrue(u: Setup, s: Shared, k: Work, failed: bool)
    requires ErrorsTrue(u, s.errors, failed) && ThreadTrue(u, Worker(k), s.closed, failed)
    ensures var (s', k') := WorkStep(u, s, k);
            ErrorsTrue(u, s'.errors, failed) && s'.closed == s.closed && ThreadTrue(u, Worker(k'), s.closed, failed)
  {
    hide ReadKey, Stored;
  }

  ghost predicate Truth(u: Setup, w: World) {
    && SlotsTrue(u, w.s.cache.slots)
    && ErrorsTrue(u, w.s.errors, w.failed)
    && (forall id | id in w.threads :: ThreadTrue(u, w.threads[id], w.s.closed, w.failed || w.gaveUp))
  }

  lemma {:induction false} ThreadStaysTrue(u: Setup, th: Thread, closed: bool, gaveUp: bool, closed': bool, gaveUp': bool)
    requires ThreadTrue(u, th, closed, gaveUp) && (closed ==> closed') && (gaveUp ==> gaveUp')
    ensures ThreadTrue(u, th, closed', gaveUp')
  {
  }

  lemma {:induction false} MoverTrue(u: Setup, w: World, act: Action)
    requires Truth(u, w) && Enabled(u, w, act)
    ensures var w' := Next(u, w, act);
            && ErrorsTrue(u, w'.s.errors, w'.failed) && (w.s.closed ==> w'.s.closed) && (w.failed ==> w'.failed) && (w.gaveUp ==> w'.gaveUp)
            && Mover(act) in w'.threads && ThreadTrue(u, w'.threads[Mover(act)], w'.s.closed, w'.failed || w'.gaveUp)
  {
    hide AcquireStep, HintStep, WorkStep, ReadKey, ErrorsTrue;
    if act.Advance? {
      match w.threads[act.id] {
        case Acquirer(a) => AcquireTrue(u, w.s, a, w.failed, w.gaveUp);
        case Prefetcher(h) => HintTrue(u, w.s, h, w.failed);
        case Closer(c) =>
        case Worker(k) => WorkTrue(u, w.s, k, w.failed);
      }
    }
  }

  lemma {:induction false} TruthKept(u: Setup, w: World, act: Action)
    requires Truth(u, w) && CacheOk(w.s.cache) && Enabled(u, w, act)
    ensures Truth(u, Next(u, w, act))
  {
    MoverTrue(u, w, act);
    CacheKindOf(u, w, act);
    var k, t := KindOf(u, w, act);
    var w' := Next(u, w, act);
    var id := Mover(act);
    hide Next, Enabled, CacheKind, CacheOk, Kind, ReadKey, SlotsTrue, ErrorsTrue, FailureTrue;
    SlotsKept(u, w.s, Was(w.threads, id), w'.s, w'.threads[id], w.s.closed, w.failed || w.gaveUp);
    forall i | i in w'.threads ensures ThreadTrue(u, w'.threads[i], w'.s.closed, w'.failed || w'.gaveUp) {
      if i != id {
        ThreadStaysTrue(u, w.threads[i], w.s.closed, w.failed || w.gaveUp, w'.s.closed, w'.failed || w'.gaveUp);
      }
    }
  }

  // ----- Pins -----

  ghost function Pinners(threads: map<nat, Thread>, k: Name): set<nat> {
    set id | id in threads && Pin(threads[id]) == Some(k)
  }

  function PinCount(slots: Slots, k: Name): nat {
    if k in slots then slots[k].refs else 0
  }

  /** No entry counts more pins than there are threads that hold it, so an entry nobody holds can be evicted. */
  ghost predicate PinsBounded(s: Shared, threads: map<nat, Thread>) {
    forall k :: PinCount(s.cache.slots, k) <= |Pinners(threads, k)|
  }

  lemma {:induction false} PinnersMoved(threads: map<nat, Thread>, id: nat, th: Thread, k: Name)
    ensures |Pinners(threads[id := th], k)|
            == |Pinners(threads, k)| - Bit(Pin(Was(threads, id)) == Some(k)) + Bit(Pin(th) == Some(k))
  {
    assert Pinners(threads[id := th], k) - {id} == Pinners(threads, k) - {id};
    SizesDiffer(Pinners(threads, k), Pinners(threads[id := th], k), id);
  }

  /** The thread is a worker about to store this key. */
  predicate Storing(th: Thread, k: Name) {
    th.Worker? && th.k.Caching? && th.k.key == k
  }

  lemma {:induction false} StoredCount(c: Cache, k: Name, data: Bytes, capacity: nat, q: Name)
    requires CacheOk(c)
    ensures PinCount(Stored(c, k, data, capacity).slots, q) == if q == k then 0 else PinCount(c.slots, q)
  {
    StoredIsInserted(c, k, data, capacity);
    hide Inserted, WellFormed, Stored;
    InsertMakesRoom(c, k, data, capacity);
  }

  /** How a section changes the pin count of one entry: storing it makes the count zero, whatever it was. */
  lemma {:induction false} CountMoved(u: Setup, s: Shared, th: Thread, s': Shared, th': Thread, k: Name)
    requires CacheOk(s.cache) && CacheKind(u, s, th, s', th')
    ensures PinCount(s'.cache.slots, k)
            == if Storing(th, k) then 0
               else if Pin(th) == Pin(th') then PinCount(s.cache.slots, k)
               else SatSub(PinCount(s.cache.slots, k), Bit(Pin(th) == Some(k))) + Bit(Pin(th') == Some(k))
    ensures Storing(th, k) ==> Pin(th) == Pin(th') == None
  {
    hide CacheOk, Stored, Without;
    if Stores(u, s, th, s', th') {
      hide PinCount;
      StoredCount(s.cache, th.k.key, th.k.data, u.capacity, k);
    }
  }

  lemma {:induction false} PinsKept(u: Setup, s: Shared, threads: map<nat, Thread>, s': Shared, id: nat, th: Thread)
    requires PinsBounded(s, threads) && CacheOk(s.cache) && CacheKind(u, s, Was(threads, id), s', th)
    ensures PinsBounded(s', threads[id := th])
  {
    hide Pinners, PinCount, CacheOk, CacheKind;
    forall k ensures PinCount(s'.cache.slots, k) <= |Pinners(threads[id := th], k)| {
      CountMoved(u, s, Was(threads, id), s', th, k);
      PinnersMoved(threads, id, th, k);
      assert PinCount(s.cache.slots, k) <= |Pinners(threads, k)|;
    }
  }

  // ----- Closing -----

  ghost predicate DrainerOk(w: World, th: Thread) {
    th == Closer(Draining) ==> w.s.closed && !w.drained
  }

  /** After the store was drained nobody sleeps on a ticket that is merely registered. */
  ghost predicate SleeperOk(w: World, th: Thread) {
    w.drained && th.Acquirer? && th.a.Blocked? ==> !Registered(w.s, th.a.key, th.a.ticket)
  }

  ghost predicate AnyDrainer(threads: map<nat, Thread>) {
    exists id :: id in threads && threads[id] == Closer(Draining)
  }

  ghost predicate CloseOk(w: World) {
    && (w.drained ==> w.s.closed)
    && (w.s.closed && !w.drained ==> AnyDrainer(w.threads))
    && (forall id | id in w.threads :: DrainerOk(w, w.threads[id]) && SleeperOk(w, w.threads[id]))
    && (forall i, j | i in w.threads && j in w.threads && w.threads[i] == w.threads[j] == Closer(Draining) :: i == j)
  }

  /** How the flags of a closing store move. */
  lemma {:induction false} CloseFlags(u: Setup, w: World, act: Action)
    requires Enabled(u, w, act)
    ensures var (w', was, id) := (Next(u, w, act), Was(w.threads, Mover(act)), Mover(act));
            && id in w'.threads
            && w'.drained == (w.drained || was == Closer(Draining))
            && (was == Closer(Draining) ==> w'.s.waiters == map[])
            && w'.s.closed == (w.s.closed || was == Closer(Closing))
            && (w'.threads[id] == Closer(Draining) <==> was == Closer(Closing) && !w.s.closed)
            && (w'.threads[id].Acquirer? && w'.threads[id].a.Blocked? ==> !w.s.closed)
  {
    hide Touched, Unpinned, Stored, ReadKey, Hinted, Asked, Looked, Finished;
    if act.Advance? && w.threads[act.id].Acquirer? {
      AcquireCloses(w.s, w.threads[act.id].a);
      hide AcquireStep;
    } else if act.Advance? && w.threads[act.id].Prefetcher? {
      HintCloses(w.s, w.threads[act.id].h, u.queueLimit);
      hide HintStep;
    } else if act.Advance? && w.threads[act.id].Worker? {
      WorkCloses(u, w.s, w.threads[act.id].k);
      hide WorkStep;
    }
  }

  lemma {:induction false} AcquireCloses(s: Shared, a: Acquire)
    ensures var (s', a') := AcquireStep(s, a); s'.closed == s.closed && (a'.Blocked? ==> (a.AtDoneLock? && !s.closed) || a == a')
  {
    hide Touched, Unpinned;
  }

  lemma {:induction false} HintCloses(s: Shared, h: Hint, limit: nat)
    ensures HintStep(s, h, limit).0.closed == s.closed
  {
    hide Touched, Unpinned;
  }

  lemma {:induction false} WorkCloses(u: Setup, s: Shared, k: Work)
    ensures WorkStep(u, s, k).0.closed == s.closed
  {
    hide Stored, ReadKey;
  }

  lemma {:induction false} NewlyAdded(s: Shared, th: Thread, s': Shared, th': Thread, k: Name, q: Name, x: nat)
    requires (Loads(s, th, s', th', k) || Hints(s, th, s', th', k)) && Registered(s', q, x)
    ensures Registered(s, q, x) || x == s.tickets
  {
  }

  /** A ticket that is registered after a section was registered before it or is new. */
  lemma {:induction false} NewlyRegistered(s: Shared, th: Thread, s': Shared, th': Thread, k: Name, t: nat, q: Name, x: nat)
    requires Kind(s, th, s', th', k, t) && Registered(s', q, x)
    ensures Registered(s, q, x) || x == s.tickets
  {
    hide Loads, Hints, InHand, Carried, Awaits, Pin;
    if Loads(s, th, s', th', k) || Hints(s, th, s', th', k) {
      NewlyAdded(s, th, s', th', k, q, x);
    }
  }

  lemma {:induction false} CloseKept(u: Setup, w: World, act: Action)
    requires CloseOk(w) && Cover(w.s, w.threads) && Enabled(u, w, act)
    ensures CloseOk(Next(u, w, act))
  {
    CloseFlags(u, w, act);
    var k, t := KindOf(u, w, act);
    var w' := Next(u, w, act);
    var id := Mover(act);
    var was := Was(w.threads, id);
    hide Next, Enabled, Kind, Mover, Hands;
    if w'.s.closed && !w'.drained {
      if was == Closer(Closing) && !w.s.closed {
        assert w'.threads[id] == Closer(Draining);
      } else {
        var i :| i in w.threads && w.threads[i] == Closer(Draining);
        assert i != id;
        assert w'.threads[i] == Closer(Draining);
      }
    }
    forall i | i in w'.threads ensures DrainerOk(w', w'.threads[i]) && SleeperOk(w', w'.threads[i]) {
      if i != id {
        assert w'.threads[i] == w.threads[i];
        assert DrainerOk(w, w.threads[i]) && SleeperOk(w, w.threads[i]) && Covered(w.s, w.threads, w.threads[i]);
      }
      var th := w'.threads[i];
      if w'.drained && th.Acquirer? && th.a.Blocked? && Registered(w'.s, th.a.key, th.a.ticket) {
        NewlyRegistered(w.s, was, w'.s, w'.threads[id], k, t, th.a.key, th.a.ticket);
      }
    }
  }

  // ----- Wakeups -----

  predicate Notifier(th: Thread) {
    (th.Acquirer? && th.a.AtNotify?) || (th.Prefetcher? && th.h.HintNotify?)
  }

  /** A closer that has woken the workers. */
  predicate HasNotified(th: Thread) {
    th.Closer? && (th.c.CloseSignal? || th.c.Joining?)
  }

  ghost predicate ThreadAwake(w: World, th: Thread) {
    && (th == Worker(Left) ==> w.s.closed)
    && (Notifier(th) && !w.s.closed ==> w.handles != {})
    && (HasNotified(th) ==> w.s.closed && w.sleeping == {})
    && (th.Closer? && th.c.CloseNotify? ==> w.s.closed)
    && (th.Closer? && th.c.Joining? ==> forall h | h in th.c.workers :: h in w.threads && w.threads[h].Worker?)
  }

  /** Only idle workers sleep, and while the store is open none has left. */
  ghost predicate AwakeOk(w: World) {
    && (forall id | id in w.sleeping :: id in w.threads && w.threads[id] == Worker(Looking))
    && (forall h | h in w.handles :: h in w.threads && w.threads[h].Worker?)
    && (forall id | id in w.threads :: ThreadAwake(w, w.threads[id]))
  }

  /** Only the thread that moves can fall asleep, and only a worker that finds nothing in an open store does. */
  lemma {:induction false} SleepMoves(u: Setup, w: World, act: Action)
    requires AwakeOk(w) && Enabled(u, w, act)
    ensures var (w', id) := (Next(u, w, act), Mover(act));
            && id !in w.sleeping && id in w'.threads
            && w'.sleeping <= w.sleeping + {id}
            && (id in w'.sleeping ==> w'.threads[id] == Worker(Looking) && w'.s.queue == [] && !w.s.closed)
            && (HasNotified(w'.threads[id]) && !HasNotified(Was(w.threads, id)) ==> w'.sleeping == {})
  {
    hide Stored, ReadKey, AcquireStep, HintStep, ThreadAwake;
  }

  /** Workers stay workers, and stay in the handle list until `close` takes it. */
  lemma {:induction false} HandleMoves(u: Setup, w: World, act: Action)
    requires Enabled(u, w, act)
    ensures var (w', id, was) := (Next(u, w, act), Mover(act), Was(w.threads, Mover(act)));
            && id in w'.threads
            && (was.Worker? ==> w'.threads[id].Worker?)
            && w'.handles <= w.handles + {id} && (id in w'.handles ==> id in w.handles || w'.threads[id].Worker?)
            && (w.handles <= w'.handles || HasNotified(was))
  {
    hide WorkStep, HintStep, AcquireStep, CloseStep, CarriedKeys, StartFails;
    if act.Advance? {
      hide Ready;
    } else {
      hide ThreadStep;
    }
  }

  lemma {:induction false} JoinMoves(u: Setup, w: World, act: Action)
    requires Enabled(u, w, act)
    ensures var (w', id) := (Next(u, w, act), Mover(act));
            id in w'.threads && (w'.threads[id].Closer? && w'.threads[id].c.Joining? ==> w'.threads[id].c.workers == w.handles)
  {
    hide WorkStep, HintStep, AcquireStep, CarriedKeys, StartFails;
    if !act.Advance? {
      hide ThreadStep;
    }
  }

  lemma {:induction false} StageMoves(u: Setup, w: World, act: Action)
    requires Enabled(u, w, act)
    ensures var (w', id, was) := (Next(u, w, act), Mover(act), Was(w.threads, Mover(act)));
            && id in w'.threads
            && (w'.threads[id] == Worker(Left) ==> w.s.closed)
            && (Notifier(w'.threads[id]) ==> |w.handles| >= 1)
            && (HasNotified(w'.threads[id]) ==> HasNotified(was) || (was.Closer? && was.c.CloseNotify?))
            && (w'.threads[id].Closer? && w'.threads[id].c.CloseNotify? ==> was == Closer(Draining))
  {
    if act.Advance? {
      AdvanceHandles(u, w, act.id);
      hide WorkStep, HintStep, AcquireStep;
    } else {
      hide ThreadStep;
    }
  }

  lemma {:induction false} AdvanceHandles(u: Setup, w: World, id: nat)
    requires id in w.threads && Ready(w, id)
    ensures var th' := ThreadStep(u, w.s, w.threads[id], w.handles).1;
            && (th' == Worker(Left) ==> w.s.closed)
            && !Notifier(th')
  {
    hide Stored, ReadKey, Touched, Unpinned, Hinted, Finished;
  }

  /** Facts of `SleepMoves` and `HandleMoves` about a step of one thread. */
  ghost predicate Moves(w: World, w': World, id: nat) {
    var was := Was(w.threads, id);
    && id in w'.threads && w'.threads == w.threads[id := w'.threads[id]] && id !in w.sleeping
    && (w.s.closed ==> w'.s.closed)
    && w'.sleeping <= w.sleeping + {id} && (id in w'.sleeping ==> w'.threads[id] == Worker(Looking) && !w.s.closed)
    && (was.Worker? ==> w'.threads[id].Worker?)
    && w'.handles <= w.handles + {id} && (id in w'.handles ==> id in w.handles || w'.threads[id].Worker?)
    && (w.handles <= w'.handles || HasNotified(was))
  }

  ghost predicate MoverMoves(w: World, was: Thread, w': World, th: Thread) {
    && (th == Worker(Left) ==> w.s.closed)
    && (Notifier(th) ==> |w.handles| >= 1)
    && (HasNotified(th) ==> HasNotified(was) || (was.Closer? && was.c.CloseNotify?))
    && (HasNotified(th) && !HasNotified(was) ==> w'.sleeping == {})
    && (th.Closer? && th.c.CloseNotify? ==> was == Closer(Draining))
    && (th.Closer? && th.c.Joining? ==> th.c.workers == w.handles)
  }

  lemma {:induction false} MovesHold(u: Setup, w: World, act: Action)
    requires AwakeOk(w) && CloseOk(w) && Enabled(u, w, act)
    ensures var (w', id) := (Next(u, w, act), Mover(act));
            Moves(w, w', id) && MoverMoves(w, Was(w.threads, id), w', w'.threads[id])
  {
    SleepMoves(u, w, act);
    HandleMoves(u, w, act);
    JoinMoves(u, w, act);
    StageMoves(u, w, act);
    CloseFlags(u, w, act);
    var k, t := KindOf(u, w, act);
    hide Next, Enabled, Kind, Mover, AwakeOk, CloseOk;
  }

  lemma {:induction false} OtherAwake(w: World, w': World, id: nat, i: nat)
    requires Moves(w, w', id) && i in w.threads && i != id && ThreadAwake(w, w.threads[i])
    requires ThreadAwake(w, Was(w.threads, id))
    ensures ThreadAwake(w', w'.threads[i])
  {
  }

  lemma {:induction false} MoverAwake(w: World, w': World, id: nat)
    requires Moves(w, w', id) && MoverMoves(w, Was(w.threads, id), w', w'.threads[id])
    requires ThreadAwake(w, Was(w.threads, id)) && DrainerOk(w, Was(w.threads, id))
    requires forall h | h in w.handles :: h in w.threads && w.threads[h].Worker?
    ensures ThreadAwake(w', w'.threads[id])
  {
  }

  lemma {:induction false} AwakeMoved(w: World, w': World, id: nat)
    requires AwakeOk(w) && CloseOk(w) && Moves(w, w', id) && MoverMoves(w, Was(w.threads, id), w', w'.threads[id])
    ensures AwakeOk(w')
  {
    hide ThreadAwake, MoverMoves, SleeperOk;
    NothingAwake(w);
    assert DrainerOk(w, Was(w.threads, id));
    MoverAwake(w, w', id);
    forall i | i in w'.threads ensures ThreadAwake(w', w'.threads[i]) {
      if i != id {
        OtherAwake(w, w', id, i);
      }
    }
  }

  lemma {:induction false} AwakeKept(u: Setup, w: World, act: Action)
    requires AwakeOk(w) && CloseOk(w) && Enabled(u, w, act)
    ensures AwakeOk(Next(u, w, act))
  {
    hide AwakeOk, CloseOk, Moves, MoverMoves;
    MovesHold(u, w, act);
    var w' := Next(u, w, act);
    hide Next, Enabled;
    AwakeMoved(w, w', Mover(act));
  }

  lemma {:induction false} NothingAwake(w: World)
    ensures ThreadAwake(w, Acquirer(Released))
  {
  }

  // ----- Every run -----

  ghost predicate Inv(u: Setup, w: World) {
    && CacheOk(w.s.cache)
    && Cover(w.s, w.threads)
    && Placed(w.s, w.threads)
    && CloseOk(w)
    && AwakeOk(w)
    && Truth(u, w)
    && PinsBounded(w.s, w.threads)
  }

  /** Every action keeps every invariant. */
  lemma {:induction false} StepKeepsInv(u: Setup, w: World, act: Action)
    requires Inv(u, w) && Enabled(u, w, act)
    ensures Inv(u, Next(u, w, act))
  {
    var k, t := KindOf(u, w, act);
    CacheKindOf(u, w, act);
    CloseFlags(u, w, act);
    TruthKept(u, w, act);
    CloseKept(u, w, act);
    AwakeKept(u, w, act);
    var w' := Next(u, w, act);
    var id := Mover(act);
    var was := Was(w.threads, id);
    hide Next, Enabled, Mover, Kind, CacheKind, CacheOk, Cover, Placed, CloseOk, AwakeOk, Truth, PinsBounded;
    CacheKept(u, w.s, was, w'.s, w'.threads[id]);
    CoverKept(w.s, w.threads, w'.s, id, w'.threads[id], k, t);
    PlacedKept(w.s, w.threads, w'.s, id, w'.threads[id], k, t);
    PinsKept(u, w.s, w.threads, w'.s, id, w'.threads[id]);
  }

  lemma {:induction false} InitialInv(u: Setup)
    ensures Inv(u, Initial())
  {
    assert Sizes(map[]) == map[];
  }

  lemma {:induction false} EveryRunKeepsInv(u: Setup, acts: seq<Action>)
    ensures Inv(u, Run(u, Initial(), acts))
    decreases |acts|
  {
    hide Inv, Enabled, Next;
    if acts == [] {
      InitialInv(u);
    } else {
      EveryRunKeepsInv(u, acts[..|acts| - 1]);
      var before := Run(u, Initial(), acts[..|acts| - 1]);
      var act := acts[|acts| - 1];
      if Enabled(u, before, act) {
        StepKeepsInv(u, before, act);
      }
    }
  }
}
