/** What the streaming store guarantees in every reachable state. */
module StreamingGuarantees {
  import opened Prelude
  import opened ChunkCaches
  import opened PackFiles
  import opened StreamingStores
  import opened StreamingProtocol
  import opened StreamingWakeups

  ghost predicate Carrier(threads: map<nat, Thread>, id: nat, k: Name) {
    id in threads && Carried(threads[id]) == Some(k)
  }

  ghost predicate Holder(threads: map<nat, Thread>, id: nat, t: nat) {
    id in threads && t in InHand(threads[id])
  }

  lemma {:induction false} CarrierOf(threads: map<nat, Thread>, k: Name) returns (id: nat)
    requires k in CarriedKeys(threads)
    ensures Carrier(threads, id, k)
  {
    id :| id in threads && Carried(threads[id]).Some? && Carried(threads[id]).value == k;
  }

  lemma {:induction false} HolderOf(threads: map<nat, Thread>, t: nat) returns (id: nat)
    requires t in Hands(threads)
    ensures Holder(threads, id, t)
  {
    id :| id in threads && t in InHand(threads[id]);
  }

  /** The ticket is registered for its key, which is queued or in a worker's hands. */
  ghost predicate Tended(w: World, k: Name, t: nat) {
    Registered(w.s, k, t) && (k in w.s.queue || exists id :: Carrier(w.threads, id, k))
  }

  /**
   No waiter is lost. Whoever waits for a ticket, or is about to, waits for one that is done, or that is
   registered with its key queued or with a worker, or that some thread is about to mark. If the
   store is closed and the waiter sleeps, a registered ticket is one that `close` has yet to collect;
   and who does not sleep yet will see that the store is closed and not fall asleep.
   */
  lemma {:induction false} NoLostWaiter(u: Setup, acts: seq<Action>, id: nat)
    requires var w := Run(u, Initial(), acts); id in w.threads && Awaits(w.threads[id]).Some?
    ensures var w := Run(u, Initial(), acts);
            var (k, t) := Awaits(w.threads[id]).value;
            || t in w.s.done
            || Tended(w, k, t)
            || exists j :: Holder(w.threads, j, t)
    ensures var w := Run(u, Initial(), acts);
            var (k, t) := Awaits(w.threads[id]).value;
            w.threads[id].a.Blocked? && Registered(w.s, k, t) && w.s.closed ==> !w.drained && AnyDrainer(w.threads)
    ensures var w := Run(u, Initial(), acts);
            w.s.closed && !w.threads[id].a.Blocked? ==> !AcquireStep(w.s, w.threads[id].a).1.Blocked?
  {
    EveryRunKeepsInv(u, acts);
    var w := Run(u, Initial(), acts);
    hide Run, AwakeOk, Truth, PinsBounded, CacheOk, Hands, CarriedKeys;
    assert Covered(w.s, w.threads, w.threads[id]) && SleeperOk(w, w.threads[id]);
    var (k, t) := Awaits(w.threads[id]).value;
    if Registered(w.s, k, t) && k !in w.s.queue {
      var j := CarrierOf(w.threads, k);
    } else if t in Hands(w.threads) {
      var j := HolderOf(w.threads, t);
    }
  }

  /** Somebody who is about to bring the ticket on. */
  ghost predicate Helper(w: World, k: Name, t: nat, id: nat) {
    && id in w.threads
    && (t in InHand(w.threads[id]) || Carried(w.threads[id]) == Some(k) || w.threads[id] == Closer(Draining) || PoisedAt(w, id))
  }

  ghost predicate HasHelper(w: World, k: Name, t: nat) {
    exists id :: Helper(w, k, t, id)
  }

  lemma {:induction false} FreshId(ids: set<nat>) returns (id: nat)
    ensures id !in ids && forall i | i in ids :: i < id
  {
    if ids == {} {
      id := 0;
    } else {
      var i := FirstOf(ids);
      var j := FreshId(ids - {i});
      id := if i < j then j else i + 1;
      forall x | x in ids ensures x < id {
        assert x == i || x in ids - {i};
      }
    }
  }

  /** A helper is never itself waiting: it has an action, and one that does not give up. */
  lemma {:induction false} HelperMoves(u: Setup, w: World, k: Name, t: nat, id: nat) returns (act: Action)
    requires Helper(w, k, t, id)
    requires forall i | i in w.sleeping :: i in w.threads && w.threads[i] == Worker(Looking)
    ensures Enabled(u, w, act) && (act.Ensure? ==> act.ok) && !act.Begin?
    ensures act.Spawn? || Mover(act) == id
  {
    hide StartFails;
    var th := w.threads[id];
    if AtSpawn(th) {
      if |w.handles| >= u.workers {
        act := Ensure(id, true);
      } else {
        var worker := FreshId(w.threads.Keys);
        act := Spawn(id, worker);
      }
    } else if th.Acquirer? {
      var woken := 0;
      if w.sleeping != {} {
        woken := FirstOf(w.sleeping);
      }
      act := NotifyOne(id, woken);
    } else if t in Held(th) {
      act := Mark(id, t);
    } else {
      act := Advance(id);
    }
  }

  /** The thread sleeps on a ticket that is not done. */
  ghost predicate Sleeper(w: World, id: nat) {
    id in w.threads && w.threads[id].Acquirer? && w.threads[id].a.Blocked? && w.threads[id].a.ticket !in w.s.done
  }

  /**
   When a sleeping acquirer has a helper: in every reachable state, unless a queued key is unattended and no
   thread has the sleeper's ticket in hand. With `UnattendedIffStranded` this says which runs lead to such
   states: those in which a failed start was the last that happened to the queue.
   */
  lemma {:induction false} SleeperHasHelper(u: Setup, acts: seq<Action>, id: nat)
    requires Sleeper(Run(u, Initial(), acts), id)
    ensures var w := Run(u, Initial(), acts);
            var (k, t) := (w.threads[id].a.key, w.threads[id].a.ticket);
            && (HasHelper(w, k, t) <==> !Stranded(u, acts) || t in Hands(w.threads))
            && forall helper | Helper(w, k, t, helper) :: exists act :: HelpsBy(u, w, helper, act)
  {
    EveryRunKeepsInv(u, acts);
    UnattendedIffStranded(u, acts);
    var w := Run(u, Initial(), acts);
    var (k, t) := (w.threads[id].a.key, w.threads[id].a.ticket);
    hide Run, Truth, PinsBounded, CacheOk, Hands, CarriedKeys, Enabled, Stranded, Helper;
    HelperIff(w, id);
    forall helper | Helper(w, k, t, helper) ensures exists act :: HelpsBy(u, w, helper, act) {
      var act := HelperMoves(u, w, k, t, helper);
      assert HelpsBy(u, w, helper, act);
    }
  }

  /** An action of the helper, or of a worker it starts. */
  ghost predicate HelpsBy(u: Setup, w: World, helper: nat, act: Action) {
    Enabled(u, w, act) && (act.Ensure? ==> act.ok) && !act.Begin? && (act.Spawn? || Mover(act) == helper)
  }

  lemma {:induction false} HelperIff(w: World, id: nat)
    requires Cover(w.s, w.threads) && Placed(w.s, w.threads) && CloseOk(w) && AwakeOk(w) && Sleeper(w, id)
    ensures HasHelper(w, w.threads[id].a.key, w.threads[id].a.ticket) <==> !Unattended(w) || w.threads[id].a.ticket in Hands(w.threads)
  {
    var (k, t) := (w.threads[id].a.key, w.threads[id].a.ticket);
    if Unattended(w) && t !in Hands(w.threads) {
      forall j ensures !Helper(w, k, t, j) {
        NoHelper(w, k, t, j);
      }
    } else {
      var helper := HelperExists(w, id);
      assert Helper(w, k, t, helper);
    }
  }

  /** Who carries a key is an awake worker; and nobody drains an open store. */
  lemma {:induction false} NoHelper(w: World, k: Name, t: nat, j: nat)
    requires Unattended(w) && t !in Hands(w.threads) && CloseOk(w) && AwakeOk(w)
    ensures !Helper(w, k, t, j)
  {
    if j in w.threads {
      assert !PoisedAt(w, j) && DrainerOk(w, w.threads[j]);
      assert j in w.sleeping ==> w.threads[j] == Worker(Looking);
      InHandIsHeld(w.threads, j);
      hide Hands;
    }
  }

  lemma {:induction false} HelperExists(w: World, id: nat) returns (helper: nat)
    requires Cover(w.s, w.threads) && Placed(w.s, w.threads) && CloseOk(w) && Sleeper(w, id)
    requires !Unattended(w) || w.threads[id].a.ticket in Hands(w.threads)
    ensures Helper(w, w.threads[id].a.key, w.threads[id].a.ticket, helper)
  {
    var (k, t) := (w.threads[id].a.key, w.threads[id].a.ticket);
    assert Covered(w.s, w.threads, w.threads[id]) && SleeperOk(w, w.threads[id]);
    hide Hands, CarriedKeys, Covered, SleeperOk, DrainerOk, PoisedAt;
    if t in Hands(w.threads) {
      helper := HolderOf(w.threads, t);
    } else if k in CarriedKeys(w.threads) {
      helper := CarrierOf(w.threads, k);
    } else if w.s.closed {
      helper :| helper in w.threads && w.threads[helper] == Closer(Draining);
    } else {
      assert k in w.s.queue;
      helper :| PoisedAt(w, helper);
    }
  }

  /** `close` never waits for a sleeping worker: each worker it joins has left or can go on. */
  lemma {:induction false} JoinedWorkersGoOn(u: Setup, acts: seq<Action>, id: nat, h: nat)
    requires var w := Run(u, Initial(), acts);
             id in w.threads && w.threads[id].Closer? && w.threads[id].c.Joining? && h in w.threads[id].c.workers
    ensures var w := Run(u, Initial(), acts);
            && h in w.threads && w.threads[h].Worker?
            && (w.threads[h] == Worker(Left) || Enabled(u, w, Advance(h)))
  {
    EveryRunKeepsInv(u, acts);
    var w := Run(u, Initial(), acts);
    hide Run, Truth, PinsBounded, CacheOk, Cover, Placed, CloseOk;
    assert ThreadAwake(w, w.threads[id]);
  }

  /** The key is with this worker and nowhere else. */
  ghost predicate OnlyWith(w: World, k: Name, id: nat) {
    k !in w.s.queue && Carrier(w.threads, id, k) && forall j | Carrier(w.threads, j, k) :: j == id
  }

  /** The step that breaks single flight, exactly: the store is emptied while a worker is busy with a key. */
  lemma {:induction false} FlightBreaksExactly(u: Setup, w: World, act: Action)
    requires Inv(u, w) && SingleFlight(w.s, w.threads) && Enabled(u, w, act)
    ensures var (w', was) := (Next(u, w, act), Was(w.threads, Mover(act)));
            !SingleFlight(w'.s, w'.threads) <==> Empties(was) && CarriedKeys(w.threads) != {}
  {
    var k, t := KindOf(u, w, act);
    CacheKindOf(u, w, act);
    EmptyingMoves(u, w, act);
    var w' := Next(u, w, act);
    var id := Mover(act);
    var was := Was(w.threads, id);
    hide Next, Enabled, Mover, Kind, CacheKind, CarriedKeys, Truth, Cover, Placed, CloseOk, AwakeOk, CacheOk, PinsBounded;
    if Empties(was) && CarriedKeys(w.threads) != {} {
      var q := FirstOf(CarriedKeys(w.threads));
      var j := CarrierOf(w.threads, q);
      assert w'.threads[j] == w.threads[j];
      assert !CarrierOk(w'.s, w'.threads[j]);
    } else {
      FlightKept(u, w.s, w.threads, w'.s, id, w'.threads[id], k, t);
    }
  }

  lemma {:induction false} EmptyingMoves(u: Setup, w: World, act: Action)
    requires Enabled(u, w, act)
    ensures Empties(Was(w.threads, Mover(act))) ==> Next(u, w, act).s.inflight == {}
  {
    hide AcquireStep, WorkStep, CarriedKeys, StartFails;
  }

  /** The store is emptied while a worker is busy with a key. */
  ghost predicate Tears(w: World, act: Action) {
    Empties(Was(w.threads, Mover(act))) && CarriedKeys(w.threads) != {}
  }

  ghost predicate TearsAt(u: Setup, acts: seq<Action>, i: nat)
    requires i < |acts|
  {
    Enabled(u, At(u, acts, i), acts[i]) && Tears(At(u, acts, i), acts[i])
  }

  /** Whatever happened before, emptying the store brings single flight back iff no worker is busy with a key. */
  lemma {:induction false} EmptyingRestoresFlight(u: Setup, w: World, act: Action)
    requires Enabled(u, w, act) && Empties(Was(w.threads, Mover(act)))
    ensures var w' := Next(u, w, act); SingleFlight(w'.s, w'.threads) <==> CarriedKeys(w.threads) == {}
  {
    var k, t := KindOf(u, w, act);
    EmptyingClears(u, w, act);
    var w' := Next(u, w, act);
    var id := Mover(act);
    hide Next, Enabled, Mover, Kind, CarriedKeys;
    if CarriedKeys(w.threads) != {} {
      var q := FirstOf(CarriedKeys(w.threads));
      var j := CarrierOf(w.threads, q);
      assert w'.threads[j] == w.threads[j];
      assert !CarrierOk(w'.s, w'.threads[j]);
    } else {
      forall j | j in w'.threads ensures Carried(w'.threads[j]) == None {
        if j != id {
          CarriesNothing(w.threads, j);
        }
      }
    }
  }

  lemma {:induction false} CarriesNothing(threads: map<nat, Thread>, j: nat)
    requires j in threads
    ensures Carried(threads[j]) == None || CarriedKeys(threads) != {}
  {
    if Carried(threads[j]).Some? {
      CarrierCounts(threads, j);
    }
  }

  lemma {:induction false} EmptyingClears(u: Setup, w: World, act: Action)
    requires Enabled(u, w, act) && Empties(Was(w.threads, Mover(act)))
    ensures var (w', id) := (Next(u, w, act), Mover(act));
            && w'.s.inflight == {} && w'.s.queue == [] && w'.s.waiters == map[]
            && id in w'.threads && Carried(w'.threads[id]) == None && Carried(Was(w.threads, id)) == None
  {
    hide AcquireStep, WorkStep, CarriedKeys, StartFails;
  }

  /** Single flight lasts until the store is emptied while a worker is busy. */
  lemma {:induction false} FlightSince(u: Setup, acts: seq<Action>, n: nat)
    requires n <= |acts| && SingleFlight(At(u, acts, n).s, At(u, acts, n).threads)
    requires forall j: nat | n <= j < |acts| :: !TearsAt(u, acts, j)
    ensures var w := At(u, acts, |acts|); SingleFlight(w.s, w.threads)
    decreases |acts|
  {
    hide At, TearsAt, SingleFlight;
    if n < |acts| {
      var m := |acts| - 1;
      forall j: nat | n <= j < m ensures !TearsAt(u, acts[..m], j) {
        SameTears(u, acts, m, j);
      }
      AtShorter(u, acts, m, n);
      AtShorter(u, acts, m, m);
      FlightSince(u, acts[..m], n);
      assert !TearsAt(u, acts, m);
      FlightLast(u, acts);
    }
  }

  lemma {:induction false} SameTears(u: Setup, acts: seq<Action>, n: nat, i: nat)
    requires i < n <= |acts|
    ensures TearsAt(u, acts[..n], i) == TearsAt(u, acts, i)
  {
    hide Enabled, Tears, At;
    AtShorter(u, acts, n, i);
  }

  lemma {:induction false} FlightLast(u: Setup, acts: seq<Action>)
    requires acts != [] && !TearsAt(u, acts, |acts| - 1)
    requires var w := At(u, acts, |acts| - 1); SingleFlight(w.s, w.threads)
    ensures var w := At(u, acts, |acts|); SingleFlight(w.s, w.threads)
  {
    var m := |acts| - 1;
    EveryRunKeepsInv(u, acts[..m]);
    RunStep(u, acts);
    assert acts[..|acts|] == acts;
    hide Run, Enabled, Next, Inv, SingleFlight, CarriedKeys, Empties;
    if Enabled(u, At(u, acts, m), acts[m]) {
      FlightBreaksExactly(u, At(u, acts, m), acts[m]);
    }
  }

  /**
   The keys with a waiter are the keys in flight, the queue has no duplicates, each key in flight is either queued and
   with no worker or with exactly one worker, and a worker about to store a key finds it not cached.
   */
  ghost predicate OneReaderPerKey(w: World) {
    && w.s.waiters.Keys == w.s.inflight
    && Distinct(w.s.queue)
    && (forall k | k in w.s.inflight ::
          (k in w.s.queue && forall j :: !Carrier(w.threads, j, k)) || exists id :: OnlyWith(w, k, id))
    && (forall id, k | Carrier(w.threads, id, k) :: k in w.s.inflight)
    && (forall i | 0 <= i < |w.s.queue| :: w.s.queue[i] in w.s.inflight)
    && (forall id | id in w.threads && w.threads[id].Worker? && w.threads[id].k.Caching? ::
          w.threads[id].k.key !in w.s.cache.slots)
  }

  /**
   Each key is read by one worker at a time: from any point of a run at which single flight holds, such as the
   start, until the store is emptied while a worker is busy.
   */
  lemma {:induction false} EachKeyIsReadOnce(u: Setup, acts: seq<Action>, n: nat)
    requires n <= |acts| && (n > 0 ==> SingleFlight(At(u, acts, n).s, At(u, acts, n).threads))
    requires forall j: nat | n <= j < |acts| :: !TearsAt(u, acts, j)
    ensures OneReaderPerKey(Run(u, Initial(), acts))
  {
    StartsInFlight(u, acts);
    EveryRunKeepsInv(u, acts);
    assert acts[..|acts|] == acts;
    hide Run, TearsAt, SingleFlight, Inv, OneReaderPerKey;
    FlightSince(u, acts, n);
    FlightMeans(u, Run(u, Initial(), acts));
  }

  lemma {:induction false} StartsInFlight(u: Setup, acts: seq<Action>)
    ensures SingleFlight(At(u, acts, 0).s, At(u, acts, 0).threads)
  {
    assert acts[..0] == [];
  }

  lemma {:induction false} FlightMeans(u: Setup, w: World)
    requires Inv(u, w) && SingleFlight(w.s, w.threads)
    ensures OneReaderPerKey(w)
  {
    hide Truth, AwakeOk, PinsBounded, CacheOk, Cover, CloseOk, CarriedKeys;
    forall id, k | Carrier(w.threads, id, k) ensures k in w.s.inflight && k !in w.s.queue {
      assert CarrierOk(w.s, w.threads[id]);
    }
    forall id | id in w.threads && w.threads[id].Worker? && w.threads[id].k.Caching?
      ensures w.threads[id].k.key !in w.s.cache.slots
    {
      assert CarrierOk(w.s, w.threads[id]);
    }
    forall k | k in w.s.inflight && k !in w.s.queue ensures exists id :: OnlyWith(w, k, id) {
      var id := CarrierOf(w.threads, k);
      assert OnlyWith(w, k, id);
    }
  }

  /**
   Whatever an acquirer is given are the bytes of its key in the file, in every reachable state. It is
   refused only because the store is closed, because reading that key fails, or because no worker could be started.
   */
  lemma {:induction false} AcquiredBytesAreTheFile(u: Setup, acts: seq<Action>, id: nat)
    requires var w := Run(u, Initial(), acts); id in w.threads && w.threads[id].Acquirer?
    ensures var w := Run(u, Initial(), acts);
            var a := w.threads[id].a;
            && (a.Holding? ==> Pread(u.reader, a.key) == Ok(a.data))
            && (a.Refused? ==>
                  match a.failure
                  case StoreClosed => w.s.closed
                  case ReadFailed(e) => Pread(u.reader, a.key) == Err(e)
                  case NoWorkers => w.failed || w.gaveUp)
    ensures var w := Run(u, Initial(), acts);
            forall k | k in w.s.cache.slots :: Pread(u.reader, k) == Ok(w.s.cache.slots[k].data)
  {
    EveryRunKeepsInv(u, acts);
    var w := Run(u, Initial(), acts);
    hide Run, AwakeOk, PinsBounded, CacheOk, Cover, CloseOk, Placed, SingleFlight, Pread;
    assert ThreadTrue(u, w.threads[id], w.s.closed, w.failed || w.gaveUp);
  }
}
