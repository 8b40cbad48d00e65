/**
 The streaming parameter store, one lock section at a time.

 `Shared` is everything the threads share. Each function below is one section that some
 thread runs under the state lock (or one operation of the cache, which has its own lock).
 The class runs the same sections in place.
 */
module StreamingStores {
  import opened Prelude
  import opened ChunkCaches
  import opened PackFiles
  import LazyQueues

  /** A reader whose index points into its manifest, as `open` builds it. */
  type OpenReader = r: Reader | forall n | n in r.index :: r.index[n] < |r.manifest.tensors|
    witness Reader(Manifest(0, []), [], map[])

  datatype Failure = ReadFailed(error: PackError) | NoWorkers | StoreClosed

  /** A waiter is a numbered ticket; `done` holds the tickets that were marked done. */
  datatype Shared = Shared(
    queue: seq<Name>, inflight: set<Name>, waiters: map<Name, nat>, errors: map<Name, Failure>,
    cache: Cache, closed: bool, done: set<nat>, tickets: nat)

  function Fresh(): Shared {
    Shared([], {}, map[], map[], EMPTY_CACHE, false, {}, 0)
  }

  function ReadKey(r: OpenReader, k: Name): Result<Bytes, PackError> {
    Pread(r, k)
  }

  // ----- Sections -----

  predicate Known(s: Shared, k: Name) {
    k in s.inflight || k in s.queue
  }

  /** `prefetch` queues a key that is neither cached nor known. */
  function Hinted(s: Shared, k: Name): Shared {
    if Known(s, k) then s
    else if k in s.waiters then s.(inflight := s.inflight + {k}, queue := s.queue + [k])
    else s.(inflight := s.inflight + {k}, queue := s.queue + [k], waiters := s.waiters[k := s.tickets], tickets := s.tickets + 1)
  }

  /** `acquire_bytes` queues, ahead of all others, a key that nobody waits for. */
  function Demanded(s: Shared, k: Name): Shared {
    s.(inflight := s.inflight + {k}, queue := [k] + s.queue, waiters := s.waiters[k := s.tickets], tickets := s.tickets + 1)
  }

  datatype Answer = Hit(data: Bytes) | Join(ticket: nat) | Load(ticket: nat)

  /** The section of `acquire_bytes` that holds the state lock. */
  function Asked(s: Shared, k: Name): (Shared, Answer) {
    var (cache, hit) := Touched(s.cache, k);
    match hit
    case Some(data) => (s.(cache := cache), Hit(data))
    case None =>
      if k in s.waiters then (s, Join(s.waiters[k]))
      else (Demanded(s, k), Load(s.tickets))
  }

  datatype Errand = Take(key: Name) | Leave | Sleep

  /** A worker looks for work. */
  function Looked(s: Shared): (Shared, Errand) {
    if s.queue != [] then (s.(queue := s.queue[1..]), Take(s.queue[0]))
    else (s, if s.closed then Leave else Sleep)
  }

  /** A worker is done with a key and takes the ticket registered for it, if any. */
  function Finished(s: Shared, k: Name): (Shared, Option<nat>) {
    (s.(inflight := s.inflight - {k}, waiters := s.waiters - {k}),
     if k in s.waiters then Some(s.waiters[k]) else None)
  }

  function Signalled(s: Shared, t: nat): Shared {
    s.(done := s.done + {t})
  }

  /** `close` forgets everything that is pending; the tickets go to the caller. */
  function Drained(s: Shared): Shared {
    s.(queue := [], inflight := {}, waiters := map[])
  }

  /** So does `fail_pending`, after leaving an error for every key somebody may wait for. */
  function AllFailed(s: Shared, f: Failure): Shared {
    Drained(s).(errors := s.errors + SameFailure(s.waiters.Keys, f))
  }

  function SameFailure(keys: set<Name>, f: Failure): map<Name, Failure> {
    map k | k in keys :: f
  }

  /** One key of `prefetch`: a cached key is touched and not kept, any other one is queued unless it is known. */
  function HintedOne(s: Shared, k: Name): (Shared, nat) {
    var (cache, hit) := Touched(s.cache, k);
    if hit.Some? then (s.(cache := Unpinned(cache, k)), 0)
    else (Hinted(s, k), if Known(s, k) then 0 else 1)
  }

  /** All keys of `prefetch`, up to the one that finds the queue full. */
  function HintedAll(s: Shared, keys: seq<Name>, limit: nat): (Shared, nat)
    decreases |keys|
  {
    if keys == [] || |s.queue| >= limit then (s, 0)
    else
      var (s1, n1) := HintedOne(s, keys[0]);
      var (s2, n2) := HintedAll(s1, keys[1..], limit);
      (s2, n1 + n2)
  }

  /** What one round of a worker does when nobody interferes. */
  function Served(r: OpenReader, s: Shared, k: Name, capacity: nat): Shared
    requires Covers(s.cache.slots, s.cache.recency) && Distinct(s.cache.recency)
  {
    var loaded := match ReadKey(r, k)
      case Ok(data) => s.(cache := Inserted(s.cache, k, data, capacity), errors := s.errors - {k})
      case Err(e) => s.(errors := s.errors[k := ReadFailed(e)]);
    var (after, ticket) := Finished(loaded, k);
    if ticket.Some? then Signalled(after, ticket.value) else after
  }

  // ----- What prefetch does to the queue -----

  /** The keys are new, each is queued once, and each was neither cached nor known before. */
  ghost predicate NewKeys(s: Shared, added: seq<Name>) {
    && Distinct(added)
    && forall i | 0 <= i < |added| :: added[i] !in s.cache.slots && !Known(s, added[i])
  }

  /** The two states pin the same entries equally and differ in the order of the cache at most. */
  ghost predicate SameEntries(s: Shared, s': Shared) {
    s'.cache.slots == s.cache.slots && s'.cache.live == s.cache.live
  }

  lemma {:induction false} TouchAndUnpin(c: Cache, k: Name)
    ensures Unpinned(Touched(c, k).0, k).slots == c.slots && Unpinned(Touched(c, k).0, k).live == c.live
  {
    if k in c.slots {
      var slot := c.slots[k];
      assert Unpinned(Touched(c, k).0, k).slots == c.slots[k := slot.(refs := slot.refs + 1)][k := slot];
    }
  }

  lemma {:induction false} DistinctCons(k: Name, q: seq<Name>)
    requires Distinct(q) && k !in q
    ensures Distinct([k] + q)
  {
    var p := [k] + q;
    forall i, j | 0 <= i < j < |p| ensures p[i] != p[j] {
      assert p[j] == q[j - 1];
      assert i > 0 ==> p[i] == q[i - 1];
    }
  }

  /**
   A batch of hints only appends to the queue: new keys, without repetition, never past the limit, in
   the order asked for. Cached entries keep their contents and their pins. A batch that is cut short
   leaves a full queue; one that is not leaves every key cached or in flight.
   */
  lemma {:induction false} HintsAreDeduplicated(s: Shared, keys: seq<Name>, limit: nat) returns (added: seq<Name>)
    requires forall k | k in s.queue :: k in s.inflight
    ensures var (s', queued) := HintedAll(s, keys, limit);
            && s'.queue == s.queue + added && NewKeys(s, added) && queued == |added|
            && |s'.queue| <= Max(|s.queue|, limit)
            && s'.inflight == s.inflight + (set k | k in added)
            && s'.waiters.Keys == s.waiters.Keys + (set k | k in added)
            && (forall i | 0 <= i < |added| :: added[i] in keys)
            && SameEntries(s, s')
            && (|s'.queue| < limit ==> forall i | 0 <= i < |keys| :: keys[i] in s'.cache.slots || keys[i] in s'.inflight)
    decreases |keys|
  {
    if keys == [] || |s.queue| >= limit {
      added := [];
      assert s.inflight == s.inflight + (set k | k in added);
      assert s.queue == s.queue + added;
      assert s.waiters.Keys == s.waiters.Keys + (set k | k in added);
    } else {
      hide Touched, Unpinned;
      var k := keys[0];
      var (s1, n1) := HintedOne(s, k);
      TouchAndUnpin(s.cache, k);
      assert Touched(s.cache, k).1.Some? <==> k in s.cache.slots by { TouchHits(s.cache, k); }
      assert forall q | q in s1.queue :: q in s1.inflight;
      var rest := HintsAreDeduplicated(s1, keys[1..], limit);
      hide HintedAll;
      added := (if n1 == 1 then [k] else []) + rest;
      FirstHint(s, k, rest, added, HintedAll(s1, keys[1..], limit).0);
      FirstHintKeys(s, k, rest, added, HintedAll(s1, keys[1..], limit).0);
      assert forall i | 0 <= i < |rest| :: rest[i] in keys[1..];
      assert forall i | 1 <= i < |keys| :: keys[i] == keys[1..][i - 1];
    }
  }

  lemma {:induction false} TouchHits(c: Cache, k: Name)
    ensures Touched(c, k).1.Some? <==> k in c.slots
  {
  }

  lemma {:induction false} FirstHint(s: Shared, k: Name, rest: seq<Name>, added: seq<Name>, s2: Shared)
    requires var (s1, n1) := HintedOne(s, k);
             && NewKeys(s1, rest) && added == (if n1 == 1 then [k] else []) + rest
             && SameEntries(s1, s2) && s2.queue == s1.queue + rest
    ensures NewKeys(s, added) && SameEntries(s, s2)
    ensures s2.queue == s.queue + added
  {
    var (s1, n1) := HintedOne(s, k);
    TouchAndUnpin(s.cache, k);
    TouchHits(s.cache, k);
    hide Touched, Unpinned;
    if n1 == 1 {
      assert k in s1.inflight;
      assert k !in rest;
      DistinctCons(k, rest);
    } else {
      assert added == rest;
    }
  }

  lemma {:induction false} FirstHintKeys(s: Shared, k: Name, rest: seq<Name>, added: seq<Name>, s2: Shared)
    requires var (s1, n1) := HintedOne(s, k);
             && added == (if n1 == 1 then [k] else []) + rest && s2.inflight == s1.inflight + (set q | q in rest)
             && s2.waiters.Keys == s1.waiters.Keys + (set q | q in rest) && SameEntries(s1, s2)
    ensures s2.inflight == s.inflight + (set q | q in added) && s2.waiters.Keys == s.waiters.Keys + (set q | q in added)
    ensures k in s2.cache.slots || k in s2.inflight || k in s.queue
  {
    var (s1, n1) := HintedOne(s, k);
    TouchAndUnpin(s.cache, k);
    TouchHits(s.cache, k);
    hide Touched, Unpinned;
    if n1 == 1 {
      assert (set q | q in added) == {k} + (set q | q in rest);
    } else {
      assert added == rest;
    }
  }

  class StreamingStore {
    var queue: seq<Name>
    var inflight: set<Name>
    var waiters: map<Name, nat>
    var errors: map<Name, Failure>
    var closed: bool
    var done: set<nat>
    var tickets: nat
    const cache: LazyQueues.ChunkCache
    const reader: OpenReader
    const queueLimit: nat

    ghost predicate Valid()
      reads this, cache
    {
      cache.Valid()
    }

    ghost function View(): Shared
      reads this, cache
    {
      Shared(queue, inflight, waiters, errors, cache.View(), closed, done, tickets)
    }

    constructor (reader: OpenReader, capacityBytes: nat, queueLimit: nat)
      ensures Valid() && fresh(cache) && View() == Fresh()
      ensures cache.capacityBytes == Max(capacityBytes, 1)
      ensures this.reader == reader && this.queueLimit == queueLimit
    {
      queue, inflight, waiters, errors := [], {}, map[], map[];
      closed, done, tickets := false, {}, 0;
      this.reader, this.queueLimit := reader, queueLimit;
      var chunks := new LazyQueues.ChunkCache(Max(capacityBytes, 1));
      cache := chunks;
    }

    /** The section of `prefetch` that holds the state lock. */
    method Prefetch(keys: seq<Name>) returns (queued: nat)
      requires Valid()
      modifies this, cache
      ensures Valid() && (View(), queued) == HintedAll(old(View()), keys, queueLimit)
    {
      hide LazyQueues.Stamped, WellFormed, Hinted, HintedOne;
      queued := 0;
      var n := 0;
      ghost var goal := HintedAll(View(), keys, queueLimit);
      while n < |keys| && |queue| < queueLimit
        invariant Valid() && n <= |keys|
        invariant var rest := HintedAll(View(), keys[n..], queueLimit);
                  rest.0 == goal.0 && queued + rest.1 == goal.1
      {
        assert keys[n..][1..] == keys[n + 1..];
        var more := PrefetchOne(keys[n]);
        queued := queued + more;
        n := n + 1;
      }
    }

    method PrefetchOne(key: Name) returns (queued: nat)
      requires Valid()
      modifies this, cache
      ensures Valid() && (View(), queued) == HintedOne(old(View()), key)
    {
      hide LazyQueues.Stamped, WellFormed;
      TouchHits(cache.View(), key);
      ghost var before := View();
      var hit := cache.Get(key);
      if hit.Some? {
        cache.Release(key);
        return 0;
      }
      assert cache.View() == before.cache;
      if key in inflight || key in queue {
        return 0;
      }
      inflight := inflight + {key};
      if key !in waiters {
        waiters := waiters[key := tickets];
        tickets := tickets + 1;
      }
      queue := queue + [key];
      return 1;
    }

    /** The section of `acquire_bytes` that holds the state lock. */
    method Ask(key: Name) returns (answer: Answer)
      requires Valid()
      modifies this, cache
      ensures Valid() && (View(), answer) == Asked(old(View()), key)
    {
      hide LazyQueues.Stamped, WellFormed;
      TouchHits(cache.View(), key);
      var hit := cache.Get(key);
      if hit.Some? {
        return Hit(hit.value);
      }
      if key in waiters {
        return Join(waiters[key]);
      }
      inflight := inflight + {key};
      var ticket := tickets;
      tickets := tickets + 1;
      waiters := waiters[key := ticket];
      queue := [key] + queue;
      return Load(ticket);
    }

    /** A worker's search for work, up to the point where it would sleep. */
    method Look() returns (errand: Errand)
      requires Valid()
      modifies this
      ensures Valid() && (View(), errand) == Looked(old(View()))
    {
      if closed && queue == [] {
        return Leave;
      }
      if queue != [] {
        var key := queue[0];
        queue := queue[1..];
        return Take(key);
      }
      return Sleep;
    }

    /** One round of a worker that has taken `key`. */
    method Serve(key: Name)
      requires Valid()
      modifies this, cache
      ensures Valid()
      ensures Covers(old(View()).cache.slots, old(View()).cache.recency) && Distinct(old(View()).cache.recency)
      ensures View() == Served(reader, old(View()), key, cache.capacityBytes)
    {
      hide LazyQueues.Stamped, Pread, Inserted;
      match Pread(reader, key) {
        case Ok(bytes) =>
          cache.Insert(key, bytes);
          errors := errors - {key};
        case Err(e) =>
          errors := errors[key := ReadFailed(e)];
      }
      var ticket := if key in waiters then Some(waiters[key]) else None;
      inflight := inflight - {key};
      waiters := waiters - {key};
      if ticket.Some? {
        done := done + {ticket.value};
      }
    }

    /** Marks tickets done, in no particular order. */
    method Signal(held: set<nat>)
      modifies this`done
      ensures done == old(done) + held
    {
      var left := held;
      while left != {}
        invariant left <= held && done == old(done) + (held - left)
      {
        var t := Pick(left);
        left := left - {t};
        done := done + {t};
      }
    }

    method RecordFailures(keys: set<Name>, f: Failure)
      modifies this`errors
      ensures errors == old(errors) + SameFailure(keys, f)
    {
      var left := keys;
      while left != {}
        invariant left <= keys && errors == old(errors) + SameFailure(keys - left, f)
      {
        var k := Pick(left);
        left := left - {k};
        errors := errors[k := f];
      }
      assert keys - left == keys;
    }

    method FailPending(f: Failure)
      requires Valid()
      modifies this
      ensures Valid()
      ensures View() == AllFailed(old(View()), f).(done := old(View()).done + old(View()).waiters.Values)
    {
      hide LazyQueues.Stamped, WellFormed, SameFailure;
      queue, inflight := [], {};
      RecordFailures(waiters.Keys, f);
      var held := waiters.Values;
      waiters := map[];
      Signal(held);
    }

    /** `close` up to the point where it waits for the workers. */
    method Close()
      requires Valid()
      modifies this
      ensures Valid()
      ensures old(closed) ==> View() == old(View())
      ensures !old(closed) ==>
        View() == Drained(old(View())).(closed := true, done := old(View()).done + old(View()).waiters.Values)
    {
      if closed {
        return;
      }
      closed := true;
      queue, inflight := [], {};
      var held := waiters.Values;
      waiters := map[];
      Signal(held);
    }
  }
}
