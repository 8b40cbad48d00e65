/**
 The cache's recency queue as the program keeps it: keys stamped with a generation,
 where a stamp counts only while it is the newest one of a cached key. Old stamps are
 left behind and removed when they turn up.
 */
module LazyQueues {
  import opened Prelude
  import opened ChunkCaches

  datatype Entry = Entry(data: Bytes, refs: nat, generation: nat)

  type Entries = map<Name, Entry>

  datatype Stamp = Stamp(key: Name, generation: nat)

  predicate IsLive(entries: Entries, s: Stamp) {
    s.key in entries && entries[s.key].generation == s.generation
  }

  /** The recency queue a stamped queue stands for. */
  function LiveKeys(entries: Entries, order: seq<Stamp>): seq<Name> {
    if order == [] then []
    else (if IsLive(entries, order[0]) then [order[0].key] else []) + LiveKeys(entries, order[1..])
  }

  function SlotsOf(entries: Entries): Slots {
    map k | k in entries :: Slot(entries[k].data, entries[k].refs)
  }

  ghost predicate FreshStamps(order: seq<Stamp>, generation: nat) {
    && (forall i | 0 <= i < |order| :: order[i].generation <= generation)
    && (forall i, j | 0 <= i < j < |order| :: order[i].generation != order[j].generation)
  }

  /** No stamp is used twice, and every cached key's newest stamp is in the queue. */
  ghost predicate Stamped(entries: Entries, order: seq<Stamp>, generation: nat) {
    && FreshStamps(order, generation)
    && (forall k | k in entries :: Stamp(k, entries[k].generation) in order)
  }

  ghost predicate OthersQueued(entries: Entries, order: seq<Stamp>, key: Name) {
    forall k | k in entries && k != key :: Stamp(k, entries[k].generation) in order
  }

  lemma {:induction false} LiveAppend(entries: Entries, p: seq<Stamp>, q: seq<Stamp>)
    ensures LiveKeys(entries, p + q) == LiveKeys(entries, p) + LiveKeys(entries, q)
  {
    if p == [] {
      assert p + q == q;
    } else {
      assert (p + q)[1..] == p[1..] + q;
      LiveAppend(entries, p[1..], q);
    }
  }

  lemma {:induction false} LiveMembers(entries: Entries, order: seq<Stamp>)
    ensures forall k :: k in LiveKeys(entries, order) <==> k in entries && Stamp(k, entries[k].generation) in order
  {
    if order != [] {
      LiveMembers(entries, order[1..]);
      assert order == [order[0]] + order[1..];
    }
  }

  lemma {:induction false} LiveDistinct(entries: Entries, order: seq<Stamp>, generation: nat)
    requires FreshStamps(order, generation)
    ensures Distinct(LiveKeys(entries, order))
  {
    if order != [] {
      var s, rest := order[0], order[1..];
      LiveDistinct(entries, rest, generation);
      if IsLive(entries, s) {
        LiveMembers(entries, rest);
        assert s !in rest;
        assert s.key !in LiveKeys(entries, rest);
      }
    }
  }

  /** A key that loses its stamps leaves the queue; the others keep their order. */
  lemma {:induction false} LiveLoses(entries: Entries, entries': Entries, order: seq<Stamp>, k: Name)
    requires forall q | q != k :: (q in entries) == (q in entries')
    requires forall q | q != k && q in entries :: entries'[q].generation == entries[q].generation
    requires forall i | 0 <= i < |order| && order[i].key == k :: !IsLive(entries', order[i])
    ensures LiveKeys(entries', order) == Without(LiveKeys(entries, order), k)
  {
    if order != [] {
      LiveLoses(entries, entries', order[1..], k);
      WithoutAppend(if IsLive(entries, order[0]) then [order[0].key] else [], LiveKeys(entries, order[1..]), k);
    }
  }

  lemma {:induction false} LiveSkipsDead(entries: Entries, order: seq<Stamp>, i: nat)
    requires i < |order| && !IsLive(entries, order[i])
    ensures LiveKeys(entries, order[..i] + order[i + 1..]) == LiveKeys(entries, order)
  {
    assert order == order[..i] + ([order[i]] + order[i + 1..]);
    LiveAppend(entries, order[..i], [order[i]] + order[i + 1..]);
    LiveAppend(entries, order[..i], order[i + 1..]);
  }

  /** What `retain` leaves: the live stamps, in order. */
  function Retained(entries: Entries, order: seq<Stamp>): seq<Stamp> {
    if order == [] then []
    else (if IsLive(entries, order[0]) then [order[0]] else []) + Retained(entries, order[1..])
  }

  lemma {:induction false} RetainedSnoc(entries: Entries, order: seq<Stamp>, s: Stamp)
    ensures Retained(entries, order + [s]) == Retained(entries, order) + if IsLive(entries, s) then [s] else []
  {
    if order == [] {
      assert order + [s] == [s];
    } else {
      assert (order + [s])[1..] == order[1..] + [s];
      RetainedSnoc(entries, order[1..], s);
    }
  }

  lemma {:induction false} RetainKeeps(entries: Entries, order: seq<Stamp>)
    ensures LiveKeys(entries, Retained(entries, order)) == LiveKeys(entries, order)
    ensures |Retained(entries, order)| == |LiveKeys(entries, order)|
    ensures forall s :: s in Retained(entries, order) <==> s in order && IsLive(entries, s)
  {
    if order != [] {
      var rest := order[1..];
      assert order == [order[0]] + rest;
      RetainKeeps(entries, rest);
      LiveAppend(entries, if IsLive(entries, order[0]) then [order[0]] else [], Retained(entries, rest));
    }
  }

  lemma {:induction false} RetainFresh(entries: Entries, order: seq<Stamp>, generation: nat)
    requires FreshStamps(order, generation)
    ensures FreshStamps(Retained(entries, order), generation)
  {
    if order != [] {
      var rest := order[1..];
      RetainFresh(entries, rest, generation);
      RetainKeeps(entries, rest);
      var r := Retained(entries, rest);
      forall j | 0 <= j < |r| ensures r[j].generation != order[0].generation {
        assert r[j] in r;
        var m :| 0 <= m < |rest| && rest[m] == r[j];
        assert order[m + 1] == rest[m];
      }
      assert Retained(entries, order) == (if IsLive(entries, order[0]) then [order[0]] else []) + r;
    }
  }

  lemma {:induction false} RemoveFresh(order: seq<Stamp>, i: nat, generation: nat)
    requires FreshStamps(order, generation) && i < |order|
    ensures FreshStamps(order[..i] + order[i + 1..], generation)
    ensures forall s :: s in order && s != order[i] ==> s in order[..i] + order[i + 1..]
  {
    assert order == order[..i] + [order[i]] + order[i + 1..];
  }

  lemma {:induction false} PushFresh(order: seq<Stamp>, generation: nat, s: Stamp)
    requires FreshStamps(order, generation) && s.generation == generation + 1
    ensures FreshStamps(order + [s], generation + 1)
  {
  }

  class ChunkCache {
    var entries: Entries
    var order: seq<Stamp>
    var generation: nat
    const capacityBytes: nat
    var liveBytes: nat
    var hits: nat
    var misses: nat

    ghost predicate Valid()
      reads this
    {
      && Stamped(entries, order, generation)
      && WellFormed(View()) && Covers(View().slots, View().recency)
    }

    ghost function View(): Cache
      reads this
    {
      Cache(SlotsOf(entries), LiveKeys(entries, order), liveBytes)
    }

    constructor (capacityBytes: nat)
      ensures Valid() && View() == EMPTY_CACHE && this.capacityBytes == capacityBytes
      ensures hits == misses == 0
    {
      entries, order, generation := map[], [], 0;
      this.capacityBytes := capacityBytes;
      liveBytes, hits, misses := 0, 0, 0;
      new;
      assert SlotsOf(entries) == map[];
      assert Sizes(map[]) == map[];
    }

    /** The position of the first stamp of `key`. */
    method Position(key: Name) returns (found: Option<nat>)
      ensures found.Some? ==> found.value < |order| && order[found.value].key == key
      ensures found.None? ==> forall i | 0 <= i < |order| :: order[i].key != key
    {
      for i := 0 to |order|
        invariant forall j | 0 <= j < i :: order[j].key != key
      {
        if order[i].key == key {
          return Some(i);
        }
      }
      return None;
    }

    /** Removes every stamp that is not live. */
    method Compact()
      modifies this`order
      ensures order == Retained(entries, old(order))
    {
      var was, kept := order, [];
      for i := 0 to |was|
        invariant kept == Retained(entries, was[..i])
      {
        RetainedSnoc(entries, was[..i], was[i]);
        assert was[..i + 1] == was[..i] + [was[i]];
        if IsLive(entries, was[i]) {
          kept := kept + [was[i]];
        }
      }
      assert was[..|was|] == was;
      order := kept;
    }

    /** `key` has a new stamp that no queued stamp matches; this queues it and tidies up. */
    method MoveToBack(key: Name)
      requires key in entries && entries[key].generation == generation > 0
      requires FreshStamps(order, generation - 1)
      requires OthersQueued(entries, order, key)
      modifies this`order
      ensures Stamped(entries, order, generation)
      ensures LiveKeys(entries, order) == LiveKeys(entries, old(order)) + [key]
      ensures |order| <= Max(4 * |entries|, 64)
    {
      hide LiveKeys, Retained, FreshStamps, OthersQueued;
      if |entries| <= 32 {
        var position := Position(key);
        if position.Some? {
          DropDead(entries, order, generation - 1, key, position.value);
          order := order[..position.value] + order[position.value + 1..];
        }
      }
      PushLive(entries, order, generation - 1, key);
      order := order + [Stamp(key, generation)];
      if |order| > Max(4 * |entries|, 64) {
        Compacted(entries, order, generation);
        Compact();
      }
    }

    /** Looks a key up; a hit pins the entry and makes it most recent. */
    method Get(key: Name) returns (data: Option<Bytes>)
      requires Valid()
      modifies this
      ensures Valid()
      ensures (View(), data) == Touched(old(View()), key)
      ensures hits == old(hits) + (if data.Some? then 1 else 0)
      ensures misses == old(misses) + (if data.Some? then 0 else 1)
      ensures data.Some? ==> |order| <= Max(4 * |entries|, 64)
    {
      HitRefines(entries, order, generation, liveBytes, key);
      hide Stamped, LiveKeys, SlotsOf, WellFormed;
      if key !in entries {
        generation := generation + 1;
        misses := misses + 1;
        data := None;
      } else {
        data := Some(entries[key].data);
        hits := hits + 1;
        Hit(key);
      }
    }

    method Hit(key: Name)
      requires Valid() && key in entries
      modifies this`entries, this`order, this`generation
      ensures Valid() && View() == Touched(old(View()), key).0
      ensures |order| <= Max(4 * |entries|, 64)
    {
      HitRefines(entries, order, generation, liveBytes, key);
      hide Stamped, LiveKeys, SlotsOf, FreshStamps, OthersQueued, WellFormed, Touched;
      generation := generation + 1;
      var e := entries[key];
      entries := entries[key := e.(refs := e.refs + 1, generation := generation)];
      MoveToBack(key);
    }

    /** Evicts from the front of the queue until `need` more bytes fit or every entry has been looked at. */
    method MakeRoom(need: nat)
      requires Valid()
      modifies this`entries, this`order, this`liveBytes
      ensures Valid()
      ensures View() == Evicted(old(View()), need, capacityBytes, |old(View()).recency|)
    {
      ghost var goal := Evicted(View(), need, capacityBytes, |View().recency|);
      var candidates: nat := |entries|;
      QueueSize(entries, order, generation);
      hide Stamped, WellFormed, SlotsOf, Evicted, LiveKeys, Covers;
      while liveBytes + need > capacityBytes && candidates > 0
        invariant Valid() && candidates <= |View().recency|
        invariant Evicted(View(), need, capacityBytes, candidates) == goal
        decreases candidates, |order|
      {
        assert order != [] by { EmptyQueue(entries); }
        var s := order[0];
        if s.key !in entries || entries[s.key].generation != s.generation {
          SkipDead();
        } else {
          candidates := EvictOne(need, candidates);
        }
      }
      EvictionStops(View(), need, capacityBytes, candidates);
    }

    /** The front stamp is dead: it goes, and the cache stays what it was. */
    method SkipDead()
      requires Valid() && order != [] && !IsLive(entries, order[0])
      modifies this`order
      ensures Valid() && View() == old(View()) && order == old(order[1..])
    {
      hide Stamped, WellFormed, SlotsOf, LiveKeys, Covers;
      PopDead(entries, order, generation);
      order := order[1..];
    }

    /** The front stamp is live: the entry is moved to the back if pinned and dropped if not. */
    method EvictOne(need: nat, candidates: nat) returns (left: nat)
      requires Valid()
      requires order != [] && IsLive(entries, order[0])
      requires 0 < candidates <= |View().recency| && liveBytes + need > capacityBytes
      modifies this`entries, this`order, this`liveBytes
      ensures Valid() && left == candidates - 1
      ensures left <= |View().recency|
      ensures Evicted(View(), need, capacityBytes, left) == old(Evicted(View(), need, capacityBytes, candidates))
    {
      hide Stamped, WellFormed, SlotsOf, LiveKeys, Evicted, Covers;
      var s := order[0];
      if entries[s.key].refs > 0 {
        PopPinned(entries, order, generation, liveBytes, need, capacityBytes, candidates);
        order := order[1..] + [s];
      } else {
        PopDropped(entries, order, generation, liveBytes, need, capacityBytes, candidates);
        liveBytes := SatSub(liveBytes, |entries[s.key].data|);
        entries := entries - {s.key};
        order := order[1..];
      }
      left := candidates - 1;
    }

    /** Forgets `key`, pinned or not. */
    method Vacate(key: Name)
      requires Valid()
      modifies this`entries, this`liveBytes
      ensures Valid() && View() == Vacated(old(View()), key)
    {
      VacateRefines(entries, order, generation, liveBytes, key);
      hide Stamped, WellFormed, LiveKeys, Covers, Vacated;
      if key in entries {
        liveBytes := SatSub(liveBytes, |entries[key].data|);
        entries := entries - {key};
      }
    }

    method Append(key: Name, data: Bytes)
      requires Valid() && key !in entries
      modifies this`entries, this`order, this`generation, this`liveBytes
      ensures Stamped(entries, order, generation)
      ensures View() == Cache(old(View()).slots[key := Slot(data, 0)], old(View()).recency + [key], old(liveBytes) + |data|)
    {
      AddRefines(entries, order, generation, key, data);
      hide Stamped, LiveKeys;
      generation := generation + 1;
      liveBytes := liveBytes + |data|;
      entries := entries[key := Entry(data, 0, generation)];
      order := order + [Stamp(key, generation)];
    }

    /** Caches `data` under `key`, replacing what was there, after making room for it. The new entry is not pinned. */
    method Insert(key: Name, data: Bytes)
      requires Valid()
      modifies this`entries, this`order, this`generation, this`liveBytes
      ensures Valid()
      ensures View() == Inserted(old(View()), key, data, capacityBytes)
    {
      ghost var before := View();
      RoomWithout(before, key, data, capacityBytes);
      InsertKeeps(before, key, data, capacityBytes);
      WellFormedCovers(Inserted(before, key, data, capacityBytes));
      Vacate(key);
      MakeRoom(|data|);
      assert key in entries <==> key in View().slots;
      hide Stamped, LiveKeys, Evicted, Vacated, WellFormed, Covers, SlotsOf;
      Append(key, data);
    }

    /** Unpins an entry once. */
    method Release(key: Name)
      requires Valid()
      modifies this`entries
      ensures Valid() && View() == Unpinned(old(View()), key)
    {
      UnpinKeeps(View(), key);
      WellFormedCovers(Unpinned(View(), key));
      hide WellFormed, LiveKeys, Covers;
      if key in entries {
        var e := entries[key];
        entries := entries[key := e.(refs := SatSub(e.refs, 1))];
        SameGenerations(old(entries), entries, order);
        assert SlotsOf(entries) == old(SlotsOf(entries))[key := Slot(e.data, SatSub(e.refs, 1))];
      }
    }
  }

  /** What a lookup does to the stamped queue is what `Touched` does to the recency queue. */
  lemma {:induction false} HitRefines(entries: Entries, order: seq<Stamp>, generation: nat, live: nat, key: Name)
    requires Stamped(entries, order, generation) && WellFormed(Cache(SlotsOf(entries), LiveKeys(entries, order), live))
    ensures var c := Cache(SlotsOf(entries), LiveKeys(entries, order), live);
            if key !in entries then Touched(c, key) == (c, None) && Stamped(entries, order, generation + 1)
            else
              var e := entries[key];
              var entries' := entries[key := e.(refs := e.refs + 1, generation := generation + 1)];
              var c' := Cache(SlotsOf(entries'), LiveKeys(entries', order) + [key], live);
              && FreshStamps(order, generation)
              && OthersQueued(entries', order, key)
              && Touched(c, key) == (c', Some(e.data)) && WellFormed(c') && Covers(c'.slots, c'.recency)
  {
    hide SumValues, LiveKeys, Without;
    StampsAfterHit(entries, order, generation, key);
    TouchKeeps(Cache(SlotsOf(entries), LiveKeys(entries, order), live), key);
    WellFormedCovers(Touched(Cache(SlotsOf(entries), LiveKeys(entries, order), live), key).0);
    if key in entries {
      var e := entries[key];
      var e' := e.(refs := e.refs + 1, generation := generation + 1);
      Restamped(entries, order, generation, key, e');
      hide WellFormed, Stamped, FreshStamps, OthersQueued, Covers;
      assert SlotsOf(entries[key := e']) == SlotsOf(entries)[key := Slot(e.data, e.refs + 1)];
    }
  }

  lemma {:induction false} StampsAfterHit(entries: Entries, order: seq<Stamp>, generation: nat, key: Name)
    requires Stamped(entries, order, generation)
    ensures if key !in entries then Stamped(entries, order, generation + 1)
            else
              var e := entries[key];
              FreshStamps(order, generation)
              && OthersQueued(entries[key := e.(refs := e.refs + 1, generation := generation + 1)], order, key)
  {
  }

  /** A new stamp takes the key out of the queue until that stamp is pushed. */
  lemma {:induction false} Restamped(entries: Entries, order: seq<Stamp>, generation: nat, key: Name, e: Entry)
    requires Stamped(entries, order, generation) && e.generation == generation + 1
    ensures LiveKeys(entries[key := e], order) == Without(LiveKeys(entries, order), key)
    ensures forall i | 0 <= i < |order| && order[i].key == key :: !IsLive(entries[key := e], order[i])
  {
    LiveLoses(entries, entries[key := e], order, key);
  }

  lemma {:induction false} DropDead(entries: Entries, order: seq<Stamp>, generation: nat, key: Name, i: nat)
    requires FreshStamps(order, generation) && OthersQueued(entries, order, key)
    requires key in entries && entries[key].generation == generation + 1
    requires i < |order| && order[i].key == key
    ensures var order' := order[..i] + order[i + 1..];
            && FreshStamps(order', generation) && OthersQueued(entries, order', key)
            && LiveKeys(entries, order') == LiveKeys(entries, order)
  {
    LiveSkipsDead(entries, order, i);
    RemoveFresh(order, i, generation);
  }

  lemma {:induction false} Compacted(entries: Entries, order: seq<Stamp>, generation: nat)
    requires Stamped(entries, order, generation)
    ensures var order' := Retained(entries, order);
            && Stamped(entries, order', generation)
            && LiveKeys(entries, order') == LiveKeys(entries, order)
            && |order'| == |entries|
  {
    hide LiveKeys, Retained;
    RetainKeeps(entries, order);
    RetainFresh(entries, order, generation);
    OneStampEach(entries, Retained(entries, order), generation);
  }

  lemma {:induction false} PushLive(entries: Entries, order: seq<Stamp>, generation: nat, key: Name)
    requires FreshStamps(order, generation) && key in entries && entries[key].generation == generation + 1
    requires OthersQueued(entries, order, key)
    ensures Stamped(entries, order + [Stamp(key, generation + 1)], generation + 1)
    ensures LiveKeys(entries, order + [Stamp(key, generation + 1)]) == LiveKeys(entries, order) + [key]
  {
    var s := Stamp(key, generation + 1);
    PushFresh(order, generation, s);
    LiveAppend(entries, order, [s]);
    assert LiveKeys(entries, [s]) == [key];
  }

  lemma {:induction false} SameGenerations(entries: Entries, entries': Entries, order: seq<Stamp>)
    requires entries.Keys == entries'.Keys && forall k | k in entries :: entries'[k].generation == entries[k].generation
    ensures LiveKeys(entries', order) == LiveKeys(entries, order)
  {
    if order != [] {
      SameGenerations(entries, entries', order[1..]);
    }
  }

  /** In a compacted queue there is exactly one stamp per cached key. */
  lemma {:induction false} OneStampEach(entries: Entries, order: seq<Stamp>, generation: nat)
    requires Stamped(entries, order, generation) && |order| == |LiveKeys(entries, order)|
    ensures |order| == |entries|
  {
    LiveMembers(entries, order);
    LiveDistinct(entries, order, generation);
    forall k: Name ensures k in LiveKeys(entries, order) <==> k in entries.Keys {
      assert k in entries ==> Stamp(k, entries[k].generation) in order;
    }
    DistinctSize(LiveKeys(entries, order), entries.Keys);
  }

  lemma {:induction false} TailFresh(order: seq<Stamp>, generation: nat)
    requires FreshStamps(order, generation) && order != []
    ensures FreshStamps(order[1..], generation) && order[0] !in order[1..]
    ensures FreshStamps(order[1..] + [order[0]], generation)
    ensures forall s :: s in order <==> s == order[0] || s in order[1..]
  {
    assert order == [order[0]] + order[1..];
  }

  lemma {:induction false} QueueSize(entries: Entries, order: seq<Stamp>, generation: nat)
    requires Stamped(entries, order, generation)
    ensures |LiveKeys(entries, order)| == |entries|
  {
    hide LiveKeys, FreshStamps;
    LiveMembers(entries, order);
    LiveDistinct(entries, order, generation);
    forall k: Name ensures k in LiveKeys(entries, order) <==> k in entries.Keys {
      assert k in entries ==> Stamp(k, entries[k].generation) in order;
    }
    DistinctSize(LiveKeys(entries, order), entries.Keys);
  }

  lemma {:induction false} PopDead(entries: Entries, order: seq<Stamp>, generation: nat)
    requires Stamped(entries, order, generation) && order != [] && !IsLive(entries, order[0])
    ensures Stamped(entries, order[1..], generation)
    ensures LiveKeys(entries, order[1..]) == LiveKeys(entries, order)
  {
    TailFresh(order, generation);
  }

  lemma {:induction false} EmptyQueue(entries: Entries)
    ensures LiveKeys(entries, []) == []
  {
  }

  /** Moving a pinned front entry to the back is the next step of `Evicted`. */
  lemma {:induction false} PopPinned(
    entries: Entries, order: seq<Stamp>, generation: nat, live: nat, need: nat, capacity: nat, candidates: nat)
    requires Stamped(entries, order, generation) && order != [] && IsLive(entries, order[0])
    requires WellFormed(Cache(SlotsOf(entries), LiveKeys(entries, order), live))
    requires Covers(SlotsOf(entries), LiveKeys(entries, order)) && entries[order[0].key].refs > 0
    requires 0 < candidates <= |LiveKeys(entries, order)| && live + need > capacity
    ensures var order' := order[1..] + [order[0]];
            var c, c' := Cache(SlotsOf(entries), LiveKeys(entries, order), live),
                         Cache(SlotsOf(entries), LiveKeys(entries, order'), live);
            && Stamped(entries, order', generation) && WellFormed(c') && Covers(c'.slots, c'.recency)
            && |c'.recency| == |c.recency|
            && Evicted(c, need, capacity, candidates) == Evicted(c', need, capacity, candidates - 1)
  {
    var k, q := order[0].key, LiveKeys(entries, order);
    var c := Cache(SlotsOf(entries), q, live);
    TailFresh(order, generation);
    LiveAppend(entries, order[1..], [order[0]]);
    assert q == [k] + LiveKeys(entries, order[1..]);
    assert q[1..] == LiveKeys(entries, order[1..]);
    assert LiveKeys(entries, [order[0]]) == [k];
    hide LiveKeys, FreshStamps;
    RotateFirst(c, k, q[1..]);
    WellFormedCovers(c.(recency := q[1..] + [k]));
  }

  /** When the front key loses its entry, the rest of the queue is unchanged. */
  lemma {:induction false} FrontGone(entries: Entries, order: seq<Stamp>, generation: nat)
    requires Stamped(entries, order, generation) && order != [] && IsLive(entries, order[0])
    ensures LiveKeys(entries, order) == [order[0].key] + LiveKeys(entries - {order[0].key}, order[1..])
    ensures Stamped(entries - {order[0].key}, order[1..], generation)
  {
    var k := order[0].key;
    TailFresh(order, generation);
    LiveMembers(entries, order[1..]);
    assert k !in LiveKeys(entries, order[1..]);
    WithoutAbsent(LiveKeys(entries, order[1..]), k);
    LiveLoses(entries, entries - {k}, order[1..], k);
  }

  /** Dropping an unpinned front entry is the next step of `Evicted`. */
  lemma {:induction false} PopDropped(
    entries: Entries, order: seq<Stamp>, generation: nat, live: nat, need: nat, capacity: nat, candidates: nat)
    requires Stamped(entries, order, generation) && order != [] && IsLive(entries, order[0])
    requires WellFormed(Cache(SlotsOf(entries), LiveKeys(entries, order), live))
    requires Covers(SlotsOf(entries), LiveKeys(entries, order)) && entries[order[0].key].refs == 0
    requires 0 < candidates <= |LiveKeys(entries, order)| && live + need > capacity
    ensures var k := order[0].key;
            var c, c' := Cache(SlotsOf(entries), LiveKeys(entries, order), live),
                         Cache(SlotsOf(entries - {k}), LiveKeys(entries - {k}, order[1..]), SatSub(live, |entries[k].data|));
            && Stamped(entries - {k}, order[1..], generation) && WellFormed(c') && Covers(c'.slots, c'.recency)
            && |c'.recency| == |c.recency| - 1
            && Evicted(c, need, capacity, candidates) == Evicted(c', need, capacity, candidates - 1)
  {
    var k := order[0].key;
    var c := Cache(SlotsOf(entries), LiveKeys(entries, order), live);
    FrontGone(entries, order, generation);
    assert SlotsOf(entries - {k}) == SlotsOf(entries) - {k};
    hide LiveKeys, Stamped, Evicted, SumValues;
    var c' := DropFirst(c, k, LiveKeys(entries - {k}, order[1..]));
    WellFormedCovers(c');
    EvictedDrops(c, c', k, need, capacity, candidates);
  }

  lemma {:induction false} VacateRefines(entries: Entries, order: seq<Stamp>, generation: nat, live: nat, key: Name)
    requires var c := Cache(SlotsOf(entries), LiveKeys(entries, order), live);
             Stamped(entries, order, generation) && WellFormed(c) && Covers(c.slots, c.recency)
    ensures var c := Cache(SlotsOf(entries), LiveKeys(entries, order), live);
            var live' := if key in entries then SatSub(live, |entries[key].data|) else live;
            var entries' := if key in entries then entries - {key} else entries;
            && Stamped(entries', order, generation)
            && Cache(SlotsOf(entries'), LiveKeys(entries', order), live') == Vacated(c, key)
            && WellFormed(Vacated(c, key))
  {
    var c := Cache(SlotsOf(entries), LiveKeys(entries, order), live);
    VacateKeeps(c, key);
    hide WellFormed, Without;
    if key in entries {
      LiveLoses(entries, entries - {key}, order, key);
      assert SlotsOf(entries - {key}) == SlotsOf(entries) - {key};
    }
  }

  lemma {:induction false} AddRefines(entries: Entries, order: seq<Stamp>, generation: nat, key: Name, data: Bytes)
    requires Stamped(entries, order, generation) && key !in entries
    ensures var entries' := entries[key := Entry(data, 0, generation + 1)];
            var order' := order + [Stamp(key, generation + 1)];
            && Stamped(entries', order', generation + 1)
            && LiveKeys(entries', order') == LiveKeys(entries, order) + [key]
            && SlotsOf(entries') == SlotsOf(entries)[key := Slot(data, 0)]
  {
    var e := Entry(data, 0, generation + 1);
    Restamped(entries, order, generation, key, e);
    LiveMembers(entries, order);
    WithoutAbsent(LiveKeys(entries, order), key);
    hide LiveKeys, Without;
    PushLive(entries[key := e], order, generation, key);
    assert SlotsOf(entries[key := e]) == SlotsOf(entries)[key := Slot(data, 0)];
  }
}
