/**
 The reference-counted chunk cache.

 `Cache` is the cache as a user sees it: the entries and one recency queue without
 duplicates, kept up to date eagerly. What eviction does is stated without reference to
 its loop. The class in `LazyQueues` keeps a queue of stamped keys that is cleaned lazily,
 and is proved to behave as `Cache`.
 */
module ChunkCaches {
  import opened Prelude

  datatype Slot = Slot(data: Bytes, refs: nat)

  type Slots = map<Name, Slot>

  datatype Cache = Cache(slots: Slots, recency: seq<Name>, live: nat)

  const EMPTY_CACHE := Cache(map[], [], 0)

  // ----- Queues of keys -----

  function Without(q: seq<Name>, k: Name): seq<Name> {
    if q == [] then []
    else if q[0] == k then Without(q[1..], k)
    else [q[0]] + Without(q[1..], k)
  }

  lemma {:induction false} WithoutFacts(q: seq<Name>, k: Name)
    ensures forall x :: x in Without(q, k) <==> x in q && x != k
    ensures Distinct(q) ==> Distinct(Without(q, k))
    ensures |Without(q, k)| <= |q|
  {
    if q != [] {
      WithoutFacts(q[1..], k);
      assert q == [q[0]] + q[1..];
      if Distinct(q) {
        assert Distinct(q[1..]);
        assert q[0] !in q[1..];
      }
    }
  }

  lemma {:induction false} WithoutAppend(p: seq<Name>, q: seq<Name>, k: Name)
    ensures Without(p + q, k) == Without(p, k) + Without(q, k)
  {
    if p == [] {
      assert p + q == q;
    } else {
      assert (p + q)[1..] == p[1..] + q;
      WithoutAppend(p[1..], q, k);
    }
  }

  lemma {:induction false} WithoutAbsent(q: seq<Name>, k: Name)
    requires k !in q
    ensures Without(q, k) == q
  {
    if q != [] {
      WithoutAbsent(q[1..], k);
      assert q == [q[0]] + q[1..];
    }
  }

  // ----- The cache as its users see it -----

  predicate Covers(slots: Slots, q: seq<Name>) {
    forall i | 0 <= i < |q| :: q[i] in slots
  }

  lemma {:induction false} WithoutCovered(slots: Slots, q: seq<Name>, k: Name)
    requires Covers(slots, q)
    ensures Covers(slots - {k}, Without(q, k))
  {
    WithoutFacts(q, k);
    forall i | 0 <= i < |Without(q, k)| ensures Without(q, k)[i] in slots - {k} {
      assert Without(q, k)[i] in Without(q, k);
      var m :| 0 <= m < |q| && q[m] == Without(q, k)[i];
    }
  }

  ghost function Sizes(slots: Slots): map<Name, nat> {
    map k | k in slots :: |slots[k].data|
  }

  /** The queue lists exactly the cached keys, once each, and the byte count is exact. */
  ghost predicate WellFormed(c: Cache) {
    && Distinct(c.recency)
    && (forall k :: k in c.recency <==> k in c.slots)
    && c.live == SumValues(Sizes(c.slots))
  }

  function Touched(c: Cache, k: Name): (Cache, Option<Bytes>) {
    if k !in c.slots then (c, None)
    else
      var slot := c.slots[k];
      (c.(slots := c.slots[k := slot.(refs := slot.refs + 1)], recency := Without(c.recency, k) + [k]), Some(slot.data))
  }

  function Unpinned(c: Cache, k: Name): Cache {
    if k !in c.slots then c
    else c.(slots := c.slots[k := c.slots[k].(refs := SatSub(c.slots[k].refs, 1))])
  }

  function Removed(c: Cache, k: Name): Cache
    requires k in c.slots
  {
    Cache(c.slots - {k}, Without(c.recency, k), SatSub(c.live, |c.slots[k].data|))
  }

  /** Look at up to `candidates` keys from the front: skip pinned ones to the back, drop the others, until `need` fits. */
  function Evicted(c: Cache, need: nat, capacity: nat, candidates: nat): Cache
    requires candidates <= |c.recency|
    requires Covers(c.slots, c.recency)
    requires Distinct(c.recency)
    decreases candidates
  {
    if candidates == 0 || c.live + need <= capacity then c
    else
      var k := c.recency[0];
      var rest := c.recency[1..];
      if c.slots[k].refs > 0 then
        Evicted(c.(recency := rest + [k]), need, capacity, candidates - 1)
      else
        Evicted(Cache(c.slots - {k}, rest, SatSub(c.live, |c.slots[k].data|)), need, capacity, candidates - 1)
  }

  /** The cache without `k`, as `insert` leaves it before making room. */
  function Vacated(c: Cache, k: Name): (base: Cache)
    requires Covers(c.slots, c.recency) && Distinct(c.recency)
    ensures Covers(base.slots, base.recency) && Distinct(base.recency)
  {
    if k in c.slots then
      WithoutFacts(c.recency, k);
      WithoutCovered(c.slots, c.recency, k);
      Removed(c, k)
    else c
  }

  function Inserted(c: Cache, k: Name, data: Bytes, capacity: nat): Cache
    requires Covers(c.slots, c.recency) && Distinct(c.recency)
  {
    var base := Vacated(c, k);
    var room := Evicted(base, |data|, capacity, |base.recency|);
    Cache(room.slots[k := Slot(data, 0)], room.recency + [k], room.live + |data|)
  }

  // ----- What the operations keep -----

  lemma {:induction false} RemovedBytes(slots: Slots, k: Name)
    requires k in slots
    ensures SumValues(Sizes(slots)) == |slots[k].data| + SumValues(Sizes(slots - {k}))
  {
    SumSplit(Sizes(slots), k);
    assert Sizes(slots) - {k} == Sizes(slots - {k});
  }

  lemma {:induction false} AddedBytes(slots: Slots, k: Name, slot: Slot)
    requires k !in slots
    ensures SumValues(Sizes(slots[k := slot])) == SumValues(Sizes(slots)) + |slot.data|
  {
    SumInsert(Sizes(slots), k, |slot.data|);
    assert Sizes(slots[k := slot]) == Sizes(slots)[k := |slot.data|];
  }

  lemma {:induction false} TouchKeeps(c: Cache, k: Name)
    requires WellFormed(c)
    ensures WellFormed(Touched(c, k).0)
  {
    if k in c.slots {
      hide SumValues, Without;
      WithoutFacts(c.recency, k);
      assert Sizes(Touched(c, k).0.slots) == Sizes(c.slots);
    }
  }

  lemma {:induction false} UnpinKeeps(c: Cache, k: Name)
    requires WellFormed(c)
    ensures WellFormed(Unpinned(c, k))
  {
    if k in c.slots {
      assert Sizes(Unpinned(c, k).slots) == Sizes(c.slots);
    }
  }

  /** The keys of `q` whose entry is pinned, in order. */
  function Pinned(slots: Slots, q: seq<Name>): seq<Name>
    requires Covers(slots, q)
  {
    if q == [] then []
    else (if slots[q[0]].refs > 0 then [q[0]] else []) + Pinned(slots, q[1..])
  }

  /** The keys of `q` whose entry may be dropped, in order. */
  function Evictable(slots: Slots, q: seq<Name>): seq<Name>
    requires Covers(slots, q)
  {
    if q == [] then []
    else (if slots[q[0]].refs > 0 then [] else [q[0]]) + Evictable(slots, q[1..])
  }

  function BytesOf(slots: Slots, q: seq<Name>): nat
    requires Covers(slots, q)
  {
    if q == [] then 0 else |slots[q[0]].data| + BytesOf(slots, q[1..])
  }

  lemma {:induction false} EvictableMembers(slots: Slots, q: seq<Name>)
    requires Covers(slots, q)
    ensures forall k :: k in Evictable(slots, q) <==> k in q && slots[k].refs == 0
    ensures forall k :: k in Pinned(slots, q) <==> k in q && slots[k].refs > 0
  {
    if q != [] {
      assert q == [q[0]] + q[1..];
      EvictableMembers(slots, q[1..]);
    }
  }

  /** Dropping an entry that is not in `q` changes none of the three. */
  lemma {:induction false} ElsewhereDropped(slots: Slots, q: seq<Name>, k: Name)
    requires k !in q && Covers(slots, q)
    ensures Pinned(slots - {k}, q) == Pinned(slots, q)
    ensures Evictable(slots - {k}, q) == Evictable(slots, q)
    ensures BytesOf(slots - {k}, q) == BytesOf(slots, q)
  {
    if q != [] {
      ElsewhereDropped(slots, q[1..], k);
    }
  }

  // ----- What eviction does -----

  /** The droppable keys among the first `i` looked at. */
  function Victims(c: Cache, scan: seq<Name>, i: nat): seq<Name>
    requires i <= |scan| && Covers(c.slots, scan)
  {
    Evictable(c.slots, scan[..i])
  }

  /**
   Eviction looked at exactly the first `j` keys of `scan`, in order, each while `need` did not
   yet fit; it dropped those that were not pinned, moved those that were to the back unharmed,
   and stopped because `need` fits or because everything was looked at.
   */
  ghost predicate EvictionPass(c: Cache, r: Cache, need: nat, capacity: nat, scan: seq<Name>, rotated: seq<Name>, j: nat)
    requires Covers(c.slots, scan)
  {
    && j <= |scan|
    && Covers(c.slots, Victims(c, scan, j))
    && r.slots == c.slots - (set k | k in Victims(c, scan, j))
    && r.live + BytesOf(c.slots, Victims(c, scan, j)) == c.live
    && r.recency == scan[j..] + rotated + Pinned(c.slots, scan[..j])
    && (j == |scan| || r.live + need <= capacity)
    && (forall i | 0 <= i < j :: StillShort(c, need, capacity, scan, i))
  }

  ghost predicate StillShort(c: Cache, need: nat, capacity: nat, scan: seq<Name>, i: nat)
    requires Covers(c.slots, scan) && i <= |scan|
  {
    Covers(c.slots, Victims(c, scan, i)) && c.live + need > capacity + BytesOf(c.slots, Victims(c, scan, i))
  }

  lemma {:induction false} VictimsCovered(c: Cache, scan: seq<Name>, i: nat)
    requires i <= |scan| && Covers(c.slots, scan)
    ensures Covers(c.slots, Victims(c, scan, i))
    ensures i > 0 ==> Victims(c, scan, i) == (if c.slots[scan[0]].refs > 0 then [] else [scan[0]]) + Victims(c, scan[1..], i - 1)
  {
    EvictableMembers(c.slots, scan[..i]);
    forall n | 0 <= n < |Victims(c, scan, i)| ensures Victims(c, scan, i)[n] in c.slots {
      assert Victims(c, scan, i)[n] in Victims(c, scan, i);
      var m :| 0 <= m < i && scan[m] == Victims(c, scan, i)[n];
    }
    if i > 0 {
      assert scan[..i][1..] == scan[1..][..i - 1];
    }
  }

  lemma {:induction false} DistinctTail(k: Name, rest: seq<Name>)
    requires Distinct([k] + rest)
    ensures Distinct(rest) && k !in rest && Distinct(rest + [k])
    ensures forall x :: x in [k] + rest <==> x == k || x in rest
  {
    var q := [k] + rest;
    forall i | 0 <= i < |rest| ensures rest[i] != k {
      assert q[0] != q[i + 1];
    }
    forall i, j | 0 <= i < j < |rest| ensures rest[i] != rest[j] {
      assert q[i + 1] != q[j + 1];
    }
  }

  lemma {:induction false} DropFirst(c: Cache, k: Name, rest: seq<Name>) returns (c': Cache)
    requires WellFormed(c) && c.recency == [k] + rest
    ensures c' == Cache(c.slots - {k}, rest, SatSub(c.live, |c.slots[k].data|))
    ensures WellFormed(c') && k !in rest && c'.live + |c.slots[k].data| == c.live
  {
    hide SumValues, Distinct;
    assert k in c.recency;
    c' := Cache(c.slots - {k}, rest, SatSub(c.live, |c.slots[k].data|));
    RemovedBytes(c.slots, k);
    DistinctTail(k, rest);
    forall x ensures x in rest <==> x in c'.slots {
      assert x in c.recency <==> x == k || x in rest;
    }
  }

  lemma {:induction false} RotateFirst(c: Cache, k: Name, rest: seq<Name>)
    requires WellFormed(c) && c.recency == [k] + rest
    ensures WellFormed(c.(recency := rest + [k]))
  {
    hide SumValues, Distinct;
    DistinctTail(k, rest);
    forall x ensures x in rest + [k] <==> x in c.slots {
      assert x in c.recency <==> x == k || x in rest;
    }
  }

  lemma {:induction false} WellFormedCovers(c: Cache)
    requires WellFormed(c)
    ensures Covers(c.slots, c.recency)
  {
    hide SumValues;
    forall i | 0 <= i < |c.recency| ensures c.recency[i] in c.slots {
      var k := c.recency[i];
      assert k in c.recency;
    }
  }

  lemma {:induction false} EvictionStops(c: Cache, need: nat, capacity: nat, candidates: nat)
    requires candidates <= |c.recency| && Covers(c.slots, c.recency) && Distinct(c.recency)
    requires candidates == 0 || c.live + need <= capacity
    ensures Evicted(c, need, capacity, candidates) == c
  {
  }

  lemma {:induction false} EvictedRotates(c: Cache, k: Name, rest: seq<Name>, need: nat, capacity: nat, candidates: nat)
    requires Covers(c.slots, c.recency) && Distinct(c.recency) && c.recency == [k] + rest
    requires Covers(c.slots, rest + [k]) && Distinct(rest + [k])
    requires k in c.slots && c.slots[k].refs > 0 && 0 < candidates <= |c.recency| && c.live + need > capacity
    ensures Evicted(c, need, capacity, candidates)
            == Evicted(c.(recency := rest + [k]), need, capacity, candidates - 1)
  {
    assert c.recency[1..] == rest;
  }

  lemma {:induction false} EvictedDrops(c: Cache, c': Cache, k: Name, need: nat, capacity: nat, candidates: nat)
    requires Covers(c.slots, c.recency) && Distinct(c.recency) && c.recency == [k] + c'.recency
    requires k in c.slots && c'.slots == c.slots - {k} && c'.live == SatSub(c.live, |c.slots[k].data|)
    requires Covers(c'.slots, c'.recency) && Distinct(c'.recency)
    requires c.slots[k].refs == 0 && 0 < candidates <= |c.recency| && c.live + need > capacity
    ensures Evicted(c, need, capacity, candidates) == Evicted(c', need, capacity, candidates - 1)
  {
    assert c.recency[1..] == c'.recency;
  }

  lemma {:induction false} EvictionIsAPass(c: Cache, need: nat, capacity: nat, scan: seq<Name>, rotated: seq<Name>)
    returns (j: nat)
    requires WellFormed(c) && c.recency == scan + rotated && Covers(c.slots, c.recency)
    ensures Covers(c.slots, scan)
    ensures EvictionPass(c, Evicted(c, need, capacity, |scan|), need, capacity, scan, rotated, j)
    ensures WellFormed(Evicted(c, need, capacity, |scan|))
    decreases |scan|, 1
  {
    PrefixCovered(c.slots, scan, rotated);
    if |scan| == 0 || c.live + need <= capacity {
      hide EvictionPass, Evicted;
      j := 0;
      EmptyPass(c, need, capacity, scan, rotated);
      EvictionStops(c, need, capacity, |scan|);
    } else if c.slots[scan[0]].refs > 0 {
      hide EvictionPass, Evicted, Covers, WellFormed;
      j := RotatingPass(c, need, capacity, scan, rotated);
    } else {
      hide EvictionPass, Evicted, Covers, WellFormed;
      j := DroppingPass(c, need, capacity, scan, rotated);
    }
  }

  lemma {:induction false} RotatingPass(c: Cache, need: nat, capacity: nat, scan: seq<Name>, rotated: seq<Name>)
    returns (j: nat)
    requires WellFormed(c) && c.recency == scan + rotated && Covers(c.slots, c.recency) && Covers(c.slots, scan)
    requires |scan| > 0 && c.live + need > capacity && c.slots[scan[0]].refs > 0
    ensures EvictionPass(c, Evicted(c, need, capacity, |scan|), need, capacity, scan, rotated, j)
    ensures WellFormed(Evicted(c, need, capacity, |scan|))
    decreases |scan|, 0
  {
    var k, rest := scan[0], scan[1..];
    hide EvictionPass, Evicted, Covers, SumValues, Distinct;
    assert c.recency == [k] + (rest + rotated);
    RotateFirst(c, k, rest + rotated);
    var c' := c.(recency := rest + rotated + [k]);
    assert c'.recency == rest + (rotated + [k]);
    WellFormedCovers(c');
    EvictedRotates(c, k, rest + rotated, need, capacity, |scan|);
    hide WellFormed;
    var j' := EvictionIsAPass(c', need, capacity, rest, rotated + [k]);
    j := j' + 1;
    PinnedStep(c, c', Evicted(c, need, capacity, |scan|), need, capacity, scan, rotated, j');
  }

  lemma {:induction false} DroppingPass(c: Cache, need: nat, capacity: nat, scan: seq<Name>, rotated: seq<Name>)
    returns (j: nat)
    requires WellFormed(c) && c.recency == scan + rotated && Covers(c.slots, c.recency) && Covers(c.slots, scan)
    requires |scan| > 0 && c.live + need > capacity && c.slots[scan[0]].refs == 0
    ensures EvictionPass(c, Evicted(c, need, capacity, |scan|), need, capacity, scan, rotated, j)
    ensures WellFormed(Evicted(c, need, capacity, |scan|))
    decreases |scan|, 0
  {
    var k, rest := scan[0], scan[1..];
    hide EvictionPass, Evicted, Covers, SumValues, Distinct;
    assert c.recency == [k] + (rest + rotated);
    var c' := DropFirst(c, k, rest + rotated);
    WellFormedCovers(c');
    EvictedDrops(c, c', k, need, capacity, |scan|);
    assert k !in rest;
    hide WellFormed;
    var j' := EvictionIsAPass(c', need, capacity, rest, rotated);
    j := j' + 1;
    DroppedStep(c, c', Evicted(c, need, capacity, |scan|), need, capacity, scan, rotated, j');
  }

  lemma {:induction false} PrefixCovered(slots: Slots, p: seq<Name>, q: seq<Name>)
    requires Covers(slots, p + q)
    ensures Covers(slots, p)
  {
    forall i | 0 <= i < |p| ensures p[i] in slots {
      assert (p + q)[i] == p[i];
    }
  }

  lemma {:induction false} EmptyPass(c: Cache, need: nat, capacity: nat, scan: seq<Name>, rotated: seq<Name>)
    requires c.recency == scan + rotated && Covers(c.slots, scan)
    requires |scan| == 0 || c.live + need <= capacity
    ensures EvictionPass(c, c, need, capacity, scan, rotated, 0)
  {
    assert scan[..0] == [] && Victims(c, scan, 0) == [];
    assert c.recency == scan[0..] + rotated + [];
    assert c.slots == c.slots - (set k | k in Victims(c, scan, 0));
  }

  lemma {:induction false} PinnedStep(c: Cache, c': Cache, r: Cache, need: nat, capacity: nat, scan: seq<Name>, rotated: seq<Name>, j': nat)
    requires Covers(c.slots, scan) && |scan| > 0 && c.slots[scan[0]].refs > 0
    requires c'.slots == c.slots && c'.live == c.live && c.live + need > capacity
    requires Covers(c'.slots, scan[1..]) && EvictionPass(c', r, need, capacity, scan[1..], rotated + [scan[0]], j')
    ensures EvictionPass(c, r, need, capacity, scan, rotated, j' + 1)
  {
    var k, rest, j := scan[0], scan[1..], j' + 1;
    VictimsCovered(c, scan, j);
    assert Victims(c, scan, j) == Victims(c', rest, j');
    hide BytesOf, Evictable, Pinned;
    PinnedPrefix(c.slots, scan, j);
    assert r.recency == scan[j..] + rotated + ([k] + Pinned(c.slots, rest[..j']));
    forall i | 0 <= i < j ensures StillShort(c, need, capacity, scan, i) {
      VictimsCovered(c, scan, i);
      NothingLookedAt(c, scan);
      if i > 0 {
        assert StillShort(c', need, capacity, rest, i - 1);
        assert Victims(c, scan, i) == Victims(c', rest, i - 1);
      }
    }
  }

  lemma {:induction false} DroppedStep(c: Cache, c': Cache, r: Cache, need: nat, capacity: nat, scan: seq<Name>, rotated: seq<Name>, j': nat)
    requires Covers(c.slots, scan) && |scan| > 0 && c.slots[scan[0]].refs == 0 && scan[0] !in scan[1..]
    requires c'.slots == c.slots - {scan[0]} && c'.live + |c.slots[scan[0]].data| == c.live && c.live + need > capacity
    requires Covers(c'.slots, scan[1..]) && EvictionPass(c', r, need, capacity, scan[1..], rotated, j')
    ensures EvictionPass(c, r, need, capacity, scan, rotated, j' + 1)
  {
    var k, rest, j := scan[0], scan[1..], j' + 1;
    hide BytesOf, Evictable, Victims, Pinned, StillShort;
    DroppedVictims(c, c', scan, j');
    PinnedPrefix(c.slots, scan, j);
    ElsewhereDropped(c.slots, rest[..j'], k);
    SameSurvivors(c.slots, k, Victims(c', rest, j'));
    forall i | 0 <= i < j ensures StillShort(c, need, capacity, scan, i) {
      assert i > 0 ==> StillShort(c', need, capacity, rest, i - 1);
      ShortBeforeDrop(c, c', need, capacity, scan, i);
    }
  }

  lemma {:induction false} PinnedPrefix(slots: Slots, scan: seq<Name>, j: nat)
    requires Covers(slots, scan) && 0 < j <= |scan|
    ensures Covers(slots, scan[..j]) && Covers(slots, scan[1..][..j - 1])
    ensures Pinned(slots, scan[..j]) == (if slots[scan[0]].refs > 0 then [scan[0]] else []) + Pinned(slots, scan[1..][..j - 1])
    ensures scan[j..] == scan[1..][j - 1..]
  {
    assert scan[..j][1..] == scan[1..][..j - 1];
  }

  lemma {:induction false} SameSurvivors(slots: Slots, k: Name, rest: seq<Name>)
    ensures slots - (set x | x in [k] + rest) == slots - {k} - (set x | x in rest)
  {
    assert (set x | x in [k] + rest) == {k} + (set x | x in rest);
  }

  lemma {:induction false} ShortBeforeDrop(c: Cache, c': Cache, need: nat, capacity: nat, scan: seq<Name>, i: nat)
    requires Covers(c.slots, scan) && i < |scan| && c.slots[scan[0]].refs == 0 && scan[0] !in scan[1..]
    requires c'.slots == c.slots - {scan[0]} && c'.live + |c.slots[scan[0]].data| == c.live && c.live + need > capacity
    requires Covers(c'.slots, scan[1..]) && (i > 0 ==> StillShort(c', need, capacity, scan[1..], i - 1))
    ensures StillShort(c, need, capacity, scan, i)
  {
    if i > 0 {
      DroppedVictims(c, c', scan, i - 1);
    } else {
      NothingLookedAt(c, scan);
    }
  }

  lemma {:induction false} NothingLookedAt(c: Cache, scan: seq<Name>)
    requires Covers(c.slots, scan)
    ensures Victims(c, scan, 0) == [] && BytesOf(c.slots, Victims(c, scan, 0)) == 0
  {
    assert scan[..0] == [];
  }

  lemma {:induction false} DroppedVictims(c: Cache, c': Cache, scan: seq<Name>, i: nat)
    requires Covers(c.slots, scan) && |scan| > 0 && c.slots[scan[0]].refs == 0 && scan[0] !in scan[1..]
    requires c'.slots == c.slots - {scan[0]} && Covers(c'.slots, scan[1..]) && i < |scan|
    ensures Covers(c.slots, Victims(c, scan, i + 1)) && Covers(c'.slots, Victims(c', scan[1..], i))
    ensures Victims(c, scan, i + 1) == [scan[0]] + Victims(c', scan[1..], i)
    ensures BytesOf(c.slots, Victims(c, scan, i + 1)) == |c.slots[scan[0]].data| + BytesOf(c'.slots, Victims(c', scan[1..], i))
  {
    var k, rest := scan[0], scan[1..];
    VictimsCovered(c, scan, i + 1);
    VictimsCovered(c', rest, i);
    ElsewhereDropped(c.slots, rest[..i], k);
    var v := Victims(c', rest, i);
    EvictableMembers(c'.slots, rest[..i]);
    assert Victims(c, scan, i + 1)[1..] == v;
    assert k !in v;
    assert Covers(c.slots, v);
    ElsewhereDropped(c.slots, v, k);
  }

  lemma {:induction false} VacateKeeps(c: Cache, k: Name)
    requires WellFormed(c) && Covers(c.slots, c.recency)
    ensures WellFormed(Vacated(c, k)) && Vacated(c, k).slots == c.slots - {k}
  {
    hide SumValues, Without;
    if k in c.slots {
      WithoutFacts(c.recency, k);
      RemovedBytes(c.slots, k);
    } else {
      assert c.slots - {k} == c.slots;
    }
  }

  /** The eviction inside `insert` is one pass over the whole queue. */
  lemma {:induction false} InsertPass(c: Cache, k: Name, data: Bytes, capacity: nat) returns (j: nat)
    requires WellFormed(c) && Covers(c.slots, c.recency)
    ensures var base := Vacated(c, k);
            && WellFormed(base)
            && EvictionPass(base, Evicted(base, |data|, capacity, |base.recency|), |data|, capacity, base.recency, [], j)
            && WellFormed(Evicted(base, |data|, capacity, |base.recency|))
  {
    VacateKeeps(c, k);
    var base := Vacated(c, k);
    hide WellFormed, EvictionPass, Vacated, Evicted;
    assert base.recency == base.recency + [];
    j := EvictionIsAPass(base, |data|, capacity, base.recency, []);
  }

  lemma {:induction false} RoomWithout(c: Cache, k: Name, data: Bytes, capacity: nat)
    requires WellFormed(c) && Covers(c.slots, c.recency)
    ensures var base := Vacated(c, k);
            k !in Evicted(base, |data|, capacity, |base.recency|).slots
  {
    var j := InsertPass(c, k, data, capacity);
    VacateKeeps(c, k);
    hide Evicted, Vacated, SumValues, BytesOf, Evictable, Pinned, StillShort;
  }

  lemma {:induction false} AppendKeeps(c: Cache, k: Name, data: Bytes)
    requires WellFormed(c) && k !in c.slots
    ensures WellFormed(Cache(c.slots[k := Slot(data, 0)], c.recency + [k], c.live + |data|))
  {
    AddedBytes(c.slots, k, Slot(data, 0));
    hide SumValues;
    assert k !in c.recency;
    forall x ensures x in c.recency + [k] <==> x in c.slots[k := Slot(data, 0)] {
      assert x in c.recency + [k] <==> x in c.recency || x == k;
    }
  }

  lemma {:induction false} InsertKeeps(c: Cache, k: Name, data: Bytes, capacity: nat)
    requires WellFormed(c) && Covers(c.slots, c.recency)
    ensures WellFormed(Inserted(c, k, data, capacity))
  {
    var j := InsertPass(c, k, data, capacity);
    RoomWithout(c, k, data, capacity);
    hide Evicted, Vacated, EvictionPass, WellFormed;
    var base := Vacated(c, k);
    AppendKeeps(Evicted(base, |data|, capacity, |base.recency|), k, data);
  }

  /**
   After `insert` the new entry is cached, unpinned and most recent. Nothing else changed except that
   unpinned entries may be gone; and either everything fits or only pinned entries are left beside it.
   */
  lemma {:induction false} InsertMakesRoom(c: Cache, k: Name, data: Bytes, capacity: nat)
    requires WellFormed(c) && Covers(c.slots, c.recency)
    ensures var r := Inserted(c, k, data, capacity);
            && k in r.slots && r.slots[k] == Slot(data, 0) && r.recency != [] && r.recency[|r.recency| - 1] == k
            && (forall q | q in r.slots && q != k :: q in c.slots && r.slots[q] == c.slots[q])
            && (forall q | q in c.slots && q != k && q !in r.slots :: c.slots[q].refs == 0)
            && (r.live <= capacity || forall q | q in r.slots && q != k :: r.slots[q].refs > 0)
  {
    var j := InsertPass(c, k, data, capacity);
    VacateKeeps(c, k);
    var base := Vacated(c, k);
    var room := Evicted(base, |data|, capacity, |base.recency|);
    hide Evicted, Vacated, SumValues, BytesOf, Evictable, Pinned, StillShort;
    EvictableMembers(base.slots, base.recency[..j]);
    assert j == |base.recency| ==> base.recency[..j] == base.recency;
  }
}
