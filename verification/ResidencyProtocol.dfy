/**
 Every interleaving of store calls.

 A world is the shared store plus any number of calls, each stopped between two of its
 lock sections. An action starts a call, runs the next lock section of one, or performs
 one of the operations that need a single section. A run is any sequence of actions.
 */
module ResidencyProtocol {
  import opened Prelude
  import opened AllocationTables
  import opened ResidencyStores

  /** `lost` counts the ignored `release` results that were errors. */
  datatype World = World(store: Store, calls: map<nat, Call>, lost: nat)

  const INITIAL := World(Store(map[], EMPTY_TABLE), map[], 0)

  datatype Action =
    | Begin(id: nat, call: Call)
    | Advance(id: nat)
    | TakeLease(t: Name, r: Name)
    | ReturnLease(t: Name, r: Name)
    | BindHandle(t: Name, r: Name, handle: nat)
    | SetLimit(r: Name, bytes: nat)

  predicate Enabled(w: World, act: Action) {
    match act
    case Begin(id, call) => id !in w.calls && Starting(call)
    case Advance(id) => id in w.calls && !w.calls[id].Done?
    case _ => true
  }

  function Next(w: World, act: Action): World
    requires Enabled(w, act)
  {
    match act
    case Begin(id, call) => w.(calls := w.calls[id := call])
    case Advance(id) =>
      var after := Step(w.store, w.calls[id]);
      World(after.store, w.calls[id := after.call], w.lost + if after.lost then 1 else 0)
    case TakeLease(t, r) => w.(store := w.store.(tensors := LeaseTaken(w.store.tensors, t, r).0))
    case ReturnLease(t, r) => w.(store := w.store.(tensors := LeaseReturned(w.store.tensors, t, r).0))
    case BindHandle(t, r, handle) => w.(store := w.store.(tensors := HandleBound(w.store.tensors, t, r, handle).0))
    case SetLimit(r, bytes) =>
      w.(store := w.store.(table := w.store.table.(limits := w.store.table.limits[r := bytes])))
  }

  /** A run; an action that is not enabled is skipped. */
  function Run(w: World, acts: seq<Action>): World
    decreases |acts|
  {
    if acts == [] then w
    else
      var before := Run(w, acts[..|acts| - 1]);
      var act := acts[|acts| - 1];
      if Enabled(before, act) then Next(before, act) else before
  }

  // ----- Reference counts -----

  /** The (tensor, resource) places whose copy, valid or stale, names the allocation. */
  ghost function Holders(ts: Tensors, a: Name): set<(Name, Name)> {
    set t, r | t in ts && r in ts[t].copies && ts[t].copies[r].allocation == a :: (t, r)
  }

  /** The calls that hold a reference to the allocation between their lock sections. */
  ghost function InHand(calls: map<nat, Call>, a: Name): set<nat> {
    set id | id in calls && Holds(calls[id]) == Some(a)
  }

  ghost predicate Balanced(table: Table, ts: Tensors, calls: map<nat, Call>) {
    forall a :: Refs(table, a) == |Holders(ts, a)| + |InHand(calls, a)|
  }

  // ----- Coherence -----

  ghost predicate CopyCoherent(rec: Record, r: Name) {
    r in rec.copies ==>
      var c := rec.copies[r];
      && c.resource == r
      && c.version <= rec.version
      && (c.authoritative ==> c.valid)
      && (c.valid ==>
            && c.version == rec.version
            && c.shape == rec.metadata.shape
            && c.strides == rec.metadata.strides
            && c.offset == rec.metadata.offset)
  }

  ghost predicate OneAuthority(rec: Record) {
    forall q, r | q in rec.copies && r in rec.copies && rec.copies[q].authoritative && rec.copies[r].authoritative :: q == r
  }

  ghost predicate RecordCoherent(rec: Record) {
    && 1 <= rec.version
    && OneAuthority(rec)
    && forall r :: CopyCoherent(rec, r)
  }

  ghost predicate Coherent(ts: Tensors) {
    forall t | t in ts :: RecordCoherent(ts[t])
  }

  /** The allocation is live with exactly this capacity. */
  predicate Backed(table: Table, a: Name, capacity: nat) {
    a in table.allocs && table.allocs[a].capacity == capacity
  }

  ghost predicate ValidAt(ts: Tensors, t: Name, r: Name) {
    Resident(ts, t, r) && ts[t].copies[r].valid
  }

  /** A valid copy is backed by an allocation of exactly the size its tensor needs now. */
  ghost predicate BackedAt(s: Store, t: Name, r: Name) {
    ValidAt(s.tensors, t, r) ==>
      Backed(s.table, s.tensors[t].copies[r].allocation, Capacity(s.tensors[t].metadata))
  }

  ghost predicate AllBacked(s: Store) {
    forall t, r :: BackedAt(s, t, r)
  }

  /** A snapshot of tensor `t` taken at `version` is no newer than the record, and agrees with it if as new. */
  ghost predicate SnapshotSound(ts: Tensors, t: Name, version: nat, shape: seq<int>, strides: seq<int>, offset: int) {
    && t in ts
    && version <= ts[t].version
    && (version == ts[t].version ==>
          && shape == ts[t].metadata.shape && strides == ts[t].metadata.strides && offset == ts[t].metadata.offset)
  }

  /** What a call may rely on while it waits for its next lock section. */
  ghost predicate CallSound(s: Store, c: Call) {
    match c
    case PutHolding(_, _, a, m, _, _) => Backed(s.table, a, Capacity(m))
    case AliasCapacity(t, src, dst, snap) =>
      src != dst && SnapshotSound(s.tensors, t, snap.version, snap.shape, snap.strides, snap.offset)
    case AliasRegister(t, src, dst, snap, _) =>
      src != dst && SnapshotSound(s.tensors, t, snap.version, snap.shape, snap.strides, snap.offset)
    case AliasHolding(t, src, dst, snap) =>
      src != dst && SnapshotSound(s.tensors, t, snap.version, snap.shape, snap.strides, snap.offset)
    case ReplicateRegister(t, _, _, _, version, m) =>
      t in s.tensors && version <= s.tensors[t].version && (version == s.tensors[t].version ==> m == s.tensors[t].metadata)
    case ReplicateHolding(t, _, a, _, version, m) =>
      && t in s.tensors && version <= s.tensors[t].version && (version == s.tensors[t].version ==> m == s.tensors[t].metadata)
      && Backed(s.table, a, Capacity(m))
    case _ => true
  }

  ghost predicate Inv(w: World) {
    && Accounted(w.store.table)
    && Balanced(w.store.table, w.store.tensors, w.calls)
    && Coherent(w.store.tensors)
    && AllBacked(w.store)
    && (forall id | id in w.calls :: CallSound(w.store, w.calls[id]))
    && w.lost == 0
  }

  // ----- Counting -----

  lemma {:induction false} InHandChange(calls: map<nat, Call>, id: nat, c: Call, a: Name)
    ensures |InHand(calls[id := c], a)|
            == |InHand(calls, a)| - Bit(id in calls && Holds(calls[id]) == Some(a)) + Bit(Holds(c) == Some(a))
  {
    assert InHand(calls[id := c], a) - {id} == InHand(calls, a) - {id};
    SizesDiffer(InHand(calls, a), InHand(calls[id := c], a), id);
  }

  predicate HolderAt(copies: map<Name, Copy>, r: Name, a: Name) {
    r in copies && copies[r].allocation == a
  }

  /** Only the copy on `r` changes its allocation. */
  ghost predicate OnlyAt(old_: map<Name, Copy>, new_: map<Name, Copy>, r: Name) {
    forall q, a | q != r :: HolderAt(new_, q, a) == HolderAt(old_, q, a)
  }

  predicate Named(ts: Tensors, p: (Name, Name), a: Name) {
    p.0 in ts && HolderAt(ts[p.0].copies, p.1, a)
  }

  lemma {:induction false} HoldersAreNamed(ts: Tensors, a: Name)
    ensures forall p :: p in Holders(ts, a) <==> Named(ts, p, a)
  {
    forall p ensures p in Holders(ts, a) <==> Named(ts, p, a) {
      var (t, r) := p;
      assert Named(ts, p, a) ==> t in ts && r in ts[t].copies && (t, r) in Holders(ts, a);
    }
  }

  lemma {:induction false} HoldersChange(ts: Tensors, t: Name, rec: Record, r: Name, a: Name)
    requires OnlyAt(CopiesOf(ts, t), rec.copies, r)
    ensures |Holders(ts[t := rec], a)|
            == |Holders(ts, a)| - Bit(HolderAt(CopiesOf(ts, t), r, a)) + Bit(HolderAt(rec.copies, r, a))
  {
    hide Holders;
    var was, now := Holders(ts, a), Holders(ts[t := rec], a);
    HoldersAreNamed(ts, a);
    HoldersAreNamed(ts[t := rec], a);
    forall p | p != (t, r) ensures p in now <==> p in was {
      assert p.0 == t && p.1 != r ==> HolderAt(rec.copies, p.1, a) == HolderAt(CopiesOf(ts, t), p.1, a);
    }
    assert now - {(t, r)} == was - {(t, r)};
    SizesDiffer(was, now, (t, r));
    assert (t, r) in now <==> HolderAt(rec.copies, r, a);
    assert (t, r) in was <==> HolderAt(CopiesOf(ts, t), r, a);
  }

  lemma {:induction false} RegisterCounts(table: Table, id: Name, r: Name, capacity: nat, a: Name)
    ensures var (table', error) := Registered(table, id, r, capacity, ALIGNMENT);
            Refs(table', a) == Refs(table, a) + Bit(error == None && a == id)
  {
  }

  lemma {:induction false} ReleaseCounts(table: Table, id: Name, a: Name)
    requires Refs(table, id) > 0
    ensures var (table', freed) := Released(table, id);
            freed.Ok? && Refs(table', a) == Refs(table, a) - Bit(a == id)
  {
  }

  ghost predicate WorldBalanced(w: World) {
    Balanced(w.store.table, w.store.tensors, w.calls)
  }

  /** A copy, valid or stale, keeps its allocation in the table. */
  lemma {:induction false} CopyIsCounted(w: World, t: Name, r: Name)
    requires WorldBalanced(w) && Resident(w.store.tensors, t, r)
    ensures w.store.tensors[t].copies[r].allocation in w.store.table.allocs
    ensures Refs(w.store.table, w.store.tensors[t].copies[r].allocation) > 0
  {
    assert (t, r) in Holders(w.store.tensors, w.store.tensors[t].copies[r].allocation);
  }

  /** So does a call with a reference in hand. */
  lemma {:induction false} HandIsCounted(w: World, id: nat)
    requires WorldBalanced(w) && id in w.calls && Holds(w.calls[id]).Some?
    ensures Holds(w.calls[id]).value in w.store.table.allocs
    ensures Refs(w.store.table, Holds(w.calls[id]).value) > 0
  {
    assert id in InHand(w.calls, Holds(w.calls[id]).value);
  }

  lemma {:induction false} RegisterBalances(w: World, id: nat, a: Name, r: Name, capacity: nat, next: Call)
    requires WorldBalanced(w) && id in w.calls && Holds(w.calls[id]) == None && Holds(next) == Some(a)
    ensures var after := RegisterStep(w.store, a, r, capacity, next);
            WorldBalanced(World(after.store, w.calls[id := after.call], 0))
  {
    hide Holders, InHand, Registered;
    var after := RegisterStep(w.store, a, r, capacity, next);
    forall b ensures Refs(after.store.table, b) == |Holders(w.store.tensors, b)| + |InHand(w.calls[id := after.call], b)| {
      RegisterCounts(w.store.table, a, r, capacity, b);
      InHandChange(w.calls, id, after.call, b);
    }
  }

  /** Replacing a copy hands the call's reference to the new copy and returns the old copy's. */
  lemma {:induction false} InstallBalances(w: World, id: nat, t: Name, rec: Record, r: Name, copy: Copy, out: Outcome)
    requires WorldBalanced(w) && id in w.calls && Holds(w.calls[id]) == Some(copy.allocation)
    requires forall q, a :: HolderAt(rec.copies, q, a) == HolderAt(CopiesOf(w.store.tensors, t), q, a)
    ensures var (table, lost) := Replaced(w.store.table, rec.copies, r);
            && !lost
            && Balanced(table, w.store.tensors[t := rec.(copies := rec.copies[r := copy])], w.calls[id := Done(out)])
  {
    hide Holders, InHand, Released;
    var ts := w.store.tensors;
    var (table, lost) := Replaced(w.store.table, rec.copies, r);
    var rec' := rec.(copies := rec.copies[r := copy]);
    if r in rec.copies {
      assert HolderAt(CopiesOf(ts, t), r, rec.copies[r].allocation);
      CopyIsCounted(w, t, r);
      ReleaseCounts(w.store.table, rec.copies[r].allocation, rec.copies[r].allocation);
    }
    forall a ensures Refs(table, a) == |Holders(ts[t := rec'], a)| + |InHand(w.calls[id := Done(out)], a)| {
      HoldersChange(ts, t, rec', r, a);
      InHandChange(w.calls, id, Done(out), a);
      assert HolderAt(rec.copies, r, a) == HolderAt(CopiesOf(ts, t), r, a);
      if r in rec.copies {
        ReleaseCounts(w.store.table, rec.copies[r].allocation, a);
      }
    }
  }

  /** Removing a copy hands its reference to the call that removed it. */
  lemma {:induction false} RemoveBalances(w: World, id: nat, t: Name, r: Name, after: Option<MemoryError>)
    requires WorldBalanced(w) && id in w.calls && Holds(w.calls[id]) == None && Resident(w.store.tensors, t, r)
    ensures var rec := w.store.tensors[t];
            Balanced(w.store.table, w.store.tensors[t := rec.(copies := rec.copies - {r})],
                     w.calls[id := Dropping(rec.copies[r].allocation, after)])
  {
    hide Holders, InHand;
    var ts := w.store.tensors;
    var rec := ts[t];
    var rec' := rec.(copies := rec.copies - {r});
    var next := Dropping(rec.copies[r].allocation, after);
    forall a ensures Refs(w.store.table, a) == |Holders(ts[t := rec'], a)| + |InHand(w.calls[id := next], a)| {
      HoldersChange(ts, t, rec', r, a);
      InHandChange(w.calls, id, next, a);
    }
  }

  lemma {:induction false} DropBalances(w: World, id: nat, a: Name, out: Outcome)
    requires WorldBalanced(w) && id in w.calls && Holds(w.calls[id]) == Some(a)
    ensures var (table, freed) := Released(w.store.table, a);
            freed.Ok? && Balanced(table, w.store.tensors, w.calls[id := Done(out)])
  {
    hide Holders, InHand, Released;
    HandIsCounted(w, id);
    var (table, freed) := Released(w.store.table, a);
    ReleaseCounts(w.store.table, a, a);
    forall b ensures Refs(table, b) == |Holders(w.store.tensors, b)| + |InHand(w.calls[id := Done(out)], b)| {
      ReleaseCounts(w.store.table, a, b);
      InHandChange(w.calls, id, Done(out), b);
    }
  }

  /** A step that neither takes nor gives a reference. */
  lemma {:induction false} PassBalances(w: World, id: nat, next: Call)
    requires WorldBalanced(w) && Holds(next) == if id in w.calls then Holds(w.calls[id]) else None
    ensures WorldBalanced(w.(calls := w.calls[id := next]))
  {
    hide Holders, InHand;
    forall a ensures Refs(w.store.table, a) == |Holders(w.store.tensors, a)| + |InHand(w.calls[id := next], a)| {
      InHandChange(w.calls, id, next, a);
    }
  }

  // ----- What a step leaves alone -----

  /** Allocations that stay in the table keep their capacity. */
  ghost predicate TableKeeps(table: Table, table': Table) {
    forall a | a in table.allocs && a in table'.allocs :: table'.allocs[a].capacity == table.allocs[a].capacity
  }

  /** Records are never removed, versions never go back, and a version's metadata never changes. */
  ghost predicate Grows(ts: Tensors, ts': Tensors) {
    forall t | t in ts ::
      && t in ts' && ts[t].version <= ts'[t].version
      && (ts[t].version == ts'[t].version ==> ts'[t].metadata == ts[t].metadata)
  }

  /** Away from `place` no copy becomes valid or moves to another allocation. */
  ghost predicate QuietElsewhere(ts: Tensors, ts': Tensors, place: Option<(Name, Name)>) {
    forall t, r | ValidAt(ts', t, r) && place != Some((t, r)) ::
      && ValidAt(ts, t, r)
      && ts'[t].copies[r].allocation == ts[t].copies[r].allocation
      && ts'[t].metadata == ts[t].metadata
  }

  ghost predicate Evolves(s: Store, s': Store, place: Option<(Name, Name)>) {
    && TableKeeps(s.table, s'.table)
    && Grows(s.tensors, s'.tensors)
    && QuietElsewhere(s.tensors, s'.tensors, place)
  }

  /** A waiting call's assumptions survive any step of another call. */
  lemma {:induction false} CallStaysSound(w: World, w': World, other: nat, place: Option<(Name, Name)>)
    requires WorldBalanced(w') && Evolves(w.store, w'.store, place)
    requires other in w.calls && other in w'.calls && w'.calls[other] == w.calls[other]
    requires CallSound(w.store, w.calls[other])
    ensures CallSound(w'.store, w'.calls[other])
  {
    hide Holders, InHand, Capacity;
    if Holds(w'.calls[other]).Some? {
      HandIsCounted(w', other);
    }
  }

  /** Backing survives a step, given backing for the one place that may have changed. */
  lemma {:induction false} BackingSurvives(w: World, w': World, place: Option<(Name, Name)>)
    requires AllBacked(w.store) && WorldBalanced(w')
    requires Evolves(w.store, w'.store, place)
    requires place.Some? ==> BackedAt(w'.store, place.value.0, place.value.1)
    ensures AllBacked(w'.store)
  {
    hide Capacity, Holders, InHand;
    forall t, r ensures BackedAt(w'.store, t, r) {
      if ValidAt(w'.store.tensors, t, r) && place != Some((t, r)) {
        assert BackedAt(w.store, t, r);
        CopyIsCounted(w', t, r);
      }
    }
  }

  /** The parts of the invariant about waiting calls and backing follow from how the store evolved. */
  lemma {:induction false} Carry(w: World, w': World, place: Option<(Name, Name)>)
    requires Inv(w)
    requires Accounted(w'.store.table) && WorldBalanced(w') && Coherent(w'.store.tensors) && w'.lost == 0
    requires Evolves(w.store, w'.store, place)
    requires place.Some? ==> BackedAt(w'.store, place.value.0, place.value.1)
    requires forall id | id in w'.calls ::
               CallSound(w'.store, w'.calls[id]) || (id in w.calls && w'.calls[id] == w.calls[id])
    ensures Inv(w')
  {
    hide Accounted, Coherent, Holds, CallSound, Evolves, AllBacked, BackedAt;
    BackingSurvives(w, w', place);
    forall id | id in w'.calls ensures CallSound(w'.store, w'.calls[id]) {
      if id in w.calls && w'.calls[id] == w.calls[id] {
        CallStaysSound(w, w', id, place);
      }
    }
  }

  // ----- Each lock section keeps the invariant -----

  lemma {:induction false} RegisterKeepsInv(w: World, id: nat, a: Name, r: Name, capacity: nat, next: Call)
    requires Inv(w) && id in w.calls && Holds(w.calls[id]) == None && Holds(next) == Some(a)
    requires forall table :: Backed(table, a, capacity) ==> CallSound(w.store.(table := table), next)
    ensures var after := RegisterStep(w.store, a, r, capacity, next);
            Inv(World(after.store, w.calls[id := after.call], 0))
  {
    var after := RegisterStep(w.store, a, r, capacity, next);
    var w' := World(after.store, w.calls[id := after.call], 0);
    RegisterKeepsAccounts(w.store.table, a, r, capacity, ALIGNMENT);
    RegisterBalances(w, id, a, r, capacity, next);
    hide Accounted, Balanced, Coherent, AllBacked, Inv, CallSound;
    assert after.call == next ==> Backed(after.store.table, a, capacity);
    Carry(w, w', None);
  }

  /** The state after a call's next lock section. */
  ghost function Advanced(w: World, id: nat): World
    requires id in w.calls && !w.calls[id].Done?
  {
    Next(w, Advance(id))
  }

  lemma {:induction false} PassKeepsInv(w: World, id: nat, next: Call)
    requires Inv(w) && Holds(next) == if id in w.calls then Holds(w.calls[id]) else None
    requires CallSound(w.store, next)
    ensures Inv(w.(calls := w.calls[id := next]))
  {
    hide Accounted, Balanced, Coherent, AllBacked, CallSound;
    PassBalances(w, id, next);
    Carry(w, w.(calls := w.calls[id := next]), None);
  }

  lemma {:induction false} ReplacedKeeps(table: Table, copies: map<Name, Copy>, r: Name)
    requires Accounted(table)
    ensures Accounted(Replaced(table, copies, r).0)
    ensures TableKeeps(table, Replaced(table, copies, r).0)
  {
    if r in copies {
      ReleaseKeepsAccounts(table, copies[r].allocation);
    }
  }

  lemma {:induction false} InvalidatedKeepsHolders(copies: map<Name, Copy>, r: Name)
    ensures forall q, a :: HolderAt(Invalidated(copies, r), q, a) == HolderAt(copies, q, a)
  {
  }

  lemma {:induction false} PutInstallKeepsInv(w: World, id: nat)
    requires Inv(w) && id in w.calls && w.calls[id].PutHolding?
    ensures Inv(Advanced(w, id))
  {
    var c := w.calls[id];
    var w' := Advanced(w, id);
    var version := NewVersion(w.store.tensors, c.t);
    var copies := Invalidated(CopiesOf(w.store.tensors, c.t), c.r);
    var rec := Record(version, c.m, c.m.aliasGroup, copies);
    InvalidatedKeepsHolders(CopiesOf(w.store.tensors, c.t), c.r);
    InstallBalances(w, id, c.t, rec, c.r, PutCopy(c, version), Installed(PutCopy(c, version)));
    ReplacedKeeps(w.store.table, copies, c.r);
    PutInstallCoherent(w.store.tensors, c, version);
    PutInstallBacked(w, id);
    hide Accounted, Balanced, Coherent, AllBacked, CallSound, Inv, Replaced, BackedAt;
    Carry(w, w', Some((c.t, c.r)));
  }

  lemma {:induction false} PutInstallCoherent(ts: Tensors, c: Call, version: nat)
    requires Coherent(ts) && c.PutHolding? && version == NewVersion(ts, c.t)
    ensures var copies := Invalidated(CopiesOf(ts, c.t), c.r);
            var ts' := ts[c.t := Record(version, c.m, c.m.aliasGroup, copies[c.r := PutCopy(c, version)])];
            Coherent(ts') && Grows(ts, ts') && QuietElsewhere(ts, ts', Some((c.t, c.r)))
  {
    var copies := CopiesOf(ts, c.t);
    var rec := Record(version, c.m, c.m.aliasGroup, Invalidated(copies, c.r)[c.r := PutCopy(c, version)]);
    forall r ensures CopyCoherent(rec, r) {
      assert r in copies ==> CopyCoherent(ts[c.t], r);
    }
    assert RecordCoherent(rec);
  }

  lemma {:induction false} PutInstallBacked(w: World, id: nat)
    requires Inv(w) && id in w.calls && w.calls[id].PutHolding?
    requires WorldBalanced(Advanced(w, id))
    requires TableKeeps(w.store.table, Advanced(w, id).store.table)
    ensures BackedAt(Advanced(w, id).store, w.calls[id].t, w.calls[id].r)
  {
    hide Capacity, Holders, InHand, Replaced;
    var c := w.calls[id];
    CopyIsCounted(Advanced(w, id), c.t, c.r);
  }

  /** A copy that agrees with the current record and is not authoritative. */
  ghost predicate Follower(rec: Record, r: Name, copy: Copy) {
    && copy.resource == r && copy.version == rec.version && copy.valid && !copy.authoritative
    && copy.shape == rec.metadata.shape && copy.strides == rec.metadata.strides && copy.offset == rec.metadata.offset
  }

  lemma {:induction false} FollowerCoherent(ts: Tensors, t: Name, r: Name, copy: Copy)
    requires Coherent(ts) && t in ts && Follower(ts[t], r, copy)
    ensures var ts' := ts[t := ts[t].(copies := ts[t].copies[r := copy])];
            Coherent(ts') && Grows(ts, ts') && QuietElsewhere(ts, ts', Some((t, r)))
  {
    var rec := ts[t].(copies := ts[t].copies[r := copy]);
    forall q ensures CopyCoherent(rec, q) {
      assert CopyCoherent(ts[t], q);
    }
    assert RecordCoherent(rec);
  }

  /** `alias_same_allocation` and `replicate` end alike: a follower takes over the call's reference. */
  lemma {:induction false} FollowerKeepsInv(w: World, id: nat, t: Name, r: Name, copy: Copy)
    requires Inv(w) && id in w.calls && Holds(w.calls[id]) == Some(copy.allocation)
    requires t in w.store.tensors && Follower(w.store.tensors[t], r, copy)
    requires Backed(w.store.table, copy.allocation, Capacity(w.store.tensors[t].metadata))
    ensures var rec := w.store.tensors[t];
            var (table, lost) := Replaced(w.store.table, rec.copies, r);
            var after := InstallAt(w.store, t, rec, r, copy, lost, table);
            !lost && Inv(World(after.store, w.calls[id := after.call], 0))
  {
    var rec := w.store.tensors[t];
    var (table, lost) := Replaced(w.store.table, rec.copies, r);
    var after := InstallAt(w.store, t, rec, r, copy, lost, table);
    var w' := World(after.store, w.calls[id := after.call], 0);
    InstallBalances(w, id, t, rec, r, copy, Installed(copy));
    ReplacedKeeps(w.store.table, rec.copies, r);
    FollowerCoherent(w.store.tensors, t, r, copy);
    hide Accounted, Balanced, Coherent, AllBacked, Inv, Replaced, Capacity, CopyCoherent;
    CopyIsCounted(w', t, r);
    assert BackedAt(w'.store, t, r);
    Carry(w, w', Some((t, r)));
  }

  lemma {:induction false} AliasInstallKeepsInv(w: World, id: nat)
    requires Inv(w) && id in w.calls && w.calls[id].AliasHolding?
    ensures Inv(Advanced(w, id))
  {
    var c := w.calls[id];
    assert CallSound(w.store, c);
    hide Accounted, Balanced, Coherent, Capacity, CopyCoherent;
    var rec := w.store.tensors[c.t];
    if Current(rec, c.src, c.snap) {
      assert BackedAt(w.store, c.t, c.src);
      hide AllBacked, Inv;
      FollowerKeepsInv(w, id, c.t, c.dst, AliasCopy(c.dst, c.snap));
    } else {
      PassKeepsInv(w, id, AliasInstall(w.store, c).call);
    }
  }

  lemma {:induction false} ReplicateInstallKeepsInv(w: World, id: nat)
    requires Inv(w) && id in w.calls && w.calls[id].ReplicateHolding?
    ensures Inv(Advanced(w, id))
  {
    var c := w.calls[id];
    assert CallSound(w.store, c);
    hide Accounted, Balanced, Coherent, Capacity, CopyCoherent, AllBacked, Inv;
    if w.store.tensors[c.t].version == c.version {
      FollowerKeepsInv(w, id, c.t, c.r, ReplicaCopy(c));
    } else {
      PassKeepsInv(w, id, ReplicateInstall(w.store, c).call);
    }
  }

  lemma {:induction false} RemoveCoherent(ts: Tensors, t: Name, r: Name)
    requires Coherent(ts) && t in ts
    ensures var ts' := ts[t := ts[t].(copies := ts[t].copies - {r})];
            Coherent(ts') && Grows(ts, ts') && QuietElsewhere(ts, ts', None)
  {
    var rec := ts[t].(copies := ts[t].copies - {r});
    forall q ensures CopyCoherent(rec, q) {
      assert CopyCoherent(ts[t], q);
    }
    assert RecordCoherent(rec);
  }

  lemma {:induction false} ReleaseRemoveKeepsInv(w: World, id: nat)
    requires Inv(w) && id in w.calls && w.calls[id].ReleaseStart?
    ensures Inv(Advanced(w, id))
  {
    var c := w.calls[id];
    var after := ReleaseRemove(w.store, c);
    if after.call.Dropping? {
      RemoveBalances(w, id, c.t, c.r, None);
      RemoveCoherent(w.store.tensors, c.t, c.r);
      hide Accounted, Balanced, Coherent, AllBacked, Inv, CopyCoherent;
      Carry(w, Advanced(w, id), None);
    } else {
      hide Inv;
      PassKeepsInv(w, id, after.call);
    }
  }

  lemma {:induction false} DropKeepsInv(w: World, id: nat)
    requires Inv(w) && id in w.calls && w.calls[id].Dropping?
    ensures Inv(Advanced(w, id))
    ensures w.calls[id].after == None ==> Advanced(w, id).calls[id].outcome.Freed?
  {
    var c := w.calls[id];
    DropBalances(w, id, c.a, DropStep(w.store, c).call.outcome);
    ReleaseKeepsAccounts(w.store.table, c.a);
    hide Accounted, Balanced, Coherent, AllBacked, Inv, CopyCoherent;
    Carry(w, Advanced(w, id), None);
  }

  lemma {:induction false} AliasStartSound(w: World, c: Call)
    requires Inv(w) && c.AliasStart?
    ensures CallSound(w.store, Step(w.store, c).call)
  {
    if Lookup(w.store.tensors, c.t, c.src).Ok? {
      assert CopyCoherent(w.store.tensors[c.t], c.src);
    }
  }

  lemma {:induction false} AdvanceKeepsInv(w: World, id: nat)
    requires Inv(w) && id in w.calls && !w.calls[id].Done?
    ensures Inv(Advanced(w, id))
  {
    var c := w.calls[id];
    assert CallSound(w.store, c) && w.lost == 0;
    hide Accounted, Balanced, Coherent, AllBacked, Inv, Capacity, CopyCoherent, Registered,
         PutInstall, AliasInstall, ReplicateInstall, ReleaseRemove, DropStep, Lookup;
    match c
    case PutStart(t, r, a, m, ready, handle) =>
      RegisterKeepsInv(w, id, a, r, Capacity(m), PutHolding(t, r, a, m, ready, handle));
    case PutHolding(_, _, _, _, _, _) => PutInstallKeepsInv(w, id);
    case AliasStart(_, _, _) =>
      AliasStartSound(w, c);
      PassKeepsInv(w, id, Step(w.store, c).call);
    case AliasCapacity(_, _, _, _) => PassKeepsInv(w, id, Step(w.store, c).call);
    case AliasRegister(t, src, dst, snap, capacity) =>
      RegisterKeepsInv(w, id, snap.allocation, dst, capacity, AliasHolding(t, src, dst, snap));
    case AliasHolding(_, _, _, _) => AliasInstallKeepsInv(w, id);
    case ReplicateStart(_, _, _, _) => PassKeepsInv(w, id, Step(w.store, c).call);
    case ReplicateRegister(t, r, a, ready, version, m) =>
      RegisterKeepsInv(w, id, a, r, Capacity(m), ReplicateHolding(t, r, a, ready, version, m));
    case ReplicateHolding(_, _, _, _, _, _) => ReplicateInstallKeepsInv(w, id);
    case ReleaseStart(_, _) => ReleaseRemoveKeepsInv(w, id);
    case Dropping(_, _) => DropKeepsInv(w, id);
  }

  // ----- Operations with a single lock section -----

  /** Leases and handles change without touching allocations, versions or validity. */
  lemma {:induction false} AdjustKeepsInv(w: World, t: Name, r: Name, copy: Copy)
    requires Inv(w) && Resident(w.store.tensors, t, r)
    requires copy == w.store.tensors[t].copies[r].(leases := copy.leases, handle := copy.handle)
    ensures Inv(w.(store := w.store.(tensors := Adjusted(w.store.tensors, t, r, copy))))
  {
    var ts := w.store.tensors;
    var rec := ts[t].(copies := ts[t].copies[r := copy]);
    var w' := w.(store := w.store.(tensors := Adjusted(ts, t, r, copy)));
    forall a ensures Refs(w.store.table, a) == |Holders(ts[t := rec], a)| + |InHand(w.calls, a)| {
      HoldersChange(ts, t, rec, r, a);
    }
    AdjustCoherent(ts, t, r, copy);
    hide Accounted, Balanced, Coherent, AllBacked, Inv, CopyCoherent, CallSound;
    Carry(w, w', None);
  }

  lemma {:induction false} AdjustCoherent(ts: Tensors, t: Name, r: Name, copy: Copy)
    requires Coherent(ts) && Resident(ts, t, r)
    requires copy == ts[t].copies[r].(leases := copy.leases, handle := copy.handle)
    ensures var ts' := Adjusted(ts, t, r, copy);
            Coherent(ts') && Grows(ts, ts') && QuietElsewhere(ts, ts', None)
  {
    var rec := ts[t].(copies := ts[t].copies[r := copy]);
    forall q ensures CopyCoherent(rec, q) {
      assert CopyCoherent(ts[t], q);
    }
    assert RecordCoherent(rec);
  }

  lemma {:induction false} LimitKeepsInv(w: World, r: Name, bytes: nat)
    requires Inv(w)
    ensures Inv(Next(w, SetLimit(r, bytes)))
  {
    var w' := Next(w, SetLimit(r, bytes));
    assert Accounted(w'.store.table);
    assert WorldBalanced(w') by {
      hide Holders, InHand;
      forall a ensures Refs(w'.store.table, a) == |Holders(w'.store.tensors, a)| + |InHand(w'.calls, a)| {
        assert Refs(w.store.table, a) == |Holders(w.store.tensors, a)| + |InHand(w.calls, a)|;
      }
    }
    hide Accounted, Balanced, Coherent, AllBacked, Inv, CallSound;
    Carry(w, w', None);
  }

  lemma {:induction false} NextKeepsInv(w: World, act: Action)
    requires Inv(w) && Enabled(w, act)
    ensures Inv(Next(w, act))
  {
    hide Inv, Step, CallSound;
    var ts := w.store.tensors;
    match act
    case Begin(id, call) => BeginKeepsInv(w, id, call);
    case Advance(id) => AdvanceKeepsInv(w, id);
    case TakeLease(t, r) =>
      if LeaseTaken(ts, t, r).1 == None {
        AdjustKeepsInv(w, t, r, ts[t].copies[r].(leases := ts[t].copies[r].leases + 1));
      }
    case ReturnLease(t, r) =>
      if LeaseReturned(ts, t, r).1 == None {
        AdjustKeepsInv(w, t, r, ts[t].copies[r].(leases := ts[t].copies[r].leases - 1));
      }
    case BindHandle(t, r, handle) =>
      if HandleBound(ts, t, r, handle).1 == None {
        AdjustKeepsInv(w, t, r, ts[t].copies[r].(handle := Some(handle)));
      }
    case SetLimit(r, bytes) => LimitKeepsInv(w, r, bytes);
  }

  lemma {:induction false} BeginKeepsInv(w: World, id: nat, call: Call)
    requires Inv(w) && id !in w.calls && Starting(call)
    ensures Inv(w.(calls := w.calls[id := call]))
  {
    hide Inv;
    PassKeepsInv(w, id, call);
  }

  lemma {:induction false} InitialInv()
    ensures Inv(INITIAL)
  {
    forall a ensures Refs(INITIAL.store.table, a) == |Holders(INITIAL.store.tensors, a)| + |InHand(INITIAL.calls, a)| {
      assert Holders(INITIAL.store.tensors, a) == {};
      assert InHand(INITIAL.calls, a) == {};
    }
    assert Capacities(EMPTY_TABLE.allocs) == map[];
    forall r ensures GetOr(EMPTY_TABLE.liveBy, r, 0) == SumValues(CapacitiesOn(EMPTY_TABLE.allocs, r)) {
      assert CapacitiesOn(EMPTY_TABLE.allocs, r) == map[];
    }
  }

  /** The invariant holds after every run, whatever the interleaving. */
  lemma {:induction false} EveryRunKeepsInv(acts: seq<Action>)
    ensures Inv(Run(INITIAL, acts))
    decreases |acts|
  {
    hide Inv, Next;
    if acts == [] {
      InitialInv();
    } else {
      EveryRunKeepsInv(acts[..|acts| - 1]);
      var before := Run(INITIAL, acts[..|acts| - 1]);
      if Enabled(before, acts[|acts| - 1]) {
        NextKeepsInv(before, acts[|acts| - 1]);
      }
    }
  }

  // ----- What every run guarantees -----

  /**
   An allocation's reference count is the number of copies naming it, stale ones included,
   plus the references held by calls in progress; and no ignored `release` ever failed.
   */
  lemma {:induction false} ReferenceCountsAreExact(acts: seq<Action>, a: Name)
    ensures var w := Run(INITIAL, acts);
            && Refs(w.store.table, a) == |Holders(w.store.tensors, a)| + |InHand(w.calls, a)|
            && w.lost == 0
  {
    EveryRunKeepsInv(acts);
    hide Run;
  }

  /** Live bytes are always the exact sums over live allocations, in total and per resource. */
  lemma {:induction false} LiveBytesAreExact(acts: seq<Action>, r: Name)
    ensures var table := Run(INITIAL, acts).store.table;
            && table.live == SumValues(Capacities(table.allocs)) <= table.peak
            && GetOr(table.liveBy, r, 0) == SumValues(CapacitiesOn(table.allocs, r))
  {
    EveryRunKeepsInv(acts);
    hide Run;
  }

  ghost predicate Idle(w: World) {
    forall id | id in w.calls :: w.calls[id].Done?
  }

  ghost predicate NoCopies(w: World) {
    forall t, r :: !Resident(w.store.tensors, t, r)
  }

  /** Once every call has returned and every copy is released, nothing is allocated and all counters read zero. */
  lemma {:induction false} NothingLeaks(acts: seq<Action>, r: Name)
    requires Idle(Run(INITIAL, acts)) && NoCopies(Run(INITIAL, acts))
    ensures var table := Run(INITIAL, acts).store.table;
            table.allocs == map[] && table.live == 0 && GetOr(table.liveBy, r, 0) == 0
  {
    EveryRunKeepsInv(acts);
    var w := Run(INITIAL, acts);
    hide Run;
    forall a ensures Refs(w.store.table, a) == 0 {
      forall p ensures p !in Holders(w.store.tensors, a) {
        assert !Resident(w.store.tensors, p.0, p.1);
      }
      assert Holders(w.store.tensors, a) == {};
      assert InHand(w.calls, a) == {};
    }
    forall a ensures a !in w.store.table.allocs {
      assert Refs(w.store.table, a) == 0;
    }
    EmptyTableReadsZero(w.store.table);
  }

  /** A valid copy carries its record's version and that version's layout, on an allocation of exactly the right size. */
  lemma {:induction false} ValidCopiesAreCurrent(acts: seq<Action>, t: Name, r: Name)
    requires ValidAt(Run(INITIAL, acts).store.tensors, t, r)
    ensures var s := Run(INITIAL, acts).store;
            var rec, c := s.tensors[t], s.tensors[t].copies[r];
            && c.resource == r && c.version == rec.version
            && c.shape == rec.metadata.shape && c.strides == rec.metadata.strides && c.offset == rec.metadata.offset
            && Backed(s.table, c.allocation, Capacity(rec.metadata))
  {
    EveryRunKeepsInv(acts);
    var s := Run(INITIAL, acts).store;
    hide Run;
    assert CopyCoherent(s.tensors[t], r);
    assert BackedAt(s, t, r);
  }

  /** At most one copy of a tensor is authoritative, and it is valid. */
  lemma {:induction false} OneValidAuthority(acts: seq<Action>, t: Name, q: Name, r: Name)
    requires var ts := Run(INITIAL, acts).store.tensors;
             && Resident(ts, t, q) && ts[t].copies[q].authoritative
             && Resident(ts, t, r) && ts[t].copies[r].authoritative
    ensures q == r && Run(INITIAL, acts).store.tensors[t].copies[q].valid
  {
    EveryRunKeepsInv(acts);
    var ts := Run(INITIAL, acts).store.tensors;
    hide Run;
    assert CopyCoherent(ts[t], q);
  }

  lemma {:induction false} GrowsTransitive(a: Tensors, b: Tensors, c: Tensors)
    requires Grows(a, b) && Grows(b, c)
    ensures Grows(a, c)
  {
  }

  lemma {:induction false} NextGrows(w: World, act: Action)
    requires Enabled(w, act)
    ensures Grows(w.store.tensors, Next(w, act).store.tensors)
  {
    hide Registered, Released, Replaced;
  }

  /** Continuing a run never removes a record, lowers a version, or rewrites what a version means. */
  lemma {:induction false} HistoryIsKept(acts: seq<Action>, k: nat)
    requires k <= |acts|
    ensures Grows(Run(INITIAL, acts[..k]).store.tensors, Run(INITIAL, acts).store.tensors)
    decreases |acts|
  {
    if k == |acts| {
      assert acts[..k] == acts;
    } else {
      var shorter := acts[..|acts| - 1];
      assert shorter[..k] == acts[..k];
      HistoryIsKept(shorter, k);
      var before := Run(INITIAL, shorter);
      if Enabled(before, acts[|acts| - 1]) {
        NextGrows(before, acts[|acts| - 1]);
        hide Grows, Next;
        GrowsTransitive(Run(INITIAL, acts[..k]).store.tensors, before.store.tensors, Run(INITIAL, acts).store.tensors);
      }
    }
  }

  // ----- Leases -----

  /** The action is the lock section that puts a new copy on `r` of tensor `t`. */
  predicate InstallsAt(w: World, act: Action, t: Name, r: Name)
    requires Enabled(w, act)
  {
    act.Advance? &&
    match w.calls[act.id]
    case PutHolding(u, q, _, _, _, _) => u == t && q == r
    case AliasHolding(u, src, q, snap) =>
      u == t && q == r && t in w.store.tensors && Current(w.store.tensors[t], src, snap)
    case ReplicateHolding(u, q, _, _, version, _) =>
      u == t && q == r && t in w.store.tensors && w.store.tensors[t].version == version
    case _ => false
  }

  function LeasesAt(ts: Tensors, t: Name, r: Name): nat {
    if Resident(ts, t, r) then ts[t].copies[r].leases else 0
  }

  /**
   A lease protects its copy from `release_copy` but not from being replaced: apart from the
   lease being returned, it is lost exactly when a put, alias or replica is installed there.
   */
  lemma {:induction false} LeaseLostExactlyByReplacement(w: World, act: Action, t: Name, r: Name)
    requires Enabled(w, act) && LeasesAt(w.store.tensors, t, r) > 0 && act != ReturnLease(t, r)
    ensures LeasesAt(Next(w, act).store.tensors, t, r) < LeasesAt(w.store.tensors, t, r) <==> InstallsAt(w, act, t, r)
    ensures InstallsAt(w, act, t, r) ==> LeasesAt(Next(w, act).store.tensors, t, r) == 0
  {
    hide Registered, Released, Replaced;
  }

  lemma {:induction false} RunSnoc(w: World, acts: seq<Action>, act: Action)
    ensures Run(w, acts + [act]) == if Enabled(Run(w, acts), act) then Next(Run(w, acts), act) else Run(w, acts)
  {
    assert (acts + [act])[..|acts|] == acts;
  }

  /** One more action of a run, together with the world it leads to. */
  lemma {:induction false} Extend(acts: seq<Action>, w: World, act: Action) returns (acts': seq<Action>, w': World)
    requires w == Run(INITIAL, acts) && Enabled(w, act)
    ensures acts' == acts + [act] && w' == Next(w, act) && w' == Run(INITIAL, acts')
  {
    hide Next;
    RunSnoc(INITIAL, acts, act);
    acts', w' := acts + [act], Next(w, act);
  }

  /** Puts a tensor on resource 1 as allocation 7 and leases the copy. */
  lemma {:induction false} LeaseSomething(m: Metadata) returns (acts: seq<Action>, w: World)
    requires Capacity(m) == 8
    ensures w == Run(INITIAL, acts)
    ensures w.calls.Keys == {0} && Resident(w.store.tensors, 1, 1) && 7 in w.store.table.allocs
    ensures w.store.tensors[1].metadata == m && w.store.tensors[1].copies[1].allocation == 7
    ensures w.store.table.allocs[7].refs == 1 && LeasesAt(w.store.tensors, 1, 1) == 1
    ensures 8 !in w.store.table.allocs && w.store.table.limits == map[]
  {
    acts, w := [], INITIAL;
    acts, w := Extend(acts, w, Begin(0, PutStart(1, 1, 7, m, None, None)));
    acts, w := Extend(acts, w, Advance(0));
    assert w.calls[0] == PutHolding(1, 1, 7, m, None, None) && w.store.table.allocs[7].refs == 1;
    acts, w := Extend(acts, w, Advance(0));
    assert Resident(w.store.tensors, 1, 1) && w.store.tensors[1].copies[1].valid;
    acts, w := Extend(acts, w, TakeLease(1, 1));
  }

  /** Replacing a leased copy can free the bytes under the lease: replicate over it with another allocation. */
  lemma {:induction false} ReplacementCanFreeLeasedBytes(m: Metadata) returns (acts: seq<Action>, more: seq<Action>)
    requires Capacity(m) == 8
    ensures LeasesAt(Run(INITIAL, acts).store.tensors, 1, 1) == 1
    ensures Run(INITIAL, acts).store.tensors[1].copies[1].allocation == 7
    ensures acts < more && 7 !in Run(INITIAL, more).store.table.allocs
  {
    var w;
    acts, w := LeaseSomething(m);
    var version := w.store.tensors[1].version;
    more, w := Extend(acts, w, Begin(1, ReplicateStart(1, 1, 8, None)));
    more, w := Extend(more, w, Advance(1));
    more, w := Extend(more, w, Advance(1));
    assert w.calls[1] == ReplicateHolding(1, 1, 8, None, version, m);
    assert w.store.tensors[1].copies[1].allocation == 7 && w.store.table.allocs[7].refs == 1;
    more, w := Extend(more, w, Advance(1));
  }
}
