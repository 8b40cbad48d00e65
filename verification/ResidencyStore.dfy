/**
 The multi-copy tensor store over the allocation table.

 Each operation is a sequence of lock sections. `Step` performs the next section of a
 call; `Solo` is the call run without interference, and the class is proved to do that.
 Interference is the business of `ResidencyProtocol`.
 */
module ResidencyStores {
  import opened Prelude
  import opened AllocationTables

  datatype Metadata = Metadata(
    shape: seq<int>, strides: seq<int>, offset: int, dtype: Name,
    nbytes: nat, storageNbytes: nat, storageId: Option<Name>, aliasGroup: Option<Name>)

  datatype Copy = Copy(
    resource: Name, allocation: Name, version: nat, ready: Option<Name>, leases: nat,
    valid: bool, authoritative: bool, offset: int, shape: seq<int>, strides: seq<int>, handle: Option<nat>)

  datatype Record = Record(version: nat, metadata: Metadata, aliasGroup: Option<Name>, copies: map<Name, Copy>)

  type Tensors = map<Name, Record>

  datatype Store = Store(tensors: Tensors, table: Table)

  const ALIGNMENT: nat := 64

  /** Bytes reserved for a tensor: its backing storage, at least its view, at least one. */
  function Capacity(m: Metadata): nat {
    Max(Max(m.storageNbytes, m.nbytes), 1)
  }

  datatype Outcome = Installed(copy: Copy) | Freed(bytes: nat) | Failed(error: MemoryError)

  /** A call in progress, by the lock section it performs next. */
  datatype Call =
    | PutStart(t: Name, r: Name, a: Name, m: Metadata, ready: Option<Name>, handle: Option<nat>)
    | PutHolding(t: Name, r: Name, a: Name, m: Metadata, ready: Option<Name>, handle: Option<nat>)
    | AliasStart(t: Name, src: Name, dst: Name)
    | AliasCapacity(t: Name, src: Name, dst: Name, snap: Copy)
    | AliasRegister(t: Name, src: Name, dst: Name, snap: Copy, capacity: nat)
    | AliasHolding(t: Name, src: Name, dst: Name, snap: Copy)
    | ReplicateStart(t: Name, r: Name, a: Name, ready: Option<Name>)
    | ReplicateRegister(t: Name, r: Name, a: Name, ready: Option<Name>, version: nat, m: Metadata)
    | ReplicateHolding(t: Name, r: Name, a: Name, ready: Option<Name>, version: nat, m: Metadata)
    | ReleaseStart(t: Name, r: Name)
    | Dropping(a: Name, after: Option<MemoryError>)
    | Done(outcome: Outcome)

  predicate Starting(c: Call) {
    c.PutStart? || c.AliasStart? || c.ReplicateStart? || c.ReleaseStart?
  }

  /** The allocation a call holds a counted reference to, between its lock sections. */
  function Holds(c: Call): Option<Name> {
    match c
    case PutHolding(_, _, a, _, _, _) => Some(a)
    case AliasHolding(_, _, _, snap) => Some(snap.allocation)
    case ReplicateHolding(_, _, a, _, _, _) => Some(a)
    case Dropping(a, _) => Some(a)
    case _ => None
  }

  function NewVersion(ts: Tensors, t: Name): nat {
    if t in ts then ts[t].version + 1 else 1
  }

  function CopiesOf(ts: Tensors, t: Name): map<Name, Copy> {
    if t in ts then ts[t].copies else map[]
  }

  function Stale(c: Copy): Copy {
    c.(valid := false, authoritative := false)
  }

  /** Every copy except the one on `r` becomes stale; stale copies stay in the map. */
  function Invalidated(copies: map<Name, Copy>, r: Name): map<Name, Copy> {
    map q | q in copies :: if q == r then copies[q] else Stale(copies[q])
  }

  /** Replacing the copy on `r` gives up the reference the replaced copy held. */
  function Replaced(table: Table, copies: map<Name, Copy>, r: Name): (Table, bool) {
    if r in copies then
      var (table', freed) := Released(table, copies[r].allocation);
      (table', freed.Err?)
    else (table, false)
  }

  function PutCopy(c: Call, version: nat): Copy
    requires c.PutHolding?
  {
    Copy(c.r, c.a, version, c.ready, 0, true, true, c.m.offset, c.m.shape, c.m.strides, c.handle)
  }

  function AliasCopy(dst: Name, snap: Copy): Copy {
    snap.(resource := dst, leases := 0, valid := true, authoritative := false)
  }

  function ReplicaCopy(c: Call): Copy
    requires c.ReplicateHolding?
  {
    Copy(c.r, c.a, c.version, c.ready, 0, true, false, c.m.offset, c.m.shape, c.m.strides, None)
  }

  predicate Current(rec: Record, src: Name, snap: Copy) {
    && rec.version == snap.version
    && src in rec.copies
    && rec.copies[src].valid
    && rec.copies[src].version == snap.version
    && rec.copies[src].allocation == snap.allocation
  }

  predicate Resident(ts: Tensors, t: Name, r: Name) {
    t in ts && r in ts[t].copies
  }

  /** What a step leaves behind; `lost` says that a `release` whose result is ignored failed. */
  datatype After = After(store: Store, call: Call, lost: bool)

  function InstallAt(s: Store, t: Name, rec: Record, r: Name, copy: Copy, lost: bool, table: Table): After {
    After(Store(s.tensors[t := rec.(copies := rec.copies[r := copy])], table), Done(Installed(copy)), lost)
  }

  function RegisterStep(s: Store, id: Name, r: Name, capacity: nat, next: Call): After {
    var (table, error) := Registered(s.table, id, r, capacity, ALIGNMENT);
    After(s.(table := table), if error.Some? then Done(Failed(error.value)) else next, false)
  }

  function PutInstall(s: Store, c: Call): After
    requires c.PutHolding?
  {
    var version := NewVersion(s.tensors, c.t);
    var copies := Invalidated(CopiesOf(s.tensors, c.t), c.r);
    var (table, lost) := Replaced(s.table, copies, c.r);
    InstallAt(s, c.t, Record(version, c.m, c.m.aliasGroup, copies), c.r, PutCopy(c, version), lost, table)
  }

  function AliasInstall(s: Store, c: Call): After
    requires c.AliasHolding?
  {
    if c.t !in s.tensors then After(s, Done(Failed(NotResident(c.t, c.dst))), false)
    else
      var rec := s.tensors[c.t];
      if !Current(rec, c.src, c.snap) then
        After(s, Dropping(c.snap.allocation, Some(VersionMismatch(c.t, c.snap.version, rec.version))), false)
      else
        var (table, lost) := Replaced(s.table, rec.copies, c.dst);
        InstallAt(s, c.t, rec, c.dst, AliasCopy(c.dst, c.snap), lost, table)
  }

  function ReplicateInstall(s: Store, c: Call): After
    requires c.ReplicateHolding?
  {
    if c.t !in s.tensors then
      var (table, freed) := Released(s.table, c.a);
      After(s.(table := table), Done(Failed(NotResident(c.t, c.r))), freed.Err?)
    else
      var rec := s.tensors[c.t];
      if rec.version != c.version then
        After(s, Dropping(c.a, Some(VersionMismatch(c.t, c.version, rec.version))), false)
      else
        var (table, lost) := Replaced(s.table, rec.copies, c.r);
        InstallAt(s, c.t, rec, c.r, ReplicaCopy(c), lost, table)
  }

  function ReleaseRemove(s: Store, c: Call): After
    requires c.ReleaseStart?
  {
    if !Resident(s.tensors, c.t, c.r) then After(s, Done(Failed(NotResident(c.t, c.r))), false)
    else
      var rec := s.tensors[c.t];
      var copy := rec.copies[c.r];
      if copy.leases > 0 then After(s, Done(Failed(AliasUnsafeRelease(c.t, copy.leases))), false)
      else
        After(s.(tensors := s.tensors[c.t := rec.(copies := rec.copies - {c.r})]), Dropping(copy.allocation, None), false)
  }

  /** Giving back a reference: `release_copy` reports the result, a failed install ignores it. */
  function DropStep(s: Store, c: Call): After
    requires c.Dropping?
  {
    var (table, freed) := Released(s.table, c.a);
    var outcome := if c.after.Some? then Failed(c.after.value)
                   else if freed.Ok? then Freed(freed.value) else Failed(freed.error);
    After(s.(table := table), Done(outcome), freed.Err?)
  }

  /** The copy `get` returns: present and valid. */
  function Lookup(ts: Tensors, t: Name, r: Name): Result<Copy, MemoryError> {
    if Resident(ts, t, r) && ts[t].copies[r].valid then Ok(ts[t].copies[r]) else Err(NotResident(t, r))
  }

  /** The next lock section of a call. */
  function Step(s: Store, c: Call): After
    requires !c.Done?
  {
    match c
    case PutStart(t, r, a, m, ready, handle) =>
      RegisterStep(s, a, r, Capacity(m), PutHolding(t, r, a, m, ready, handle))
    case PutHolding(_, _, _, _, _, _) => PutInstall(s, c)
    case AliasStart(t, src, dst) =>
      var found := Lookup(s.tensors, t, src);
      After(s, if found.Err? then Done(Failed(found.error))
               else if src == dst then Done(Installed(found.value))
               else AliasCapacity(t, src, dst, found.value), false)
    case AliasCapacity(t, src, dst, snap) =>
      var capacity := if snap.allocation in s.table.allocs then Max(s.table.allocs[snap.allocation].capacity, 1) else 1;
      After(s, AliasRegister(t, src, dst, snap, capacity), false)
    case AliasRegister(t, src, dst, snap, capacity) =>
      RegisterStep(s, snap.allocation, dst, capacity, AliasHolding(t, src, dst, snap))
    case AliasHolding(_, _, _, _) => AliasInstall(s, c)
    case ReplicateStart(t, r, a, ready) =>
      After(s, if t in s.tensors then ReplicateRegister(t, r, a, ready, s.tensors[t].version, s.tensors[t].metadata)
               else Done(Failed(NotResident(t, r))), false)
    case ReplicateRegister(t, r, a, ready, version, m) =>
      RegisterStep(s, a, r, Capacity(m), ReplicateHolding(t, r, a, ready, version, m))
    case ReplicateHolding(_, _, _, _, _, _) => ReplicateInstall(s, c)
    case ReleaseStart(_, _) => ReleaseRemove(s, c)
    case Dropping(_, _) => DropStep(s, c)
  }

  /** Lock sections a call may still need. */
  function Remaining(c: Call): nat {
    match c
    case Done(_) => 0
    case Dropping(_, _) => 1
    case PutHolding(_, _, _, _, _, _) => 2
    case AliasHolding(_, _, _, _) => 2
    case ReplicateHolding(_, _, _, _, _, _) => 2
    case ReleaseStart(_, _) => 2
    case AliasRegister(_, _, _, _, _) => 3
    case ReplicateRegister(_, _, _, _, _, _) => 3
    case PutStart(_, _, _, _, _, _) => 3
    case AliasCapacity(_, _, _, _) => 4
    case AliasStart(_, _, _) => 5
    case ReplicateStart(_, _, _, _) => 5
  }

  /** A call run to its end with nothing in between. */
  function Solo(s: Store, c: Call): (Store, Outcome)
    decreases Remaining(c)
  {
    if c.Done? then (s, c.outcome)
    else
      var after := Step(s, c);
      Solo(after.store, after.call)
  }

  /** `Solo` unrolled over one section and over two. */
  lemma {:induction false} SoloUnrolls(s: Store, c: Call)
    requires !c.Done?
    ensures var a := Step(s, c);
            && Solo(s, c) == Solo(a.store, a.call)
            && (a.call.Done? ==> Solo(s, c) == (a.store, a.call.outcome))
            && (!a.call.Done? ==>
                  var b := Step(a.store, a.call);
                  && Solo(s, c) == Solo(b.store, b.call)
                  && (b.call.Done? ==> Solo(s, c) == (b.store, b.call.outcome)))
  {
    hide Step;
  }

  /** A change to one resident copy that leaves its allocation alone: leases and handles. */
  function Adjusted(ts: Tensors, t: Name, r: Name, copy: Copy): Tensors
    requires Resident(ts, t, r)
  {
    ts[t := ts[t].(copies := ts[t].copies[r := copy])]
  }

  function LeaseTaken(ts: Tensors, t: Name, r: Name): (Tensors, Option<MemoryError>) {
    if !Resident(ts, t, r) || !ts[t].copies[r].valid then (ts, Some(NotResident(t, r)))
    else
      var copy := ts[t].copies[r];
      (Adjusted(ts, t, r, copy.(leases := copy.leases + 1)), None)
  }

  function LeaseReturned(ts: Tensors, t: Name, r: Name): (Tensors, Option<MemoryError>) {
    if !Resident(ts, t, r) then (ts, Some(NotResident(t, r)))
    else if ts[t].copies[r].leases == 0 then (ts, Some(LeaseUnderflow(t, r)))
    else
      var copy := ts[t].copies[r];
      (Adjusted(ts, t, r, copy.(leases := copy.leases - 1)), None)
  }

  function HandleBound(ts: Tensors, t: Name, r: Name, handle: nat): (Tensors, Option<MemoryError>) {
    if !Resident(ts, t, r) || !ts[t].copies[r].valid then (ts, Some(NotResident(t, r)))
    else
      (Adjusted(ts, t, r, ts[t].copies[r].(handle := Some(handle))), None)
  }

  /** The store as an object; between calls its value is `View()`. */
  class ResidencyStore {
    var tensors: Tensors
    const allocations: AllocationTable

    ghost function View(): Store
      reads this, allocations
    {
      Store(tensors, allocations.View())
    }

    constructor (allocations: AllocationTable)
      ensures this.allocations == allocations
      ensures tensors == map[]
    {
      this.allocations := allocations;
      tensors := map[];
    }

    /** Marks every copy except the one on `r` stale. */
    method InvalidateSiblings(copies: map<Name, Copy>, r: Name) returns (after: map<Name, Copy>)
      ensures after == Invalidated(copies, r)
    {
      after := copies;
      var todo := copies.Keys;
      while todo != {}
        invariant todo <= copies.Keys == after.Keys
        invariant forall q | q in copies ::
                    after[q] == if q == r || q in todo then copies[q] else Stale(copies[q])
      {
        var q := Pick(todo);
        if q != r {
          after := after[q := after[q].(valid := false, authoritative := false)];
        }
        todo := todo - {q};
      }
    }

    method PutOpaque(t: Name, r: Name, a: Name, m: Metadata, ready: Option<Name>, handle: Option<nat>)
      returns (out: Outcome)
      modifies this, allocations
      ensures (View(), out) == Solo(old(View()), PutStart(t, r, a, m, ready, handle))
    {
      hide Registered, Released, Solo;
      SoloUnrolls(View(), PutStart(t, r, a, m, ready, handle));
      var error := allocations.Register(a, r, Max(Max(m.storageNbytes, m.nbytes), 1), ALIGNMENT);
      if error.Some? {
        return Failed(error.value);
      }
      var version := if t in tensors then tensors[t].version + 1 else 1;
      var copies := if t in tensors then tensors[t].copies else map[];
      copies := InvalidateSiblings(copies, r);
      if r in copies {
        if copies[r].allocation != a {
          var _ := allocations.Release(copies[r].allocation);
        } else {
          var _ := allocations.Release(a);
        }
      }
      var copy := Copy(r, a, version, ready, 0, true, true, m.offset, m.shape, m.strides, handle);
      tensors := tensors[t := Record(version, m, m.aliasGroup, copies[r := copy])];
      out := Installed(copy);
    }

    /** The end of an alias or replication: the new copy replaces what was on its resource. */
    method InstallCopy(t: Name, copy: Copy)
      requires t in tensors
      modifies this, allocations
      ensures var (table, lost) := Replaced(old(View()).table, old(tensors)[t].copies, copy.resource);
              View() == InstallAt(old(View()), t, old(tensors)[t], copy.resource, copy, lost, table).store
    {
      var rec := tensors[t];
      if copy.resource in rec.copies {
        if rec.copies[copy.resource].allocation == copy.allocation {
          var _ := allocations.Release(copy.allocation);
        } else {
          var _ := allocations.Release(rec.copies[copy.resource].allocation);
        }
      }
      tensors := tensors[t := rec.(copies := rec.copies[copy.resource := copy])];
    }

    method Get(t: Name, r: Name) returns (found: Result<Copy, MemoryError>)
      ensures found == Lookup(tensors, t, r)
    {
      if t !in tensors || r !in tensors[t].copies || !tensors[t].copies[r].valid {
        return Err(NotResident(t, r));
      }
      found := Ok(tensors[t].copies[r]);
    }

    method AliasSameAllocation(t: Name, src: Name, dst: Name) returns (out: Outcome)
      modifies this, allocations
      ensures (View(), out) == Solo(old(View()), AliasStart(t, src, dst))
    {
      hide Registered, Released, Solo;
      SoloUnrolls(View(), AliasStart(t, src, dst));
      var found := Get(t, src);
      if found.Err? {
        return Failed(found.error);
      }
      var snap := found.value;
      if src == dst {
        return Installed(snap);
      }
      var capacity := if snap.allocation in allocations.allocs then allocations.allocs[snap.allocation].capacity else 1;
      SoloUnrolls(View(), AliasRegister(t, src, dst, snap, Max(capacity, 1)));
      var error := allocations.Register(snap.allocation, dst, Max(capacity, 1), ALIGNMENT);
      if error.Some? {
        return Failed(error.value);
      }
      out := FinishAlias(t, src, dst, snap);
    }

    /** The install section, and the release that follows when the snapshot is out of date. */
    method FinishAlias(t: Name, src: Name, dst: Name, snap: Copy) returns (out: Outcome)
      modifies this, allocations
      ensures (View(), out) == Solo(old(View()), AliasHolding(t, src, dst, snap))
    {
      hide Registered, Released, Solo;
      SoloUnrolls(View(), AliasHolding(t, src, dst, snap));
      if t !in tensors {
        return Failed(NotResident(t, dst));
      }
      var rec := tensors[t];
      if !Current(rec, src, snap) {
        var _ := allocations.Release(snap.allocation);
        return Failed(VersionMismatch(t, snap.version, rec.version));
      }
      var copy := Copy(dst, snap.allocation, snap.version, snap.ready, 0, true, false,
                       snap.offset, snap.shape, snap.strides, snap.handle);
      InstallCopy(t, copy);
      out := Installed(copy);
    }

    method Replicate(t: Name, r: Name, a: Name, ready: Option<Name>) returns (out: Outcome)
      modifies this, allocations
      ensures (View(), out) == Solo(old(View()), ReplicateStart(t, r, a, ready))
    {
      hide Registered, Released, Solo;
      SoloUnrolls(View(), ReplicateStart(t, r, a, ready));
      if t !in tensors {
        return Failed(NotResident(t, r));
      }
      var rec := tensors[t];
      var m := rec.metadata;
      var error := allocations.Register(a, r, Max(Max(m.storageNbytes, m.nbytes), 1), ALIGNMENT);
      if error.Some? {
        return Failed(error.value);
      }
      out := FinishReplicate(t, r, a, ready, rec.version, m);
    }

    method FinishReplicate(t: Name, r: Name, a: Name, ready: Option<Name>, version: nat, m: Metadata)
      returns (out: Outcome)
      modifies this, allocations
      ensures (View(), out) == Solo(old(View()), ReplicateHolding(t, r, a, ready, version, m))
    {
      hide Registered, Released, Solo;
      SoloUnrolls(View(), ReplicateHolding(t, r, a, ready, version, m));
      if t !in tensors {
        var _ := allocations.Release(a);
        return Failed(NotResident(t, r));
      }
      if tensors[t].version != version {
        var _ := allocations.Release(a);
        return Failed(VersionMismatch(t, version, tensors[t].version));
      }
      var copy := Copy(r, a, version, ready, 0, true, false, m.offset, m.shape, m.strides, None);
      InstallCopy(t, copy);
      out := Installed(copy);
    }

    method ReleaseCopy(t: Name, r: Name) returns (out: Outcome)
      modifies this, allocations
      ensures (View(), out) == Solo(old(View()), ReleaseStart(t, r))
    {
      hide Registered, Released, Solo;
      SoloUnrolls(View(), ReleaseStart(t, r));
      if t !in tensors || r !in tensors[t].copies {
        return Failed(NotResident(t, r));
      }
      var copy := tensors[t].copies[r];
      if copy.leases > 0 {
        return Failed(AliasUnsafeRelease(t, copy.leases));
      }
      tensors := tensors[t := tensors[t].(copies := tensors[t].copies - {r})];
      var freed := allocations.Release(copy.allocation);
      out := if freed.Ok? then Freed(freed.value) else Failed(freed.error);
    }

    method AcquireLease(t: Name, r: Name) returns (error: Option<MemoryError>)
      modifies this
      ensures (tensors, error) == LeaseTaken(old(tensors), t, r)
    {
      if t !in tensors || r !in tensors[t].copies || !tensors[t].copies[r].valid {
        return Some(NotResident(t, r));
      }
      var copy := tensors[t].copies[r];
      tensors := tensors[t := tensors[t].(copies := tensors[t].copies[r := copy.(leases := copy.leases + 1)])];
      error := None;
    }

    method ReleaseLease(t: Name, r: Name) returns (error: Option<MemoryError>)
      modifies this
      ensures (tensors, error) == LeaseReturned(old(tensors), t, r)
    {
      if t !in tensors || r !in tensors[t].copies {
        return Some(NotResident(t, r));
      }
      var copy := tensors[t].copies[r];
      if copy.leases == 0 {
        return Some(LeaseUnderflow(t, r));
      }
      tensors := tensors[t := tensors[t].(copies := tensors[t].copies[r := copy.(leases := copy.leases - 1)])];
      error := None;
    }
  }
}
