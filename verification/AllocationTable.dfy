/**
 Physical allocation accounting: one record per allocation id, reference counted,
 with live bytes in total and per resource.

 `Registered` and `Released` say what one lock section does to the table; the class
 performs them on fields; `Accounted` is what every section keeps.
 */
module AllocationTables {
  import opened Prelude

  datatype MemoryError =
    | NotResident(tensor: Name, resource: Name)
    | VersionMismatch(tensor: Name, expected: nat, found: nat)
    | AllocationMissing(id: Name)
    | LeaseUnderflow(tensor: Name, resource: Name)
    | AliasUnsafeRelease(tensor: Name, leases: nat)
    | CapacityExceeded(resource: Name, need: nat, free: nat)
    | MetadataMismatch(id: Name)
    | ReferenceOverflow(id: Name)

  /** Reference counts are 32-bit; registration refuses to go past this. */
  const MAX_REFS: nat := 0xFFFF_FFFF

  datatype Physical = Physical(resource: Name, capacity: nat, alignment: nat, refs: nat)

  datatype Table = Table(
    allocs: map<Name, Physical>,
    live: nat,
    peak: nat,
    limits: map<Name, nat>,
    liveBy: map<Name, nat>)

  const EMPTY_TABLE := Table(map[], 0, 0, map[], map[])

  /** References currently counted for an allocation; zero when it is not in the table. */
  function Refs(t: Table, id: Name): nat {
    if id in t.allocs then t.allocs[id].refs else 0
  }

  /** One `register` lock section. */
  function Registered(t: Table, id: Name, resource: Name, capacity: nat, alignment: nat)
    : (Table, Option<MemoryError>)
  {
    if id in t.allocs then
      var rec := t.allocs[id];
      if rec.capacity != capacity || rec.alignment != alignment then (t, Some(MetadataMismatch(id)))
      else if rec.refs >= MAX_REFS then (t, Some(ReferenceOverflow(id)))
      else (t.(allocs := t.allocs[id := rec.(refs := rec.refs + 1)]), None)
    else
      var live := GetOr(t.liveBy, resource, 0);
      if resource in t.limits && live + capacity > t.limits[resource] then
        (t, Some(CapacityExceeded(resource, capacity, SatSub(t.limits[resource], live))))
      else
        (t.(allocs := t.allocs[id := Physical(resource, capacity, alignment, 1)],
            live := t.live + capacity,
            peak := Max(t.peak, t.live + capacity),
            liveBy := t.liveBy[resource := live + capacity]), None)
  }

  /** One `release` lock section; the value is the number of bytes freed. */
  function Released(t: Table, id: Name): (Table, Result<nat, MemoryError>) {
    if id !in t.allocs || t.allocs[id].refs == 0 then (t, Err(AllocationMissing(id)))
    else
      var rec := t.allocs[id];
      if rec.refs > 1 then (t.(allocs := t.allocs[id := rec.(refs := rec.refs - 1)]), Ok(0))
      else
        (t.(allocs := t.allocs - {id},
            live := SatSub(t.live, rec.capacity),
            liveBy := if rec.resource in t.liveBy
                      then t.liveBy[rec.resource := SatSub(t.liveBy[rec.resource], rec.capacity)]
                      else t.liveBy), Ok(rec.capacity))
  }

  ghost function Capacities(allocs: map<Name, Physical>): map<Name, nat> {
    map id | id in allocs :: allocs[id].capacity
  }

  ghost function CapacitiesOn(allocs: map<Name, Physical>, resource: Name): map<Name, nat> {
    map id | id in allocs && allocs[id].resource == resource :: allocs[id].capacity
  }

  /** The counters are exact sums over the live allocations. */
  ghost predicate Accounted(t: Table) {
    && (forall id | id in t.allocs :: 1 <= t.allocs[id].refs <= MAX_REFS)
    && t.live == SumValues(Capacities(t.allocs)) <= t.peak
    && (forall r :: GetOr(t.liveBy, r, 0) == SumValues(CapacitiesOn(t.allocs, r)))
  }

  ghost predicate WithinLimits(t: Table) {
    forall r | r in t.limits :: GetOr(t.liveBy, r, 0) <= t.limits[r]
  }

  lemma {:induction false} SameCapacities(a: map<Name, Physical>, id: Name, rec: Physical)
    requires id in a && rec.capacity == a[id].capacity && rec.resource == a[id].resource
    ensures Capacities(a[id := rec]) == Capacities(a)
    ensures forall r :: CapacitiesOn(a[id := rec], r) == CapacitiesOn(a, r)
  {
  }

  /** Adding an allocation adds its capacity to the total. */
  lemma {:induction false} CapacitiesAdd(a: map<Name, Physical>, id: Name, rec: Physical)
    requires id !in a
    ensures SumValues(Capacities(a[id := rec])) == SumValues(Capacities(a)) + rec.capacity
  {
    SumInsert(Capacities(a), id, rec.capacity);
    assert Capacities(a[id := rec]) == Capacities(a)[id := rec.capacity];
  }

  /** It adds to the bytes of its own resource and of no other. */
  lemma {:induction false} CapacitiesAddOn(a: map<Name, Physical>, id: Name, rec: Physical, r: Name)
    requires id !in a
    ensures SumValues(CapacitiesOn(a[id := rec], r))
            == SumValues(CapacitiesOn(a, r)) + if r == rec.resource then rec.capacity else 0
  {
    if r == rec.resource {
      SumInsert(CapacitiesOn(a, r), id, rec.capacity);
      assert CapacitiesOn(a[id := rec], r) == CapacitiesOn(a, r)[id := rec.capacity];
    } else {
      assert CapacitiesOn(a[id := rec], r) == CapacitiesOn(a, r);
    }
  }

  lemma {:induction false} RegisterKeepsAccounts(t: Table, id: Name, resource: Name, capacity: nat, alignment: nat)
    requires Accounted(t)
    ensures Accounted(Registered(t, id, resource, capacity, alignment).0)
  {
    hide SumValues;
    var (t', error) := Registered(t, id, resource, capacity, alignment);
    if error == None {
      if id in t.allocs {
        SameCapacities(t.allocs, id, t'.allocs[id]);
      } else {
        var rec := Physical(resource, capacity, alignment, 1);
        CapacitiesAdd(t.allocs, id, rec);
        forall r ensures GetOr(t'.liveBy, r, 0) == SumValues(CapacitiesOn(t'.allocs, r)) {
          CapacitiesAddOn(t.allocs, id, rec, r);
          assert GetOr(t.liveBy, r, 0) == SumValues(CapacitiesOn(t.allocs, r));
        }
      }
    }
  }

  /** Dropping a reference keeps the accounts, and the saturating subtractions never saturate. */
  lemma {:induction false} ReleaseKeepsAccounts(t: Table, id: Name)
    requires Accounted(t)
    ensures Accounted(Released(t, id).0)
    ensures id in t.allocs && t.allocs[id].refs == 1 ==>
              t.allocs[id].capacity <= t.live &&
              t.allocs[id].capacity <= GetOr(t.liveBy, t.allocs[id].resource, 0)
  {
    hide SumValues;
    if id in t.allocs {
      var rec := t.allocs[id];
      var t' := Released(t, id).0;
      if rec.refs > 1 {
        SameCapacities(t.allocs, id, rec.(refs := rec.refs - 1));
      } else {
        assert t.allocs == t'.allocs[id := rec];
        CapacitiesAdd(t'.allocs, id, rec);
        CapacitiesAddOn(t'.allocs, id, rec, rec.resource);
        forall r ensures GetOr(t'.liveBy, r, 0) == SumValues(CapacitiesOn(t'.allocs, r)) {
          CapacitiesAddOn(t'.allocs, id, rec, r);
          assert GetOr(t.liveBy, r, 0) == SumValues(CapacitiesOn(t.allocs, r));
        }
      }
    }
  }

  /** No registration takes a resource past its ceiling, and no release does. */
  lemma {:induction false} LimitsHold(t: Table, id: Name, resource: Name, capacity: nat, alignment: nat)
    requires WithinLimits(t)
    ensures WithinLimits(Registered(t, id, resource, capacity, alignment).0)
    ensures WithinLimits(Released(t, id).0)
  {
  }

  /** `release` undoes a successful `register`: records and live counters return to what they were. */
  lemma {:induction false} ReleaseUndoesRegister(t: Table, id: Name, resource: Name, capacity: nat, alignment: nat)
    requires Accounted(t)
    requires Registered(t, id, resource, capacity, alignment).1 == None
    ensures var t' := Registered(t, id, resource, capacity, alignment).0;
            var u := Released(t', id);
            && u.1 == Ok(if id in t.allocs then 0 else capacity)
            && u.0.allocs == t.allocs && u.0.live == t.live && u.0.limits == t.limits
            && forall r :: GetOr(u.0.liveBy, r, 0) == GetOr(t.liveBy, r, 0)
  {
    hide SumValues;
  }

  /** When nothing is allocated, every counter reads zero. */
  lemma {:induction false} EmptyTableReadsZero(t: Table)
    requires Accounted(t) && t.allocs == map[]
    ensures t.live == 0
    ensures forall r :: GetOr(t.liveBy, r, 0) == 0
  {
  }

  class AllocationTable {
    var allocs: map<Name, Physical>
    var liveBytes: nat
    var peakBytes: nat
    var capacityLimits: map<Name, nat>
    var liveByResource: map<Name, nat>

    ghost function View(): Table
      reads this
    {
      Table(allocs, liveBytes, peakBytes, capacityLimits, liveByResource)
    }

    constructor ()
      ensures View() == EMPTY_TABLE
    {
      allocs, liveBytes, peakBytes, capacityLimits, liveByResource := map[], 0, 0, map[], map[];
    }

    method SetCapacityLimit(resource: Name, bytes: nat)
      modifies this
      ensures View() == old(View()).(limits := old(capacityLimits)[resource := bytes])
    {
      capacityLimits := capacityLimits[resource := bytes];
    }

    method Register(id: Name, resource: Name, capacity: nat, alignment: nat)
      returns (error: Option<MemoryError>)
      modifies this
      ensures (View(), error) == Registered(old(View()), id, resource, capacity, alignment)
      ensures old(Accounted(View())) ==> Accounted(View())
    {
      hide SumValues;
      ghost var before := View();
      if id in allocs {
        var rec := allocs[id];
        if rec.capacity != capacity || rec.alignment != alignment {
          return Some(MetadataMismatch(id));
        }
        if rec.refs >= MAX_REFS {
          return Some(ReferenceOverflow(id));
        }
        allocs := allocs[id := rec.(refs := rec.refs + 1)];
      } else {
        var live := GetOr(liveByResource, resource, 0);
        if resource in capacityLimits {
          var limit := capacityLimits[resource];
          if live + capacity > limit {
            return Some(CapacityExceeded(resource, capacity, SatSub(limit, live)));
          }
        }
        allocs := allocs[id := Physical(resource, capacity, alignment, 1)];
        liveBytes := liveBytes + capacity;
        peakBytes := Max(peakBytes, liveBytes);
        liveByResource := liveByResource[resource := live + capacity];
      }
      if Accounted(before) {
        RegisterKeepsAccounts(before, id, resource, capacity, alignment);
      }
      return None;
    }

    method Release(id: Name) returns (freed: Result<nat, MemoryError>)
      modifies this
      ensures (View(), freed) == Released(old(View()), id)
      ensures old(Accounted(View())) ==> Accounted(View())
    {
      hide SumValues;
      ghost var before := View();
      if id !in allocs || allocs[id].refs == 0 {
        return Err(AllocationMissing(id));
      }
      var rec := allocs[id];
      var refs := rec.refs - 1;
      if refs > 0 {
        allocs := allocs[id := rec.(refs := refs)];
        freed := Ok(0);
      } else {
        allocs := allocs - {id};
        liveBytes := SatSub(liveBytes, rec.capacity);
        if rec.resource in liveByResource {
          liveByResource := liveByResource[rec.resource := SatSub(liveByResource[rec.resource], rec.capacity)];
        }
        freed := Ok(rec.capacity);
      }
      if Accounted(before) {
        ReleaseKeepsAccounts(before, id);
      }
    }
  }
}
