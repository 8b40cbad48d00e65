/**
 Capacity ceilings over whole runs of the residency store.

 A registration never takes a resource past its ceiling, but `set_capacity_limit` does not look at what is
 live. A resource stands above its ceiling exactly since a ceiling was set below its live bytes.
 */
module ResidencyLimits {
  import opened Prelude
  import opened AllocationTables
  import opened ResidencyStores
  import opened ResidencyProtocol

  function LiveOn(t: Table, r: Name): nat {
    GetOr(t.liveBy, r, 0)
  }

  predicate Over(t: Table, r: Name) {
    r in t.limits && LiveOn(t, r) > t.limits[r]
  }

  /** The ceilings stay, nothing goes above its ceiling, and what is above does not grow. */
  ghost predicate Respects(t: Table, t': Table) {
    && t'.limits == t.limits
    && forall r: Name :: (Over(t', r) ==> Over(t, r)) && (Over(t, r) ==> LiveOn(t', r) <= LiveOn(t, r))
  }

  lemma {:induction false} RegisterRespects(t: Table, id: Name, r: Name, capacity: nat, alignment: nat)
    ensures Respects(t, Registered(t, id, r, capacity, alignment).0)
  {
  }

  lemma {:induction false} ReleaseRespects(t: Table, id: Name)
    ensures Respects(t, Released(t, id).0)
  {
  }

  lemma {:induction false} ReplaceRespects(t: Table, copies: map<Name, Copy>, r: Name)
    ensures Respects(t, Replaced(t, copies, r).0)
  {
    if r in copies {
      ReleaseRespects(t, copies[r].allocation);
      hide Respects, Released;
    }
  }

  lemma {:induction false} StepRespects(s: Store, c: Call)
    requires !c.Done?
    ensures Respects(s.table, Step(s, c).store.table)
  {
    assert Respects(s.table, s.table);
    hide Respects, Registered, Released, Replaced;
    forall id, r, capacity ensures Respects(s.table, Registered(s.table, id, r, capacity, ALIGNMENT).0) {
      RegisterRespects(s.table, id, r, capacity, ALIGNMENT);
    }
    forall id ensures Respects(s.table, Released(s.table, id).0) {
      ReleaseRespects(s.table, id);
    }
    forall copies, r ensures Respects(s.table, Replaced(s.table, copies, r).0) {
      ReplaceRespects(s.table, copies, r);
    }
  }

  predicate SetsLimit(act: Action, r: Name) {
    act.SetLimit? && act.r == r
  }

  lemma {:induction false} OthersRespect(w: World, act: Action)
    requires Enabled(w, act) && !act.SetLimit?
    ensures Respects(w.store.table, Next(w, act).store.table)
  {
    assert Respects(w.store.table, w.store.table);
    if act.Advance? {
      StepRespects(w.store, w.calls[act.id]);
    }
    hide Respects, Step;
  }

  /**
   A step takes a resource above its ceiling exactly when it sets a ceiling below the live bytes; and while
   a resource stands above, no other step adds to it.
   */
  lemma {:induction false} OverExactly(w: World, act: Action, r: Name)
    requires Enabled(w, act)
    ensures var (t, t') := (w.store.table, Next(w, act).store.table);
            && (!Over(t, r) ==> (Over(t', r) <==> SetsLimit(act, r) && act.bytes < LiveOn(t, r)))
            && (Over(t, r) ==> LiveOn(t', r) <= LiveOn(t, r))
            && (!SetsLimit(act, r) ==> (r in t'.limits <==> r in t.limits) && (r in t.limits ==> t'.limits[r] == t.limits[r]))
  {
    if !act.SetLimit? {
      OthersRespect(w, act);
      hide Next;
    }
  }

  // ----- Runs -----

  ghost function TableAt(acts: seq<Action>, k: nat): Table
    requires k <= |acts|
  {
    Run(INITIAL, acts[..k]).store.table
  }

  /**
   Action `k` set the ceiling of `r` that is still in force, below the bytes then live; since then
   the live bytes have stayed above it and have only fallen.
   */
  ghost predicate SetBelow(acts: seq<Action>, r: Name, k: nat) {
    && k < |acts| && SetsLimit(acts[k], r)
    && (forall j | k < j < |acts| :: !SetsLimit(acts[j], r))
    && (forall j | k <= j <= |acts| :: LiveOn(TableAt(acts, j), r) > acts[k].bytes)
    && (forall i, j | k <= i <= j <= |acts| :: LiveOn(TableAt(acts, j), r) <= LiveOn(TableAt(acts, i), r))
  }

  lemma {:induction false} TableAtShorter(acts: seq<Action>, k: nat)
    requires k < |acts|
    ensures TableAt(acts[..|acts| - 1], k) == TableAt(acts, k)
  {
    assert acts[..|acts| - 1][..k] == acts[..k];
  }

  lemma {:induction false} LastTable(acts: seq<Action>)
    requires acts != []
    ensures var w := Run(INITIAL, acts[..|acts| - 1]);
            var act := acts[|acts| - 1];
            && TableAt(acts, |acts| - 1) == w.store.table
            && TableAt(acts, |acts|) == Run(INITIAL, acts).store.table
            && TableAt(acts, |acts|) == if Enabled(w, act) then Next(w, act).store.table else w.store.table
  {
    assert acts[..|acts|] == acts;
    hide Next, Enabled;
  }

  /** In every run, a resource ends above its ceiling exactly when a ceiling was set below its live bytes and still binds. */
  lemma {:induction false} OverIffSetBelow(acts: seq<Action>, r: Name)
    ensures Over(Run(INITIAL, acts).store.table, r) <==> exists k :: SetBelow(acts, r, k)
    decreases |acts|
  {
    hide Run;
    if Over(Run(INITIAL, acts).store.table, r) {
      var k := OverWasSet(acts, r);
    }
    if k: nat :| SetBelow(acts, r, k) {
      LimitInForce(acts, r, k);
      assert LiveOn(TableAt(acts, |acts|), r) > acts[k].bytes;
      assert acts[..|acts|] == acts;
    }
  }

  /** The ceiling that no later action replaced is the one in force. */
  lemma {:induction false} LimitInForce(acts: seq<Action>, r: Name, k: nat)
    requires k < |acts| && SetsLimit(acts[k], r) && (forall j | k < j < |acts| :: !SetsLimit(acts[j], r))
    ensures var t := Run(INITIAL, acts).store.table; r in t.limits && t.limits[r] == acts[k].bytes
    decreases |acts|
  {
    var shorter := acts[..|acts| - 1];
    var w := Run(INITIAL, shorter);
    if k < |acts| - 1 {
      LimitInForce(shorter, r, k);
      if Enabled(w, acts[|acts| - 1]) {
        OverExactly(w, acts[|acts| - 1], r);
        hide Next;
      }
    }
  }

  lemma {:induction false} OverWasSet(acts: seq<Action>, r: Name) returns (k: nat)
    requires Over(Run(INITIAL, acts).store.table, r)
    ensures SetBelow(acts, r, k)
    decreases |acts|
  {
    var n := |acts| - 1;
    var shorter := acts[..n];
    var (w, act) := (Run(INITIAL, shorter), acts[n]);
    LastTable(acts);
    hide Next, Run;
    if Enabled(w, act) {
      OverExactly(w, act, r);
    }
    if Over(w.store.table, r) && !SetsLimit(act, r) {
      k := OverWasSet(shorter, r);
      LimitInForce(acts, r, k);
      StaysSetBelow(acts, r, k);
    } else {
      k := n;
    }
  }

  lemma {:induction false} StaysSetBelow(acts: seq<Action>, r: Name, k: nat)
    requires acts != [] && SetBelow(acts[..|acts| - 1], r, k) && !SetsLimit(acts[|acts| - 1], r)
    requires LiveOn(TableAt(acts, |acts|), r) <= LiveOn(TableAt(acts, |acts| - 1), r)
    requires LiveOn(TableAt(acts, |acts|), r) > acts[k].bytes
    ensures SetBelow(acts, r, k)
  {
    hide TableAt, LiveOn;
    forall j: nat | j < |acts| ensures TableAt(acts[..|acts| - 1], j) == TableAt(acts, j) {
      TableAtShorter(acts, j);
    }
  }

  /** A limit set below what is live: eight bytes are registered for a put, and then the limit is set to zero. */
  lemma {:induction false} LimitBelowLive(m: Metadata) returns (acts: seq<Action>)
    requires Capacity(m) == 8
    ensures Over(Run(INITIAL, acts).store.table, 1)
  {
    var w;
    acts, w := Extend([], INITIAL, Begin(0, PutStart(1, 1, 7, m, None, None)));
    acts, w := Extend(acts, w, Advance(0));
    assert LiveOn(w.store.table, 1) == 8;
    acts, w := Extend(acts, w, SetLimit(1, 0));
  }
}
