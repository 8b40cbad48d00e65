/** The shortlist of plans: ranked by score, different from each other, and not all from one subset of devices. */
module Finalists {
  import opened Prelude

  /** A feasible plan. Its signature is an opaque name; plans with the same signature count as the same plan. */
  datatype Plan = Plan(score: real, signature: Name, subset: Name)

  datatype Finalist = Finalist(plan: Plan, analyticRank: nat, finalistRank: nat)

  // ----- Ranking -----

  predicate PlanLe(a: Plan, b: Plan) {
    a.score < b.score
    || (a.score == b.score && (a.signature < b.signature || (a.signature == b.signature && a.subset <= b.subset)))
  }

  ghost predicate Ranked(plans: seq<Plan>) {
    forall i, j | 0 <= i < j < |plans| :: PlanLe(plans[i], plans[j])
  }

  lemma {:induction false} InsertKeepsRank(plans: seq<Plan>, i: nat, p: Plan)
    requires Ranked(plans) && i <= |plans| && (forall j | 0 <= j < i :: PlanLe(plans[j], p))
    requires i < |plans| ==> !PlanLe(plans[i], p)
    ensures Ranked(plans[..i] + [p] + plans[i..])
  {
    forall j | i <= j < |plans| ensures PlanLe(p, plans[j]) {
      if j > i {
        assert PlanLe(plans[i], plans[j]);
      }
    }
    hide PlanLe;
    var out := plans[..i] + [p] + plans[i..];
    forall a, b | 0 <= a < b < |out| ensures PlanLe(out[a], out[b]) {
      assert a != i ==> out[a] == plans[if a < i then a else a - 1];
      assert b != i ==> out[b] == plans[if b < i then b else b - 1];
    }
  }

  lemma {:induction false} InsertCounts(plans: seq<Plan>, i: nat, p: Plan)
    requires i <= |plans|
    ensures multiset(plans[..i] + [p] + plans[i..]) == multiset(plans) + multiset{p}
  {
    assert plans == plans[..i] + plans[i..];
  }

  method InsertPlan(plans: seq<Plan>, p: Plan) returns (out: seq<Plan>)
    requires Ranked(plans)
    ensures Ranked(out) && multiset(out) == multiset(plans) + multiset{p}
  {
    var i := 0;
    while i < |plans| && PlanLe(plans[i], p)
      invariant i <= |plans| && forall j | 0 <= j < i :: PlanLe(plans[j], p)
    {
      i := i + 1;
    }
    InsertKeepsRank(plans, i, p);
    InsertCounts(plans, i, p);
    out := plans[..i] + [p] + plans[i..];
  }

  method RankPlans(plans: seq<Plan>) returns (out: seq<Plan>)
    ensures Ranked(out) && multiset(out) == multiset(plans)
  {
    out := [];
    for i := 0 to |plans|
      invariant Ranked(out) && multiset(out) == multiset(plans[..i])
    {
      assert plans[..i + 1] == plans[..i] + [plans[i]];
      out := InsertPlan(out, plans[i]);
    }
    assert plans[..|plans|] == plans;
  }

  // ----- Selection -----

  ghost function Signatures(plans: seq<Plan>): set<Name> {
    set i | 0 <= i < |plans| :: plans[i].signature
  }

  ghost function Chosen(fs: seq<Finalist>): set<Name> {
    set i | 0 <= i < |fs| :: fs[i].plan.signature
  }

  ghost predicate DifferentPlans(fs: seq<Finalist>) {
    forall i, j | 0 <= i < j < |fs| :: fs[i].plan.signature != fs[j].plan.signature
  }

  /** Each finalist is the plan at its analytic rank, and stands where its finalist rank says. */
  ghost predicate Placed(plans: seq<Plan>, fs: seq<Finalist>) {
    forall i | 0 <= i < |fs| ::
      fs[i].finalistRank == i && fs[i].analyticRank < |plans| && plans[fs[i].analyticRank] == fs[i].plan
  }

  /** From position `from` on, finalists stand in the order of their analytic ranks, all below `bound`. */
  ghost predicate Ascending(fs: seq<Finalist>, from: nat, bound: nat) {
    && (forall i, j | from <= i < j < |fs| :: fs[i].analyticRank < fs[j].analyticRank)
    && (forall i | from <= i < |fs| :: fs[i].analyticRank < bound)
  }

  /** How many finalists come from one subset. */
  ghost function FromSubset(fs: seq<Finalist>, subset: Name): nat {
    if fs == [] then 0 else FromSubset(fs[..|fs| - 1], subset) + (if fs[|fs| - 1].plan.subset == subset then 1 else 0)
  }

  ghost predicate Capped(fs: seq<Finalist>, cap: nat) {
    forall subset :: FromSubset(fs, subset) <= cap
  }

  lemma {:induction false} AddFinalist(plans: seq<Plan>, fs: seq<Finalist>, rank: nat)
    requires DifferentPlans(fs) && Placed(plans, fs) && rank < |plans| && plans[rank].signature !in Chosen(fs)
    ensures var more := fs + [Finalist(plans[rank], rank, |fs|)];
            && DifferentPlans(more) && Placed(plans, more) && Chosen(more) == Chosen(fs) + {plans[rank].signature}
            && forall subset :: FromSubset(more, subset) == FromSubset(fs, subset) + (if plans[rank].subset == subset then 1 else 0)
  {
    var f := Finalist(plans[rank], rank, |fs|);
    var more := fs + [f];
    assert more[..|fs|] == fs;
    forall s ensures s in Chosen(more) <==> s in Chosen(fs) || s == f.plan.signature {
      if s in Chosen(fs) {
        var i :| 0 <= i < |fs| && fs[i].plan.signature == s;
        assert more[i] == fs[i];
      }
      assert more[|fs|] == f;
    }
  }

  lemma {:induction false} SignaturesSnoc(plans: seq<Plan>, n: nat)
    requires n < |plans|
    ensures Signatures(plans[..n + 1]) == Signatures(plans[..n]) + {plans[n].signature}
  {
    var init, more := plans[..n], plans[..n + 1];
    forall s ensures s in Signatures(more) <==> s in Signatures(init) || s == plans[n].signature {
      if s in Signatures(init) {
        var i :| 0 <= i < |init| && init[i].signature == s;
        assert more[i] == init[i];
      }
      assert more[n] == plans[n];
      if s in Signatures(more) && s != plans[n].signature {
        var i :| 0 <= i < |more| && more[i].signature == s;
        assert init[i] == more[i];
      }
    }
  }

  /** The counts kept per subset are exact. */
  ghost predicate CountsOf(fs: seq<Finalist>, counts: map<Name, nat>) {
    forall subset :: FromSubset(fs, subset) == (if subset in counts then counts[subset] else 0)
  }

  /** The finalists of a better analytic rank than `r`. */
  ghost function Above(fs: seq<Finalist>, r: nat): seq<Finalist> {
    if fs == [] then [] else Above(fs[..|fs| - 1], r) + (if fs[|fs| - 1].analyticRank < r then [fs[|fs| - 1]] else [])
  }

  ghost predicate Taken(fs: seq<Finalist>, r: nat) {
    exists i :: 0 <= i < |fs| && fs[i].analyticRank == r
  }

  /** No plan of a better rank has the signature of the plan at rank `r`. */
  ghost predicate FirstOfItsKind(plans: seq<Plan>, r: nat)
    requires r < |plans|
  {
    plans[r].signature !in Signatures(plans[..r])
  }

  /** What the first pass takes: new signatures, while there is room in the list and in the share of the subset. */
  ghost predicate TakesCapped(plans: seq<Plan>, k: nat, cap: nat, fs: seq<Finalist>, r: nat)
    requires r < |plans|
  {
    Taken(fs, r) <==> FirstOfItsKind(plans, r) && |Above(fs, r)| < k && FromSubset(Above(fs, r), plans[r].subset) < cap
  }

  /** What the second pass adds as `rest`: signatures the first pass did not take, while there is room in the list. */
  ghost predicate TakesFill(plans: seq<Plan>, k: nat, first: seq<Finalist>, rest: seq<Finalist>, r: nat)
    requires r < |plans|
  {
    Taken(rest, r) <==> FirstOfItsKind(plans, r) && plans[r].signature !in Chosen(first) && |first| + |Above(rest, r)| < k
  }

  lemma {:induction false} AboveSnoc(fs: seq<Finalist>, f: Finalist, r: nat)
    ensures Above(fs + [f], r) == Above(fs, r) + (if f.analyticRank < r then [f] else [])
    ensures Taken(fs + [f], r) <==> Taken(fs, r) || f.analyticRank == r
  {
    assert (fs + [f])[..|fs|] == fs;
    assert (fs + [f])[|fs|] == f;
    if Taken(fs, r) {
      var i :| 0 <= i < |fs| && fs[i].analyticRank == r;
      assert (fs + [f])[i] == fs[i];
    }
  }

  lemma {:induction false} AboveAll(fs: seq<Finalist>, r: nat)
    requires forall i | 0 <= i < |fs| :: fs[i].analyticRank < r
    ensures Above(fs, r) == fs && !Taken(fs, r)
  {
    if fs != [] {
      var init, last := fs[..|fs| - 1], fs[|fs| - 1];
      hide Taken;
      assert forall i | 0 <= i < |init| :: init[i] == fs[i];
      AboveAll(init, r);
      assert fs == init + [last];
      AboveSnoc(init, last, r);
      hide Above;
    }
  }

  /** The first pass is decided for the ranks below `rank`. */
  ghost predicate CappedUpTo(plans: seq<Plan>, k: nat, cap: nat, fs: seq<Finalist>, rank: nat)
    requires rank <= |plans|
  {
    forall r: nat | r < rank :: TakesCapped(plans, k, cap, fs, r)
  }

  ghost predicate FilledUpTo(plans: seq<Plan>, k: nat, first: seq<Finalist>, rest: seq<Finalist>, rank: nat)
    requires rank <= |plans|
  {
    forall r: nat | r < rank :: TakesFill(plans, k, first, rest, r)
  }

  lemma {:induction false} AscendingSnoc(fs: seq<Finalist>, rank: nat, more: seq<Finalist>)
    requires Ascending(fs, 0, rank) && |more| == |fs| + 1 && more[..|fs|] == fs && more[|fs|].analyticRank == rank
    ensures Ascending(more, 0, rank + 1)
  {
    assert forall i | 0 <= i < |fs| :: more[i] == fs[i];
  }

  /** Taking the plan at `rank` decides that rank and leaves the better ones as they were. */
  lemma {:induction false} TakeCapped(plans: seq<Plan>, k: nat, cap: nat, fs: seq<Finalist>, rank: nat, more: seq<Finalist>)
    requires rank < |plans| && Ascending(fs, 0, rank) && CappedUpTo(plans, k, cap, fs, rank)
    requires |fs| < k && FirstOfItsKind(plans, rank) && FromSubset(fs, plans[rank].subset) < cap
    requires more == fs + [Finalist(plans[rank], rank, |fs|)]
    ensures CappedUpTo(plans, k, cap, more, rank + 1) && Ascending(more, 0, rank + 1)
  {
    AboveAll(fs, rank);
    AscendingSnoc(fs, rank, more);
    hide Above, FromSubset, Taken, FirstOfItsKind, Ascending;
    forall r: nat | r < rank + 1 ensures TakesCapped(plans, k, cap, more, r) {
      AboveSnoc(fs, Finalist(plans[rank], rank, |fs|), r);
      if r < rank {
        assert TakesCapped(plans, k, cap, fs, r);
        assert Above(more, r) == Above(fs, r) + [] == Above(fs, r);
      } else {
        assert Above(more, r) == fs + [] == fs;
      }
    }
  }

  /** So does leaving it, if there is a reason to. */
  lemma {:induction false} SkipCapped(plans: seq<Plan>, k: nat, cap: nat, fs: seq<Finalist>, rank: nat)
    requires rank < |plans| && Ascending(fs, 0, rank) && CappedUpTo(plans, k, cap, fs, rank)
    requires |fs| >= k || !FirstOfItsKind(plans, rank) || FromSubset(fs, plans[rank].subset) >= cap
    ensures CappedUpTo(plans, k, cap, fs, rank + 1) && Ascending(fs, 0, rank + 1)
  {
    AboveAll(fs, rank);
    hide Above, FromSubset, Taken, FirstOfItsKind;
  }

  /** When the list is full nothing of a worse rank is taken. */
  lemma {:induction false} FullCapped(plans: seq<Plan>, k: nat, cap: nat, fs: seq<Finalist>, rank: nat)
    requires rank <= |plans| && Ascending(fs, 0, rank) && CappedUpTo(plans, k, cap, fs, rank) && |fs| >= k
    ensures CappedUpTo(plans, k, cap, fs, |plans|) && Ascending(fs, 0, |plans|)
    decreases |plans| - rank
  {
    if rank < |plans| {
      SkipCapped(plans, k, cap, fs, rank);
      FullCapped(plans, k, cap, fs, rank + 1);
    }
  }

  lemma {:induction false} CapHolds(fs: seq<Finalist>, more: seq<Finalist>, counts: map<Name, nat>, cap: nat, subset: Name)
    requires Capped(fs, cap) && CountsOf(fs, counts) && GetOr(counts, subset, 0) < cap
    requires forall s :: FromSubset(more, s) == FromSubset(fs, s) + (if subset == s then 1 else 0)
    ensures Capped(more, cap) && CountsOf(more, counts[subset := GetOr(counts, subset, 0) + 1])
  {
    hide FromSubset;
  }

  /** First pass: at most `cap` from one subset. */
  method CappedPass(plans: seq<Plan>, k: nat, cap: nat) returns (fs: seq<Finalist>)
    requires k >= 1 && cap >= 1
    ensures DifferentPlans(fs) && Placed(plans, fs) && Capped(fs, cap) && |fs| <= k && Ascending(fs, 0, |plans|)
    ensures CappedUpTo(plans, k, cap, fs, |plans|)
    ensures plans != [] ==> fs != [] && fs[0].analyticRank == 0
  {
    fs := [];
    var seen: set<Name> := {};
    var counts: map<Name, nat> := map[];
    hide CappedUpTo, Signatures, FromSubset, Ascending, DifferentPlans, Placed, Capped, CountsOf, Chosen;
    NothingYet(plans, k, cap);
    for rank := 0 to |plans|
      invariant DifferentPlans(fs) && Placed(plans, fs) && Capped(fs, cap) && |fs| <= k && Ascending(fs, 0, rank)
      invariant CountsOf(fs, counts) && seen == Signatures(plans[..rank]) && Chosen(fs) <= seen
      invariant CappedUpTo(plans, k, cap, fs, rank)
      invariant if rank == 0 then fs == [] else fs != [] && fs[0].analyticRank == 0
    {
      if |fs| >= k {
        FullCapped(plans, k, cap, fs, rank);
        return;
      }
      SignaturesSnoc(plans, rank);
      var plan := plans[rank];
      var count := GetOr(counts, plan.subset, 0);
      SubsetCount(fs, counts, plan.subset);
      var fresh_ := plan.signature !in seen;
      seen := seen + {plan.signature};
      if fresh_ && count < cap {
        AddFinalist(plans, fs, rank);
        var more := fs + [Finalist(plan, rank, |fs|)];
        CapHolds(fs, more, counts, cap, plan.subset);
        TakeCapped(plans, k, cap, fs, rank, more);
        counts := counts[plan.subset := count + 1];
        fs := more;
      } else {
        SkipCapped(plans, k, cap, fs, rank);
      }
    }
  }

  lemma {:induction false} NothingYet(plans: seq<Plan>, k: nat, cap: nat)
    ensures CappedUpTo(plans, k, cap, [], 0) && Ascending([], 0, 0) && DifferentPlans([]) && Placed(plans, []) && Capped([], cap)
    ensures CountsOf([], map[]) && Signatures(plans[..0]) == {} && Chosen([]) == {}
  {
  }

  lemma {:induction false} SubsetCount(fs: seq<Finalist>, counts: map<Name, nat>, subset: Name)
    requires CountsOf(fs, counts)
    ensures FromSubset(fs, subset) == GetOr(counts, subset, 0)
  {
    hide FromSubset;
  }

  lemma {:induction false} TakeFill(plans: seq<Plan>, k: nat, first: seq<Finalist>, rest: seq<Finalist>, rank: nat, more: seq<Finalist>)
    requires rank < |plans| && Ascending(rest, 0, rank) && FilledUpTo(plans, k, first, rest, rank)
    requires |first| + |rest| < k && FirstOfItsKind(plans, rank) && plans[rank].signature !in Chosen(first)
    requires more == rest + [Finalist(plans[rank], rank, |first| + |rest|)]
    ensures FilledUpTo(plans, k, first, more, rank + 1) && Ascending(more, 0, rank + 1)
  {
    AboveAll(rest, rank);
    AscendingSnoc(rest, rank, more);
    hide Above, Taken, FirstOfItsKind, Chosen, Ascending;
    forall r: nat | r < rank + 1 ensures TakesFill(plans, k, first, more, r) {
      AboveSnoc(rest, Finalist(plans[rank], rank, |first| + |rest|), r);
      if r < rank {
        assert TakesFill(plans, k, first, rest, r);
        assert Above(more, r) == Above(rest, r) + [] == Above(rest, r);
      } else {
        assert Above(more, r) == rest + [] == rest;
      }
    }
  }

  lemma {:induction false} SkipFill(plans: seq<Plan>, k: nat, first: seq<Finalist>, rest: seq<Finalist>, rank: nat)
    requires rank < |plans| && Ascending(rest, 0, rank) && FilledUpTo(plans, k, first, rest, rank)
    requires |first| + |rest| >= k || !FirstOfItsKind(plans, rank) || plans[rank].signature in Chosen(first)
    ensures FilledUpTo(plans, k, first, rest, rank + 1) && Ascending(rest, 0, rank + 1)
  {
    AboveAll(rest, rank);
    hide Above, Taken, FirstOfItsKind, Chosen;
  }

  lemma {:induction false} FullFill(plans: seq<Plan>, k: nat, first: seq<Finalist>, rest: seq<Finalist>, rank: nat)
    requires rank <= |plans| && Ascending(rest, 0, rank) && FilledUpTo(plans, k, first, rest, rank) && |first| + |rest| >= k
    ensures FilledUpTo(plans, k, first, rest, |plans|) && Ascending(rest, 0, |plans|)
    decreases |plans| - rank
  {
    if rank < |plans| {
      SkipFill(plans, k, first, rest, rank);
      FullFill(plans, k, first, rest, rank + 1);
    }
  }

  lemma {:induction false} NothingFilled(plans: seq<Plan>, k: nat, first: seq<Finalist>)
    ensures FilledUpTo(plans, k, first, [], 0) && Ascending([], 0, 0)
  {
  }

  method SignaturesOf(first: seq<Finalist>) returns (seen: set<Name>)
    ensures seen == Chosen(first)
  {
    seen := {};
    for i := 0 to |first|
      invariant seen == Chosen(first[..i])
    {
      ChosenSnoc(first, i);
      seen := seen + {first[i].plan.signature};
    }
    assert first[..|first|] == first;
  }

  /** Second pass: fills up with whatever has not been chosen. */
  method FillPass(plans: seq<Plan>, k: nat, first: seq<Finalist>) returns (fs: seq<Finalist>, ghost rest: seq<Finalist>)
    requires DifferentPlans(first) && Placed(plans, first) && |first| <= k
    ensures DifferentPlans(fs) && Placed(plans, fs) && fs == first + rest && |fs| <= k && Ascending(rest, 0, |plans|)
    ensures FilledUpTo(plans, k, first, rest, |plans|)
    ensures |fs| == k || Signatures(plans) <= Chosen(fs)
  {
    fs, rest := first, [];
    var seen := SignaturesOf(first);
    assert Signatures(plans[..0]) == {};
    NothingFilled(plans, k, first);
    hide Signatures, FromSubset, Ascending, FilledUpTo, DifferentPlans, Placed, Chosen;
    for rank := 0 to |plans|
      invariant DifferentPlans(fs) && Placed(plans, fs) && fs == first + rest && |fs| <= k && Ascending(rest, 0, rank)
      invariant seen == Chosen(fs) == Chosen(first) + Signatures(plans[..rank])
      invariant FilledUpTo(plans, k, first, rest, rank)
    {
      if |fs| >= k {
        FullFill(plans, k, first, rest, rank);
        return;
      }
      SignaturesSnoc(plans, rank);
      if plans[rank].signature !in seen {
        AddFinalist(plans, fs, rank);
        ghost var more := rest + [Finalist(plans[rank], rank, |fs|)];
        TakeFill(plans, k, first, rest, rank, more);
        seen := seen + {plans[rank].signature};
        fs, rest := fs + [Finalist(plans[rank], rank, |fs|)], more;
      } else {
        SkipFill(plans, k, first, rest, rank);
      }
    }
    assert plans[..|plans|] == plans;
  }

  lemma {:induction false} ChosenSnoc(fs: seq<Finalist>, n: nat)
    requires n < |fs|
    ensures Chosen(fs[..n + 1]) == Chosen(fs[..n]) + {fs[n].plan.signature}
  {
    var init, more := fs[..n], fs[..n + 1];
    forall s ensures s in Chosen(more) <==> s in Chosen(init) || s == fs[n].plan.signature {
      if s in Chosen(init) {
        var i :| 0 <= i < |init| && init[i].plan.signature == s;
        assert more[i] == init[i];
      }
      assert more[n] == fs[n];
      if s in Chosen(more) && s != fs[n].plan.signature {
        var i :| 0 <= i < |more| && more[i].plan.signature == s;
        assert init[i] == more[i];
      }
    }
  }

  function Min(a: nat, b: nat): (m: nat)
    ensures m <= a && m <= b && (m == a || m == b)
  {
    if a < b then a else b
  }

  lemma {:induction false} ChosenSize(fs: seq<Finalist>)
    requires DifferentPlans(fs)
    ensures |Chosen(fs)| == |fs|
  {
    if fs != [] {
      var n := |fs| - 1;
      ChosenSize(fs[..n]);
      ChosenSnoc(fs, n);
      assert fs[..n + 1] == fs;
      assert fs[n].plan.signature !in Chosen(fs[..n]);
    } else {
      assert Chosen(fs) == {};
    }
  }

  lemma {:induction false} ChosenFrom(plans: seq<Plan>, fs: seq<Finalist>)
    requires Placed(plans, fs)
    ensures Chosen(fs) <= Signatures(plans)
  {
    forall s | s in Chosen(fs) ensures s in Signatures(plans) {
      var i :| 0 <= i < |fs| && fs[i].plan.signature == s;
      assert plans[fs[i].analyticRank].signature == s;
    }
  }

  /** How many plans one subset may contribute at first; zero asks for a default between two and eight. */
  function PerSubset(perSubset: nat, finalistCount: nat): nat {
    if perSubset > 0 then perSubset
    else
      var n := Max(finalistCount, 1);
      if n < 2 then 2 else if n > 8 then 8 else n
  }

  /**
   Two passes over the plans in the order of their scores. The result has exactly as many plans as asked for, or as
   there are different ones; no two are alike; the ranks are consecutive; and the best plan comes first. The
   first part is exactly what a pass with a cap per subset takes, and the rest exactly what is then added to fill up.
   */
  method SelectFinalists(feasible: seq<Plan>, finalistCount: nat, perSubset: nat)
    returns (plans: seq<Plan>, fs: seq<Finalist>, ghost firstPass: nat)
    ensures Ranked(plans) && multiset(plans) == multiset(feasible)
    ensures |fs| == Min(Max(finalistCount, 1), |Signatures(plans)|)
    ensures DifferentPlans(fs) && Placed(plans, fs) && firstPass <= |fs|
    ensures Ascending(fs[..firstPass], 0, |plans|) && Ascending(fs[firstPass..], 0, |plans|)
    ensures var (k, cap) := Shares(finalistCount, perSubset);
            && Capped(fs[..firstPass], cap)
            && CappedUpTo(plans, k, cap, fs[..firstPass], |plans|)
            && FilledUpTo(plans, k, fs[..firstPass], fs[firstPass..], |plans|)
    ensures plans != [] ==> fs != [] && fs[0].plan == plans[0] && forall i | 0 <= i < |plans| :: fs[0].plan.score <= plans[i].score
  {
    plans := RankPlans(feasible);
    var (k, cap) := Shares(finalistCount, perSubset);
    hide PlanLe, Capped, CappedUpTo, FilledUpTo, Chosen, Signatures, Ascending;
    var first := CappedPass(plans, k, cap);
    firstPass := |first|;
    fs := first;
    ghost var rest: seq<Finalist> := [];
    if |first| < k {
      fs, rest := FillPass(plans, k, first);
    } else {
      NothingFilled(plans, k, first);
      FullFill(plans, k, first, [], 0);
      assert first + [] == first;
    }
    assert fs[..firstPass] == first && fs[firstPass..] == rest;
    ChosenSize(fs);
    ChosenFrom(plans, fs);
    SubsetSize(Chosen(fs), Signatures(plans));
    if plans != [] {
      assert fs[0] == first[0];
      BestFirst(plans);
    }
  }

  /** How many finalists there are to be, and how many of them one subset may have at first. */
  function Shares(finalistCount: nat, perSubset: nat): (r: (nat, nat))
    ensures 1 <= r.1 <= r.0
  {
    var k := Max(finalistCount, 1);
    (k, Max(Min(PerSubset(perSubset, finalistCount), k), 1))
  }

  lemma {:induction false} BestFirst(plans: seq<Plan>)
    requires Ranked(plans) && plans != []
    ensures forall i | 0 <= i < |plans| :: plans[0].score <= plans[i].score
  {
    forall i | 0 < i < |plans| ensures plans[0].score <= plans[i].score {
      assert PlanLe(plans[0], plans[i]);
    }
  }
}
