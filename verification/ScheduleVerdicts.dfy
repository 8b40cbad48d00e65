/**
 Whether the validator's verdict depends on the order in which it visits the instructions.

 A read is checked against one completion of its tensor, the first one visited, so the verdict
 may depend on the order. This module says exactly when it does.
 */
module ScheduleVerdicts {
  import opened Prelude
  import opened DependencyGraphs
  import opened TopologicalSort
  import opened ScheduleValidator
  import opened ScheduleSafety

  // ----- The completion check by itself -----

  ghost predicate Completed(cat: Catalog, t: Name, r: Name) {
    exists c :: Completes(cat, c, t, r)
  }

  /** The read of `t` by `n` is checked against a completion of `t` on `r`: on its own resource, or on the unnamed one if there is none there. */
  ghost predicate CheckedAgainst(cat: Catalog, n: Name, t: Name, r: Name) {
    && ComputeReads(cat, n, t) && Completed(cat, t, r)
    && (r == cat[n].resource || (r == EMPTY_NAME && !Completed(cat, t, cat[n].resource)))
  }

  /** The completion is an ancestor of every read that is checked against this tensor and resource. */
  ghost predicate Suits(cat: Catalog, c: Name, t: Name, r: Name) {
    forall n | CheckedAgainst(cat, n, t, r) :: Ancestor(GraphOf(cat), n, c)
  }

  ghost predicate ProducedHere(cat: Catalog, n: Name, t: Name)
    requires n in cat
  {
    (exists p :: ActivationProducer(cat, p, t)) ==> exists p :: LocalProducer(cat, p, t, cat[n].resource)
  }

  ghost predicate OtherOrderOk(cat: Catalog, n: Name)
    requires n in cat
  {
    match cat[n].opcode
    case WaitEvent => WaitOk(cat, cat[n])
    case Release => ReleaseOk(cat, n)
    case Compute => forall t | t in cat[n].inputs :: ProducedHere(cat, n, t)
    case _ => true
  }

  /** Every check passes except perhaps that reads depend on their completions. */
  ghost predicate OtherChecksPass(instrs: seq<Instruction>) {
    var cat := ByName(instrs);
    && UniqueNames(instrs)
    && (forall i | 0 <= i < |instrs| :: KnowsDeps(cat, instrs[i]) && WellFormed(instrs[i]))
    && Acyclic(GraphOf(cat))
    && (forall n | n in cat :: OtherOrderOk(cat, n))
  }

  /** Every completion that was chosen suits the reads checked against it. */
  ghost predicate AllSuit(cat: Catalog, m: Completions) {
    forall p | p in m :: Suits(cat, m[p], p.0, p.1)
  }

  lemma {:induction false} ChosenIffCompleted(cat: Catalog, m: Completions, t: Name, r: Name)
    requires CompletionChoice(cat, m)
    ensures (t, r) in m <==> Completed(cat, t, r)
  {
    hide Completes;
    if (t, r) in m {
      assert Completes(cat, m[(t, r)], t, r);
    }
  }

  lemma {:induction false} ReadByKeys(cat: Catalog, m: Completions, n: Name, t: Name)
    requires CompletionChoice(cat, m) && ComputeReads(cat, n, t)
    ensures forall r | CheckedAgainst(cat, n, t, r) :: (t, r) in m
    ensures ReadOk(cat, m, n, t) <==>
            ProducedHere(cat, n, t) && forall r | CheckedAgainst(cat, n, t, r) :: Ancestor(GraphOf(cat), n, m[(t, r)])
  {
    hide Ancestor, LocalProducer, ActivationProducer, CompletionChoice, Completed;
    var r := cat[n].resource;
    ChosenIffCompleted(cat, m, t, r);
    ChosenIffCompleted(cat, m, t, EMPTY_NAME);
    assert forall q | CheckedAgainst(cat, n, t, q) :: q == r || q == EMPTY_NAME;
  }

  lemma {:induction false} OrderByKeys(cat: Catalog, m: Completions, n: Name)
    requires CompletionChoice(cat, m) && n in cat && AllSuit(cat, m)
    ensures OrderOk(cat, m, n) <==> OtherOrderOk(cat, n)
  {
    hide Ancestor, WaitOk, ReleaseOk, ProducedHere, ReadOk, CompletionChoice;
    if cat[n].opcode.Compute? {
      forall t | t in cat[n].inputs ensures ReadOk(cat, m, n, t) <==> ProducedHere(cat, n, t) {
        ReadByKeys(cat, m, n, t);
        forall r | CheckedAgainst(cat, n, t, r) ensures Ancestor(GraphOf(cat), n, m[(t, r)]) {
          assert Suits(cat, m[(t, r)], t, r);
        }
      }
    }
  }

  lemma {:induction false} OrderNeedsOthers(cat: Catalog, m: Completions, n: Name)
    requires CompletionChoice(cat, m) && n in cat && OrderOk(cat, m, n)
    ensures OtherOrderOk(cat, n)
  {
    hide Ancestor, WaitOk, ReleaseOk, CompletionChoice, ProducedHere;
    if cat[n].opcode.Compute? {
      forall t | t in cat[n].inputs ensures ProducedHere(cat, n, t) {
        assert ReadOk(cat, m, n, t);
        ReadByKeys(cat, m, n, t);
      }
    }
  }

  lemma {:induction false} OrderNeedsSuiting(cat: Catalog, m: Completions, t: Name, r: Name)
    requires CompletionChoice(cat, m) && (t, r) in m && forall n | n in cat :: OrderOk(cat, m, n)
    ensures Suits(cat, m[(t, r)], t, r)
  {
    hide Ancestor, CompletionChoice;
    forall n | CheckedAgainst(cat, n, t, r) ensures Ancestor(GraphOf(cat), n, m[(t, r)]) {
      assert OrderOk(cat, m, n) && ReadOk(cat, m, n, t);
      ReadByKeys(cat, m, n, t);
    }
  }

  /** A schedule is accepted iff the other checks pass and every chosen completion suits. */
  lemma {:induction false} AcceptedByKeys(instrs: seq<Instruction>, m: Completions)
    requires CompletionChoice(ByName(instrs), m)
    ensures Accepted(instrs, m) <==> OtherChecksPass(instrs) && AllSuit(ByName(instrs), m)
  {
    var cat := ByName(instrs);
    hide ByName, UniqueNames, KnowsDeps, WellFormed, Acyclic, OrderOk, OtherOrderOk, Suits, CompletionChoice;
    if forall n | n in cat :: OrderOk(cat, m, n) {
      forall n | n in cat ensures OtherOrderOk(cat, n) {
        OrderNeedsOthers(cat, m, n);
      }
      forall p | p in m ensures Suits(cat, m[p], p.0, p.1) {
        assert (p.0, p.1) == p;
        OrderNeedsSuiting(cat, m, p.0, p.1);
      }
    } else if AllSuit(cat, m) {
      var n :| n in cat && !OrderOk(cat, m, n);
      OrderByKeys(cat, m, n);
    }
  }

  // ----- Choices made key by key -----

  /** Every tensor and resource that has a completion has one that suits. */
  ghost predicate EachKeyCanPass(cat: Catalog) {
    forall t, r | Completed(cat, t, r) :: HasSuiting(cat, t, r)
  }

  ghost predicate HasSuiting(cat: Catalog, t: Name, r: Name) {
    exists c :: Completes(cat, c, t, r) && Suits(cat, c, t, r)
  }

  /** Some read has a possible completion that is not its ancestor. */
  ghost predicate SomeMayFail(cat: Catalog) {
    exists n, t, r, c :: CheckedAgainst(cat, n, t, r) && Completes(cat, c, t, r) && !Ancestor(GraphOf(cat), n, c)
  }

  /** All tensors and resources that have a completion. */
  ghost function Keys(cat: Catalog): set<(Name, Name)> {
    set n, t | n in cat && t in CompletedTensors(cat[n]) :: (t, CompletedAt(cat[n]))
  }

  lemma {:induction false} KeysAreCompleted(cat: Catalog)
    ensures forall p :: p in Keys(cat) <==> Completed(cat, p.0, p.1)
  {
    forall p ensures p in Keys(cat) <==> Completed(cat, p.0, p.1) {
      if p in Keys(cat) {
        var n, t :| n in cat && t in CompletedTensors(cat[n]) && (t, CompletedAt(cat[n])) == p;
        assert Completes(cat, n, p.0, p.1);
      }
      if Completed(cat, p.0, p.1) {
        var c :| Completes(cat, c, p.0, p.1);
        assert (p.0, CompletedAt(cat[c])) in Keys(cat);
      }
    }
  }

  /** A choice that suits every read, if each key has one. */
  lemma {:induction false} GoodChoice(cat: Catalog) returns (m: Completions)
    requires EachKeyCanPass(cat)
    ensures CompletionChoice(cat, m) && AllSuit(cat, m)
  {
    KeysAreCompleted(cat);
    hide Keys, Suits, Completes;
    assert forall p | p in Keys(cat) :: HasSuiting(cat, p.0, p.1);
    m := map p | p in Keys(cat) :: var c :| Completes(cat, c, p.0, p.1) && Suits(cat, c, p.0, p.1); c;
    forall n, t, r | Completes(cat, n, t, r) ensures (t, r) in m {
      assert Completed(cat, t, r);
    }
  }

  lemma {:induction false} FailingKey(cat: Catalog) returns (t: Name, r: Name, c: Name)
    requires SomeMayFail(cat)
    ensures Completes(cat, c, t, r) && !Suits(cat, c, t, r)
  {
    hide Ancestor, Completes;
    var n;
    n, t, r, c :| CheckedAgainst(cat, n, t, r) && Completes(cat, c, t, r) && !Ancestor(GraphOf(cat), n, c);
  }

  lemma {:induction false} UnsuitingMayFail(cat: Catalog, t: Name, r: Name, c: Name)
    requires Completes(cat, c, t, r) && !Suits(cat, c, t, r)
    ensures SomeMayFail(cat)
  {
    hide Ancestor, Completes;
    var n :| CheckedAgainst(cat, n, t, r) && !Ancestor(GraphOf(cat), n, c);
  }

  /** Two ways of choosing completions give different verdicts. */
  ghost predicate ChoicesDiffer(instrs: seq<Instruction>) {
    exists m, m' :: CompletionChoice(ByName(instrs), m) && CompletionChoice(ByName(instrs), m') && Accepted(instrs, m) && !Accepted(instrs, m')
  }

  lemma {:induction false} AcceptedHasSuiting(instrs: seq<Instruction>, m: Completions)
    requires CompletionChoice(ByName(instrs), m) && Accepted(instrs, m)
    ensures EachKeyCanPass(ByName(instrs))
  {
    var cat := ByName(instrs);
    AcceptedByKeys(instrs, m);
    hide ByName, Accepted, Suits, Completes, OtherChecksPass;
    forall t, r | Completed(cat, t, r) ensures HasSuiting(cat, t, r) {
      ChosenIffCompleted(cat, m, t, r);
      assert Completes(cat, m[(t, r)], t, r) && Suits(cat, m[(t, r)], t, r);
    }
  }

  lemma {:induction false} RejectedHasFailing(instrs: seq<Instruction>, m: Completions)
    requires CompletionChoice(ByName(instrs), m) && !Accepted(instrs, m) && OtherChecksPass(instrs)
    ensures SomeMayFail(ByName(instrs))
  {
    var cat := ByName(instrs);
    AcceptedByKeys(instrs, m);
    hide ByName, Accepted, Suits, Completes, OtherChecksPass;
    var p :| p in m && !Suits(cat, m[p], p.0, p.1);
    UnsuitingMayFail(cat, p.0, p.1, m[p]);
  }

  /**
   If completions could be chosen separately for each tensor and resource, verdicts would differ exactly when
   every other check passes, each tensor and resource with a completion has one that is an ancestor of
   all reads checked against it, and some read has a possible completion that is not its ancestor.
   */
  lemma {:induction false} ChoicesDifferIff(instrs: seq<Instruction>)
    ensures ChoicesDiffer(instrs) <==>
            OtherChecksPass(instrs) && EachKeyCanPass(ByName(instrs)) && SomeMayFail(ByName(instrs))
  {
    var cat := ByName(instrs);
    hide ByName, Accepted, OtherChecksPass, EachKeyCanPass, SomeMayFail, CompletionChoice;
    if ChoicesDiffer(instrs) {
      var m, m' :| CompletionChoice(cat, m) && CompletionChoice(cat, m') && Accepted(instrs, m) && !Accepted(instrs, m');
      AcceptedByKeys(instrs, m);
      AcceptedHasSuiting(instrs, m);
      RejectedHasFailing(instrs, m');
    }
    if OtherChecksPass(instrs) && EachKeyCanPass(cat) && SomeMayFail(cat) {
      var m := GoodChoice(cat);
      var t, r, c := FailingKey(cat);
      var m' := SpoiledChoice(cat, m, t, r, c);
      AcceptedByKeys(instrs, m);
      AcceptedByKeys(instrs, m');
    }
  }

  lemma {:induction false} SpoiledChoice(cat: Catalog, m: Completions, t: Name, r: Name, c: Name) returns (m': Completions)
    requires CompletionChoice(cat, m) && Completes(cat, c, t, r) && !Suits(cat, c, t, r)
    ensures CompletionChoice(cat, m') && !AllSuit(cat, m')
  {
    hide Completes, Suits;
    m' := m[(t, r) := c];
    assert m'[(t, r)] == c;
  }

  // ----- Choices made by one visiting order -----

  /** The instruction completes a tensor for which it does not suit, and only members of the set complete it. */
  ghost predicate Spoils(cat: Catalog, s: set<Name>, x: Name, t: Name, r: Name) {
    Completes(cat, x, t, r) && !Suits(cat, x, t, r) && forall c | Completes(cat, c, t, r) :: c in s
  }

  ghost predicate Spoiler(cat: Catalog, s: set<Name>, x: Name) {
    exists t, r :: Spoils(cat, s, x, t, r)
  }

  /** Whichever member of the set is visited first spoils a read. */
  ghost predicate Blocked(cat: Catalog, s: set<Name>) {
    s != {} && s <= cat.Keys && forall x | x in s :: Spoiler(cat, s, x)
  }

  ghost predicate SomeBlocked(cat: Catalog) {
    exists s :: Blocked(cat, s)
  }

  /** The choices of one visit of the catalog. */
  ghost predicate Visit(cat: Catalog, ord: seq<Name>, m: Completions) {
    VisitingOrder(cat, ord) && CompletionChoice(cat, m) && FirstWins(cat, ord, m)
  }

  /** Each instruction suits where it is the first to complete. */
  ghost predicate SafeOrder(cat: Catalog, ord: seq<Name>) {
    forall i, t, r | FirstAt(cat, ord, i, t, r) :: Suits(cat, ord[i], t, r)
  }

  lemma {:induction false} SafeStep(cat: Catalog, ord: seq<Name>, x: Name)
    requires SafeOrder(cat, ord) && !Spoiler(cat, cat.Keys - Members(ord), x)
    ensures SafeOrder(cat, ord + [x])
  {
    hide Suits;
    var more := ord + [x];
    assert forall j | 0 <= j < |ord| :: more[j] == ord[j];
    forall i, t, r | FirstAt(cat, more, i, t, r) ensures Suits(cat, more[i], t, r) {
      if i < |ord| {
        assert FirstAt(cat, ord, i, t, r);
      } else {
        forall c | Completes(cat, c, t, r) ensures c in cat.Keys - Members(ord) {
          assert c !in ord;
        }
        assert Suits(cat, x, t, r) || Spoils(cat, cat.Keys - Members(ord), x, t, r);
      }
    }
  }

  lemma {:induction false} NotBlocked(cat: Catalog, s: set<Name>) returns (x: Name)
    requires !SomeBlocked(cat) && s != {} && s <= cat.Keys
    ensures x in s && !Spoiler(cat, s, x)
  {
    hide Spoiler;
    assert !Blocked(cat, s);
    x :| x in s && !Spoiler(cat, s, x);
  }

  lemma {:induction false} NothingLeft<T>(s: set<T>, t: set<T>)
    requires s - t == {}
    ensures s <= t
  {
    forall x | x in s ensures x in t {
      assert x in t || x in s - t;
    }
  }

  /** Without a blocked set, there is always a harmless instruction to visit next. */
  lemma {:induction false} ExtendSafely(cat: Catalog, ord: seq<Name>) returns (full: seq<Name>)
    requires !SomeBlocked(cat) && Distinct(ord) && Members(ord) <= cat.Keys && SafeOrder(cat, ord)
    ensures VisitingOrder(cat, full) && SafeOrder(cat, full)
    decreases |cat.Keys - Members(ord)|
  {
    hide SafeOrder, SomeBlocked, Spoiler;
    var left := cat.Keys - Members(ord);
    if left == {} {
      full := ord;
      NothingLeft(cat.Keys, Members(ord));
      assert forall n :: n in ord <==> n in Members(ord);
    } else {
      var x := NotBlocked(cat, left);
      SafeStep(cat, ord, x);
      assert Members(ord + [x]) == Members(ord) + {x};
      assert x !in ord;
      assert cat.Keys - Members(ord + [x]) == left - {x};
      full := ExtendSafely(cat, ord + [x]);
    }
  }

  /** Every order leads to some choice. */
  lemma {:induction false} VisitExists(cat: Catalog, ord: seq<Name>) returns (m: Completions)
    requires VisitingOrder(cat, ord)
    ensures Visit(cat, ord, m)
  {
    KeysAreCompleted(cat);
    forall p | p in Keys(cat) ensures HasFirst(cat, ord, p.0, p.1) {
      FirstExists(cat, ord, p.0, p.1);
    }
    hide Keys, Completes, FirstAt, HasFirst;
    m := map p | p in Keys(cat) :: FirstName(cat, ord, p.0, p.1);
    forall n, t, r | Completes(cat, n, t, r) ensures (t, r) in m {
      assert Completed(cat, t, r);
    }
    hide Completed, FirstName;
    forall p | p in m ensures exists i :: FirstAt(cat, ord, i, p.0, p.1) && ord[i] == m[p] {
      var i := FirstNameStands(cat, ord, p.0, p.1);
    }
    FirstsComplete(cat, ord, m);
  }

  ghost function FirstName(cat: Catalog, ord: seq<Name>, t: Name, r: Name): Name
    requires HasFirst(cat, ord, t, r)
  {
    var i :| FirstAt(cat, ord, i, t, r);
    ord[i]
  }

  lemma {:induction false} FirstNameStands(cat: Catalog, ord: seq<Name>, t: Name, r: Name) returns (i: int)
    requires HasFirst(cat, ord, t, r)
    ensures FirstAt(cat, ord, i, t, r) && ord[i] == FirstName(cat, ord, t, r)
  {
    hide Completes;
    i :| FirstAt(cat, ord, i, t, r) && ord[i] == FirstName(cat, ord, t, r);
  }

  lemma {:induction false} FirstsComplete(cat: Catalog, ord: seq<Name>, m: Completions)
    requires FirstWins(cat, ord, m)
    ensures forall p | p in m :: Completes(cat, m[p], p.0, p.1)
  {
    hide Completes;
  }

  ghost predicate HasFirst(cat: Catalog, ord: seq<Name>, t: Name, r: Name) {
    exists i :: FirstAt(cat, ord, i, t, r)
  }

  lemma {:induction false} FirstExists(cat: Catalog, ord: seq<Name>, t: Name, r: Name)
    requires VisitingOrder(cat, ord) && Completed(cat, t, r)
    ensures HasFirst(cat, ord, t, r)
  {
    var c :| Completes(cat, c, t, r);
    assert c in ord;
    var i :| 0 <= i < |ord| && ord[i] == c;
    FirstUpTo(cat, ord, t, r, i);
  }

  lemma {:induction false} FirstUpTo(cat: Catalog, ord: seq<Name>, t: Name, r: Name, i: nat)
    requires i < |ord| && Completes(cat, ord[i], t, r)
    ensures HasFirst(cat, ord, t, r)
  {
    hide Completes;
    if j :| 0 <= j < i && Completes(cat, ord[j], t, r) {
      FirstUpTo(cat, ord, t, r, j);
    } else {
      assert FirstAt(cat, ord, i, t, r);
    }
  }

  lemma {:induction false} FirstIsUnique(cat: Catalog, ord: seq<Name>, i: int, j: int, t: Name, r: Name)
    requires FirstAt(cat, ord, i, t, r) && FirstAt(cat, ord, j, t, r)
    ensures i == j
  {
  }

  /** The choices of a visit suit iff the order is safe. */
  lemma {:induction false} VisitSuitsIffSafe(cat: Catalog, ord: seq<Name>, m: Completions)
    requires Visit(cat, ord, m)
    ensures AllSuit(cat, m) <==> SafeOrder(cat, ord)
  {
    hide Suits, Completes, VisitingOrder;
    if AllSuit(cat, m) {
      forall i, t, r | FirstAt(cat, ord, i, t, r) ensures Suits(cat, ord[i], t, r) {
        assert (t, r) in m;
        var j :| FirstAt(cat, ord, j, t, r) && ord[j] == m[(t, r)];
        FirstIsUnique(cat, ord, i, j, t, r);
      }
    }
    if SafeOrder(cat, ord) {
      forall p | p in m ensures Suits(cat, m[p], p.0, p.1) {
        var i :| FirstAt(cat, ord, i, p.0, p.1) && ord[i] == m[p];
      }
    }
  }

  /** In a safe order the first member of a set is not blocked. */
  lemma {:induction false} SafeIsNotBlocked(cat: Catalog, ord: seq<Name>, s: set<Name>)
    requires VisitingOrder(cat, ord) && SafeOrder(cat, ord)
    ensures !Blocked(cat, s)
  {
    hide Spoiler, SafeOrder;
    if Blocked(cat, s) {
      var x := FirstOf(s);
      hide Blocked;
      assert x in ord;
      var i :| 0 <= i < |ord| && ord[i] == x;
      var j := FirstMember(ord, s, i);
      BlockedFirst(cat, ord, s, j);
    }
  }

  lemma {:induction false} FirstMember(ord: seq<Name>, s: set<Name>, i: nat) returns (j: nat)
    requires i < |ord| && ord[i] in s
    ensures j < |ord| && ord[j] in s && forall l | 0 <= l < j :: ord[l] !in s
  {
    if l :| 0 <= l < i && ord[l] in s {
      j := FirstMember(ord, s, l);
    } else {
      j := i;
    }
  }

  lemma {:induction false} BlockedFirst(cat: Catalog, ord: seq<Name>, s: set<Name>, j: nat)
    requires Blocked(cat, s) && j < |ord| && ord[j] in s && forall l | 0 <= l < j :: ord[l] !in s
    ensures !SafeOrder(cat, ord)
  {
    hide Suits, Completes;
    assert Spoiler(cat, s, ord[j]);
    var t, r :| Spoils(cat, s, ord[j], t, r);
    assert FirstAt(cat, ord, j, t, r);
  }

  lemma {:induction false} Enumerate(s: set<Name>) returns (q: seq<Name>)
    ensures Distinct(q) && Members(q) == s
    decreases |s|
  {
    if s == {} {
      q := [];
    } else {
      var x := FirstOf(s);
      var rest := Enumerate(s - {x});
      q := [x] + rest;
      assert x !in rest by { assert x !in Members(rest); }
      assert Members(q) == Members(rest) + {x};
    }
  }

  /** Any completion can be visited first. */
  lemma {:induction false} VisitFirst(cat: Catalog, c: Name, t: Name, r: Name) returns (ord: seq<Name>)
    requires Completes(cat, c, t, r)
    ensures VisitingOrder(cat, ord) && FirstAt(cat, ord, 0, t, r) && ord[0] == c
  {
    var rest := Enumerate(cat.Keys - {c});
    ord := [c] + rest;
    assert c !in rest by { assert c !in Members(rest); }
    forall n ensures n in ord <==> n in cat {
      assert n in rest <==> n in Members(rest);
    }
  }

  /** Two visits of the same schedule give different verdicts. */
  ghost predicate VerdictsDiffer(instrs: seq<Instruction>) {
    exists ord, m, ord', m' :: Visit(ByName(instrs), ord, m) && Visit(ByName(instrs), ord', m') && Accepted(instrs, m) && !Accepted(instrs, m')
  }

  lemma {:induction false} AcceptedIsNotBlocked(instrs: seq<Instruction>, ord: seq<Name>, m: Completions)
    requires Visit(ByName(instrs), ord, m) && Accepted(instrs, m)
    ensures OtherChecksPass(instrs) && !SomeBlocked(ByName(instrs))
  {
    var cat := ByName(instrs);
    AcceptedByKeys(instrs, m);
    VisitSuitsIffSafe(cat, ord, m);
    hide ByName, Accepted, OtherChecksPass, Blocked, SafeOrder;
    forall s ensures !Blocked(cat, s) {
      SafeIsNotBlocked(cat, ord, s);
    }
  }

  /**
   Exactly when the validator can accept a schedule in one run and reject it in another: every other check passes;
   some read has a possible completion that is not its ancestor; and there is no set of instructions of
   which each, were it the first of them to be visited, would become the completion of a read it does not precede.
   */
  lemma {:induction false} VerdictsDifferIff(instrs: seq<Instruction>)
    ensures VerdictsDiffer(instrs) <==>
            OtherChecksPass(instrs) && SomeMayFail(ByName(instrs)) && !SomeBlocked(ByName(instrs))
  {
    var cat := ByName(instrs);
    hide ByName, Accepted, OtherChecksPass, SomeMayFail, SomeBlocked;
    if VerdictsDiffer(instrs) {
      var ord, m, ord', m' :| Visit(cat, ord, m) && Visit(cat, ord', m') && Accepted(instrs, m) && !Accepted(instrs, m');
      AcceptedIsNotBlocked(instrs, ord, m);
      RejectedHasFailing(instrs, m');
    }
    if OtherChecksPass(instrs) && SomeMayFail(cat) && !SomeBlocked(cat) {
      var ord, m := AcceptingVisit(instrs);
      var ord', m' := RejectingVisit(instrs);
    }
  }

  lemma {:induction false} AcceptingVisit(instrs: seq<Instruction>) returns (ord: seq<Name>, m: Completions)
    requires OtherChecksPass(instrs) && !SomeBlocked(ByName(instrs))
    ensures Visit(ByName(instrs), ord, m) && Accepted(instrs, m)
  {
    var cat := ByName(instrs);
    hide ByName, Accepted, OtherChecksPass, SomeBlocked;
    ord := ExtendSafely(cat, []);
    m := VisitExists(cat, ord);
    VisitSuitsIffSafe(cat, ord, m);
    AcceptedByKeys(instrs, m);
  }

  lemma {:induction false} RejectingVisit(instrs: seq<Instruction>) returns (ord: seq<Name>, m: Completions)
    requires SomeMayFail(ByName(instrs))
    ensures Visit(ByName(instrs), ord, m) && !Accepted(instrs, m)
  {
    var cat := ByName(instrs);
    hide ByName, Accepted, OtherChecksPass, SomeMayFail;
    var t, r, c := FailingKey(cat);
    ord := VisitFirst(cat, c, t, r);
    m := VisitExists(cat, ord);
    VisitSuitsIffSafe(cat, ord, m);
    AcceptedByKeys(instrs, m);
  }

  // ----- An example -----

  /** Two transfers that bring the same tensor to the same place, and a reader that waits for the first only. */
  lemma {:induction false} TwinFacts(a: Instruction, b: Instruction, c: Instruction, cat: Catalog)
    requires a == Instruction(1, Transfer, 12, [], [20], [21], None, Some(11), Some(12), Some(41), Some(42), Some(43), None)
    requires b == a.(name := 2)
    requires c == Instruction(3, Compute, 12, [1], [21], [], Some(31), None, None, Some(41), None, None, None)
    requires cat == map[1 := a, 2 := b, 3 := c]
    ensures Linear(GraphOf(cat), [1, 2, 3]) && Ancestor(GraphOf(cat), 3, 1) && !Ancestor(GraphOf(cat), 3, 2)
    ensures CompletionChoice(cat, map[(21, 12) := 1]) && CompletionChoice(cat, map[(21, 12) := 2])
    ensures forall p :: !ActivationProducer(cat, p, 21)
  {
    var g := GraphOf(cat);
    assert g == map[1 := [], 2 := [], 3 := [1]];
    EdgeIsAncestor(g, 3, 1);
    assert Closed(g, {1});
    ClosedHasAncestors(g, 3, {1});
    hide Ancestor, Closed;
    assert Carried(a) == [21] && CompletedTensors(a) == [21];
    assert forall n, t, r | Completes(cat, n, t, r) :: t == 21 && r == 12;
    var ord := [1, 2, 3];
    assert ord[..2] == [1, 2] && 1 in ord[..2];
    forall i | 0 <= i < |ord| ensures DepsBefore(g, ord, i) {
    }
  }

  lemma {:induction false} TwinVerdict(cat: Catalog, m: Completions)
    requires 3 in cat && cat[3].opcode.Compute? && cat[3].resource == 12 && cat[3].inputs == [21] && m.Keys == {(21, 12)}
    requires forall p :: !ActivationProducer(cat, p, 21)
    ensures OrderOk(cat, m, 3) <==> Ancestor(GraphOf(cat), 3, m[(21, 12)])
  {
    hide Ancestor;
    assert OrderOk(cat, m, 3) <==> ReadOk(cat, m, 3, 21);
  }

  lemma {:induction false} TwinVisit(cat: Catalog, ord: seq<Name>, first: Name)
    requires VisitingOrder(cat, ord) && ord != [] && ord[0] == first && Completes(cat, first, 21, 12)
    requires CompletionChoice(cat, map[(21, 12) := first])
    ensures Visit(cat, ord, map[(21, 12) := first])
  {
    hide Completes;
    assert FirstAt(cat, ord, 0, 21, 12);
  }

  /** A schedule that one order of visiting accepts and another rejects. */
  lemma {:induction false} VerdictMayDependOnOrder() returns (instrs: seq<Instruction>)
    ensures VerdictsDiffer(instrs)
  {
    var a := Instruction(1, Transfer, 12, [], [20], [21], None, Some(11), Some(12), Some(41), Some(42), Some(43), None);
    var b := a.(name := 2);
    var c := Instruction(3, Compute, 12, [1], [21], [], Some(31), None, None, Some(41), None, None, None);
    instrs := [a, b, c];
    ThreeByName(a, b, c);
    var cat := ByName(instrs);
    TwinAccepted(a, b, c, instrs, cat);
    TwinFacts(a, b, c, cat);
    hide ByName, Accepted, Ancestor, CompletionChoice, Linear;
    TwinVisit(cat, [1, 2, 3], 1);
    TwinVisit(cat, [2, 1, 3], 2);
  }

  lemma {:induction false} TwinAccepted(a: Instruction, b: Instruction, c: Instruction, instrs: seq<Instruction>, cat: Catalog)
    requires a == Instruction(1, Transfer, 12, [], [20], [21], None, Some(11), Some(12), Some(41), Some(42), Some(43), None)
    requires b == a.(name := 2)
    requires c == Instruction(3, Compute, 12, [1], [21], [], Some(31), None, None, Some(41), None, None, None)
    requires instrs == [a, b, c] && cat == ByName(instrs) == map[1 := a, 2 := b, 3 := c]
    ensures Accepted(instrs, map[(21, 12) := 1]) && !Accepted(instrs, map[(21, 12) := 2])
  {
    hide ByName;
    TwinFacts(a, b, c, cat);
    hide Ancestor, CompletionChoice, Linear;
    var m, m' := map[(21, 12) := 1], map[(21, 12) := 2];
    TwinVerdict(cat, m);
    TwinVerdict(cat, m');
    assert OrderOk(cat, m, 1) && OrderOk(cat, m, 2);
    hide OrderOk;
  }
}
