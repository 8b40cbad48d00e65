/** What acceptance by the validator guarantees, in every order that respects the dependencies. */
module ScheduleSafety {
  import opened Prelude
  import opened DependencyGraphs
  import opened TopologicalSort
  import opened ScheduleValidator

  predicate Releases(cat: Catalog, n: Name, t: Name) {
    n in cat && cat[n].opcode.Release? && t in cat[n].inputs
  }

  predicate ComputeReads(cat: Catalog, n: Name, t: Name) {
    n in cat && cat[n].opcode.Compute? && t in cat[n].inputs
  }

  /** In an accepted schedule, every reader of a released tensor comes before the release, in every linear extension. */
  lemma {:induction false} NothingReadsAfterRelease(
    instrs: seq<Instruction>, m: Completions, ord: seq<Name>, n: Name, t: Name, c: Name)
    requires Accepted(instrs, m)
    requires var cat := ByName(instrs); Linear(GraphOf(cat), ord) && Releases(cat, n, t) && Reads(cat, c, t) && c != n
    ensures Precedes(ord, c, n) && !Precedes(ord, n, c)
  {
    var cat := ByName(instrs);
    hide ByName, WellFormed, Acyclic, KnowsDeps, UniqueNames, Ancestor;
    assert OrderOk(cat, m, n);
    AncestorsPrecede(GraphOf(cat), ord, n, c);
    NoReturn(ord, c, n);
  }

  /** In an accepted schedule, no tensor is released by two instructions. */
  lemma {:induction false} ReleasedOnce(instrs: seq<Instruction>, m: Completions, n: Name, n': Name, t: Name)
    requires Accepted(instrs, m)
    requires Releases(ByName(instrs), n, t) && Releases(ByName(instrs), n', t)
    ensures n == n'
  {
    if n != n' {
      var cat := ByName(instrs);
      var ord :| Linear(GraphOf(cat), ord);
      NothingReadsAfterRelease(instrs, m, ord, n, t, n');
      NothingReadsAfterRelease(instrs, m, ord, n', t, n);
    }
  }

  /**
   The release check asks for no more than it must: for an acyclic schedule it passes iff every
   linear extension puts all other readers of the released tensors before the release.
   */
  lemma {:induction false} ReleaseCheckIsExact(cat: Catalog, n: Name)
    requires Acyclic(GraphOf(cat)) && n in cat
    ensures ReleaseOk(cat, n) <==>
            forall ord, t, c | Linear(GraphOf(cat), ord) && t in cat[n].inputs && Reads(cat, c, t) && c != n :: Precedes(ord, c, n)
  {
    var g := GraphOf(cat);
    hide Ancestor, Acyclic, Linear, Precedes;
    forall t, c | t in cat[n].inputs && Reads(cat, c, t) && c != n
      ensures Ancestor(g, n, c) <==> forall ord | Linear(g, ord) :: Precedes(ord, c, n)
    {
      AncestorIffAlwaysBefore(g, n, c);
    }
  }

  /** Some completion of `t` on `r` stands before `n` in every linear extension. */
  ghost predicate CompletedBefore(cat: Catalog, n: Name, t: Name, r: Name) {
    exists c :: Completes(cat, c, t, r) && forall ord | Linear(GraphOf(cat), ord) :: Precedes(ord, c, n)
  }

  /**
   In an accepted schedule, whatever order the maps were visited in, a computation that reads a tensor
   on its resource has a completion of that tensor there before it in every linear extension iff the
   schedule has any completion of it there.
   */
  lemma {:induction false} CompletionPrecedesIffAny(instrs: seq<Instruction>, m: Completions, n: Name, t: Name)
    requires Accepted(instrs, m) && CompletionChoice(ByName(instrs), m) && ComputeReads(ByName(instrs), n, t)
    ensures var cat := ByName(instrs);
            CompletedBefore(cat, n, t, cat[n].resource) <==> exists c :: Completes(cat, c, t, cat[n].resource)
  {
    var cat := ByName(instrs);
    var r := cat[n].resource;
    hide ByName, WellFormed, KnowsDeps, UniqueNames, Ancestor, Acyclic;
    if c :| Completes(cat, c, t, r) {
      assert (t, r) in m;
      assert OrderOk(cat, m, n) && ReadOk(cat, m, n, t);
      var chosen := m[(t, r)];
      assert Completes(cat, chosen, t, r);
      forall ord | Linear(GraphOf(cat), ord) ensures Precedes(ord, chosen, n) {
        AncestorsPrecede(GraphOf(cat), ord, n, chosen);
      }
    }
  }

  /**
   A tensor that some computation produces, but no computation or load leaves on `r`, is brought to `r` by a
   transfer. It is completed before every computation that reads it there iff some wait on `r`
   lists it or some transfer to `r` carries it; naming it among the inputs of a transfer with other outputs is not enough.
   */
  lemma {:induction false} RemoteReads(instrs: seq<Instruction>, m: Completions, n: Name, t: Name)
    requires Accepted(instrs, m) && CompletionChoice(ByName(instrs), m) && ComputeReads(ByName(instrs), n, t)
    requires var cat := ByName(instrs);
             && (exists p :: ActivationProducer(cat, p, t))
             && (forall p | LocalProducer(cat, p, t, cat[n].resource) :: cat[p].opcode.Transfer?)
    ensures var (cat, r) := (ByName(instrs), ByName(instrs)[n].resource);
            && (exists p :: p in cat && cat[p].opcode.Transfer? && cat[p].destination == Some(r) && t in cat[p].outputs + cat[p].inputs)
            && (CompletedBefore(cat, n, t, r) <==>
                  || (exists p :: p in cat && cat[p].opcode.WaitEvent? && cat[p].resource == r && t in cat[p].inputs)
                  || (exists p :: p in cat && cat[p].opcode.Transfer? && cat[p].destination == Some(r) && t in Carried(cat[p])))
  {
    var cat := ByName(instrs);
    var r := cat[n].resource;
    CompletionPrecedesIffAny(instrs, m, n, t);
    assert OrderOk(cat, m, n) && ReadOk(cat, m, n, t);
    var p :| LocalProducer(cat, p, t, r);
    assert p in cat && cat[p].opcode.Transfer? && cat[p].destination == Some(r) && t in cat[p].outputs + cat[p].inputs;
    CompletionKinds(instrs, m, n, t);
  }

  lemma {:induction false} CompletionKinds(instrs: seq<Instruction>, m: Completions, n: Name, t: Name)
    requires Accepted(instrs, m) && ComputeReads(ByName(instrs), n, t)
    ensures var (cat, r) := (ByName(instrs), ByName(instrs)[n].resource);
            (exists c :: Completes(cat, c, t, r)) <==>
            || (exists p :: p in cat && cat[p].opcode.WaitEvent? && cat[p].resource == r && t in cat[p].inputs)
            || (exists p :: p in cat && cat[p].opcode.Transfer? && cat[p].destination == Some(r) && t in Carried(cat[p]))
  {
    var cat := ByName(instrs);
    var r := cat[n].resource;
    ByNameFacts(instrs);
    hide ByName, Acyclic, KnowsDeps, UniqueNames, OrderOk, ReadOk;
    forall c | c in cat ensures WellFormed(cat[c]) {
      var i :| 0 <= i < |instrs| && instrs[i] == cat[c];
    }
    if c :| Completes(cat, c, t, r) {
      assert cat[c].opcode.WaitEvent? || cat[c].opcode.Transfer?;
    }
    if p :| p in cat && cat[p].opcode.WaitEvent? && cat[p].resource == r && t in cat[p].inputs {
      assert Completes(cat, p, t, r);
    } else if p :| p in cat && cat[p].opcode.Transfer? && cat[p].destination == Some(r) && t in Carried(cat[p]) {
      assert Completes(cat, p, t, r);
    }
  }

  // ----- A transfer that does not count -----

  lemma {:induction false} ThreeByName(a: Instruction, b: Instruction, c: Instruction)
    requires a.name != b.name && a.name != c.name && b.name != c.name
    ensures ByName([a, b, c]) == map[a.name := a, b.name := b, c.name := c]
  {
    assert [a, b, c][..2] == [a, b] && [a, b][..1] == [a] && [a][..0] == [];
    assert ByName([a]) == map[a.name := a];
    assert ByName([a, b]) == map[a.name := a, b.name := b];
  }

  lemma {:induction false} NoEdgesIsLinear(g: Graph, ord: seq<Name>)
    requires Distinct(ord) && (forall n :: n in ord <==> n in g) && forall n | n in g :: g[n] == []
    ensures Linear(g, ord)
  {
  }

  /** A producer on one resource, a transfer of another tensor that merely lists the first one, and a reader on the other resource. */
  ghost predicate LooseTransfer(a: Instruction, b: Instruction, c: Instruction) {
    && a == Instruction(1, Compute, 11, [], [], [21], Some(31), None, None, Some(41), None, None, None)
    && b == Instruction(2, Transfer, 12, [], [21], [22], None, Some(11), Some(12), Some(41), Some(42), Some(43), None)
    && c == Instruction(3, Compute, 12, [], [21], [], Some(31), None, None, Some(41), None, None, None)
  }

  lemma {:induction false} LooseAccepted(a: Instruction, b: Instruction, c: Instruction, cat: Catalog, m: Completions)
    requires LooseTransfer(a, b, c) && cat == map[1 := a, 2 := b, 3 := c] && m == map[(22, 12) := 2]
    ensures CompletionChoice(cat, m) && forall n | n in cat :: OrderOk(cat, m, n)
  {
    hide Ancestor;
    assert CompletedTensors(b) == [22];
    assert forall n, t, r | Completes(cat, n, t, r) :: n == 2 && t == 22 && r == 12;
    assert LocalProducer(cat, 2, 21, 12);
    assert ReadOk(cat, m, 3, 21);
  }

  /**
   The validator accepts schedules in which a computation can run before any transfer or wait brings its
   input: the transfer lists the tensor among its inputs, which makes it a producer there but not a completion.
   */
  lemma {:induction false} TransferMayComeTooLate() returns (instrs: seq<Instruction>, m: Completions, ord: seq<Name>)
    ensures var cat := ByName(instrs);
            && Accepted(instrs, m) && CompletionChoice(cat, m) && Linear(GraphOf(cat), ord)
            && ComputeReads(cat, 3, 21) && ActivationProducer(cat, 1, 21)
            && (forall p | LocalProducer(cat, p, 21, cat[3].resource) :: cat[p].opcode.Transfer?)
            && forall c :: !Precedes(ord, c, 3)
  {
    var a := Instruction(1, Compute, 11, [], [], [21], Some(31), None, None, Some(41), None, None, None);
    var b := Instruction(2, Transfer, 12, [], [21], [22], None, Some(11), Some(12), Some(41), Some(42), Some(43), None);
    var c := Instruction(3, Compute, 12, [], [21], [], Some(31), None, None, Some(41), None, None, None);
    instrs, m, ord := [a, b, c], map[(22, 12) := 2], [3, 1, 2];
    ThreeByName(a, b, c);
    hide ByName;
    var cat := ByName(instrs);
    LooseAccepted(a, b, c, cat, m);
    hide OrderOk, CompletionChoice;
    NoEdgesIsLinear(GraphOf(cat), ord);
  }
}
