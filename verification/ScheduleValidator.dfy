/**
 Structural validation of executable schedules.

 Each check is a method that collects errors; its contract says exactly when it finds none.
 Maps are visited in an order that is left open, as that of a hash map is.
 */
module ScheduleValidator {
  import opened Prelude
  import opened DependencyGraphs
  import opened TopologicalSort

  datatype Opcode = Prefetch | Load | Transfer | RecordEvent | WaitEvent | Compute | Evict | Release

  datatype Instruction = Instruction(
    name: Name, opcode: Opcode, resource: Name, dependsOn: seq<Name>, inputs: seq<Name>, outputs: seq<Name>,
    executable: Option<Name>, source: Option<Name>, destination: Option<Name>,
    stream: Option<Name>, copyEngine: Option<Name>, link: Option<Name>, waitsFor: Option<Name>)

  datatype Error =
    | DuplicateName(name: Name)
    | UnknownDependency(name: Name, dependency: Name)
    | MissingEndpoint(name: Name)
    | NoTensors(name: Name)
    | EmptyTensorId(name: Name)
    | MissingResource(name: Name)
    | MissingExecutable(name: Name)
    | MissingStream(name: Name)
    | MissingCopyEngine(name: Name)
    | MissingLink(name: Name)
    | DependencyCycle(names: set<Name>)
    | UnknownEvent(name: Name, event: Name)
    | NotAnEvent(name: Name, event: Name)
    | NeverRecorded(name: Name, event: Name)
    | NoEvent(name: Name)
    | ReleasedBeforeConsumer(name: Name, tensor: Name, consumer: Name)
    | ReadWithoutCompletion(name: Name, tensor: Name, completion: Name)
    | ProducedElsewhere(name: Name, tensor: Name)

  // ----- Names -----

  type Catalog = map<Name, Instruction>

  /** The instructions by name; the first of several with one name counts. */
  function ByName(instrs: seq<Instruction>): Catalog {
    if instrs == [] then map[]
    else
      var cat := ByName(instrs[..|instrs| - 1]);
      var last := instrs[|instrs| - 1];
      if last.name in cat then cat else cat[last.name := last]
  }

  ghost predicate UniqueNames(instrs: seq<Instruction>) {
    forall i, j | 0 <= i < j < |instrs| :: instrs[i].name != instrs[j].name
  }

  function GraphOf(cat: Catalog): Graph {
    map n | n in cat :: cat[n].dependsOn
  }

  lemma {:induction false} ByNameFacts(instrs: seq<Instruction>)
    ensures forall n | n in ByName(instrs) :: ByName(instrs)[n].name == n && ByName(instrs)[n] in instrs
    ensures forall i | 0 <= i < |instrs| :: instrs[i].name in ByName(instrs)
  {
    if instrs != [] {
      var init := instrs[..|instrs| - 1];
      ByNameFacts(init);
      assert forall x | x in init :: x in instrs;
      assert forall i | 0 <= i < |init| :: init[i] == instrs[i];
    }
  }

  lemma {:induction false} RepeatedName(instrs: seq<Instruction>, i: nat)
    requires i < |instrs|
    ensures UniqueNames(instrs[..i + 1]) <==> UniqueNames(instrs[..i]) && instrs[i].name !in ByName(instrs[..i])
  {
    var init := instrs[..i];
    var more := instrs[..i + 1];
    ByNameFacts(init);
    hide ByName;
    assert forall j | 0 <= j < i :: init[j] == more[j];
    if instrs[i].name in ByName(init) {
      var x := ByName(init)[instrs[i].name];
      var j :| 0 <= j < |init| && init[j] == x;
      assert more[j].name == more[i].name;
    } else {
      assert forall j | 0 <= j < i :: more[j].name != more[i].name;
    }
  }

  method IndexByName(instrs: seq<Instruction>) returns (cat: Catalog, errors: seq<Error>)
    ensures cat == ByName(instrs)
    ensures errors == [] <==> UniqueNames(instrs)
  {
    cat, errors := map[], [];
    assert instrs[..0] == [];
    for i := 0 to |instrs|
      invariant cat == ByName(instrs[..i])
      invariant errors == [] <==> UniqueNames(instrs[..i])
    {
      var inst := instrs[i];
      assert instrs[..i + 1][..i] == instrs[..i];
      RepeatedName(instrs, i);
      if inst.name in cat {
        errors := errors + [DuplicateName(inst.name)];
      } else {
        cat := cat[inst.name := inst];
      }
    }
    assert instrs[..|instrs|] == instrs;
  }

  // ----- Each instruction by itself -----

  predicate Given(id: Option<Name>) {
    id.Some? && id.value != EMPTY_NAME
  }

  predicate TensorsNamed(inst: Instruction) {
    EMPTY_NAME !in inst.inputs && EMPTY_NAME !in inst.outputs
  }

  /** What an instruction must carry, by opcode. */
  predicate WellFormed(inst: Instruction) {
    match inst.opcode
    case Transfer =>
      && inst.source.Some? && inst.destination.Some? && (inst.inputs != [] || inst.outputs != []) && TensorsNamed(inst)
      && Given(inst.stream) && Given(inst.copyEngine) && Given(inst.link)
    case Compute => inst.resource != EMPTY_NAME && inst.executable.Some? && TensorsNamed(inst) && Given(inst.stream)
    case Load => (inst.inputs != [] || inst.outputs != []) && TensorsNamed(inst) && Given(inst.stream) && Given(inst.copyEngine)
    case Prefetch => TensorsNamed(inst) && Given(inst.stream) && Given(inst.copyEngine)
    case Evict => inst.inputs != [] && TensorsNamed(inst)
    case Release => inst.inputs != [] && TensorsNamed(inst)
    case RecordEvent => true
    case WaitEvent => true
  }

  predicate KnowsDeps(cat: Catalog, inst: Instruction) {
    forall i | 0 <= i < |inst.dependsOn| :: inst.dependsOn[i] in cat
  }

  method CheckDependencies(cat: Catalog, inst: Instruction) returns (errors: seq<Error>)
    ensures errors == [] <==> KnowsDeps(cat, inst)
  {
    errors := [];
    for i := 0 to |inst.dependsOn|
      invariant errors == [] <==> forall j | 0 <= j < i :: inst.dependsOn[j] in cat
    {
      if inst.dependsOn[i] !in cat {
        errors := errors + [UnknownDependency(inst.name, inst.dependsOn[i])];
      }
    }
  }

  method CheckTensorIds(inst: Instruction) returns (errors: seq<Error>)
    ensures errors == [] <==> TensorsNamed(inst)
  {
    errors := [];
    var tensors := inst.inputs + inst.outputs;
    for i := 0 to |tensors|
      invariant errors == [] <==> forall j | 0 <= j < i :: tensors[j] != EMPTY_NAME
    {
      if tensors[i] == EMPTY_NAME {
        errors := errors + [EmptyTensorId(inst.name)];
      }
    }
    assert EMPTY_NAME in tensors <==> EMPTY_NAME in inst.inputs || EMPTY_NAME in inst.outputs;
  }

  /** The checks of the first match on the opcode. */
  method CheckOperands(inst: Instruction) returns (errors: seq<Error>)
    ensures errors == [] <==>
      match inst.opcode
      case Transfer => inst.source.Some? && inst.destination.Some? && (inst.inputs != [] || inst.outputs != []) && TensorsNamed(inst)
      case Compute => inst.resource != EMPTY_NAME && inst.executable.Some? && TensorsNamed(inst)
      case Load => (inst.inputs != [] || inst.outputs != []) && TensorsNamed(inst)
      case Prefetch => TensorsNamed(inst)
      case Evict => inst.inputs != [] && TensorsNamed(inst)
      case Release => inst.inputs != [] && TensorsNamed(inst)
      case _ => true
  {
    errors := [];
    match inst.opcode {
      case Transfer =>
        if inst.source.None? || inst.destination.None? {
          errors := errors + [MissingEndpoint(inst.name)];
        }
        if inst.inputs == [] && inst.outputs == [] {
          errors := errors + [NoTensors(inst.name)];
        }
        var unnamed := CheckTensorIds(inst);
        errors := errors + unnamed;
      case Compute =>
        if inst.resource == EMPTY_NAME {
          errors := errors + [MissingResource(inst.name)];
        }
        if inst.executable.None? {
          errors := errors + [MissingExecutable(inst.name)];
        }
        var unnamed := CheckTensorIds(inst);
        errors := errors + unnamed;
      case RecordEvent =>
      case WaitEvent =>
      case _ =>
        errors := CheckTensorIds(inst);
        if inst.opcode.Load? && inst.inputs == [] && inst.outputs == [] {
          errors := errors + [NoTensors(inst.name)];
        }
        if inst.opcode.Release? && inst.inputs == [] {
          errors := errors + [NoTensors(inst.name)];
        }
        if inst.opcode.Evict? && inst.inputs == [] {
          errors := errors + [NoTensors(inst.name)];
        }
    }
  }

  method CheckInstruction(inst: Instruction) returns (errors: seq<Error>)
    ensures errors == [] <==> WellFormed(inst)
  {
    errors := CheckOperands(inst);
    if (inst.opcode.Compute? || inst.opcode.Transfer? || inst.opcode.Load? || inst.opcode.Prefetch?) && !Given(inst.stream) {
      errors := errors + [MissingStream(inst.name)];
    }
    if (inst.opcode.Transfer? || inst.opcode.Load? || inst.opcode.Prefetch?) && !Given(inst.copyEngine) {
      errors := errors + [MissingCopyEngine(inst.name)];
    }
    if inst.opcode.Transfer? && !Given(inst.link) {
      errors := errors + [MissingLink(inst.name)];
    }
  }

  ghost function EventsOf(instrs: seq<Instruction>): set<Name> {
    set i | 0 <= i < |instrs| && instrs[i].opcode.RecordEvent? :: instrs[i].name
  }

  /** The second pass: dependencies, operands, and the recorded events. */
  method CheckInstructions(cat: Catalog, instrs: seq<Instruction>) returns (recorded: set<Name>, errors: seq<Error>)
    ensures recorded == EventsOf(instrs)
    ensures errors == [] <==> forall i | 0 <= i < |instrs| :: KnowsDeps(cat, instrs[i]) && WellFormed(instrs[i])
  {
    recorded, errors := {}, [];
    for n := 0 to |instrs|
      invariant recorded == EventsOf(instrs[..n])
      invariant errors == [] <==> forall i | 0 <= i < n :: KnowsDeps(cat, instrs[i]) && WellFormed(instrs[i])
    {
      hide WellFormed, KnowsDeps;
      var unknown := CheckDependencies(cat, instrs[n]);
      if instrs[n].opcode.RecordEvent? {
        recorded := recorded + {instrs[n].name};
      }
      EventsSnoc(instrs, n);
      var malformed := CheckInstruction(instrs[n]);
      errors := errors + unknown + malformed;
    }
    assert instrs[..|instrs|] == instrs;
  }

  lemma {:induction false} EventsSnoc(instrs: seq<Instruction>, n: nat)
    requires n < |instrs|
    ensures EventsOf(instrs[..n + 1]) == EventsOf(instrs[..n]) + (if instrs[n].opcode.RecordEvent? then {instrs[n].name} else {})
  {
    var init, more := instrs[..n], instrs[..n + 1];
    forall x | x in EventsOf(more) && x != instrs[n].name ensures x in EventsOf(init) {
      var i :| 0 <= i < |more| && more[i].opcode.RecordEvent? && more[i].name == x;
      assert init[i] == more[i];
    }
    forall x | x in EventsOf(init) ensures x in EventsOf(more) {
      var i :| 0 <= i < |init| && init[i].opcode.RecordEvent? && init[i].name == x;
      assert init[i] == more[i];
    }
    if instrs[n].opcode.RecordEvent? {
      assert more[n] == instrs[n];
    } else if instrs[n].name in EventsOf(more) {
      var i :| 0 <= i < |more| && more[i].opcode.RecordEvent? && more[i].name == instrs[n].name;
      assert init[i] == more[i];
    }
  }

  // ----- Waits -----

  /** The event a wait names, or else its first dependency if that records one. */
  function EventOf(cat: Catalog, inst: Instruction): Option<Name> {
    if Given(inst.waitsFor) then inst.waitsFor
    else if inst.dependsOn != [] && inst.dependsOn[0] in cat && cat[inst.dependsOn[0]].opcode.RecordEvent? then
      Some(cat[inst.dependsOn[0]].name)
    else None
  }

  /** The wait has an event, and that event is recorded by the instruction of that name. */
  predicate WaitOk(cat: Catalog, inst: Instruction) {
    var event := EventOf(cat, inst);
    Given(event) && event.value in cat && cat[event.value].opcode.RecordEvent?
  }

  method CheckWait(cat: Catalog, recorded: set<Name>, inst: Instruction) returns (errors: seq<Error>)
    requires forall n | n in cat && cat[n].opcode.RecordEvent? :: n in recorded
    requires recorded <= cat.Keys
    ensures errors == [] <==> WaitOk(cat, inst)
  {
    var event := EventOf(cat, inst);
    if !Given(event) {
      return [NoEvent(inst.name)];
    }
    var e := event.value;
    if e !in recorded && e !in cat {
      return [UnknownEvent(inst.name, e)];
    }
    if e in cat {
      if !cat[e].opcode.RecordEvent? {
        return [NotAnEvent(inst.name, e)];
      }
      if e !in recorded {
        return [NeverRecorded(inst.name, e)];
      }
    }
    return [];
  }

  // ----- Who completes a transfer, who reads, who produces -----

  /** The tensors a transfer brings: its outputs, or its inputs if it names no outputs. */
  function Carried(inst: Instruction): seq<Name> {
    if inst.outputs != [] then inst.outputs else inst.inputs
  }

  /** The tensors and the resource for which an instruction counts as completion. */
  function CompletedTensors(inst: Instruction): seq<Name> {
    match inst.opcode
    case WaitEvent => inst.inputs
    case Transfer => Carried(inst)
    case _ => []
  }

  function CompletedAt(inst: Instruction): Name {
    match inst.opcode
    case Transfer => if inst.destination.Some? then inst.destination.value else EMPTY_NAME
    case _ => inst.resource
  }

  predicate Completes(cat: Catalog, n: Name, t: Name, r: Name) {
    n in cat && t in CompletedTensors(cat[n]) && CompletedAt(cat[n]) == r
  }

  type Completions = map<(Name, Name), Name>

  /** One completion for each tensor and resource that has any; which one is open. */
  ghost predicate CompletionChoice(cat: Catalog, m: Completions) {
    && (forall p | p in m :: Completes(cat, m[p], p.0, p.1))
    && (forall n, t, r | Completes(cat, n, t, r) :: (t, r) in m)
  }

  /** The same when only the instructions in `seen` were looked at. */
  ghost predicate ChoiceSoFar(cat: Catalog, m: Completions, seen: set<Name>) {
    && (forall p | p in m :: Completes(cat, m[p], p.0, p.1))
    && (forall n, t, r | n in seen && Completes(cat, n, t, r) :: (t, r) in m)
  }

  /** An order in which the catalog can be visited. */
  ghost predicate VisitingOrder(cat: Catalog, ord: seq<Name>) {
    Distinct(ord) && forall n :: n in ord <==> n in cat
  }

  /** At position `i` of the order stands the first instruction that completes `t` on `r`. */
  ghost predicate FirstAt(cat: Catalog, ord: seq<Name>, i: int, t: Name, r: Name) {
    0 <= i < |ord| && Completes(cat, ord[i], t, r) && forall j | 0 <= j < i :: !Completes(cat, ord[j], t, r)
  }

  /** The completion chosen is always the first one visited. */
  ghost predicate FirstWins(cat: Catalog, ord: seq<Name>, m: Completions) {
    forall p | p in m :: exists i :: FirstAt(cat, ord, i, p.0, p.1) && ord[i] == m[p]
  }

  /** Every choice of `m` stands, and what `m'` has besides is `name`. */
  ghost predicate ExtendedBy(m: Completions, m': Completions, name: Name) {
    (forall p | p in m :: p in m' && m'[p] == m[p]) && (forall p | p in m' && p !in m :: m'[p] == name)
  }

  lemma {:induction false} ExtendOnce(m: Completions, m': Completions, name: Name, p: (Name, Name))
    requires ExtendedBy(m, m', name) && p !in m'
    ensures ExtendedBy(m, m'[p := name], name)
  {
  }

  lemma {:induction false} AddChoice(cat: Catalog, m: Completions, seen: set<Name>, p: (Name, Name), name: Name)
    requires ChoiceSoFar(cat, m, seen) && Completes(cat, name, p.0, p.1)
    ensures ChoiceSoFar(cat, m[p := name], seen)
  {
    hide Completes;
  }

  lemma {:induction false} AllAdded(cat: Catalog, m: Completions, seen: set<Name>, name: Name)
    requires ChoiceSoFar(cat, m, seen) && name in cat
    requires forall j | 0 <= j < |CompletedTensors(cat[name])| :: (CompletedTensors(cat[name])[j], CompletedAt(cat[name])) in m
    ensures ChoiceSoFar(cat, m, seen + {name})
  {
    forall t, r | Completes(cat, name, t, r) ensures (t, r) in m {
    }
    hide Completes, CompletedTensors, CompletedAt;
  }

  method AddCompletions(cat: Catalog, m: Completions, seen: set<Name>, name: Name) returns (m': Completions)
    requires ChoiceSoFar(cat, m, seen) && name in cat
    ensures ChoiceSoFar(cat, m', seen + {name})
    ensures ExtendedBy(m, m', name)
  {
    m' := m;
    var tensors, r := CompletedTensors(cat[name]), CompletedAt(cat[name]);
    assert ExtendedBy(m, m', name);
    hide ChoiceSoFar, CompletedTensors, CompletedAt, ExtendedBy;
    for i := 0 to |tensors|
      invariant ChoiceSoFar(cat, m', seen)
      invariant forall j | 0 <= j < i :: (tensors[j], r) in m'
      invariant ExtendedBy(m, m', name)
    {
      if (tensors[i], r) !in m' {
        AddChoice(cat, m', seen, (tensors[i], r), name);
        ExtendOnce(m, m', name, (tensors[i], r));
        m' := m'[(tensors[i], r) := name];
      }
    }
    AllAdded(cat, m', seen, name);
  }

  /** A visit later in the order changes no choice made before, and makes those nobody made. */
  lemma {:induction false} VisitNext(cat: Catalog, ord: seq<Name>, m: Completions, name: Name, m': Completions)
    requires FirstWins(cat, ord, m) && ChoiceSoFar(cat, m, Members(ord))
    requires (forall p | p in m' :: Completes(cat, m'[p], p.0, p.1))
    requires ExtendedBy(m, m', name)
    ensures FirstWins(cat, ord + [name], m')
  {
    hide Completes;
    var more := ord + [name];
    forall p | p in m' ensures exists i :: FirstAt(cat, more, i, p.0, p.1) && more[i] == m'[p] {
      if p in m {
        var i :| FirstAt(cat, ord, i, p.0, p.1) && ord[i] == m[p];
        assert FirstAt(cat, more, i, p.0, p.1);
      } else {
        assert forall j | 0 <= j < |ord| :: ord[j] in ord;
        assert FirstAt(cat, more, |ord|, p.0, p.1);
      }
    }
  }

  method IndexCompletions(cat: Catalog) returns (m: Completions, ghost ord: seq<Name>)
    ensures CompletionChoice(cat, m)
    ensures VisitingOrder(cat, ord) && FirstWins(cat, ord, m)
  {
    m, ord := map[], [];
    var left := cat.Keys;
    while left != {}
      invariant left <= cat.Keys && ChoiceSoFar(cat, m, cat.Keys - left)
      invariant Distinct(ord) && Members(ord) == cat.Keys - left && FirstWins(cat, ord, m)
    {
      var name := Pick(left);
      ghost var before := m;
      m := AddCompletions(cat, m, cat.Keys - left, name);
      assert name !in Members(ord);
      VisitNext(cat, ord, before, name, m);
      hide ChoiceSoFar, FirstWins;
      assert Members(ord + [name]) == Members(ord) + {name};
      ord := ord + [name];
      left := left - {name};
      assert cat.Keys - left == cat.Keys - (left + {name}) + {name};
    }
    assert forall n :: n in ord <==> n in Members(ord);
  }

  /** The tensors an instruction can be said to produce. */
  function Produced(inst: Instruction): seq<Name> {
    match inst.opcode
    case Compute => inst.outputs
    case Transfer => inst.outputs + inst.inputs
    case Load => inst.outputs + inst.inputs
    case _ => []
  }

  type Users = map<Name, seq<Name>>

  function UsersOf(users: Users, t: Name): seq<Name> {
    if t in users then users[t] else []
  }

  /** The index lists, for each tensor, exactly the instructions in `seen` whose list, as given by `of`, has it. */
  ghost predicate UsersListed(cat: Catalog, users: Users, seen: set<Name>, of: map<Name, seq<Name>>) {
    of.Keys == cat.Keys && forall t, n :: n in UsersOf(users, t) <==> n in seen && n in cat && t in of[n]
  }

  lemma {:induction false} UserIsListed(cat: Catalog, users: Users, of: map<Name, seq<Name>>, t: Name, n: Name)
    requires UsersListed(cat, users, cat.Keys, of)
    ensures n in UsersOf(users, t) <==> n in cat && t in of[n]
  {
    assert n in UsersOf(users, t) <==> n in cat.Keys && n in cat && t in of[n];
  }

  method AddUser(cat: Catalog, users: Users, seen: set<Name>, of: map<Name, seq<Name>>, name: Name) returns (users': Users)
    requires UsersListed(cat, users, seen, of) && name in cat
    ensures UsersListed(cat, users', seen + {name}, of)
  {
    users' := users;
    var tensors := of[name];
    for i := 0 to |tensors|
      invariant forall t, n :: n in UsersOf(users', t) <==> n in UsersOf(users, t) || (n == name && t in tensors[..i])
    {
      var list := UsersOf(users', tensors[i]);
      assert tensors[..i + 1] == tensors[..i] + [tensors[i]];
      users' := users'[tensors[i] := list + [name]];
    }
    assert tensors[..|tensors|] == tensors;
  }

  method IndexUsers(cat: Catalog, of: map<Name, seq<Name>>) returns (users: Users)
    requires of.Keys == cat.Keys
    ensures UsersListed(cat, users, cat.Keys, of)
  {
    users := map[];
    var left := cat.Keys;
    while left != {}
      invariant left <= cat.Keys && UsersListed(cat, users, cat.Keys - left, of)
    {
      hide UsersListed;
      var name := Pick(left);
      users := AddUser(cat, users, cat.Keys - left, of, name);
      left := left - {name};
      assert cat.Keys - left == cat.Keys - (left + {name}) + {name};
    }
    assert cat.Keys - {} == cat.Keys;
  }

  // ----- Releases and reads -----

  predicate Reads(cat: Catalog, n: Name, t: Name) {
    n in cat && t in cat[n].inputs
  }

  /** Every other instruction that reads a tensor released here is an ancestor of the release. */
  ghost predicate ReleaseOk(cat: Catalog, n: Name)
    requires n in cat
  {
    forall t, c | t in cat[n].inputs && Reads(cat, c, t) && c != n :: Ancestor(GraphOf(cat), n, c)
  }

  /** The completion that a read of `t` on `r` is checked against. */
  function CompletionFor(m: Completions, t: Name, r: Name): Option<Name> {
    if (t, r) in m then Some(m[(t, r)])
    else if (t, EMPTY_NAME) in m then Some(m[(t, EMPTY_NAME)])
    else None
  }

  predicate ActivationProducer(cat: Catalog, p: Name, t: Name) {
    p in cat && cat[p].opcode.Compute? && t in cat[p].outputs
  }

  /** Instruction `p` leaves tensor `t` on resource `r`, as far as the validator can tell. */
  predicate LocalProducer(cat: Catalog, p: Name, t: Name, r: Name) {
    && p in cat && t in Produced(cat[p])
    && match cat[p].opcode
       case Compute => cat[p].resource == r
       case Transfer => cat[p].destination == Some(r)
       case Load => (if cat[p].destination.Some? then cat[p].destination.value else cat[p].resource) == r
       case _ => false
  }

  ghost predicate ReadOk(cat: Catalog, m: Completions, n: Name, t: Name)
    requires n in cat
  {
    var r := cat[n].resource;
    && (CompletionFor(m, t, r).Some? ==> Ancestor(GraphOf(cat), n, CompletionFor(m, t, r).value))
    && ((exists p :: ActivationProducer(cat, p, t)) ==> exists p :: LocalProducer(cat, p, t, r))
  }

  ghost predicate ComputeOk(cat: Catalog, m: Completions, n: Name)
    requires n in cat
  {
    forall t | t in cat[n].inputs :: ReadOk(cat, m, n, t)
  }

  function Inputs(cat: Catalog): map<Name, seq<Name>> {
    map n | n in cat :: cat[n].inputs
  }

  function Productions(cat: Catalog): map<Name, seq<Name>> {
    map n | n in cat :: Produced(cat[n])
  }

  /** One released tensor. */
  method CheckConsumers(cat: Catalog, consumers: Users, ancestors: set<Name>, name: Name, t: Name) returns (errors: seq<Error>)
    requires UsersListed(cat, consumers, cat.Keys, Inputs(cat)) && name in cat && IsClosureOf(GraphOf(cat), name, ancestors)
    ensures errors == [] <==> forall c | Reads(cat, c, t) && c != name :: Ancestor(GraphOf(cat), name, c)
  {
    hide Ancestor, IsClosureOf;
    errors := [];
    var list := UsersOf(consumers, t);
    for i := 0 to |list|
      invariant errors == [] <==> forall j | 0 <= j < i && list[j] != name :: list[j] in ancestors
    {
      if list[i] != name && list[i] !in ancestors {
        errors := errors + [ReleasedBeforeConsumer(name, t, list[i])];
      }
    }
    ConsumersChecked(cat, consumers, ancestors, name, t);
  }

  lemma {:induction false} ConsumersChecked(cat: Catalog, consumers: Users, ancestors: set<Name>, name: Name, t: Name)
    requires UsersListed(cat, consumers, cat.Keys, Inputs(cat)) && name in cat && IsClosureOf(GraphOf(cat), name, ancestors)
    ensures var list := UsersOf(consumers, t);
            (forall j | 0 <= j < |list| && list[j] != name :: list[j] in ancestors)
            <==> forall c | Reads(cat, c, t) && c != name :: Ancestor(GraphOf(cat), name, c)
  {
    hide Ancestor;
    var list := UsersOf(consumers, t);
    forall c ensures c in list <==> Reads(cat, c, t) {
      UserIsListed(cat, consumers, Inputs(cat), t, c);
    }
    if forall j | 0 <= j < |list| && list[j] != name :: list[j] in ancestors {
      forall c | Reads(cat, c, t) && c != name ensures Ancestor(GraphOf(cat), name, c) {
        assert c in list;
      }
    } else {
      var j :| 0 <= j < |list| && list[j] != name && list[j] !in ancestors;
      assert list[j] in list;
      assert Reads(cat, list[j], t) && !Ancestor(GraphOf(cat), name, list[j]);
    }
  }

  method CheckRelease(cat: Catalog, consumers: Users, ancestors: set<Name>, name: Name) returns (errors: seq<Error>)
    requires UsersListed(cat, consumers, cat.Keys, Inputs(cat)) && name in cat && IsClosureOf(GraphOf(cat), name, ancestors)
    ensures errors == [] <==> ReleaseOk(cat, name)
  {
    hide Ancestor, IsClosureOf, UsersListed, Reads;
    errors := [];
    var tensors := cat[name].inputs;
    for i := 0 to |tensors|
      invariant errors == [] <==>
        forall j, c | 0 <= j < i && Reads(cat, c, tensors[j]) && c != name :: Ancestor(GraphOf(cat), name, c)
    {
      var more := CheckConsumers(cat, consumers, ancestors, name, tensors[i]);
      errors := errors + more;
    }
  }

  /** Some producer of the tensor is a computation; some leaves it on the resource. */
  method LookAtProducers(cat: Catalog, producers: Users, t: Name, r: Name) returns (activation: bool, local_: bool)
    requires UsersListed(cat, producers, cat.Keys, Productions(cat))
    ensures activation <==> exists p :: ActivationProducer(cat, p, t)
    ensures local_ <==> exists p :: LocalProducer(cat, p, t, r)
  {
    activation, local_ := false, false;
    var list := UsersOf(producers, t);
    forall p ensures p in list <==> p in cat && t in Produced(cat[p]) {
      UserIsListed(cat, producers, Productions(cat), t, p);
    }
    hide UsersListed;
    for i := 0 to |list|
      invariant activation <==> exists j :: 0 <= j < i && ActivationProducer(cat, list[j], t)
      invariant local_ <==> exists j :: 0 <= j < i && LocalProducer(cat, list[j], t, r)
    {
      assert list[i] in list;
      var p := cat[list[i]];
      if p.opcode.Compute? {
        activation := true;
      }
      if (p.opcode.Compute? && p.resource == r) || (p.opcode.Transfer? && p.destination == Some(r))
         || (p.opcode.Load? && (if p.destination.Some? then p.destination.value else p.resource) == r) {
        local_ := true;
      }
    }
    assert forall p | ActivationProducer(cat, p, t) || LocalProducer(cat, p, t, r) :: p in list;
  }

  method CheckRead(cat: Catalog, m: Completions, producers: Users, ancestors: set<Name>, name: Name, t: Name)
    returns (errors: seq<Error>)
    requires UsersListed(cat, producers, cat.Keys, Productions(cat)) && name in cat && IsClosureOf(GraphOf(cat), name, ancestors)
    ensures errors == [] <==> ReadOk(cat, m, name, t)
  {
    hide Ancestor, UsersListed, LocalProducer, ActivationProducer;
    errors := [];
    var r := cat[name].resource;
    var completion := CompletionFor(m, t, r);
    if completion.Some? && completion.value !in ancestors {
      errors := errors + [ReadWithoutCompletion(name, t, completion.value)];
    }
    var activation, local_ := LookAtProducers(cat, producers, t, r);
    if activation && !local_ {
      errors := errors + [ProducedElsewhere(name, t)];
    }
  }

  method CheckCompute(cat: Catalog, m: Completions, producers: Users, ancestors: set<Name>, name: Name)
    returns (errors: seq<Error>)
    requires UsersListed(cat, producers, cat.Keys, Productions(cat)) && name in cat && IsClosureOf(GraphOf(cat), name, ancestors)
    ensures errors == [] <==> ComputeOk(cat, m, name)
  {
    hide ReadOk, IsClosureOf, UsersListed;
    errors := [];
    var tensors := cat[name].inputs;
    for i := 0 to |tensors|
      invariant errors == [] <==> forall j | 0 <= j < i :: ReadOk(cat, m, name, tensors[j])
    {
      var more := CheckRead(cat, m, producers, ancestors, name, tensors[i]);
      errors := errors + more;
    }
  }

  // ----- The whole validation -----

  ghost predicate OrderOk(cat: Catalog, m: Completions, n: Name)
    requires n in cat
  {
    match cat[n].opcode
    case WaitEvent => WaitOk(cat, cat[n])
    case Release => ReleaseOk(cat, n)
    case Compute => ComputeOk(cat, m, n)
    case _ => true
  }

  /** What an accepted schedule satisfies, given which completion each read is checked against. */
  ghost predicate Accepted(instrs: seq<Instruction>, m: Completions) {
    var cat := ByName(instrs);
    && UniqueNames(instrs)
    && (forall i | 0 <= i < |instrs| :: KnowsDeps(cat, instrs[i]) && WellFormed(instrs[i]))
    && Acyclic(GraphOf(cat))
    && (forall n | n in cat :: OrderOk(cat, m, n))
  }

  /** The last pass for one instruction. */
  method CheckOrder(cat: Catalog, recorded: set<Name>, m: Completions, consumers: Users, producers: Users, cache: Closure, name: Name)
    returns (errors: seq<Error>, cache': Closure)
    requires name in cat && Remembers(GraphOf(cat), cache)
    requires UsersListed(cat, consumers, cat.Keys, Inputs(cat)) && UsersListed(cat, producers, cat.Keys, Productions(cat))
    requires recorded <= cat.Keys && forall n | n in cat && cat[n].opcode.RecordEvent? :: n in recorded
    ensures errors == [] <==> OrderOk(cat, m, name)
    ensures Remembers(GraphOf(cat), cache')
  {
    hide UsersListed, ReleaseOk, ComputeOk, WaitOk, Remembers, IsClosureOf;
    errors, cache' := [], cache;
    match cat[name].opcode {
      case WaitEvent =>
        errors := CheckWait(cat, recorded, cat[name]);
      case Release =>
        var ancestors;
        ancestors, cache' := Ancestors(GraphOf(cat), name, cache);
        errors := CheckRelease(cat, consumers, ancestors, name);
      case Compute =>
        var ancestors;
        ancestors, cache' := Ancestors(GraphOf(cat), name, cache);
        errors := CheckCompute(cat, m, producers, ancestors, name);
      case _ =>
    }
  }

  method CheckOrders(cat: Catalog, recorded: set<Name>, m: Completions) returns (errors: seq<Error>)
    requires recorded <= cat.Keys && forall n | n in cat && cat[n].opcode.RecordEvent? :: n in recorded
    ensures errors == [] <==> forall n | n in cat :: OrderOk(cat, m, n)
  {
    var consumers := IndexUsers(cat, Inputs(cat));
    var producers := IndexUsers(cat, Productions(cat));
    errors := [];
    var cache: Closure := map[];
    var left := cat.Keys;
    hide UsersListed, OrderOk, IsClosureOf;
    while left != {}
      invariant left <= cat.Keys && Remembers(GraphOf(cat), cache)
      invariant errors == [] <==> forall n | n in cat && n !in left :: OrderOk(cat, m, n)
    {
      var name := Pick(left);
      hide Remembers;
      var more;
      more, cache := CheckOrder(cat, recorded, m, consumers, producers, cache, name);
      errors := errors + more;
      left := left - {name};
    }
  }

  lemma {:induction false} EventsAreKnown(instrs: seq<Instruction>)
    ensures EventsOf(instrs) <= ByName(instrs).Keys
    ensures forall n | n in ByName(instrs) && ByName(instrs)[n].opcode.RecordEvent? :: n in EventsOf(instrs)
  {
    ByNameFacts(instrs);
    hide ByName;
    forall n | n in ByName(instrs) && ByName(instrs)[n].opcode.RecordEvent? ensures n in EventsOf(instrs) {
      var x := ByName(instrs)[n];
      var i :| 0 <= i < |instrs| && instrs[i] == x;
    }
  }

  /**
   Reports no errors exactly when the schedule is accepted with the completions this run happened to
   choose, which are the first ones of the order in which it happened to visit the instructions.
   */
  method ValidateSchedule(instrs: seq<Instruction>) returns (errors: seq<Error>, m: Completions, ghost ord: seq<Name>)
    ensures CompletionChoice(ByName(instrs), m) && VisitingOrder(ByName(instrs), ord) && FirstWins(ByName(instrs), ord, m)
    ensures errors == [] <==> Accepted(instrs, m)
  {
    hide ByName, WellFormed, KnowsDeps, OrderOk, Acyclic, EventsOf, CompletionChoice, VisitingOrder, FirstWins;
    var cat, duplicates := IndexByName(instrs);
    var recorded, malformed := CheckInstructions(cat, instrs);
    errors := duplicates + malformed;
    m, ord := IndexCompletions(cat);
    var order := Kahn(GraphOf(cat));
    assert |GraphOf(cat)| == |cat| by { assert GraphOf(cat).Keys == cat.Keys; }
    if |order| != |cat| {
      errors := errors + [DependencyCycle(cat.Keys - Members(order))];
      return;
    }
    EventsAreKnown(instrs);
    var misordered := CheckOrders(cat, recorded, m);
    errors := errors + misordered;
  }
}
