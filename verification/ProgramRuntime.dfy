/** program_runtime.c: programs are prepared whole or not at all, and a cursor
    walks a library of them. */
module ProgramRuntime {
  import opened Words
  import opened EffectRuntime

  datatype Override = Override(id: uint32, value: Value)

  datatype Node = Node(effect: Key, parameters: seq<Override>)

  datatype Program = Program(key: Key, nodes: seq<Node>)

  datatype ProgramStatus =
    | Prepared | BadArgument | BadDescriptor | DuplicateProgram | DuplicateBank | NoSuchEffect
    | NoSuchProgram | NoSuchBank | ChainNotEmpty | ChainError

  // ---- What a program asks for ----

  predicate OverrideValid(d: Descriptor, o: Override) {
    var p := FindParameter(d.parameters, o.id);
    p.Some? && InRange(p.value, o.value)
  }

  predicate NodeValid(registry: seq<Descriptor>, node: Node) {
    var d := Find(registry, node.effect);
    && d.Some?
    && |node.parameters| <= |d.value.parameters|
    && (forall i :: 0 <= i < |node.parameters| ==> OverrideValid(d.value, node.parameters[i]))
    && forall i, j :: 0 <= j < i < |node.parameters| ==> node.parameters[i].id != node.parameters[j].id
  }

  ghost predicate ProgramValid(registry: seq<Descriptor>, program: Program) {
    forall k :: 0 <= k < |program.nodes| ==> NodeValid(registry, program.nodes[k])
  }

  /** Values set one after the other over what was there. */
  function Applied(params: map<uint32, Value>, overrides: seq<Override>): map<uint32, Value> {
    if overrides == [] then params
    else
      var last := overrides[|overrides| - 1];
      Applied(params, overrides[..|overrides| - 1])[last.id := last.value]
  }

  /** The value a node asks for, if it asks. */
  function Asked(overrides: seq<Override>, id: uint32): Option<Value> {
    if overrides == [] then None
    else if overrides[|overrides| - 1].id == id then Some(overrides[|overrides| - 1].value)
    else Asked(overrides[..|overrides| - 1], id)
  }

  /** An instance carries out a node: the right effect, and every parameter of
      that effect at its override or else at its default. */
  ghost predicate Realizes(registry: seq<Descriptor>, instance: Instance, node: Node) {
    && Find(registry, node.effect) == Some(instance.descriptor)
    && forall i :: 0 <= i < |instance.descriptor.parameters| ==>
         var p := instance.descriptor.parameters[i];
         && p.id in instance.params
         && instance.params[p.id] == match Asked(node.parameters, p.id) case Some(v) => v case None => p.initial
  }

  lemma {:induction false} AppliedIsAsked(params: map<uint32, Value>, overrides: seq<Override>, id: uint32)
    requires id in params
    ensures id in Applied(params, overrides)
    ensures Applied(params, overrides)[id] == match Asked(overrides, id) case Some(v) => v case None => params[id]
  {
    if overrides != [] { AppliedIsAsked(params, overrides[..|overrides| - 1], id); }
  }

  /** A node asks each parameter for one value: the one it lists. */
  lemma {:induction false} AskedIsListed(overrides: seq<Override>, k: nat)
    requires k < |overrides|
    requires forall i, j :: 0 <= j < i < |overrides| ==> overrides[i].id != overrides[j].id
    ensures Asked(overrides, overrides[k].id) == Some(overrides[k].value)
  {
    if k < |overrides| - 1 {
      assert overrides[..|overrides| - 1][k] == overrides[k];
      AskedIsListed(overrides[..|overrides| - 1], k);
    }
  }

  lemma DefaultsRealize(registry: seq<Descriptor>, instance: Instance, node: Node)
    requires RegistryValid(registry) && Find(registry, node.effect) == Some(instance.descriptor)
    requires instance.params == Applied(Defaults(instance.descriptor.parameters), node.parameters)
    ensures Realizes(registry, instance, node)
  {
    var parameters := instance.descriptor.parameters;
    RegisteredIsValid(registry, instance.descriptor);
    DefaultsAreTheirs(parameters);
    forall i | 0 <= i < |parameters|
      ensures parameters[i].id in instance.params
      ensures instance.params[parameters[i].id]
           == match Asked(node.parameters, parameters[i].id) case Some(v) => v case None => parameters[i].initial
    {
      AppliedIsAsked(Defaults(parameters), node.parameters, parameters[i].id);
    }
  }

  // ---- Validation ----

  /** program_descriptor_validate */
  method DescriptorValidate(program: Program, registry: seq<Descriptor>) returns (status: ProgramStatus)
    ensures status == Prepared <==> ProgramValid(registry, program)
    ensures status == Prepared || status == NoSuchEffect || status == BadDescriptor
  {
    for k := 0 to |program.nodes|
      invariant forall i :: 0 <= i < k ==> NodeValid(registry, program.nodes[i])
    {
      status := NodeValidate(program.nodes[k], registry);
      if status != Prepared { return; }
    }
    return Prepared;
  }

  method NodeValidate(node: Node, registry: seq<Descriptor>) returns (status: ProgramStatus)
    ensures status == Prepared <==> NodeValid(registry, node)
    ensures status == NoSuchEffect <==> Find(registry, node.effect).None?
    ensures status == Prepared || status == NoSuchEffect || status == BadDescriptor
  {
    var effect := Find(registry, node.effect);
    if effect.None? { return NoSuchEffect; }
    if |node.parameters| > |effect.value.parameters| { return BadDescriptor; }
    for parameter := 0 to |node.parameters|
      invariant forall i :: 0 <= i < parameter ==> OverrideValid(effect.value, node.parameters[i])
      invariant forall i, j :: 0 <= j < i < parameter ==> node.parameters[i].id != node.parameters[j].id
    {
      var o := node.parameters[parameter];
      var schema := FindParameter(effect.value.parameters, o.id);
      if schema.None? || o.value.NotANumber? || Below(o.value, schema.value.minimum) || Below(schema.value.maximum, o.value) {
        assert !OverrideValid(effect.value, node.parameters[parameter]);
        return BadDescriptor;
      }
      for previous := 0 to parameter
        invariant forall j :: 0 <= j < previous ==> node.parameters[parameter].id != node.parameters[j].id
      {
        if o.id == node.parameters[previous].id { return BadDescriptor; }
      }
    }
    return Prepared;
  }

  // ---- Preparation ----

  /** Arena bytes used once these nodes are added one after the other. */
  function UsedAfter(registry: seq<Descriptor>, base: nat, nodes: seq<Node>): nat
    requires RegistryValid(registry) && forall k :: 0 <= k < |nodes| ==> Find(registry, nodes[k].effect).Some?
  {
    if nodes == [] then 0
    else
      var before := nodes[..|nodes| - 1];
      var d := Find(registry, nodes[|nodes| - 1].effect).value;
      RegisteredIsValid(registry, d);
      AlignUp(base + UsedAfter(registry, base, before), d.alignment) + d.contextSize - base
  }

  lemma {:induction false} UsedGrows(registry: seq<Descriptor>, base: nat, nodes: seq<Node>, k: nat)
    requires RegistryValid(registry) && forall i :: 0 <= i < |nodes| ==> Find(registry, nodes[i].effect).Some?
    requires k <= |nodes|
    ensures UsedAfter(registry, base, nodes[..k]) <= UsedAfter(registry, base, nodes)
  {
    hide RegistryValid, Find;
    if k < |nodes| {
      UsedGrows(registry, base, nodes[..|nodes| - 1], k);
      assert nodes[..|nodes| - 1][..k] == nodes[..k];
    } else {
      assert nodes[..k] == nodes;
    }
  }

  lemma UsedNext(registry: seq<Descriptor>, base: nat, nodes: seq<Node>, k: nat)
    requires RegistryValid(registry) && forall i :: 0 <= i < |nodes| ==> Find(registry, nodes[i].effect).Some?
    requires k < |nodes|
    ensures var d := Find(registry, nodes[k].effect).value;
      && AlignmentValid(d.alignment)
      && UsedAfter(registry, base, nodes[..k + 1])
         == AlignUp(base + UsedAfter(registry, base, nodes[..k]), d.alignment) + d.contextSize - base
  {
    hide Find;
    RegisteredIsValid(registry, Find(registry, nodes[k].effect).value);
    assert nodes[..k + 1][..k] == nodes[..k];
  }

  /** A program an empty chain has the instances and the arena for. */
  ghost predicate Holds(chain: Chain, program: Program)
    requires RegistryValid(chain.registry) && ProgramValid(chain.registry, program)
  {
    && |program.nodes| <= chain.instances.Length
    && UsedAfter(chain.registry, chain.base, program.nodes) <= chain.arena.Length
  }

  /** program_prepare: an empty chain either ends up carrying out the whole
      program, node by node, or ends up empty; any other chain is left alone. If
      no callback fails it carries out every valid program it has room for, and
      it never carries out any other. */
  method Prepare(chain: Chain, program: Program) returns (status: ProgramStatus)
    requires chain.Valid()
    modifies chain, chain.instances, chain.arena
    ensures chain.Valid()
    ensures status == ChainNotEmpty <==> old(chain.count) != 0 || old(chain.arenaUsed) != 0
    ensures status == ChainNotEmpty ==> chain.Nodes() == old(chain.Nodes()) && chain.arenaUsed == old(chain.arenaUsed)
    ensures status == Prepared ==>
      && |chain.Nodes()| == |program.nodes|
      && forall k :: 0 <= k < |program.nodes| ==> Realizes(chain.registry, chain.Nodes()[k], program.nodes[k])
    ensures status != Prepared && status != ChainNotEmpty ==> chain.Nodes() == [] && chain.arenaUsed == 0
    ensures status == Prepared ==> ProgramValid(chain.registry, program) && Holds(chain, program)
    ensures chain.obliging && old(chain.count) == 0 && old(chain.arenaUsed) == 0 ==>
      (status == Prepared <==> ProgramValid(chain.registry, program) && Holds(chain, program))
  {
    if chain.count != 0 || chain.arenaUsed != 0 { return ChainNotEmpty; }
    status := DescriptorValidate(program, chain.registry);
    if status != Prepared { return; }
    hide LaidOut, Realizes, RegistryValid, ProgramValid, Holds;
    var added := AddAll(chain, program);
    if !added {
      chain.Clear();
      return ChainError;
    }
    return Prepared;
  }

  /** The nodes of a valid program, one after the other. */
  method AddAll(chain: Chain, program: Program) returns (ok: bool)
    requires chain.Valid() && ProgramValid(chain.registry, program) && chain.count == 0 && chain.arenaUsed == 0
    modifies chain, chain.instances, chain.arena
    ensures chain.Valid()
    ensures ok ==>
      RealizesAll(chain.registry, chain.Nodes(), program.nodes) && Holds(chain, program)
    ensures chain.obliging && Holds(chain, program) ==> ok
  {
    ghost var registry, base, nodes := chain.registry, chain.base, program.nodes;
    assert chain.Nodes() == [];
    NodesFound(registry, program);
    assert nodes[..0] == [];
    hide NodeValid, Realizes, RealizesAll, RegistryValid, LaidOut, AlignUp, UsedAfter, Find, AlignmentValid, Takes, Holds, ProgramValid;
    RealizesNone(registry);
    NothingUsed(registry, base);
    for k := 0 to |program.nodes|
      invariant chain.Valid() && chain.count == k <= chain.instances.Length
      invariant RealizesAll(registry, chain.Nodes(), nodes[..k])
      invariant chain.arenaUsed == UsedAfter(registry, base, nodes[..k])
    {
      ghost var before := chain.Nodes();
      RoomForNext(chain, program, k);
      ok := AddNode(chain, program.nodes[k]);
      if !ok { return; }
      RealizesNext(registry, before, chain.Nodes(), nodes, k);
    }
    assert nodes[..|nodes|] == nodes;
    HoldsIt(chain, program);
    ok := true;
  }

  lemma HoldsIt(chain: Chain, program: Program)
    requires chain.Valid() && ProgramValid(chain.registry, program) && chain.count == |program.nodes|
    requires chain.arenaUsed == UsedAfter(chain.registry, chain.base, program.nodes)
    ensures Holds(chain, program)
  {
    hide RegistryValid, LaidOut, UsedAfter;
  }

  lemma RealizesNone(registry: seq<Descriptor>)
    ensures RealizesAll(registry, [], [])
  {}

  ghost predicate RealizesAll(registry: seq<Descriptor>, instances: seq<Instance>, nodes: seq<Node>) {
    |instances| == |nodes| && forall i :: 0 <= i < |nodes| ==> Realizes(registry, instances[i], nodes[i])
  }

  lemma RealizesNext(registry: seq<Descriptor>, before: seq<Instance>, after: seq<Instance>, nodes: seq<Node>, k: nat)
    requires k < |nodes| && RealizesAll(registry, before, nodes[..k])
    requires |after| == k + 1 && after[..k] == before && Realizes(registry, after[k], nodes[k])
    ensures RealizesAll(registry, after, nodes[..k + 1])
  {
    hide Realizes;
    forall i | 0 <= i < k + 1 ensures Realizes(registry, after[i], nodes[..k + 1][i]) {
      if i < k { assert after[i] == before[i] && nodes[..k][i] == nodes[i]; }
    }
  }

  lemma NodesFound(registry: seq<Descriptor>, program: Program)
    requires ProgramValid(registry, program)
    ensures forall k :: 0 <= k < |program.nodes| ==>
      NodeValid(registry, program.nodes[k]) && Find(registry, program.nodes[k].effect).Some?
  {}

  lemma RoomForNext(chain: Chain, program: Program, k: nat)
    requires chain.Valid() && ProgramValid(chain.registry, program) && k < |program.nodes|
    requires forall i :: 0 <= i < |program.nodes| ==> Find(chain.registry, program.nodes[i].effect).Some?
    requires chain.count == k && chain.arenaUsed == UsedAfter(chain.registry, chain.base, program.nodes[..k])
    ensures var d, used := Find(chain.registry, program.nodes[k].effect).value, UsedAfter(chain.registry, chain.base, program.nodes[..k + 1]);
      && AlignmentValid(d.alignment)
      && used == AlignUp(chain.base + chain.arenaUsed, d.alignment) + d.contextSize - chain.base
      && (Takes(chain, d) ==> k < chain.instances.Length)
      && (Holds(chain, program) ==> Takes(chain, d))
  {
    hide Find, LaidOut, AlignmentValid, ProgramValid, RegistryValid;
    UsedNext(chain.registry, chain.base, program.nodes, k);
    UsedGrows(chain.registry, chain.base, program.nodes, k + 1);
  }

  lemma NothingUsed(registry: seq<Descriptor>, base: nat)
    requires RegistryValid(registry)
    ensures UsedAfter(registry, base, []) == 0
  {}

  /** A chain can take one more context of this kind. */
  ghost predicate Takes(chain: Chain, d: Descriptor)
    reads chain
  {
    AlignmentValid(d.alignment) && chain.count < chain.instances.Length && chain.Fits(chain.arenaUsed, d)
  }

  /** One node: the effect added at its defaults, then its overrides. */
  method AddNode(chain: Chain, node: Node) returns (ok: bool)
    requires chain.Valid() && NodeValid(chain.registry, node)
    modifies chain, chain.instances, chain.arena
    ensures chain.Valid()
    ensures ok ==>
      var d := Find(chain.registry, node.effect).value;
      && chain.count == old(chain.count) + 1
      && chain.Nodes()[..old(chain.count)] == old(chain.Nodes())
      && Realizes(chain.registry, chain.Nodes()[old(chain.count)], node)
      && old(Takes(chain, d))
      && AlignmentValid(d.alignment)
      && chain.arenaUsed == AlignUp(chain.base + old(chain.arenaUsed), d.alignment) + d.contextSize - chain.base
    ensures chain.obliging && old(Takes(chain, Find(chain.registry, node.effect).value)) ==> ok
  {
    ghost var d := Find(chain.registry, node.effect).value;
    RegisteredIsValid(chain.registry, d);
    hide LaidOut, Defaults, RegistryValid, Find, Realizes, AlignUp, NodeValid, DescriptorValid, Applied;
    ghost var before := chain.Nodes();
    var status, index := chain.Add(node.effect);
    if status != Ok { return false; }
    assert chain.Nodes()[..index] == before;
    ok := SetAll(chain, node, index);
    if ok { DefaultsRealize(chain.registry, chain.Nodes()[index], node); }
  }

  /** The overrides of a node, one after the other. */
  method SetAll(chain: Chain, node: Node, index: nat) returns (ok: bool)
    requires chain.Valid() && NodeValid(chain.registry, node) && index < chain.count
    requires chain.Nodes()[index].descriptor == Find(chain.registry, node.effect).value
    modifies chain.instances, chain.arena
    ensures chain.Valid()
    ensures ok ==>
      chain.Nodes() == old(chain.Nodes())[index := old(chain.Nodes())[index].(params := Applied(old(chain.Nodes())[index].params, node.parameters))]
    ensures chain.obliging ==> ok
  {
    ghost var before := chain.Nodes();
    assert before[index := before[index].(params := before[index].params)] == before;
    hide LaidOut, RegistryValid, Find, NodeValid, Applied;
    assert node.parameters[..0] == [];
    AppliedNothing(before[index].params);
    for parameter := 0 to |node.parameters|
      invariant chain.Valid() && index < chain.count
      invariant chain.Nodes() == before[index := before[index].(params := Applied(before[index].params, node.parameters[..parameter]))]
    {
      var o := node.parameters[parameter];
      AppliedNext(before[index].params, node.parameters, parameter);
      OverrideIsSet(chain.registry, node, parameter, chain.Nodes(), index);
      var status := chain.SetParameter(index, o.id, o.value);
      if status != Ok { return false; }
    }
    assert node.parameters[..|node.parameters|] == node.parameters;
    ok := true;
  }

  lemma AppliedNothing(params: map<uint32, Value>)
    ensures Applied(params, []) == params
  {}

  lemma AppliedNext(params: map<uint32, Value>, overrides: seq<Override>, k: nat)
    requires k < |overrides|
    ensures Applied(params, overrides[..k + 1]) == Applied(params, overrides[..k])[overrides[k].id := overrides[k].value]
  {
    assert overrides[..k + 1][..k] == overrides[..k];
  }

  /** A valid override is one the chain takes. */
  lemma OverrideIsSet(registry: seq<Descriptor>, node: Node, k: nat, nodes: seq<Instance>, index: nat)
    requires RegistryValid(registry) && NodeValid(registry, node) && k < |node.parameters|
    requires index < |nodes| && nodes[index].descriptor == Find(registry, node.effect).value
    ensures SettingStatus(nodes, index, node.parameters[k].id, node.parameters[k].value) == Ok
  {
    hide Find;
    RegisteredIsValid(registry, nodes[index].descriptor);
    assert OverrideValid(nodes[index].descriptor, node.parameters[k]);
  }

  // ---- Libraries ----

  datatype Bank = Bank(key: Key, programs: seq<Key>)

  datatype Library = Library(catalog: seq<Program>, banks: seq<Bank>)

  /** program_catalog_find */
  function FindProgram(catalog: seq<Program>, key: Key): (p: Option<Program>)
    ensures p.Some? ==> p.value in catalog && p.value.key == key
    ensures p.None? ==> forall i :: 0 <= i < |catalog| ==> catalog[i].key != key
  {
    if catalog == [] then None
    else if catalog[0].key == key then Some(catalog[0])
    else
      var rest := FindProgram(catalog[1..], key);
      assert forall i :: 0 < i < |catalog| ==> catalog[i] == catalog[1..][i - 1];
      rest
  }

  ghost predicate CatalogValid(catalog: seq<Program>, registry: seq<Descriptor>) {
    && (forall i :: 0 <= i < |catalog| ==> ProgramValid(registry, catalog[i]))
    && forall i, j :: 0 <= j < i < |catalog| ==> catalog[i].key != catalog[j].key
  }

  ghost predicate BankValid(bank: Bank, catalog: seq<Program>) {
    && bank.programs != []
    && (forall i :: 0 <= i < |bank.programs| ==> FindProgram(catalog, bank.programs[i]).Some?)
    && forall i, j :: 0 <= j < i < |bank.programs| ==> bank.programs[i] != bank.programs[j]
  }

  ghost predicate LibraryValid(library: Library, registry: seq<Descriptor>) {
    && library.catalog != [] && library.banks != []
    && CatalogValid(library.catalog, registry)
    && (forall i :: 0 <= i < |library.banks| ==> BankValid(library.banks[i], library.catalog))
    && forall i, j :: 0 <= j < i < |library.banks| ==> library.banks[i].key != library.banks[j].key
  }

  /** program_catalog_validate, for a registry that validates */
  method CatalogValidate(catalog: seq<Program>, registry: seq<Descriptor>) returns (status: ProgramStatus)
    ensures status == Prepared <==> CatalogValid(catalog, registry)
  {
    hide ProgramValid;
    for index := 0 to |catalog|
      invariant forall i :: 0 <= i < index ==> ProgramValid(registry, catalog[i])
      invariant forall i, j :: 0 <= j < i < index ==> catalog[i].key != catalog[j].key
    {
      status := DescriptorValidate(catalog[index], registry);
      if status != Prepared { return; }
      for previous := 0 to index
        invariant forall j :: 0 <= j < previous ==> catalog[index].key != catalog[j].key
      {
        if catalog[index].key == catalog[previous].key { return DuplicateProgram; }
      }
    }
    return Prepared;
  }

  method BankValidate(bank: Bank, catalog: seq<Program>) returns (status: ProgramStatus)
    ensures status == Prepared <==> BankValid(bank, catalog)
  {
    hide FindProgram;
    if bank.programs == [] { return BadDescriptor; }
    for program := 0 to |bank.programs|
      invariant forall i :: 0 <= i < program ==> FindProgram(catalog, bank.programs[i]).Some?
      invariant forall i, j :: 0 <= j < i < program ==> bank.programs[i] != bank.programs[j]
    {
      if FindProgram(catalog, bank.programs[program]).None? { return NoSuchProgram; }
      for previous := 0 to program
        invariant forall j :: 0 <= j < previous ==> bank.programs[program] != bank.programs[j]
      {
        if bank.programs[program] == bank.programs[previous] { return BadDescriptor; }
      }
    }
    return Prepared;
  }

  /** program_library_validate */
  method LibraryValidate(library: Library, registry: seq<Descriptor>) returns (status: ProgramStatus)
    ensures status == Prepared <==> LibraryValid(library, registry)
  {
    hide BankValid, CatalogValid;
    if library.catalog == [] || library.banks == [] { return BadArgument; }
    status := CatalogValidate(library.catalog, registry);
    if status != Prepared { return; }
    for index := 0 to |library.banks|
      invariant forall i :: 0 <= i < index ==> BankValid(library.banks[i], library.catalog)
      invariant forall i, j :: 0 <= j < i < index ==> library.banks[i].key != library.banks[j].key
    {
      status := BankValidate(library.banks[index], library.catalog);
      if status != Prepared { return; }
      for previous := 0 to index
        invariant forall j :: 0 <= j < previous ==> library.banks[index].key != library.banks[j].key
      {
        if library.banks[index].key == library.banks[previous].key { return DuplicateBank; }
      }
    }
    return Prepared;
  }

  /** One step around a ring of n. */
  lemma RingStep(i: nat, n: nat)
    requires i < n
    ensures (i + 1) % n == if i + 1 == n then 0 else i + 1
  {}

  /** The bank a key selects: the first that has it. */
  predicate FirstBank(banks: seq<Bank>, key: Key, i: nat) {
    i < |banks| && banks[i].key == key && forall j :: 0 <= j < i ==> banks[j].key != key
  }

  class Cursor {
    const library: Library
    var bankIndex: nat
    var programIndex: nat

    /** On a program of a bank. */
    predicate Valid()
      reads this
    {
      bankIndex < |library.banks| && programIndex < |library.banks[bankIndex].programs|
    }

    constructor (library: Library, bankIndex: nat, programIndex: nat)
      requires bankIndex < |library.banks| && programIndex < |library.banks[bankIndex].programs|
      ensures Valid() && this.library == library && this.bankIndex == bankIndex && this.programIndex == programIndex
    {
      this.library, this.bankIndex, this.programIndex := library, bankIndex, programIndex;
    }

    /** program_cursor_current */
    method Current() returns (program: Option<Program>)
      ensures program == if Valid() then FindProgram(library.catalog, library.banks[bankIndex].programs[programIndex]) else None
    {
      if bankIndex >= |library.banks| || programIndex >= |library.banks[bankIndex].programs| { return None; }
      return FindProgram(library.catalog, library.banks[bankIndex].programs[programIndex]);
    }

    /** program_cursor_next_program */
    method NextProgram() returns (ok: bool)
      modifies this`programIndex
      ensures ok == old(Valid())
      ensures ok ==> Valid() && programIndex == (old(programIndex) + 1) % |library.banks[bankIndex].programs|
      ensures !ok ==> programIndex == old(programIndex)
    {
      if bankIndex >= |library.banks| || programIndex >= |library.banks[bankIndex].programs| { return false; }
      RingStep(programIndex, |library.banks[bankIndex].programs|);
      programIndex := programIndex + 1;
      if programIndex == |library.banks[bankIndex].programs| { programIndex := 0; }
      return true;
    }

    /** program_cursor_previous_program: what NextProgram moved away from */
    method PreviousProgram() returns (ok: bool)
      modifies this`programIndex
      ensures ok == old(Valid())
      ensures ok ==> Valid() && (programIndex + 1) % |library.banks[bankIndex].programs| == old(programIndex)
      ensures !ok ==> programIndex == old(programIndex)
    {
      if bankIndex >= |library.banks| || programIndex >= |library.banks[bankIndex].programs| { return false; }
      programIndex := if programIndex == 0 then |library.banks[bankIndex].programs| - 1 else programIndex - 1;
      RingStep(programIndex, |library.banks[bankIndex].programs|);
      return true;
    }

    /** program_cursor_next_bank */
    method NextBank() returns (ok: bool)
      modifies this
      ensures ok <==> old(bankIndex) < |library.banks|
      ensures ok ==> bankIndex == (old(bankIndex) + 1) % |library.banks| && programIndex == 0
      ensures !ok ==> bankIndex == old(bankIndex) && programIndex == old(programIndex)
    {
      if bankIndex >= |library.banks| { return false; }
      RingStep(bankIndex, |library.banks|);
      bankIndex := bankIndex + 1;
      if bankIndex == |library.banks| { bankIndex := 0; }
      programIndex := 0;
      return true;
    }

    /** program_cursor_previous_bank */
    method PreviousBank() returns (ok: bool)
      modifies this
      ensures ok <==> old(bankIndex) < |library.banks|
      ensures ok ==> bankIndex < |library.banks| && (bankIndex + 1) % |library.banks| == old(bankIndex) && programIndex == 0
      ensures !ok ==> bankIndex == old(bankIndex) && programIndex == old(programIndex)
    {
      if bankIndex >= |library.banks| { return false; }
      bankIndex := if bankIndex == 0 then |library.banks| - 1 else bankIndex - 1;
      RingStep(bankIndex, |library.banks|);
      programIndex := 0;
      return true;
    }

    /** program_cursor_select_bank */
    method SelectBank(key: Key, index: nat) returns (status: ProgramStatus)
      modifies this
      ensures status == Prepared ==> Valid() && library.banks[bankIndex].key == key && programIndex == index
      ensures status == Prepared ==> forall i :: 0 <= i < bankIndex ==> library.banks[i].key != key
      ensures status != Prepared ==> bankIndex == old(bankIndex) && programIndex == old(programIndex)
      ensures status == NoSuchBank <==> forall i :: 0 <= i < |library.banks| ==> library.banks[i].key != key
      ensures status == Prepared <==> exists i: nat :: FirstBank(library.banks, key, i) && index < |library.banks[i].programs|
    {
      for i := 0 to |library.banks|
        invariant forall j :: 0 <= j < i ==> library.banks[j].key != key
        invariant bankIndex == old(bankIndex) && programIndex == old(programIndex)
      {
        if library.banks[i].key == key {
          assert forall j: nat :: FirstBank(library.banks, key, j) <==> j == i;
          if index >= |library.banks[i].programs| { return BadArgument; }
          bankIndex, programIndex := i, index;
          return Prepared;
        }
      }
      return NoSuchBank;
    }
  }

  /** In a library that validates, every position a cursor can reach names a
      program, and none that preparation would refuse as malformed. */
  lemma EveryPositionIsAProgram(library: Library, registry: seq<Descriptor>, bank: nat, program: nat)
    requires LibraryValid(library, registry)
    requires bank < |library.banks| && program < |library.banks[bank].programs|
    ensures var found := FindProgram(library.catalog, library.banks[bank].programs[program]);
      && found.Some? && found.value.key == library.banks[bank].programs[program]
      && ProgramValid(registry, found.value)
  {
    hide FindProgram, NodeValid, ProgramValid;
    assert BankValid(library.banks[bank], library.catalog);
    assert forall p :: p in library.catalog ==> ProgramValid(registry, p);
  }
}
