/** effect_runtime.c: chains of effects whose contexts are carved out of one
    arena, without allocation. */
module EffectRuntime {
  import opened Words

  const ABI_VERSION: uint16 := 1

  /** A C float as far as the comparisons here can tell. */
  datatype Value = NotANumber | Number(r: real)

  predicate Below(a: Value, b: Value) { a.Number? && b.Number? && a.r < b.r }

  datatype Key = Key(vendor: uint32, effect: uint32)

  datatype Parameter = Parameter(id: uint32, minimum: Value, maximum: Value, initial: Value)

  /** effect_descriptor_t; callbacks are present or absent. */
  datatype Descriptor = Descriptor(
    key: Key,
    abiVersion: uint16,
    parameters: seq<Parameter>,
    contextSize: uint32,
    alignment: uint32,
    initializes: bool,
    processes: bool,
    sets: bool)

  /** An effect in a chain: where its context is, and the parameter values its
      set_parameter callback has accepted. */
  datatype Instance = Instance(descriptor: Descriptor, at: nat, params: map<uint32, Value>)

  datatype Status =
    | Ok | InvalidArgument | InvalidDescriptor | DuplicateEffect | EffectNotFound
    | ChainFull | ArenaFull | CallbackFailed | ParameterNotFound | ParameterOutOfRange

  // ---- Registries ----

  /** A power of two no larger than the limit. */
  predicate AlignmentValid(a: uint32) {
    a == 1 || a == 2 || a == 4 || a == 8 || a == 16 || a == 32 || a == 64 || a == 128 || a == 256
  }

  predicate ParameterValid(p: Parameter) {
    && p.minimum.Number? && p.maximum.Number? && p.initial.Number?
    && p.minimum.r <= p.initial.r <= p.maximum.r
  }

  predicate DescriptorValid(d: Descriptor) {
    && d.abiVersion == ABI_VERSION && AlignmentValid(d.alignment) && d.processes
    && (d.contextSize == 0 ==> d.alignment == 1)
    && (d.parameters != [] ==> d.sets)
    && |d.parameters| < 0x1_0000
    && (forall i :: 0 <= i < |d.parameters| ==> ParameterValid(d.parameters[i]))
    && forall i, j :: 0 <= j < i < |d.parameters| ==> d.parameters[i].id != d.parameters[j].id
  }

  ghost predicate RegistryValid(registry: seq<Descriptor>) {
    && (forall i :: 0 <= i < |registry| ==> DescriptorValid(registry[i]))
    && forall i, j :: 0 <= j < i < |registry| ==> registry[i].key != registry[j].key
  }

  /** descriptor_is_valid, the duplicate search as nested loops */
  method DescriptorIsValid(d: Descriptor) returns (valid: bool)
    requires |d.parameters| < 0x1_0000
    ensures valid == DescriptorValid(d)
  {
    if d.abiVersion != ABI_VERSION || !AlignmentValid(d.alignment) || !d.processes { return false; }
    if d.contextSize == 0 && d.alignment != 1 { return false; }
    if d.parameters != [] && !d.sets { return false; }
    for index := 0 to |d.parameters|
      invariant forall i :: 0 <= i < index ==> ParameterValid(d.parameters[i])
      invariant forall i, j :: 0 <= j < i < index ==> d.parameters[i].id != d.parameters[j].id
    {
      var p := d.parameters[index];
      if p.minimum.NotANumber? || p.maximum.NotANumber? || p.initial.NotANumber?
         || Below(p.maximum, p.minimum) || Below(p.initial, p.minimum) || Below(p.maximum, p.initial) {
        assert !ParameterValid(d.parameters[index]);
        return false;
      }
      for previous := 0 to index
        invariant forall j :: 0 <= j < previous ==> d.parameters[index].id != d.parameters[j].id
      {
        if p.id == d.parameters[previous].id { return false; }
      }
    }
    return true;
  }

  /** effect_registry_validate */
  method RegistryValidate(registry: seq<Descriptor>) returns (status: Status)
    requires forall i :: 0 <= i < |registry| ==> |registry[i].parameters| < 0x1_0000
    ensures status == Ok <==> RegistryValid(registry)
    ensures status == Ok || status == InvalidDescriptor || status == DuplicateEffect
  {
    for index := 0 to |registry|
      invariant forall i :: 0 <= i < index ==> DescriptorValid(registry[i])
      invariant forall i, j :: 0 <= j < i < index ==> registry[i].key != registry[j].key
    {
      var valid := DescriptorIsValid(registry[index]);
      if !valid { return InvalidDescriptor; }
      for previous := 0 to index
        invariant forall j :: 0 <= j < previous ==> registry[index].key != registry[j].key
      {
        if registry[index].key == registry[previous].key { return DuplicateEffect; }
      }
    }
    return Ok;
  }

  /** effect_registry_find: the first descriptor with the key. */
  function Find(registry: seq<Descriptor>, key: Key): (d: Option<Descriptor>)
    ensures d.Some? ==> d.value in registry && d.value.key == key
    ensures d.None? ==> forall i :: 0 <= i < |registry| ==> registry[i].key != key
  {
    if registry == [] then None
    else if registry[0].key == key then Some(registry[0])
    else
      var rest := Find(registry[1..], key);
      assert forall i :: 0 < i < |registry| ==> registry[i] == registry[1..][i - 1];
      rest
  }

  /** effect_parameter_find */
  function FindParameter(parameters: seq<Parameter>, id: uint32): (p: Option<Parameter>)
    ensures p.Some? ==> p.value in parameters && p.value.id == id
    ensures p.None? ==> forall i :: 0 <= i < |parameters| ==> parameters[i].id != id
  {
    if parameters == [] then None
    else if parameters[0].id == id then Some(parameters[0])
    else
      var rest := FindParameter(parameters[1..], id);
      assert forall i :: 0 < i < |parameters| ==> parameters[i] == parameters[1..][i - 1];
      rest
  }

  /** The values after the defaults of the first n parameters have been set. */
  function Defaults(parameters: seq<Parameter>): map<uint32, Value> {
    if parameters == [] then map[]
    else Defaults(parameters[..|parameters| - 1])[parameters[|parameters| - 1].id := parameters[|parameters| - 1].initial]
  }

  /** Every parameter starts at its own default, and nothing else is set. */
  lemma {:induction false} DefaultsAreTheirs(parameters: seq<Parameter>)
    requires forall i, j :: 0 <= j < i < |parameters| ==> parameters[i].id != parameters[j].id
    ensures forall i :: 0 <= i < |parameters| ==>
      parameters[i].id in Defaults(parameters) && Defaults(parameters)[parameters[i].id] == parameters[i].initial
    ensures forall id :: id in Defaults(parameters) ==> exists i :: 0 <= i < |parameters| && parameters[i].id == id
  {
    if parameters != [] {
      var before := parameters[..|parameters| - 1];
      DefaultsAreTheirs(before);
      forall i | 0 <= i < |parameters|
        ensures parameters[i].id in Defaults(parameters) && Defaults(parameters)[parameters[i].id] == parameters[i].initial
      {
        if i < |before| { assert before[i] == parameters[i]; }
      }
      forall id | id in Defaults(parameters) ensures exists i :: 0 <= i < |parameters| && parameters[i].id == id {
        if id == parameters[|before|].id {
        } else {
          assert id in Defaults(before);
          var i :| 0 <= i < |before| && before[i].id == id;
          assert parameters[i].id == id;
        }
      }
    }
  }

  // ---- The arena ----

  /** The next multiple of a power of two. */
  function AlignUp(address: nat, alignment: uint32): (aligned: nat)
    requires AlignmentValid(alignment)
    ensures aligned % alignment == 0 && address <= aligned < address + alignment
  {
    RoundsDown(address + alignment - 1, alignment);
    address + alignment - 1 - (address + alignment - 1) % alignment
  }

  lemma RoundsDown(x: nat, a: nat)
    requires a > 0
    ensures 0 <= x % a < a && (x - x % a) % a == 0
  {
    MultipleOf(x / a, a);
    assert x - x % a == x / a * a;
  }

  lemma MultipleOf(k: nat, a: nat)
    requires a > 0
    ensures (k * a) % a == 0
  {
    var q, r := k * a / a, k * a % a;
    assert (k - q) * a == r;
    if k - q >= 1 { Scale(k - q, 1, a); } else if k - q <= -1 { Scale(-1, k - q, a); }
  }

  lemma Scale(x: int, y: int, a: nat)
    requires x >= y
    ensures x * a >= y * a
  {}

  /** Contexts one after another inside [base, base + used): aligned, and no two
      sharing a byte. */
  ghost predicate LaidOut(nodes: seq<Instance>, base: nat, used: nat) {
    && (forall i :: 0 <= i < |nodes| ==>
          && AlignmentValid(nodes[i].descriptor.alignment) && nodes[i].at % nodes[i].descriptor.alignment == 0
          && base <= nodes[i].at && nodes[i].at + nodes[i].descriptor.contextSize <= base + used)
    && forall i, j :: 0 <= i < j < |nodes| ==> nodes[i].at + nodes[i].descriptor.contextSize <= nodes[j].at
  }

  /** Whatever an address belongs to, it belongs to one context only. */
  lemma ContextsAreDisjoint(nodes: seq<Instance>, base: nat, used: nat, i: nat, j: nat, address: nat)
    requires LaidOut(nodes, base, used) && i < |nodes| && j < |nodes|
    requires nodes[i].at <= address < nodes[i].at + nodes[i].descriptor.contextSize
    requires nodes[j].at <= address < nodes[j].at + nodes[j].descriptor.contextSize
    ensures i == j && base <= address < base + used
  {}

  lemma RegisteredIsValid(registry: seq<Descriptor>, d: Descriptor)
    requires RegistryValid(registry) && d in registry
    ensures DescriptorValid(d) && AlignmentValid(d.alignment)
  {}

  lemma LaidOutNext(nodes: seq<Instance>, base: nat, used: nat, next: Instance)
    requires LaidOut(nodes, base, used) && AlignmentValid(next.descriptor.alignment)
    requires next.at == AlignUp(base + used, next.descriptor.alignment)
    ensures LaidOut(nodes + [next], base, next.at + next.descriptor.contextSize - base)
  {}

  /** The byte at an address is in the context of one node. */
  ghost predicate Owns(nodes: seq<Instance>, index: nat, address: nat) {
    index < |nodes| && nodes[index].at <= address < nodes[index].at + nodes[index].descriptor.contextSize
  }

  /** How a parameter change is judged, callbacks aside. */
  function SettingStatus(nodes: seq<Instance>, index: nat, id: uint32, value: Value): Status {
    if index >= |nodes| then InvalidArgument
    else if !nodes[index].descriptor.sets then ParameterNotFound
    else match FindParameter(nodes[index].descriptor.parameters, id)
      case None => ParameterNotFound
      case Some(p) => if InRange(p, value) then Ok else ParameterOutOfRange
  }

  predicate InRange(p: Parameter, value: Value) {
    value.Number? && !Below(value, p.minimum) && !Below(p.maximum, value)
  }

  class Chain {
    const registry: seq<Descriptor>
    const instances: array<Option<Instance>>
    /** Address of the arena's first byte, and its bytes. */
    const base: nat
    const arena: array<byte>
    /** True for effects whose callbacks never fail. */
    const obliging: bool
    var count: nat
    var arenaUsed: nat

    ghost predicate Stored()
      reads this, instances
    {
      && (arena as object) != instances
      && count <= instances.Length && arenaUsed <= arena.Length
      && (forall i :: 0 <= i < count ==> instances[i].Some?)
    }

    ghost function Nodes(): (nodes: seq<Instance>)
      reads this, instances
      requires Stored()
      ensures |nodes| == count
    {
      seq(count, i requires 0 <= i < count && Stored() reads this, instances => instances[i].value)
    }

    ghost predicate Valid()
      reads this, instances
    {
      && Stored() && RegistryValid(registry)
      && (forall i :: 0 <= i < count ==> Nodes()[i].descriptor in registry)
      && LaidOut(Nodes(), base, arenaUsed)
    }

    /** effect_chain_initialize, for a registry that validates */
    constructor (registry: seq<Descriptor>, instances: array<Option<Instance>>, base: nat, arena: array<byte>, obliging: bool)
      requires RegistryValid(registry) && (arena as object) != instances
      ensures Valid() && Nodes() == [] && arenaUsed == 0
      ensures this.registry == registry && this.instances == instances && this.base == base && this.arena == arena
      ensures this.obliging == obliging
    {
      this.registry, this.instances, this.base, this.arena, this.obliging := registry, instances, base, arena, obliging;
      count, arenaUsed := 0, 0;
    }

    /** bytes_zero */
    method BytesZero(from: nat, n: nat)
      requires from + n <= arena.Length
      modifies arena
      ensures forall i :: 0 <= i < arena.Length ==> arena[i] == if from <= i < from + n then 0 else old(arena[i])
    {
      for index := 0 to n
        invariant forall i :: 0 <= i < arena.Length ==> arena[i] == if from <= i < from + index then 0 else old(arena[i])
      {
        arena[from + index] := 0;
      }
    }

    /** An effect's own code, let loose on its context: it may fail, and it may
        write there and nowhere else. */
    method Callback(from: nat, n: nat) returns (ok: bool)
      requires from + n <= arena.Length
      modifies arena
      ensures obliging ==> ok
      ensures forall i :: 0 <= i < arena.Length && !(from <= i < from + n) ==> arena[i] == old(arena[i])
    {
      ok := *;
      if obliging { ok := true; }
      for index := 0 to n
        invariant forall i :: 0 <= i < arena.Length && !(from <= i < from + n) ==> arena[i] == old(arena[i])
      {
        var b: byte := *;
        arena[from + index] := b;
      }
    }

    /** The callbacks that bring a fresh context to its defaults. */
    method Configure(d: Descriptor, from: nat) returns (ok: bool, params: map<uint32, Value>)
      requires from + d.contextSize <= arena.Length
      modifies arena
      ensures ok ==> params == Defaults(d.parameters)
      ensures obliging ==> ok
      ensures forall i :: 0 <= i < arena.Length && !(from <= i < from + d.contextSize) ==> arena[i] == old(arena[i])
    {
      params := map[];
      if d.initializes {
        ok := Callback(from, d.contextSize);
        if !ok { return; }
      }
      for parameter := 0 to |d.parameters|
        invariant params == Defaults(d.parameters[..parameter])
        invariant forall i :: 0 <= i < arena.Length && !(from <= i < from + d.contextSize) ==> arena[i] == old(arena[i])
      {
        ok := Callback(from, d.contextSize);
        if !ok { return; }
        assert d.parameters[..parameter + 1][..parameter] == d.parameters[..parameter];
        params := params[d.parameters[parameter].id := d.parameters[parameter].initial];
      }
      assert d.parameters[..|d.parameters|] == d.parameters;
      ok := true;
    }

    /** effect_chain_add: all or nothing, and no byte of another context touched. */
    method Add(key: Key) returns (status: Status, index: nat)
      requires Valid()
      modifies this, instances, arena
      ensures Valid()
      ensures status == if old(count) >= instances.Length then ChainFull
                        else if Find(registry, key).None? then EffectNotFound
                        else if !Fits(old(arenaUsed), Find(registry, key).value) then ArenaFull
                        else if status == Ok then Ok else CallbackFailed
      ensures obliging ==> status != CallbackFailed
      ensures status == Ok ==>
        var d := Find(registry, key).value;
        && index == old(count) && arenaUsed == AlignUp(base + old(arenaUsed), d.alignment) + d.contextSize - base
        && Nodes() == old(Nodes()) + [Instance(d, AlignUp(base + old(arenaUsed), d.alignment), Defaults(d.parameters))]
      ensures status != Ok ==> Nodes() == old(Nodes()) && arenaUsed == old(arenaUsed)
      ensures forall i :: 0 <= i < old(arenaUsed) ==> arena[i] == old(arena[i])
    {
      hide LaidOut, DescriptorValid, Find, AlignUp, Defaults, AlignmentValid;
      index := 0;
      if count >= instances.Length { return ChainFull, 0; }
      var found := Find(registry, key);
      if found.None? { return EffectNotFound, 0; }
      var d := found.value;
      RegisteredIsValid(registry, d);
      var start := base + arenaUsed;
      var aligned := AlignUp(start, d.alignment);
      var padding := aligned - start;
      if padding > arena.Length - arenaUsed || d.contextSize > arena.Length - arenaUsed - padding { return ArenaFull, 0; }
      var from := arenaUsed + padding;
      BytesZero(from, d.contextSize);
      var configured, params := Configure(d, from);
      if !configured { return CallbackFailed, 0; }
      var next := Instance(d, aligned, params);
      LaidOutNext(Nodes(), base, arenaUsed, next);
      index := count;
      Append(next, arenaUsed + padding + d.contextSize);
      status := Ok;
    }

    method Append(next: Instance, used: nat)
      requires Valid() && count < instances.Length && next.descriptor in registry && used <= arena.Length
      requires LaidOut(Nodes() + [next], base, used)
      modifies this, instances
      ensures Valid() && count == old(count) + 1 && arenaUsed == used
      ensures Nodes() == old(Nodes()) + [next]
    {
      hide LaidOut, RegistryValid;
      ghost var nodes := Nodes();
      instances[count] := Some(next);
      count := count + 1;
      arenaUsed := used;
      assert Nodes() == nodes + [next];
    }

    /** effect_chain_clear, after the reset callbacks */
    method Clear()
      requires Valid()
      modifies this, instances, arena
      ensures Valid() && Nodes() == [] && arenaUsed == 0
      ensures forall i :: old(arenaUsed) <= i < arena.Length ==> arena[i] == old(arena[i])
    {
      ResetAll();
      for index := 0 to count
        invariant count == old(count) && arenaUsed == old(arenaUsed)
        invariant forall i :: old(arenaUsed) <= i < arena.Length ==> arena[i] == old(arena[i])
      {
        instances[index] := None;
      }
      count := 0;
      arenaUsed := 0;
    }

    /** effect_chain_reset: each effect's own code on its own context */
    method ResetAll()
      requires Valid()
      modifies arena
      ensures Valid() && Nodes() == old(Nodes())
      ensures forall i :: arenaUsed <= i < arena.Length ==> arena[i] == old(arena[i])
    {
      for index := 0 to count
        invariant forall i :: arenaUsed <= i < arena.Length ==> arena[i] == old(arena[i])
      {
        var node := instances[index].value;
        assert node == Nodes()[index];
        var done := Callback(node.at - base, node.descriptor.contextSize);
      }
    }

    /** effect_chain_set_parameter */
    method SetParameter(index: nat, id: uint32, value: Value) returns (status: Status)
      requires Valid()
      modifies instances, arena
      ensures Valid() && |Nodes()| == |old(Nodes())|
      ensures status == SettingStatus(old(Nodes()), index, id, value)
              || (status == CallbackFailed && SettingStatus(old(Nodes()), index, id, value) == Ok)
      ensures obliging ==> status != CallbackFailed
      ensures status == Ok ==>
        index < count && Nodes() == old(Nodes())[index := old(Nodes())[index].(params := old(Nodes())[index].params[id := value])]
      ensures status != Ok && status != CallbackFailed ==> Nodes() == old(Nodes())
      ensures forall i :: 0 <= i < arena.Length && !Owns(old(Nodes()), index, base + i) ==> arena[i] == old(arena[i])
    {
      if index >= count { return InvalidArgument; }
      var node := instances[index].value;
      assert node == Nodes()[index];
      if !node.descriptor.sets { return ParameterNotFound; }
      var parameter := FindParameter(node.descriptor.parameters, id);
      if parameter.None? { return ParameterNotFound; }
      if value.NotANumber? || Below(value, parameter.value.minimum) || Below(parameter.value.maximum, value) {
        return ParameterOutOfRange;
      }
      var ok := Callback(node.at - base, node.descriptor.contextSize);
      var kept: map<uint32, Value> := *;
      Replace(index, node.(params := if ok then node.params[id := value] else kept));
      if !ok { return CallbackFailed; }
      return Ok;
    }

    method Replace(index: nat, node: Instance)
      requires Valid() && index < count && node == Nodes()[index].(params := node.params)
      modifies instances
      ensures Valid() && Nodes() == old(Nodes())[index := node]
    {
      ghost var nodes := Nodes();
      instances[index] := Some(node);
      assert Nodes() == nodes[index := node];
    }

    /** Room for one more context. */
    predicate Fits(used: nat, d: Descriptor)
      reads this
      requires AlignmentValid(d.alignment)
    {
      AlignUp(base + used, d.alignment) + d.contextSize <= base + arena.Length
    }
  }
}
