/** Pool inventories, their validation, and their projection onto the wire. */
module Inventory {
  import opened Wrappers
  import opened Names
  import opened Sorting
  import opened Slices
  import opened Canonical
  import opened Respelling
  import Quantity

  type Amount = q: Quantity.Quantity | Quantity.Valid(q) witness Quantity.FromInteger(0)

  datatype TaintEffect = NoEffect | NoSchedule | NoExecute

  datatype InventoryTaint = InventoryTaint(key: string, value: string, effect: TaintEffect, timeAdded: Option<int>)

  datatype InventoryConsumption = InventoryConsumption(counterSet: string, counters: map<string, Amount>)

  datatype InventorySet = InventorySet(name: string, counters: map<string, Amount>)

  datatype Binding = Binding(conditions: seq<string>, failureConditions: seq<string>, bindsToNode: bool)

  datatype InventoryDevice = InventoryDevice(
    name: string,
    attributes: map<string, Attribute>,
    capacity: map<string, Amount>,
    taints: seq<InventoryTaint>,
    binding: Option<Binding>,
    consumes: seq<InventoryConsumption>)

  datatype PoolInventory = PoolInventory(devices: seq<InventoryDevice>, sharedCounters: seq<InventorySet>)

  datatype Fault =
    | InvalidPoolName | InvalidCounterName | BadCounterCount | DuplicateCounterSet
    | TooManyTaints | DuplicateTaint | InvalidTaintTime
    | TooManyConsumptions | DuplicateConsumption
    | TooManyConditions | DuplicateCondition
    | UnknownCounterSet | UnknownCounter | DuplicateDevice
    | TooManySlices | GenerationExhausted | NameOwnedByOtherPool
    | MissingUid | MissingVersion | ApiRefused

  const MAX_TAINTS_PER_DEVICE: nat := 16
  const MAX_BINDING_CONDITIONS: nat := 4
  const MAX_COUNTERS: nat := 32
  const MAX_CONSUMPTIONS_PER_DEVICE: nat := 2
  /** The seconds a taint timestamp can represent. */
  const MIN_SECOND: int := -377705023201
  const MAX_SECOND: int := 253402207200

  // ----- Projection -----

  function EffectText(effect: TaintEffect): string
  {
    match effect
    case NoEffect => "None"
    case NoSchedule => "NoSchedule"
    case NoExecute => "NoExecute"
  }

  function WireTaint(t: InventoryTaint): Taint
  {
    Taint(t.key, EffectText(t.effect), if t.value == "" then None else Some(t.value), t.timeAdded)
  }

  function WireAmounts(m: map<string, Amount>): map<string, string>
  {
    map k | k in m :: Quantity.Print(m[k])
  }

  function WireConsumption(c: InventoryConsumption): Consumption
  {
    Consumption(c.counterSet, WireAmounts(c.counters))
  }

  function WireSet(c: InventorySet): CounterSet
  {
    CounterSet(c.name, WireAmounts(c.counters))
  }

  function BindingOf(d: InventoryDevice): Binding
  {
    if d.binding.Some? then d.binding.value else Binding([], [], false)
  }

  function WireDevice(d: InventoryDevice): Device
  {
    var binding := BindingOf(d);
    Device(
      d.name,
      NonEmptyMap(Some(d.attributes)),
      NonEmptyMap(Some(WireAmounts(d.capacity))),
      NonEmpty(Map(WireTaint, d.taints)),
      NonEmpty(Map(WireConsumption, d.consumes)),
      NonEmpty(binding.conditions),
      NonEmpty(binding.failureConditions),
      if binding.bindsToNode then Some(true) else None)
  }

  // ----- Validation, in the order the code checks -----

  predicate ValidCounters(counters: map<string, Amount>)
  {
    0 < |counters| <= MAX_COUNTERS && forall name :: name in counters ==> Label(name, 63)
  }

  function CountersFault(counters: map<string, Amount>): Option<Fault>
  {
    if |counters| == 0 || |counters| > MAX_COUNTERS then Some(BadCounterCount)
    else if exists name :: name in counters && !Label(name, 63) then Some(InvalidCounterName)
    else None
  }

  predicate ValidTime(t: InventoryTaint)
  {
    t.timeAdded.Some? ==> MIN_SECOND <= t.timeAdded.value <= MAX_SECOND
  }

  function InventoryTaintKey(t: InventoryTaint): Key { [t.key, EffectText(t.effect)] }

  function InventoryConsumptionKey(c: InventoryConsumption): Key { [c.counterSet] }

  function InventorySetKey(c: InventorySet): Key { [c.name] }

  /** Taints are checked while their identities are inserted into a set. */
  method CheckTaints(taints: seq<InventoryTaint>) returns (fault: Option<Fault>)
    ensures fault.None? <==> ValidTaints(taints)
  {
    if |taints| > MAX_TAINTS_PER_DEVICE {
      return Some(TooManyTaints);
    }
    var identities: set<Key> := {};
    for i := 0 to |taints|
      invariant identities == set j | 0 <= j < i :: InventoryTaintKey(taints[j])
      invariant DistinctKeys(taints[..i], InventoryTaintKey)
      invariant forall j :: 0 <= j < i ==> ValidTime(taints[j])
    {
      var identity := InventoryTaintKey(taints[i]);
      if identity in identities {
        return Some(DuplicateTaint);
      }
      if !ValidTime(taints[i]) {
        return Some(InvalidTaintTime);
      }
      identities := identities + {identity};
    }
    assert taints[..|taints|] == taints;
    return None;
  }

  predicate ValidTaints(taints: seq<InventoryTaint>)
  {
    |taints| <= MAX_TAINTS_PER_DEVICE && DistinctKeys(taints, InventoryTaintKey) && forall t :: t in taints ==> ValidTime(t)
  }

  predicate ValidConsumption(c: InventoryConsumption)
  {
    Label(c.counterSet, 63) && ValidCounters(c.counters)
  }

  predicate ValidConsumptions(consumes: seq<InventoryConsumption>)
  {
    && |consumes| <= MAX_CONSUMPTIONS_PER_DEVICE
    && DistinctKeys(consumes, InventoryConsumptionKey)
    && forall c :: c in consumes ==> ValidConsumption(c)
  }

  method CheckConsumptions(consumes: seq<InventoryConsumption>) returns (fault: Option<Fault>)
    ensures fault.None? <==> ValidConsumptions(consumes)
  {
    if |consumes| > MAX_CONSUMPTIONS_PER_DEVICE {
      return Some(TooManyConsumptions);
    }
    var names: set<Key> := {};
    for i := 0 to |consumes|
      invariant names == set j | 0 <= j < i :: InventoryConsumptionKey(consumes[j])
      invariant DistinctKeys(consumes[..i], InventoryConsumptionKey)
      invariant forall j :: 0 <= j < i ==> ValidConsumption(consumes[j])
    {
      assert consumes[i] in consumes;
      if !Label(consumes[i].counterSet, 63) {
        return Some(InvalidCounterName);
      }
      if InventoryConsumptionKey(consumes[i]) in names {
        return Some(DuplicateConsumption);
      }
      if CountersFault(consumes[i].counters).Some? {
        return CountersFault(consumes[i].counters);
      }
      names := names + {InventoryConsumptionKey(consumes[i])};
    }
    assert consumes[..|consumes|] == consumes;
    return None;
  }

  predicate ValidConditions(conditions: seq<string>)
  {
    |conditions| <= MAX_BINDING_CONDITIONS && DistinctKeys(conditions, TextKey)
  }

  function ConditionsFault(conditions: seq<string>): Option<Fault>
  {
    if |conditions| > MAX_BINDING_CONDITIONS then Some(TooManyConditions)
    else if !DistinctKeys(conditions, TextKey) then Some(DuplicateCondition)
    else None
  }

  predicate ValidDevice(d: InventoryDevice)
  {
    && ValidTaints(d.taints)
    && ValidConsumptions(d.consumes)
    && ValidConditions(BindingOf(d).conditions) && ValidConditions(BindingOf(d).failureConditions)
  }

  method CheckDevice(d: InventoryDevice) returns (fault: Option<Fault>)
    ensures fault.None? <==> ValidDevice(d)
  {
    fault := CheckTaints(d.taints);
    if fault.Some? {
      return;
    }
    fault := CheckConsumptions(d.consumes);
    if fault.Some? {
      return;
    }
    fault := ConditionsFault(BindingOf(d).conditions);
    if fault.Some? {
      return;
    }
    fault := ConditionsFault(BindingOf(d).failureConditions);
  }

  predicate ValidSet(c: InventorySet)
  {
    Label(c.name, 63) && ValidCounters(c.counters)
  }

  predicate ValidSets(sets: seq<InventorySet>)
  {
    DistinctKeys(sets, InventorySetKey) && forall c :: c in sets ==> ValidSet(c)
  }

  method CheckSets(sets: seq<InventorySet>) returns (fault: Option<Fault>)
    ensures fault.None? <==> ValidSets(sets)
  {
    var names: set<Key> := {};
    for i := 0 to |sets|
      invariant names == set j | 0 <= j < i :: InventorySetKey(sets[j])
      invariant DistinctKeys(sets[..i], InventorySetKey)
      invariant forall j :: 0 <= j < i ==> ValidSet(sets[j])
    {
      assert sets[i] in sets;
      if !Label(sets[i].name, 63) {
        return Some(InvalidCounterName);
      }
      if InventorySetKey(sets[i]) in names {
        return Some(DuplicateCounterSet);
      }
      if CountersFault(sets[i].counters).Some? {
        return CountersFault(sets[i].counters);
      }
      names := names + {InventorySetKey(sets[i])};
    }
    assert sets[..|sets|] == sets;
    return None;
  }

  /** Every counter a device consumes is defined by a set of its own pool. */
  predicate Resolves(c: Consumption, sets: seq<CounterSet>)
  {
    exists s :: s in sets && s.name == c.counterSet && c.counters.Keys <= s.counters.Keys
  }

  predicate ReferencesResolve(devices: seq<Device>, sets: seq<CounterSet>)
  {
    forall d :: d in devices ==> forall c :: c in Items(d.consumes) ==> Resolves(c, sets)
  }

  method IndexSets(sets: seq<CounterSet>) returns (byName: map<string, CounterSet>)
    requires DistinctKeys(sets, SetKey)
    ensures forall name :: name in byName ==> byName[name] in sets && byName[name].name == name
    ensures forall s :: s in sets ==> s.name in byName && byName[s.name] == s
  {
    byName := map[];
    for i := 0 to |sets|
      invariant forall name :: name in byName ==> byName[name] in sets[..i] && byName[name].name == name
      invariant forall j :: 0 <= j < i ==> sets[j].name in byName && byName[sets[j].name] == sets[j]
    {
      forall j | 0 <= j < i
        ensures sets[j].name != sets[i].name
      {
        assert SetKey(sets[j]) != SetKey(sets[i]);
      }
      byName := byName[sets[i].name := sets[i]];
    }
  }

  method CheckReferences(devices: seq<Device>, sets: seq<CounterSet>) returns (fault: Option<Fault>)
    requires DistinctKeys(sets, SetKey)
    ensures fault.None? <==> ReferencesResolve(devices, sets)
  {
    var byName := IndexSets(sets);
    for i := 0 to |devices|
      invariant forall k :: 0 <= k < i ==> forall c :: c in Items(devices[k].consumes) ==> Resolves(c, sets)
    {
      var consumes := Items(devices[i].consumes);
      for j := 0 to |consumes|
        invariant forall k :: 0 <= k < j ==> Resolves(consumes[k], sets)
      {
        var c := consumes[j];
        assert devices[i] in devices && c in Items(devices[i].consumes);
        if c.counterSet !in byName {
          return Some(UnknownCounterSet);
        }
        if !(c.counters.Keys <= byName[c.counterSet].counters.Keys) {
          return Some(UnknownCounter);
        }
      }
    }
    return None;
  }

  // ----- The validated wire form of an inventory -----

  datatype Wired = Wired(devices: seq<Device>, sets: seq<CounterSet>)

  function WireAll(inventory: PoolInventory): Wired
  {
    Wired(CanonDevices(Map(WireDevice, inventory.devices)), SortBy(Map(WireSet, inventory.sharedCounters), SetKey))
  }

  predicate ValidInventory(pool: string, inventory: PoolInventory)
  {
    var wired := WireAll(inventory);
    && PoolName(pool)
    && ValidSets(inventory.sharedCounters)
    && AllValid(inventory.devices)
    && ReferencesResolve(wired.devices, wired.sets)
    && DistinctKeys(wired.devices, DeviceKey)
  }

  lemma WiredSetsDistinct(sets: seq<InventorySet>)
    requires DistinctKeys(sets, InventorySetKey)
    ensures DistinctKeys(Map(WireSet, sets), SetKey) && DistinctKeys(SortBy(Map(WireSet, sets), SetKey), SetKey)
  {
    var wire := Map(WireSet, sets);
    forall i, j | 0 <= i < j < |wire|
      ensures SetKey(wire[i]) != SetKey(wire[j])
    {
      assert InventorySetKey(sets[i]) != InventorySetKey(sets[j]);
    }
    DistinctPermutation(wire, SortBy(wire, SetKey), SetKey);
  }

  lemma KeyLeqAntisymmetricNext(devices: seq<Device>, i: nat, j: nat)
    requires Sorted(devices, DeviceKey) && i < j < |devices| && DeviceKey(devices[i]) == DeviceKey(devices[j])
    ensures devices[i].name == devices[i + 1].name
  {
    KeyLeqReflexive(DeviceKey(devices[j]));
    KeyLeqAntisymmetric(DeviceKey(devices[i]), DeviceKey(devices[i + 1]));
    assert DeviceKey(devices[i])[0] == DeviceKey(devices[i + 1])[0];
  }

  predicate NamesDiffer(devices: seq<Device>, i: nat)
  {
    i + 1 < |devices| && devices[i].name != devices[i + 1].name
  }

  /** In a sorted list, comparing neighbours finds every duplicate. */
  method CheckNames(devices: seq<Device>) returns (fault: Option<Fault>)
    requires Sorted(devices, DeviceKey)
    ensures fault.None? <==> DistinctKeys(devices, DeviceKey)
  {
    var i := 0;
    while i + 1 < |devices|
      invariant forall j :: 0 <= j < i ==> NamesDiffer(devices, j)
    {
      if devices[i].name == devices[i + 1].name {
        assert DeviceKey(devices[i]) == DeviceKey(devices[i + 1]);
        return Some(DuplicateDevice);
      }
      i := i + 1;
    }
    forall i, j | 0 <= i < j < |devices|
      ensures DeviceKey(devices[i]) != DeviceKey(devices[j])
    {
      assert NamesDiffer(devices, i);
      if DeviceKey(devices[i]) == DeviceKey(devices[j]) {
        KeyLeqAntisymmetricNext(devices, i, j);
      }
    }
    return None;
  }

  method WireDevices(input: seq<InventoryDevice>) returns (r: Result<seq<Device>, Fault>)
    ensures r.Ok? <==> AllValid(input)
    ensures r.Ok? ==> r.value == Map(WireDevice, input)
  {
    var devices: seq<Device> := [];
    for i := 0 to |input|
      invariant devices == Map(WireDevice, input[..i])
      invariant forall j :: 0 <= j < i ==> ValidDevice(input[j])
    {
      var fault := CheckDevice(input[i]);
      if fault.Some? {
        assert input[i] in input;
        return Err(fault.value);
      }
      assert input[..i + 1] == input[..i] + [input[i]];
      devices := devices + [WireDevice(input[i])];
    }
    assert input[..|input|] == input;
    return Ok(devices);
  }

  /** Validation and projection of one pool, in the order of the code; nothing is written here. */
  method WireInventory(pool: string, inventory: PoolInventory) returns (r: Result<Wired, Fault>)
    ensures r.Ok? <==> ValidInventory(pool, inventory)
    ensures r.Ok? ==> r.value == WireAll(inventory)
  {
    if !PoolName(pool) {
      return Err(InvalidPoolName);
    }
    var fault := CheckSets(inventory.sharedCounters);
    if fault.Some? {
      return Err(fault.value);
    }
    var sets := SortBy(Map(WireSet, inventory.sharedCounters), SetKey);
    WiredSetsDistinct(inventory.sharedCounters);
    var devices := WireDevices(inventory.devices);
    if devices.Err? {
      return Err(devices.error);
    }
    var wired := CanonicalizeDevices(devices.value);
    fault := CheckReferences(wired, sets);
    if fault.Some? {
      return Err(fault.value);
    }
    SortBySorted(Map(CanonDevice, devices.value), DeviceKey);
    fault := CheckNames(wired);
    if fault.Some? {
      return Err(fault.value);
    }
    return Ok(Wired(wired, sets));
  }

  // ----- The order of an inventory does not matter -----

  predicate SameConditions(a: Binding, b: Binding)
  {
    && multiset(a.conditions) == multiset(b.conditions)
    && multiset(a.failureConditions) == multiset(b.failureConditions)
    && a.bindsToNode == b.bindsToNode
  }

  predicate SameInventoryDevice(a: InventoryDevice, b: InventoryDevice)
  {
    && a.name == b.name && a.attributes == b.attributes && a.capacity == b.capacity
    && multiset(a.taints) == multiset(b.taints)
    && multiset(a.consumes) == multiset(b.consumes)
    && SameConditions(BindingOf(a), BindingOf(b))
  }

  /** The same devices and counter sets, every list possibly reordered. */
  ghost predicate SameInventory(a: PoolInventory, b: PoolInventory)
  {
    && RespelledList(a.devices, b.devices, SameInventoryDevice)
    && multiset(a.sharedCounters) == multiset(b.sharedCounters)
  }

  lemma ItemsOfNonEmpty<T>(xs: seq<T>)
    ensures Items(NonEmpty(xs)) == xs
  {
  }

  lemma CanonWireDevice(d: InventoryDevice)
    ensures CanonWire(d) == Device(
      d.name, NonEmptyMap(Some(d.attributes)), NonEmptyMap(Some(WireAmounts(d.capacity))),
      NonEmpty(CanonTaints(Map(WireTaint, d.taints))),
      NonEmpty(SortBy(Map(WireConsumption, d.consumes), ConsumptionKey)),
      NonEmpty(SortBy(BindingOf(d).conditions, TextKey)),
      NonEmpty(SortBy(BindingOf(d).failureConditions, TextKey)),
      if BindingOf(d).bindsToNode then Some(true) else None)
  {
  }

  lemma TaintKeysDistinct(taints: seq<InventoryTaint>)
    requires DistinctKeys(taints, InventoryTaintKey)
    ensures DistinctKeys(Map(CanonTaint, Map(WireTaint, taints)), TaintKey)
    ensures DistinctKeys(CanonTaints(Map(WireTaint, taints)), TaintKey)
    ensures DistinctKeys(CanonTaints(Map(WireTaint, taints)), TaintIdentity)
  {
    var wire := Map(CanonTaint, Map(WireTaint, taints));
    forall i, j | 0 <= i < j < |wire|
      ensures TaintIdentity(wire[i]) != TaintIdentity(wire[j]) && TaintKey(wire[i]) != TaintKey(wire[j])
    {
      assert TaintIdentity(wire[i]) == InventoryTaintKey(taints[i]) == TaintKey(wire[i])[..2];
      assert TaintIdentity(wire[j]) == InventoryTaintKey(taints[j]) == TaintKey(wire[j])[..2];
    }
    DistinctPermutation(wire, SortBy(wire, TaintKey), TaintKey);
    DistinctPermutation(wire, SortBy(wire, TaintKey), TaintIdentity);
  }

  lemma ConsumptionKeysDistinct(consumes: seq<InventoryConsumption>)
    requires DistinctKeys(consumes, InventoryConsumptionKey)
    ensures DistinctKeys(Map(WireConsumption, consumes), ConsumptionKey)
    ensures DistinctKeys(SortBy(Map(WireConsumption, consumes), ConsumptionKey), ConsumptionKey)
  {
    var wire := Map(WireConsumption, consumes);
    forall i, j | 0 <= i < j < |wire|
      ensures ConsumptionKey(wire[i]) != ConsumptionKey(wire[j])
    {
      assert InventoryConsumptionKey(consumes[i]) != InventoryConsumptionKey(consumes[j]);
    }
    DistinctPermutation(wire, SortBy(wire, ConsumptionKey), ConsumptionKey);
  }

  lemma SameDeviceSameValidity(a: InventoryDevice, b: InventoryDevice)
    requires SameInventoryDevice(a, b)
    ensures ValidDevice(a) <==> ValidDevice(b)
  {
    SamePermutationElements(a.taints, b.taints);
    DistinctPermutation(a.taints, b.taints, InventoryTaintKey);
    SamePermutationElements(a.consumes, b.consumes);
    DistinctPermutation(a.consumes, b.consumes, InventoryConsumptionKey);
    var x, y := BindingOf(a), BindingOf(b);
    SamePermutationElements(x.conditions, y.conditions);
    DistinctPermutation(x.conditions, y.conditions, TextKey);
    SamePermutationElements(x.failureConditions, y.failureConditions);
    DistinctPermutation(x.failureConditions, y.failureConditions, TextKey);
  }

  lemma SameDeviceSameWire(a: InventoryDevice, b: InventoryDevice)
    requires SameInventoryDevice(a, b) && ValidDevice(a)
    ensures CanonWire(a) == CanonWire(b)
  {
    CanonWireDevice(a);
    CanonWireDevice(b);
    TaintKeysDistinct(a.taints);
    DistinctKeysDecide(Map(CanonTaint, Map(WireTaint, a.taints)), TaintKey);
    MapMultiset(WireTaint, a.taints, b.taints);
    MapMultiset(CanonTaint, Map(WireTaint, a.taints), Map(WireTaint, b.taints));
    SortByPermutation(Map(CanonTaint, Map(WireTaint, a.taints)), Map(CanonTaint, Map(WireTaint, b.taints)), TaintKey);
    ConsumptionKeysDistinct(a.consumes);
    DistinctKeysDecide(Map(WireConsumption, a.consumes), ConsumptionKey);
    MapMultiset(WireConsumption, a.consumes, b.consumes);
    SortByPermutation(Map(WireConsumption, a.consumes), Map(WireConsumption, b.consumes), ConsumptionKey);
    SortedText(BindingOf(a).conditions, BindingOf(b).conditions);
    SortedText(BindingOf(a).failureConditions, BindingOf(b).failureConditions);
  }

  lemma SameSetsSameWire(a: seq<InventorySet>, b: seq<InventorySet>)
    requires multiset(a) == multiset(b)
    ensures ValidSets(a) <==> ValidSets(b)
    ensures ValidSets(a) ==> SortBy(Map(WireSet, a), SetKey) == SortBy(Map(WireSet, b), SetKey)
  {
    SamePermutationElements(a, b);
    DistinctPermutation(a, b, InventorySetKey);
    if ValidSets(a) {
      WiredSetsDistinct(a);
      DistinctKeysDecide(Map(WireSet, a), SetKey);
      MapMultiset(WireSet, a, b);
      SortByPermutation(Map(WireSet, a), Map(WireSet, b), SetKey);
    }
  }

  predicate AllValid(devices: seq<InventoryDevice>)
  {
    forall d :: d in devices ==> ValidDevice(d)
  }

  function CanonWire(d: InventoryDevice): Device
  {
    CanonDevice(WireDevice(d))
  }

  lemma PairwiseValid(a: seq<InventoryDevice>, m: seq<InventoryDevice>)
    requires Pairwise(a, m, SameInventoryDevice)
    ensures AllValid(a) <==> AllValid(m)
  {
    forall x, y | SameInventoryDevice(x, y)
      ensures ValidDevice(x) == ValidDevice(y)
    {
      SameDeviceSameValidity(x, y);
    }
    AllRelated(a, m, SameInventoryDevice, ValidDevice);
  }

  lemma PairwiseSameWire(a: seq<InventoryDevice>, m: seq<InventoryDevice>)
    requires Pairwise(a, m, SameInventoryDevice) && AllValid(a)
    ensures Map(CanonWire, a) == Map(CanonWire, m)
  {
    forall x, y | SameInventoryDevice(x, y) && ValidDevice(x)
      ensures CanonWire(x) == CanonWire(y)
    {
      SameDeviceSameWire(x, y);
    }
    MapRelated(CanonWire, a, m, SameInventoryDevice, ValidDevice);
  }

  lemma CanonWireMap(a: seq<InventoryDevice>)
    ensures Map(CanonDevice, Map(WireDevice, a)) == Map(CanonWire, a)
  {
  }

  lemma SameDevicesSameWire(a: seq<InventoryDevice>, b: seq<InventoryDevice>)
    requires RespelledList(a, b, SameInventoryDevice)
    ensures AllValid(a) <==> AllValid(b)
    ensures AllValid(a) ==> multiset(Map(CanonWire, a)) == multiset(Map(CanonWire, b))
  {
    var m: seq<InventoryDevice> :| Pairwise(a, m, SameInventoryDevice) && multiset(m) == multiset(b);
    SamePermutationElements(m, b);
    PairwiseValid(a, m);
    if AllValid(a) {
      PairwiseSameWire(a, m);
    }
    MapMultiset(CanonWire, m, b);
  }

  /** A reordered inventory is valid exactly when the original is, and has the same wire form. */
  lemma WireIgnoresOrder(pool: string, a: PoolInventory, b: PoolInventory)
    requires SameInventory(a, b) && ValidInventory(pool, a)
    ensures ValidInventory(pool, b) && WireAll(a) == WireAll(b)
  {
    SameSetsSameWire(a.sharedCounters, b.sharedCounters);
    SameDevicesSameWire(a.devices, b.devices);
    CanonWireMap(a.devices);
    CanonWireMap(b.devices);
    var x, y := Map(CanonWire, a.devices), Map(CanonWire, b.devices);
    DistinctPermutation(SortBy(x, DeviceKey), x, DeviceKey);
    DistinctKeysDecide(x, DeviceKey);
    SortByPermutation(x, y, DeviceKey);
  }
}
