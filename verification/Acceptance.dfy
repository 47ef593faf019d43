/** Which inventories a publisher accepts, in the inventory's own terms. */
module Acceptance {
  import opened Wrappers
  import opened Sorting
  import opened Names
  import opened Slices
  import opened Canonical
  import opened Inventory
  import opened Advertised

  predicate CountersOk(counters: map<string, Amount>)
  {
    1 <= |counters| <= 32 && forall name :: name in counters ==> Label(name, 63)
  }

  predicate TaintsOk(taints: seq<InventoryTaint>)
  {
    && |taints| <= 16
    && (forall i, j :: 0 <= i < j < |taints| ==> taints[i].key != taints[j].key || taints[i].effect != taints[j].effect)
    && forall t :: t in taints && t.timeAdded.Some? ==> -377705023201 <= t.timeAdded.value <= 253402207200
  }

  predicate ConsumesOk(consumes: seq<InventoryConsumption>)
  {
    && |consumes| <= 2
    && (forall i, j :: 0 <= i < j < |consumes| ==> consumes[i].counterSet != consumes[j].counterSet)
    && forall c :: c in consumes ==> Label(c.counterSet, 63) && CountersOk(c.counters)
  }

  predicate NamesOk(names: seq<string>)
  {
    |names| <= 4 && forall i, j :: 0 <= i < j < |names| ==> names[i] != names[j]
  }

  predicate DeviceOk(d: InventoryDevice)
  {
    && TaintsOk(d.taints) && ConsumesOk(d.consumes)
    && (d.binding.Some? ==> NamesOk(d.binding.value.conditions) && NamesOk(d.binding.value.failureConditions))
  }

  predicate SetsOk(sets: seq<InventorySet>)
  {
    && (forall i, j :: 0 <= i < j < |sets| ==> sets[i].name != sets[j].name)
    && forall c :: c in sets ==> Label(c.name, 63) && CountersOk(c.counters)
  }

  predicate Provided(c: InventoryConsumption, sets: seq<InventorySet>)
  {
    exists s :: s in sets && s.name == c.counterSet && c.counters.Keys <= s.counters.Keys
  }

  /** Every counter consumed is one the pool shares. */
  predicate AllProvided(inventory: PoolInventory)
  {
    forall d :: d in inventory.devices ==> forall c :: c in d.consumes ==> Provided(c, inventory.sharedCounters)
  }

  predicate Acceptable(pool: string, inventory: PoolInventory)
  {
    && PoolName(pool) && SetsOk(inventory.sharedCounters)
    && (forall i, j :: 0 <= i < j < |inventory.devices| ==> inventory.devices[i].name != inventory.devices[j].name)
    && (forall d :: d in inventory.devices ==> DeviceOk(d)) && AllProvided(inventory)
  }

  lemma CountersMean(counters: map<string, Amount>)
    ensures ValidCounters(counters) <==> CountersOk(counters)
  {
  }

  lemma EffectsDiffer(a: TaintEffect, b: TaintEffect)
    ensures EffectText(a) == EffectText(b) <==> a == b
  {
    assert "NoSchedule"[2] != "NoExecute"[2];
    assert "None"[2] == 'n' && "NoSchedule"[2] == 'S' && "NoExecute"[2] == 'E';
  }

  lemma TaintKeys(a: InventoryTaint, b: InventoryTaint)
    ensures InventoryTaintKey(a) == InventoryTaintKey(b) <==> a.key == b.key && a.effect == b.effect
  {
    EffectsDiffer(a.effect, b.effect);
    assert InventoryTaintKey(a)[0] == a.key && InventoryTaintKey(a)[1] == EffectText(a.effect);
    assert InventoryTaintKey(b)[0] == b.key && InventoryTaintKey(b)[1] == EffectText(b.effect);
  }

  lemma TaintsMean(taints: seq<InventoryTaint>)
    ensures ValidTaints(taints) <==> TaintsOk(taints)
  {
    forall i, j | 0 <= i < j < |taints|
      ensures InventoryTaintKey(taints[i]) == InventoryTaintKey(taints[j]) <==> taints[i].key == taints[j].key && taints[i].effect == taints[j].effect
    {
      TaintKeys(taints[i], taints[j]);
    }
  }

  lemma ConsumesMean(consumes: seq<InventoryConsumption>)
    ensures ValidConsumptions(consumes) <==> ConsumesOk(consumes)
  {
    forall i, j | 0 <= i < j < |consumes|
      ensures InventoryConsumptionKey(consumes[i]) == InventoryConsumptionKey(consumes[j]) <==> consumes[i].counterSet == consumes[j].counterSet
    {
      assert InventoryConsumptionKey(consumes[i])[0] == consumes[i].counterSet;
      assert InventoryConsumptionKey(consumes[j])[0] == consumes[j].counterSet;
    }
  }

  lemma NamesMean(names: seq<string>)
    ensures ValidConditions(names) <==> NamesOk(names)
  {
    forall i, j | 0 <= i < j < |names|
      ensures TextKey(names[i]) == TextKey(names[j]) <==> names[i] == names[j]
    {
      assert TextKey(names[i])[0] == names[i] && TextKey(names[j])[0] == names[j];
    }
  }

  /** A device is accepted exactly when its taints, consumptions and conditions are within the limits and not repeated. */
  lemma DeviceMeans(d: InventoryDevice)
    ensures ValidDevice(d) <==> DeviceOk(d)
  {
    TaintsMean(d.taints);
    ConsumesMean(d.consumes);
    NamesMean(BindingOf(d).conditions);
    NamesMean(BindingOf(d).failureConditions);
  }

  lemma SetsMean(sets: seq<InventorySet>)
    ensures ValidSets(sets) <==> SetsOk(sets)
  {
    forall i, j | 0 <= i < j < |sets|
      ensures InventorySetKey(sets[i]) == InventorySetKey(sets[j]) <==> sets[i].name == sets[j].name
    {
      assert InventorySetKey(sets[i])[0] == sets[i].name && InventorySetKey(sets[j])[0] == sets[j].name;
    }
  }

  lemma CanonWireKey(d: InventoryDevice)
    ensures DeviceKey(CanonWire(d)) == [d.name]
  {
  }

  /** The wanted devices have distinct names exactly when the inventory's do. */
  lemma DeviceNamesMean(inventory: PoolInventory)
    ensures DistinctKeys(WireAll(inventory).devices, DeviceKey) <==>
      forall i, j :: 0 <= i < j < |inventory.devices| ==> inventory.devices[i].name != inventory.devices[j].name
  {
    CanonWireMap(inventory.devices);
    var wanted := Map(CanonWire, inventory.devices);
    DistinctPermutation(WireAll(inventory).devices, wanted, DeviceKey);
    forall i, j | 0 <= i < j < |wanted|
      ensures DeviceKey(wanted[i]) == DeviceKey(wanted[j]) <==> inventory.devices[i].name == inventory.devices[j].name
    {
      CanonWireKey(inventory.devices[i]);
      CanonWireKey(inventory.devices[j]);
      assert DeviceKey(wanted[i])[0] == inventory.devices[i].name && DeviceKey(wanted[j])[0] == inventory.devices[j].name;
    }
  }

  lemma SetProvides(c: InventoryConsumption, s: InventorySet)
    ensures WireSet(s).name == WireConsumption(c).counterSet && WireConsumption(c).counters.Keys <= WireSet(s).counters.Keys <==>
      s.name == c.counterSet && c.counters.Keys <= s.counters.Keys
  {
    assert WireAmounts(c.counters).Keys == c.counters.Keys && WireAmounts(s.counters).Keys == s.counters.Keys;
  }

  lemma ProvidedMeans(c: InventoryConsumption, inventory: PoolInventory)
    ensures Resolves(WireConsumption(c), WireAll(inventory).sets) <==> Provided(c, inventory.sharedCounters)
  {
    WiredAre(inventory);
    var sets, wire := WireAll(inventory).sets, WireConsumption(c);
    if s :| s in inventory.sharedCounters && s.name == c.counterSet && c.counters.Keys <= s.counters.Keys {
      SetProvides(c, s);
      assert WireSet(s) in sets;
    }
    if x :| x in sets && x.name == wire.counterSet && wire.counters.Keys <= x.counters.Keys {
      var s :| s in inventory.sharedCounters && WireSet(s) == x;
      SetProvides(c, s);
    }
  }

  /** The consumptions of a wanted device are its inventory device's. */
  lemma ConsumptionsAre(d: InventoryDevice)
    ensures forall c :: c in d.consumes ==> WireConsumption(c) in Items(CanonWire(d).consumes)
    ensures forall x :: x in Items(CanonWire(d).consumes) ==> exists c :: c in d.consumes && WireConsumption(c) == x
  {
    CanonWireDevice(d);
    var wire := Map(WireConsumption, d.consumes);
    ItemsOfNonEmpty(SortBy(wire, ConsumptionKey));
    SamePermutationElements(SortBy(wire, ConsumptionKey), wire);
    MapMembers(WireConsumption, d.consumes);
  }

  predicate DeviceProvided(d: InventoryDevice, sets: seq<InventorySet>)
  {
    forall c :: c in d.consumes ==> Provided(c, sets)
  }

  predicate DeviceResolves(d: Device, sets: seq<CounterSet>)
  {
    forall c :: c in Items(d.consumes) ==> Resolves(c, sets)
  }

  lemma DeviceProvidedMeans(d: InventoryDevice, inventory: PoolInventory)
    ensures DeviceResolves(CanonWire(d), WireAll(inventory).sets) <==> DeviceProvided(d, inventory.sharedCounters)
  {
    ConsumptionsAre(d);
    forall c | c in d.consumes
      ensures Resolves(WireConsumption(c), WireAll(inventory).sets) <==> Provided(c, inventory.sharedCounters)
    {
      ProvidedMeans(c, inventory);
    }
  }

  lemma ReferencesMean(inventory: PoolInventory)
    ensures ReferencesResolve(WireAll(inventory).devices, WireAll(inventory).sets) <==> AllProvided(inventory)
  {
    WiredAre(inventory);
    var wired := WireAll(inventory);
    forall d | d in inventory.devices
      ensures DeviceResolves(CanonWire(d), wired.sets) <==> DeviceProvided(d, inventory.sharedCounters)
    {
      DeviceProvidedMeans(d, inventory);
    }
    assert ReferencesResolve(wired.devices, wired.sets) <==> forall x :: x in wired.devices ==> DeviceResolves(x, wired.sets);
    assert AllProvided(inventory) <==> forall d :: d in inventory.devices ==> DeviceProvided(d, inventory.sharedCounters);
  }

  /** An inventory is accepted exactly when it is acceptable: nothing about its wire form is needed to tell. */
  lemma AcceptedExactly(pool: string, inventory: PoolInventory)
    ensures ValidInventory(pool, inventory) <==> Acceptable(pool, inventory)
  {
    SetsMean(inventory.sharedCounters);
    DeviceNamesMean(inventory);
    ReferencesMean(inventory);
    forall d | d in inventory.devices
      ensures ValidDevice(d) <==> DeviceOk(d)
    {
      DeviceMeans(d);
    }
  }
}
