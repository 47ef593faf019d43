/** The canonical form slices are compared in, and the re-spellings it absorbs. */
module Canonical {
  import opened Wrappers
  import opened Sorting
  import opened Slices
  import opened QuantityLaws

  // ----- Canonical devices -----

  function CanonTaint(t: Taint): Taint
  {
    if t.value == Some("") then t.(value := None) else t
  }

  function TaintKey(t: Taint): Key
  {
    [t.key, t.effect] + (if t.value.Some? then [t.value.value] else [])
  }

  function ConsumptionKey(c: Consumption): Key { [c.counterSet] }

  function DeviceKey(d: Device): Key { [d.name] }

  function SetKey(c: CounterSet): Key { [c.name] }

  function CanonTaints(taints: seq<Taint>): seq<Taint>
  {
    SortBy(Map(CanonTaint, taints), TaintKey)
  }

  function CanonDevice(d: Device): Device
  {
    Device(
      d.name,
      NonEmptyMap(d.attributes),
      NonEmptyMap(d.capacity),
      NonEmpty(CanonTaints(Items(d.taints))),
      NonEmpty(SortBy(Items(d.consumes), ConsumptionKey)),
      NonEmpty(SortBy(Items(d.bindingConditions), TextKey)),
      NonEmpty(SortBy(Items(d.bindingFailureConditions), TextKey)),
      NonFalse(d.bindsToNode))
  }

  function CanonDevices(devices: seq<Device>): seq<Device>
  {
    SortBy(Map(CanonDevice, devices), DeviceKey)
  }

  /** Devices rewritten one by one, then sorted by name. */
  method CanonicalizeDevices(input: seq<Device>) returns (devices: seq<Device>)
    ensures devices == CanonDevices(input)
  {
    devices := input;
    for i := 0 to |devices|
      invariant |devices| == |input|
      invariant forall j :: 0 <= j < i ==> devices[j] == CanonDevice(input[j])
      invariant forall j :: i <= j < |devices| ==> devices[j] == input[j]
    {
      devices := devices[i := CanonDevice(devices[i])];
    }
    assert devices == Map(CanonDevice, input);
    devices := SortBy(devices, DeviceKey);
  }

  // ----- Canonical specs -----

  function SpellAmounts(m: map<string, string>): map<string, string>
  {
    map k | k in m :: CanonicalText(m[k])
  }

  function SpellConsumption(c: Consumption): Consumption
  {
    c.(counters := SpellAmounts(c.counters))
  }

  function SpellSet(c: CounterSet): CounterSet
  {
    c.(counters := SpellAmounts(c.counters))
  }

  function SpellDevice(d: Device): Device
  {
    d.(capacity := if d.capacity.Some? then Some(SpellAmounts(d.capacity.value)) else None,
       consumes := if d.consumes.Some? then Some(Map(SpellConsumption, d.consumes.value)) else None)
  }

  function CanonSpec(s: Spec): Spec
  {
    s.(devices := NonEmpty(Map(SpellDevice, CanonDevices(Items(s.devices)))),
       counterSets := NonEmpty(Map(SpellSet, SortBy(Items(s.counterSets), SetKey))))
  }

  // ----- What a server may do to a spec it stores -----

  predicate FilledTaint(w: Taint, s: Taint)
  {
    s == w.(timeAdded := s.timeAdded) && (w.timeAdded.Some? ==> s.timeAdded == w.timeAdded)
  }

  /** The same device except that absent taint times may have been filled in. */
  predicate FilledDevice(w: Device, s: Device)
  {
    s == w.(taints := s.taints) && (w.taints.Some? <==> s.taints.Some?) && Pairwise(Items(w.taints), Items(s.taints), FilledTaint)
  }

  predicate FilledSpec(w: Spec, s: Spec)
  {
    s == w.(devices := s.devices) && (w.devices.Some? <==> s.devices.Some?) && Pairwise(Items(w.devices), Items(s.devices), FilledDevice)
  }

  /** `s` is a faithful stored form of `w`: canonically the same, absent taint times aside. */
  predicate Keeps(w: Spec, s: Spec)
  {
    FilledSpec(CanonSpec(w), CanonSpec(s))
  }

  lemma KeepsHeader(w: Spec, s: Spec)
    requires Keeps(w, s)
    ensures s.driver == w.driver && s.node == w.node && s.pool == w.pool
  {
  }

  lemma KeepsReflexive(w: Spec)
    ensures Keeps(w, w)
  {
  }

  lemma FilledDeviceTransitive(a: Device, b: Device, c: Device)
    requires FilledDevice(a, b) && FilledDevice(b, c)
    ensures FilledDevice(a, c)
  {
    forall i | 0 <= i < |Items(a.taints)|
      ensures FilledTaint(Items(a.taints)[i], Items(c.taints)[i])
    {
      assert FilledTaint(Items(a.taints)[i], Items(b.taints)[i]);
      assert FilledTaint(Items(b.taints)[i], Items(c.taints)[i]);
    }
  }

  lemma FilledSpecTransitive(a: Spec, b: Spec, c: Spec)
    requires FilledSpec(a, b) && FilledSpec(b, c)
    ensures FilledSpec(a, c)
  {
    forall i | 0 <= i < |Items(a.devices)|
      ensures FilledDevice(Items(a.devices)[i], Items(c.devices)[i])
    {
      FilledDeviceTransitive(Items(a.devices)[i], Items(b.devices)[i], Items(c.devices)[i]);
    }
  }

  /** Storing again from any spec canonically equal to the stored one stays faithful to the first. */
  lemma KeepsThrough(w: Spec, current: Spec, rewritten: Spec, s: Spec)
    requires Keeps(w, current) && CanonSpec(current) == CanonSpec(rewritten) && Keeps(rewritten, s)
    ensures Keeps(w, s)
  {
    FilledSpecTransitive(CanonSpec(w), CanonSpec(current), CanonSpec(s));
  }
}
