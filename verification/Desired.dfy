/** The slices one reconcile wants for a pool, and the generation it writes them at. */
module Desired {
  import opened Wrappers
  import opened Sorting
  import opened Slices
  import opened Canonical
  import opened Respelling
  import opened Inventory
  import opened Identities

  const MAX_DEVICES_PER_SLICE: nat := 128
  const MAX_DEVICES_PER_ADVANCED_SLICE: nat := 64
  const MAX_COUNTER_SETS_PER_SLICE: nat := 8
  const I64_MAX: nat := 0x7fff_ffff_ffff_ffff

  /** A listed slice with its name. */
  datatype Entry = Entry(name: string, slice: Stored)

  // ----- Taint times survive a re-publication -----

  function ValueText(t: Taint): string
  {
    if t.value.Some? then t.value.value else ""
  }

  predicate SameTaint(a: Taint, b: Taint)
  {
    a.key == b.key && a.effect == b.effect && ValueText(a) == ValueText(b)
  }

  /** The time of the first stored taint that is `t`. */
  function FindTime(stored: seq<Taint>, t: Taint): Option<int>
  {
    if stored == [] then None
    else if SameTaint(stored[0], t) then stored[0].timeAdded
    else FindTime(stored[1..], t)
  }

  function PreserveTaint(t: Taint, stored: seq<Taint>): Taint
  {
    if t.timeAdded.None? then t.(timeAdded := FindTime(stored, t)) else t
  }

  function PreserveTaints(taints: seq<Taint>, stored: seq<Taint>): (r: seq<Taint>)
    ensures |r| == |taints| && forall i :: 0 <= i < |r| ==> r[i] == PreserveTaint(taints[i], stored)
  {
    seq(|taints|, i requires 0 <= i < |taints| => PreserveTaint(taints[i], stored))
  }

  datatype Candidate = Candidate(generation: int, device: Device)

  function Candidates(entries: seq<Entry>): seq<Candidate>
  {
    if entries == [] then []
    else
      var last := entries[|entries| - 1].slice.spec;
      Candidates(entries[..|entries| - 1]) +
      Map((d: Device) => Candidate(last.pool.generation, d), Items(last.devices))
  }

  /** The stored device of that name: the first one at the highest generation. */
  function Newest(candidates: seq<Candidate>, name: string): (r: Option<Candidate>)
    ensures r.Some? ==> r.value in candidates && r.value.device.name == name
    ensures r.None? ==> forall c :: c in candidates ==> c.device.name != name
  {
    if candidates == [] then None
    else
      var last := candidates[|candidates| - 1];
      var best := Newest(candidates[..|candidates| - 1], name);
      if last.device.name == name && (best.None? || last.generation > best.value.generation) then Some(last) else best
  }

  function PreserveDevice(d: Device, candidates: seq<Candidate>): Device
  {
    var current := Newest(candidates, d.name);
    if current.None? || d.taints.None? then d
    else d.(taints := Some(PreserveTaints(d.taints.value, Items(current.value.device.taints))))
  }

  function PreserveDevices(devices: seq<Device>, entries: seq<Entry>): (r: seq<Device>)
    ensures |r| == |devices|
    ensures forall i :: 0 <= i < |r| ==> r[i] == PreserveDevice(devices[i], Candidates(entries))
  {
    seq(|devices|, i requires 0 <= i < |devices| => PreserveDevice(devices[i], Candidates(entries)))
  }

  /** Preserving times changes nothing but absent taint times. */
  lemma PreservedIsFilled(devices: seq<Device>, entries: seq<Entry>)
    ensures Pairwise(devices, PreserveDevices(devices, entries), FilledDevice)
  {
    forall i | 0 <= i < |devices|
      ensures FilledDevice(devices[i], PreserveDevices(devices, entries)[i])
    {
      var d, p := devices[i], PreserveDevice(devices[i], Candidates(entries));
      forall k | 0 <= k < |Items(d.taints)|
        ensures FilledTaint(Items(d.taints)[k], Items(p.taints)[k])
      {
      }
    }
  }

  /** The table holds, for a name, the device the candidates are searched for. */
  predicate IndexedAs(current: map<string, Candidate>, candidates: seq<Candidate>, name: string)
  {
    Newest(candidates, name) == if name in current then Some(current[name]) else None
  }

  function Remember(current: map<string, Candidate>, c: Candidate): map<string, Candidate>
  {
    if c.device.name !in current || c.generation > current[c.device.name].generation then current[c.device.name := c] else current
  }

  lemma RememberStep(current: map<string, Candidate>, candidates: seq<Candidate>, i: nat, name: string)
    requires i < |candidates| && IndexedAs(current, candidates[..i], name)
    ensures IndexedAs(Remember(current, candidates[i]), candidates[..i + 1], name)
  {
    assert candidates[..i + 1][..i] == candidates[..i];
  }

  /** One walk over the stored devices keeps, by name, the first at the highest generation. */
  method IndexDevices(candidates: seq<Candidate>) returns (current: map<string, Candidate>)
    ensures forall name :: IndexedAs(current, candidates, name)
  {
    current := map[];
    for i := 0 to |candidates|
      invariant forall name :: IndexedAs(current, candidates[..i], name)
    {
      var next, seen := Remember(current, candidates[i]), candidates[..i + 1];
      forall name
        ensures IndexedAs(next, seen, name)
      {
        RememberStep(current, candidates, i, name);
      }
      current := next;
    }
    assert candidates[..|candidates|] == candidates;
  }

  /** Times are looked up and written into the desired devices in place. */
  method PreserveTaintTimes(input: seq<Device>, entries: seq<Entry>) returns (desired: seq<Device>)
    ensures desired == PreserveDevices(input, entries)
  {
    var current := IndexDevices(Candidates(entries));
    desired := input;
    for i := 0 to |desired|
      invariant |desired| == |input|
      invariant forall j :: 0 <= j < i ==> desired[j] == PreserveDevice(input[j], Candidates(entries))
      invariant forall j :: i <= j < |desired| ==> desired[j] == input[j]
    {
      var d := desired[i];
      assert IndexedAs(current, Candidates(entries), d.name);
      if d.name in current && d.taints.Some? {
        desired := desired[i := d.(taints := Some(PreserveTaints(d.taints.value, Items(current[d.name].device.taints))))];
      }
    }
  }

  // ----- Splitting into slices -----

  function Chunks<T>(xs: seq<T>, size: nat): seq<seq<T>>
    requires size > 0
  {
    if xs == [] then []
    else if |xs| <= size then [xs]
    else [xs[..size]] + Chunks(xs[size..], size)
  }

  function Flatten<T>(xss: seq<seq<T>>): seq<T>
  {
    if xss == [] then [] else xss[0] + Flatten(xss[1..])
  }

  lemma {:induction false} ChunksConserve<T>(xs: seq<T>, size: nat)
    requires size > 0
    ensures Flatten(Chunks(xs, size)) == xs
    ensures forall i :: 0 <= i < |Chunks(xs, size)| ==> 0 < |Chunks(xs, size)[i]| <= size
    ensures |Chunks(xs, size)| <= |xs|
  {
    if |xs| > size {
      ChunksConserve(xs[size..], size);
      assert xs == xs[..size] + xs[size..];
      assert Chunks(xs, size)[1..] == Chunks(xs[size..], size);
    } else if xs != [] {
      assert Chunks(xs, size)[1..] == [];
    }
  }

  /** Only the last chunk may be smaller than the others. */
  lemma {:induction false} ChunksAreFull<T>(xs: seq<T>, size: nat)
    requires size > 0
    ensures forall i :: 0 <= i < |Chunks(xs, size)| - 1 ==> |Chunks(xs, size)[i]| == size
  {
    if |xs| > size {
      ChunksAreFull(xs[size..], size);
      assert Chunks(xs, size)[1..] == Chunks(xs[size..], size);
    }
  }

  predicate Advanced(d: Device)
  {
    d.taints.Some? || d.consumes.Some?
  }

  predicate HasAdvanced(devices: seq<Device>)
  {
    exists d :: d in devices && Advanced(d)
  }

  function ChunkSize(devices: seq<Device>): (size: nat)
    ensures size > 0
  {
    if HasAdvanced(devices) then MAX_DEVICES_PER_ADVANCED_SLICE else MAX_DEVICES_PER_SLICE
  }

  /** One slice's payload: devices or counter sets, never both. */
  datatype Content = DeviceContent(devices: seq<Device>) | SetContent(sets: seq<CounterSet>)

  /** Device chunks first, then the chunks of counter sets. */
  function Payloads(devices: seq<seq<Device>>, sets: seq<seq<CounterSet>>): (contents: seq<Content>)
    ensures |contents| == |devices| + |sets|
  {
    Map((chunk: seq<Device>) => DeviceContent(chunk), devices) + Map((chunk: seq<CounterSet>) => SetContent(chunk), sets)
  }

  lemma PayloadAt(devices: seq<seq<Device>>, sets: seq<seq<CounterSet>>, i: nat)
    requires i < |devices| + |sets|
    ensures Payloads(devices, sets)[i] == if i < |devices| then DeviceContent(devices[i]) else SetContent(sets[i - |devices|])
  {
  }

  function Contents(devices: seq<Device>, sets: seq<CounterSet>): seq<Content>
  {
    Payloads(Chunks(devices, ChunkSize(devices)), Chunks(sets, MAX_COUNTER_SETS_PER_SLICE))
  }

  function ContentSpec(id: Identity, pool: Pool, content: Content): Spec
  {
    match content
    case DeviceContent(devices) => Spec(id.driver, Some(id.node), pool, Some(devices), None)
    case SetContent(sets) => Spec(id.driver, Some(id.node), pool, None, Some(sets))
  }

  /** The next slice is begun only when this one is full, or the devices are used up. */
  predicate Packed(spec: Spec, next: Spec, advanced: bool)
  {
    && (spec.devices.Some? && next.devices.Some? ==>
          |spec.devices.value| == if advanced then MAX_DEVICES_PER_ADVANCED_SLICE else MAX_DEVICES_PER_SLICE)
    && (spec.counterSets.Some? ==> next.counterSets.Some? && |spec.counterSets.value| == MAX_COUNTER_SETS_PER_SLICE)
  }

  /** The specs wanted for a pool, at a generation. Slice `i` is named after its index. */
  function Batch(id: Identity, pool: string, wired: Wired, entries: seq<Entry>, generation: int): (batch: seq<Spec>)
    ensures |batch| == |Contents(PreserveDevices(wired.devices, entries), wired.sets)|
    ensures forall i :: 0 <= i < |batch| ==> batch[i].pool == Pool(pool, generation, |batch|)
    ensures forall i :: 0 <= i < |batch| ==> batch[i].driver == id.driver && batch[i].node == Some(id.node)
  {
    var contents := Contents(PreserveDevices(wired.devices, entries), wired.sets);
    seq(|contents|, i requires 0 <= i < |contents| => ContentSpec(id, Pool(pool, generation, |contents|), contents[i]))
  }

  lemma ChunkStep<T>(xs: seq<T>, size: nat)
    requires size > 0 && xs != []
    ensures var count := if |xs| < size then |xs| else size; Chunks(xs, size) == [xs[..count]] + Chunks(xs[count..], size)
  {
    if |xs| <= size {
      assert xs[..|xs|] == xs && xs[|xs|..] == [];
    }
  }

  lemma AppendAssociates<T>(a: seq<T>, b: seq<T>, c: seq<T>)
    ensures (a + b) + c == a + (b + c)
  {
  }

  /** Chunks are drained from the front until nothing is left. */
  method Drain<T>(xs: seq<T>, size: nat) returns (chunks: seq<seq<T>>)
    requires size > 0
    ensures chunks == Chunks(xs, size)
  {
    chunks := [];
    var rest := xs;
    while |rest| > 0
      invariant chunks + Chunks(rest, size) == Chunks(xs, size)
    {
      ChunkStep(rest, size);
      var count := if |rest| < size then |rest| else size;
      AppendAssociates(chunks, [rest[..count]], Chunks(rest[count..], size));
      chunks := chunks + [rest[..count]];
      rest := rest[count..];
    }
  }

  // ----- Publication conserves the inventory -----

  function DevicesOf(batch: seq<Spec>): seq<Device>
  {
    if batch == [] then [] else Items(batch[0].devices) + DevicesOf(batch[1..])
  }

  function SetsOf(batch: seq<Spec>): seq<CounterSet>
  {
    if batch == [] then [] else Items(batch[0].counterSets) + SetsOf(batch[1..])
  }

  lemma {:induction false} DevicesOfContents(id: Identity, pool: Pool, devices: seq<seq<Device>>, sets: seq<seq<CounterSet>>, batch: seq<Spec>)
    requires |batch| == |devices| + |sets|
    requires forall i :: 0 <= i < |devices| ==> batch[i] == ContentSpec(id, pool, DeviceContent(devices[i]))
    requires forall i :: 0 <= i < |sets| ==> batch[|devices| + i] == ContentSpec(id, pool, SetContent(sets[i]))
    ensures DevicesOf(batch) == Flatten(devices) && SetsOf(batch) == Flatten(sets)
    decreases |batch|
  {
    if devices != [] {
      DevicesOfContents(id, pool, devices[1..], sets, batch[1..]);
    } else if sets != [] {
      assert batch[0] == batch[|devices| + 0] == ContentSpec(id, pool, SetContent(sets[0]));
      forall i | 0 <= i < |sets[1..]|
        ensures batch[1..][0 + i] == ContentSpec(id, pool, SetContent(sets[1..][i]))
      {
        assert batch[|devices| + (i + 1)] == ContentSpec(id, pool, SetContent(sets[i + 1]));
      }
      DevicesOfContents(id, pool, [], sets[1..], batch[1..]);
    }
  }

  predicate WithinLimits(spec: Spec, advanced: bool)
  {
    match (spec.devices, spec.counterSets)
    case (Some(devices), None) =>
      0 < |devices| <= if advanced then MAX_DEVICES_PER_ADVANCED_SLICE else MAX_DEVICES_PER_SLICE
    case (None, Some(sets)) => 0 < |sets| <= MAX_COUNTER_SETS_PER_SLICE
    case _ => false
  }

  lemma BatchElement(id: Identity, pool: string, wired: Wired, entries: seq<Entry>, generation: int, i: nat)
    requires i < |Batch(id, pool, wired, entries, generation)|
    ensures var batch := Batch(id, pool, wired, entries, generation);
      batch[i] == ContentSpec(id, Pool(pool, generation, |batch|), Contents(PreserveDevices(wired.devices, entries), wired.sets)[i])
  {
  }

  lemma BatchAt(id: Identity, pool: string, wired: Wired, entries: seq<Entry>, generation: int, devices: seq<seq<Device>>, sets: seq<seq<CounterSet>>)
    requires devices == Chunks(PreserveDevices(wired.devices, entries), ChunkSize(PreserveDevices(wired.devices, entries)))
    requires sets == Chunks(wired.sets, MAX_COUNTER_SETS_PER_SLICE)
    ensures var batch := Batch(id, pool, wired, entries, generation);
      && |batch| == |devices| + |sets|
      && (forall i :: 0 <= i < |devices| ==> batch[i] == ContentSpec(id, Pool(pool, generation, |batch|), DeviceContent(devices[i])))
      && forall i :: 0 <= i < |sets| ==> batch[|devices| + i] == ContentSpec(id, Pool(pool, generation, |batch|), SetContent(sets[i]))
  {
    var batch := Batch(id, pool, wired, entries, generation);
    forall i | 0 <= i < |devices|
      ensures batch[i] == ContentSpec(id, Pool(pool, generation, |batch|), DeviceContent(devices[i]))
    {
      BatchElement(id, pool, wired, entries, generation, i);
      PayloadAt(devices, sets, i);
    }
    forall i | 0 <= i < |sets|
      ensures batch[|devices| + i] == ContentSpec(id, Pool(pool, generation, |batch|), SetContent(sets[i]))
    {
      BatchElement(id, pool, wired, entries, generation, |devices| + i);
      PayloadAt(devices, sets, |devices| + i);
    }
  }

  lemma BatchHolds(id: Identity, pool: string, wired: Wired, entries: seq<Entry>, generation: int)
    ensures var batch := Batch(id, pool, wired, entries, generation);
      DevicesOf(batch) == PreserveDevices(wired.devices, entries) && SetsOf(batch) == wired.sets
  {
    var preserved := PreserveDevices(wired.devices, entries);
    ChunksConserve(preserved, ChunkSize(preserved));
    ChunksConserve(wired.sets, MAX_COUNTER_SETS_PER_SLICE);
    var devices, sets := Chunks(preserved, ChunkSize(preserved)), Chunks(wired.sets, MAX_COUNTER_SETS_PER_SLICE);
    var batch := Batch(id, pool, wired, entries, generation);
    BatchAt(id, pool, wired, entries, generation, devices, sets);
    DevicesOfContents(id, Pool(pool, generation, |batch|), devices, sets, batch);
  }

  /** Chunks of at most these sizes, all but the last full, make slices within the limits. */
  lemma SlicesWithinLimits(id: Identity, pool: Pool, devices: seq<seq<Device>>, sets: seq<seq<CounterSet>>, size: nat, batch: seq<Spec>, i: nat)
    requires |batch| == |devices| + |sets| && i < |batch|
    requires forall j :: 0 <= j < |devices| ==> batch[j] == ContentSpec(id, pool, DeviceContent(devices[j])) && 0 < |devices[j]| <= size
    requires forall j :: 0 <= j < |sets| ==>
      batch[|devices| + j] == ContentSpec(id, pool, SetContent(sets[j])) && 0 < |sets[j]| <= MAX_COUNTER_SETS_PER_SLICE
    requires forall j :: 0 <= j < |devices| - 1 ==> |devices[j]| == size
    requires forall j :: 0 <= j < |sets| - 1 ==> |sets[j]| == MAX_COUNTER_SETS_PER_SLICE
    ensures size == MAX_DEVICES_PER_ADVANCED_SLICE ==> WithinLimits(batch[i], true) && (i + 1 < |batch| ==> Packed(batch[i], batch[i + 1], true))
    ensures size == MAX_DEVICES_PER_SLICE ==> WithinLimits(batch[i], false) && (i + 1 < |batch| ==> Packed(batch[i], batch[i + 1], false))
  {
    if i >= |devices| {
      assert batch[i] == ContentSpec(id, pool, SetContent(sets[i - |devices|]));
    }
    if |devices| <= i + 1 < |batch| {
      assert batch[i + 1] == ContentSpec(id, pool, SetContent(sets[i + 1 - |devices|]));
    }
  }

  lemma BatchWithinLimits(id: Identity, pool: string, wired: Wired, entries: seq<Entry>, generation: int)
    ensures var batch := Batch(id, pool, wired, entries, generation);
      && (forall i :: 0 <= i < |batch| ==> WithinLimits(batch[i], HasAdvanced(wired.devices)))
      && forall i {:trigger batch[i]} :: 0 <= i < |batch| - 1 ==> Packed(batch[i], batch[i + 1], HasAdvanced(wired.devices))
  {
    var preserved := PreserveDevices(wired.devices, entries);
    PreservedIsFilled(wired.devices, entries);
    AdvancedPreserved(wired.devices, preserved);
    var devices, sets := Chunks(preserved, ChunkSize(preserved)), Chunks(wired.sets, MAX_COUNTER_SETS_PER_SLICE);
    ChunksConserve(preserved, ChunkSize(preserved));
    ChunksConserve(wired.sets, MAX_COUNTER_SETS_PER_SLICE);
    ChunksAreFull(preserved, ChunkSize(preserved));
    ChunksAreFull(wired.sets, MAX_COUNTER_SETS_PER_SLICE);
    var batch := Batch(id, pool, wired, entries, generation);
    BatchAt(id, pool, wired, entries, generation, devices, sets);
    forall i | 0 <= i < |batch|
      ensures WithinLimits(batch[i], HasAdvanced(wired.devices))
      ensures i + 1 < |batch| ==> Packed(batch[i], batch[i + 1], HasAdvanced(wired.devices))
    {
      SlicesWithinLimits(id, Pool(pool, generation, |batch|), devices, sets, ChunkSize(preserved), batch, i);
    }
  }

  /** The validated, name-sorted form holds exactly the inventory. */
  predicate HoldsInventory(wired: Wired, inventory: PoolInventory)
  {
    && Sorted(wired.devices, DeviceKey) && Sorted(wired.sets, SetKey)
    && multiset(wired.devices) == multiset(Map(CanonDevice, Map(WireDevice, inventory.devices)))
    && multiset(wired.sets) == multiset(Map(WireSet, inventory.sharedCounters))
  }

  /**
   * The slices of a pool hold its name-sorted devices exactly once and its
   * sorted counter sets exactly once, changed in nothing but absent taint
   * times; no slice is empty, mixed or too large; every reference resolves
   * inside the pool.
   */
  lemma PublicationConserves(id: Identity, pool: string, inventory: PoolInventory, entries: seq<Entry>, generation: int)
    requires ValidInventory(pool, inventory)
    ensures
      var wired := WireAll(inventory);
      var batch := Batch(id, pool, wired, entries, generation);
      && HoldsInventory(wired, inventory)
      && Pairwise(wired.devices, DevicesOf(batch), FilledDevice)
      && SetsOf(batch) == wired.sets
      && ReferencesResolve(DevicesOf(batch), SetsOf(batch))
      && (forall i :: 0 <= i < |batch| ==> WithinLimits(batch[i], HasAdvanced(wired.devices)))
      && forall i {:trigger batch[i]} :: 0 <= i < |batch| - 1 ==> Packed(batch[i], batch[i + 1], HasAdvanced(wired.devices))
  {
    var wired := WireAll(inventory);
    SortBySorted(Map(CanonDevice, Map(WireDevice, inventory.devices)), DeviceKey);
    SortBySorted(Map(WireSet, inventory.sharedCounters), SetKey);
    PreservedIsFilled(wired.devices, entries);
    BatchHolds(id, pool, wired, entries, generation);
    BatchWithinLimits(id, pool, wired, entries, generation);
    ReferencesPreserved(wired.devices, PreserveDevices(wired.devices, entries), wired.sets);
  }

  lemma AdvancedPreserved(a: seq<Device>, b: seq<Device>)
    requires Pairwise(a, b, FilledDevice)
    ensures HasAdvanced(a) <==> HasAdvanced(b)
    ensures ChunkSize(a) == ChunkSize(b)
  {
    forall i | 0 <= i < |a|
      ensures Advanced(a[i]) == Advanced(b[i])
    {
      assert FilledDevice(a[i], b[i]);
    }
    if d :| d in a && Advanced(d) {
      var i :| 0 <= i < |a| && a[i] == d;
      assert b[i] in b && Advanced(b[i]);
    }
    if d :| d in b && Advanced(d) {
      var i :| 0 <= i < |b| && b[i] == d;
      assert a[i] in a && Advanced(a[i]);
    }
  }

  lemma ReferencesPreserved(a: seq<Device>, b: seq<Device>, sets: seq<CounterSet>)
    requires Pairwise(a, b, FilledDevice) && ReferencesResolve(a, sets)
    ensures ReferencesResolve(b, sets)
  {
    forall d | d in b
      ensures forall c :: c in Items(d.consumes) ==> Resolves(c, sets)
    {
      var i :| 0 <= i < |b| && b[i] == d;
      assert FilledDevice(a[i], b[i]) && a[i] in a;
    }
  }

  // ----- Generation -----

  function NameAt(id: Identity, pool: string, index: nat): string
  {
    id.nameOf(pool, index)
  }

  /** The stored slice is the desired one, generation aside. */
  predicate SameContent(id: Identity, stored: Spec, desired: Spec)
  {
    AtGeneration(id.canon(stored), desired.pool.generation) == id.canon(desired)
  }

  predicate MatchesSome(id: Identity, pool: string, entry: Entry, desired: seq<Spec>)
    requires |desired| <= I64_MAX
  {
    exists i :: 0 <= i < |desired| && entry.name == NameAt(id, pool, i) && SameContent(id, entry.slice.spec, desired[i])
  }

  /** All slices present, at one generation, with the desired content. */
  predicate Unchanged(id: Identity, pool: string, entries: seq<Entry>, desired: seq<Spec>)
    requires |desired| <= I64_MAX
  {
    && desired != [] && |entries| == |desired|
    && (forall e :: e in entries ==> e.slice.spec.pool.generation == entries[0].slice.spec.pool.generation)
    && (forall e :: e in entries ==> MatchesSome(id, pool, e, desired))
  }

  function MaxGeneration(entries: seq<Entry>): (g: int)
    requires entries != []
    ensures forall e :: e in entries ==> e.slice.spec.pool.generation <= g
    ensures exists e :: e in entries && e.slice.spec.pool.generation == g
  {
    var last := entries[|entries| - 1].slice.spec.pool.generation;
    assert entries[|entries| - 1] in entries;
    if |entries| == 1 then last
    else
      var rest := MaxGeneration(entries[..|entries| - 1]);
      assert forall e :: e in entries ==> e in entries[..|entries| - 1] || e == entries[|entries| - 1];
      if last > rest then last else rest
  }

  function PoolGeneration(id: Identity, pool: string, entries: seq<Entry>, desired: seq<Spec>): (r: Result<int, Fault>)
    requires |desired| <= I64_MAX
    ensures r.Ok? && !Unchanged(id, pool, entries, desired) ==> forall e :: e in entries ==> e.slice.spec.pool.generation < r.value
    ensures r.Ok? && !Unchanged(id, pool, entries, desired) ==>
      if entries == [] then r.value == 1 else exists e :: e in entries && e.slice.spec.pool.generation + 1 == r.value
    ensures r.Err? ==> r.error.GenerationExhausted? && exists e :: e in entries && e.slice.spec.pool.generation >= 0x7fff_ffff_ffff_ffff
    ensures Unchanged(id, pool, entries, desired) ==> r.Ok? && forall e :: e in entries ==> e.slice.spec.pool.generation == r.value
  {
    if Unchanged(id, pool, entries, desired) then Ok(entries[0].slice.spec.pool.generation)
    else
      var current := if entries == [] then 0 else MaxGeneration(entries);
      if current >= I64_MAX then Err(GenerationExhausted) else Ok(current + 1)
  }
}
