/** Slice by slice, what a published pool stores is what the next reconcile wants. */
module Settling {
  import opened Wrappers
  import opened Sorting
  import opened Slices
  import opened Canonical
  import opened Respelling
  import opened Inventory
  import opened Identities
  import opened Desired
  import opened Coherence
  import opened Publication
  import opened Idempotence
  import opened Convergence
  import opened PublishOnce

  // ----- The layout of a batch -----

  lemma PreservedPrefix(xs: seq<Device>, n: nat, entries: seq<Entry>)
    requires n <= |xs|
    ensures PreserveDevices(xs, entries)[..n] == PreserveDevices(xs[..n], entries)
    ensures PreserveDevices(xs, entries)[n..] == PreserveDevices(xs[n..], entries)
  {
  }

  lemma {:induction false} ChunksPreserved(xs: seq<Device>, size: nat, entries: seq<Entry>)
    requires size > 0
    ensures |Chunks(PreserveDevices(xs, entries), size)| == |Chunks(xs, size)|
    ensures forall i :: 0 <= i < |Chunks(xs, size)| ==>
      Chunks(PreserveDevices(xs, entries), size)[i] == PreserveDevices(Chunks(xs, size)[i], entries)
    decreases |xs|
  {
    if |xs| > size {
      PreservedPrefix(xs, size, entries);
      ChunksPreserved(xs[size..], size, entries);
    }
  }

  lemma {:induction false} ChunkInOrder<T>(xs: seq<T>, key: T -> Key, size: nat, i: nat)
    requires size > 0 && Sorted(xs, key) && DistinctKeys(xs, key) && i < |Chunks(xs, size)|
    ensures Sorted(Chunks(xs, size)[i], key) && DistinctKeys(Chunks(xs, size)[i], key)
    decreases |xs|
  {
    if |xs| > size && i > 0 {
      var rest := xs[size..];
      forall a, b | 0 <= a < b < |rest|
        ensures KeyLeq(key(rest[a]), key(rest[b])) && key(rest[a]) != key(rest[b])
      {
        assert KeyLeq(key(xs[a + size]), key(xs[b + size])) && key(xs[a + size]) != key(xs[b + size]);
      }
      ChunkInOrder(rest, key, size, i - 1);
    }
  }

  function DeviceChunks(wired: Wired): seq<seq<Device>>
  {
    Chunks(wired.devices, ChunkSize(wired.devices))
  }

  function SetChunks(wired: Wired): seq<seq<CounterSet>>
  {
    Chunks(wired.sets, MAX_COUNTER_SETS_PER_SLICE)
  }

  function DeviceSpec(id: Identity, pool: Pool, devices: seq<Device>): Spec
  {
    Spec(id.driver, Some(id.node), pool, Some(devices), None)
  }

  function SetSpec(id: Identity, pool: Pool, sets: seq<CounterSet>): Spec
  {
    Spec(id.driver, Some(id.node), pool, None, Some(sets))
  }

  /** A batch is the device chunks with times preserved, then the set chunks. */
  lemma BatchLayout(id: Identity, pool: string, wired: Wired, entries: seq<Entry>, generation: int)
    ensures
      var batch := Batch(id, pool, wired, entries, generation);
      var chunks, sets := DeviceChunks(wired), SetChunks(wired);
      && |batch| == |chunks| + |sets|
      && (forall i :: 0 <= i < |chunks| ==>
           batch[i] == DeviceSpec(id, Pool(pool, generation, |batch|), PreserveDevices(chunks[i], entries)))
      && forall i :: |chunks| <= i < |batch| ==> batch[i] == SetSpec(id, Pool(pool, generation, |batch|), sets[i - |chunks|])
  {
    var preserved := PreserveDevices(wired.devices, entries);
    PreservedIsFilled(wired.devices, entries);
    AdvancedPreserved(wired.devices, preserved);
    ChunksPreserved(wired.devices, ChunkSize(wired.devices), entries);
  }

  // ----- Canonical forms by parts -----

  function SetForm(spec: Spec): seq<CounterSet>
  {
    Map(SpellSet, SortBy(Items(spec.counterSets), SetKey))
  }

  lemma CanonParts(spec: Spec)
    ensures CanonSpec(spec) == Spec(spec.driver, spec.node, spec.pool, NonEmpty(StoredForm(spec)), NonEmpty(SetForm(spec)))
  {
  }

  lemma NoDevices(spec: Spec)
    requires StoredForm(spec) == []
    ensures Items(spec.devices) == []
  {
    assert |StoredForm(spec)| == |Items(spec.devices)|;
  }

  /** Canonical devices in order are their own stored form, up to the spelling of amounts. */
  lemma DeviceSpecForm(id: Identity, pool: Pool, devices: seq<Device>)
    requires CanonDevices(devices) == devices
    ensures CanonSpec(DeviceSpec(id, pool, devices)) == Spec(id.driver, Some(id.node), pool, NonEmpty(Map(SpellDevice, devices)), None)
  {
    CanonParts(DeviceSpec(id, pool, devices));
  }

  lemma FilledParts(spec: Spec, devices: seq<Device>, stored: Spec)
    requires spec.devices == NonEmpty(devices) && FilledSpec(spec, CanonSpec(stored))
    ensures Pairwise(devices, StoredForm(stored), FilledDevice)
    ensures CanonSpec(stored) == spec.(devices := NonEmpty(StoredForm(stored)))
  {
    CanonParts(stored);
    ItemsOfNonEmpty(devices);
    ItemsOfNonEmpty(StoredForm(stored));
  }

  lemma SpellFilled(a: seq<Device>, b: seq<Device>)
    requires Pairwise(a, b, FilledDevice)
    ensures Pairwise(Map(SpellDevice, a), Map(SpellDevice, b), FilledDevice)
  {
    forall i | 0 <= i < |a|
      ensures FilledDevice(SpellDevice(a[i]), SpellDevice(b[i]))
    {
      assert FilledDevice(a[i], b[i]);
    }
  }

  lemma FilledThrough(a: seq<Device>, b: seq<Device>, c: seq<Device>)
    requires Pairwise(a, b, FilledDevice) && Pairwise(b, c, FilledDevice)
    ensures Pairwise(a, c, FilledDevice)
  {
    forall i | 0 <= i < |a|
      ensures FilledDevice(a[i], c[i])
    {
      FilledDeviceTransitive(a[i], b[i], c[i]);
    }
  }

  /** A chunk with times preserved is canonical and in order. */
  lemma PreservedChunk(xs: seq<Device>, size: nat, i: nat, entries: seq<Entry>)
    requires size > 0 && Sorted(xs, DeviceKey) && DistinctKeys(xs, DeviceKey) && i < |Chunks(xs, size)|
    requires forall d :: d in xs ==> CanonicalDevice(d)
    ensures CanonDevices(PreserveDevices(Chunks(xs, size)[i], entries)) == PreserveDevices(Chunks(xs, size)[i], entries)
  {
    var chunk := Chunks(xs, size)[i];
    var preserved := PreserveDevices(chunk, entries);
    ChunkInOrder(xs, DeviceKey, size, i);
    PreservedIsFilled(chunk, entries);
    forall k | 0 <= k < |chunk|
      ensures CanonicalDevice(preserved[k]) && DeviceKey(preserved[k]) == DeviceKey(chunk[k])
    {
      ChunkElement(xs, size, i, k);
      assert FilledDevice(chunk[k], preserved[k]);
      FilledCanonical(chunk[k], preserved[k]);
    }
    forall a, b | 0 <= a < b < |preserved|
      ensures KeyLeq(DeviceKey(preserved[a]), DeviceKey(preserved[b])) && DeviceKey(preserved[a]) != DeviceKey(preserved[b])
    {
      assert KeyLeq(DeviceKey(chunk[a]), DeviceKey(chunk[b])) && DeviceKey(chunk[a]) != DeviceKey(chunk[b]);
    }
    CanonicalList(preserved);
  }

  lemma ChunkStored(id: Identity, pool: Pool, xs: seq<Device>, size: nat, i: nat, prior: seq<Entry>, stored: Spec)
    requires size > 0 && Sorted(xs, DeviceKey) && DistinctKeys(xs, DeviceKey) && i < |Chunks(xs, size)|
    requires forall d :: d in xs ==> CanonicalDevice(d)
    requires Keeps(DeviceSpec(id, pool, PreserveDevices(Chunks(xs, size)[i], prior)), stored)
    ensures Pairwise(Map(SpellDevice, Chunks(xs, size)[i]), StoredForm(stored), FilledDevice)
    ensures CanonSpec(stored) == Spec(id.driver, Some(id.node), pool, NonEmpty(StoredForm(stored)), None)
  {
    var chunk := Chunks(xs, size)[i];
    var written := PreserveDevices(chunk, prior);
    PreservedChunk(xs, size, i, prior);
    DeviceSpecForm(id, pool, written);
    FilledParts(CanonSpec(DeviceSpec(id, pool, written)), Map(SpellDevice, written), stored);
    PreservedIsFilled(chunk, prior);
    SpellFilled(chunk, written);
    FilledThrough(Map(SpellDevice, chunk), Map(SpellDevice, written), StoredForm(stored));
  }

  lemma SetsStored(id: Identity, pool: Pool, sets: seq<CounterSet>, stored: Spec)
    requires Keeps(SetSpec(id, pool, sets), stored)
    ensures Items(stored.devices) == [] && CanonSpec(stored) == CanonSpec(SetSpec(id, pool, sets))
  {
    var spec := SetSpec(id, pool, sets);
    CanonParts(spec);
    assert StoredForm(spec) == [];
    FilledParts(CanonSpec(spec), [], stored);
    NoDevices(stored);
  }

  // ----- The pool as stored -----

  /** Slice by slice, the pool stores the batch a reconcile from `prior` wrote. */
  ghost predicate StoresBatch(id: Identity, pool: Pool, wired: Wired, prior: seq<Entry>, stored: seq<Spec>)
  {
    var chunks, sets := DeviceChunks(wired), SetChunks(wired);
    && |stored| == |chunks| + |sets|
    && (forall i :: 0 <= i < |chunks| ==> Keeps(DeviceSpec(id, pool, PreserveDevices(chunks[i], prior)), stored[i]))
    && forall i :: |chunks| <= i < |stored| ==> Keeps(SetSpec(id, pool, sets[i - |chunks|]), stored[i])
  }

  ghost predicate OrderedCanonical(devices: seq<Device>)
  {
    && (forall d :: d in devices ==> CanonicalDevice(d))
    && Sorted(devices, DeviceKey) && DistinctKeys(devices, DeviceKey)
  }

  lemma ChunksStored(id: Identity, pool: Pool, wired: Wired, prior: seq<Entry>, stored: seq<Spec>)
    requires OrderedCanonical(wired.devices) && StoresBatch(id, pool, wired, prior, stored)
    ensures StoredChunks(DeviceChunks(wired), stored[..|DeviceChunks(wired)|])
  {
    var chunks := DeviceChunks(wired);
    forall i | 0 <= i < |chunks|
      ensures Pairwise(Map(SpellDevice, chunks[i]), StoredForm(stored[..|chunks|][i]), FilledDevice)
    {
      ChunkStored(id, pool, wired.devices, ChunkSize(wired.devices), i, prior, stored[i]);
    }
  }

  lemma WantedForm(xs: seq<Device>, size: nat, stored: seq<Spec>, entries: seq<Entry>, i: nat)
    requires size > 0 && OrderedCanonical(xs) && StoredChunks(Chunks(xs, size), stored)
    requires i < |stored| && CandidatesAre(Candidates(entries), stored)
    ensures Map(SpellDevice, PreserveDevices(Chunks(xs, size)[i], entries)) == StoredForm(stored[i])
  {
    var wanted := PreserveDevices(Chunks(xs, size)[i], entries);
    assert Pairwise(Map(SpellDevice, Chunks(xs, size)[i]), StoredForm(stored[i]), FilledDevice);
    forall k | 0 <= k < |wanted|
      ensures SpellDevice(wanted[k]) == StoredForm(stored[i])[k]
    {
      WantedSettles(xs, size, stored, Candidates(entries), i, k);
    }
  }

  lemma DeviceSliceSettles(id: Identity, pool: Pool, wired: Wired, prior: seq<Entry>, stored: seq<Spec>, entries: seq<Entry>, i: nat, again: Pool)
    requires OrderedCanonical(wired.devices) && StoresBatch(id, pool, wired, prior, stored)
    requires i < |DeviceChunks(wired)| && CandidatesAre(Candidates(entries), stored[..|DeviceChunks(wired)|])
    requires again == pool.(generation := again.generation)
    ensures AtGeneration(CanonSpec(stored[i]), again.generation) == CanonSpec(DeviceSpec(id, again, PreserveDevices(DeviceChunks(wired)[i], entries)))
  {
    var size, chunks := ChunkSize(wired.devices), DeviceChunks(wired);
    ChunksStored(id, pool, wired, prior, stored);
    ChunkStored(id, pool, wired.devices, size, i, prior, stored[i]);
    PreservedChunk(wired.devices, size, i, entries);
    DeviceSpecForm(id, again, PreserveDevices(chunks[i], entries));
    WantedForm(wired.devices, size, stored[..|chunks|], entries, i);
  }

  lemma SetSliceSettles(id: Identity, pool: Pool, wired: Wired, prior: seq<Entry>, stored: seq<Spec>, i: nat, again: Pool)
    requires StoresBatch(id, pool, wired, prior, stored) && |DeviceChunks(wired)| <= i < |stored|
    requires again == pool.(generation := again.generation)
    ensures Items(stored[i].devices) == []
    ensures AtGeneration(CanonSpec(stored[i]), again.generation) == CanonSpec(SetSpec(id, again, SetChunks(wired)[i - |DeviceChunks(wired)|]))
  {
    var sets := SetChunks(wired)[i - |DeviceChunks(wired)|];
    SetsStored(id, pool, sets, stored[i]);
    CanonCarriesGeneration(SetSpec(id, pool, sets), again.generation);
  }

  // ----- The pool as listed -----

  /** Entry `i` of a published pool is its slice `i`. */
  ghost predicate ListsBatch(s: Store, id: Identity, owner: string, pool: string, generation: int, count: nat, entries: seq<Entry>)
    requires count <= I64_MAX
  {
    && |entries| == count
    && (forall i :: 0 <= i < count ==> NameAt(id, pool, i) in s && Entry(NameAt(id, pool, i), s[NameAt(id, pool, i)]) in entries)
    && forall e :: e in entries ==>
         && e.name in s && e.slice == s[e.name] && NamedInBatch(id, pool, e.name, count)
         && e.slice.owners == [owner] && e.slice.spec.pool.generation == generation
  }

  ghost predicate EntryNamed(entries: seq<Entry>, name: string)
  {
    exists e :: e in entries && e.name == name
  }

  lemma PlacedIsListed(s: Store, id: Identity, owner: string, pool: string, generation: int, batch: seq<Spec>, entries: seq<Entry>)
    requires Lawful(id) && |batch| <= I64_MAX && Headed(id, pool, generation, batch)
    requires PlacedBatch(s, id, owner, pool, batch, {}, |batch|) && IsEntries(entries, OwnSlices(s, id), pool)
    ensures ListsBatch(s, id, owner, pool, generation, |batch|, entries)
  {
    forall i | 0 <= i < |batch|
      ensures NameAt(id, pool, i) in s && Entry(NameAt(id, pool, i), s[NameAt(id, pool, i)]) in entries
      ensures InBatch(id, pool, generation, s[NameAt(id, pool, i)]) && s[NameAt(id, pool, i)].owners == [owner]
    {
      assert Kept(id, s, NameAt(id, pool, i), owner, batch[i]);
      assert HeaderKept(id, batch[i], s[NameAt(id, pool, i)].spec);
      assert NameAt(id, pool, i) in OwnSlices(s, id) && OwnSlices(s, id)[NameAt(id, pool, i)] == s[NameAt(id, pool, i)];
    }
    forall i | 0 <= i < |batch|
      ensures EntryNamed(entries, NameAt(id, pool, i))
    {
      assert Entry(NameAt(id, pool, i), s[NameAt(id, pool, i)]) in entries;
    }
    forall e | e in entries
      ensures e.name in s && e.slice == s[e.name] && NamedInBatch(id, pool, e.name, |batch|)
    {
      assert e.name in OwnSlices(s, id) && InPool(id, pool, s[e.name]);
    }
    assert DistinctKeys(entries, EntryKey);
    PlacedCount(id, pool, |batch|, entries);
  }

  lemma PlacedCount(id: Identity, pool: string, count: nat, entries: seq<Entry>)
    requires Lawful(id) && count <= I64_MAX && DistinctKeys(entries, EntryKey)
    requires forall e :: e in entries ==> NamedInBatch(id, pool, e.name, count)
    requires forall i :: 0 <= i < count ==> EntryNamed(entries, NameAt(id, pool, i))
    ensures |entries| == count
  {
    EntryNamesCount(entries);
    NamesCount(id, pool, count);
    forall name | name in EntryNames(entries)
      ensures name in BatchNames(id, pool, count)
    {
      var k :| 0 <= k < |entries| && entries[k].name == name;
      assert entries[k] in entries;
    }
    forall name | name in BatchNames(id, pool, count)
      ensures name in EntryNames(entries)
    {
      var i :| 0 <= i < count && name == NameAt(id, pool, i);
      assert EntryNamed(entries, NameAt(id, pool, i));
      var e :| e in entries && e.name == name;
      var k :| 0 <= k < |entries| && entries[k] == e;
    }
    assert EntryNames(entries) == BatchNames(id, pool, count);
  }

  /** The specs stored under the batch's names. */
  ghost predicate StoredUnder(s: Store, id: Identity, pool: string, stored: seq<Spec>)
    requires |stored| <= I64_MAX
  {
    forall i :: 0 <= i < |stored| ==> NameAt(id, pool, i) in s && s[NameAt(id, pool, i)].spec == stored[i]
  }

  lemma ListedCandidates(s: Store, id: Identity, owner: string, pool: string, generation: int, stored: seq<Spec>, devices: nat, entries: seq<Entry>)
    requires devices <= |stored| <= I64_MAX && StoredUnder(s, id, pool, stored)
    requires ListsBatch(s, id, owner, pool, generation, |stored|, entries)
    requires forall i :: devices <= i < |stored| ==> Items(stored[i].devices) == []
    ensures CandidatesAre(Candidates(entries), stored[..devices])
  {
    CandidatesStored(entries);
    forall c | c in Candidates(entries)
      ensures exists j :: 0 <= j < devices && c.device in Items(stored[..devices][j].devices)
    {
      var e :| e in entries && c.device in Items(e.slice.spec.devices);
      var j :| 0 <= j < |stored| && e.name == NameAt(id, pool, j);
      assert stored[j] == e.slice.spec;
      assert j < devices;
      assert stored[..devices][j] == e.slice.spec;
    }
    forall j, r | 0 <= j < devices && r in Items(stored[..devices][j].devices)
      ensures exists c :: c in Candidates(entries) && c.device == r
    {
      StoredAreCandidates(entries, Entry(NameAt(id, pool, j), s[NameAt(id, pool, j)]), r);
    }
  }

  // ----- Convergence -----

  lemma KeptStores(id: Identity, pool: string, wired: Wired, prior: seq<Entry>, generation: int, batch: seq<Spec>, stored: seq<Spec>)
    requires batch == Batch(id, pool, wired, prior, generation) && |stored| == |batch|
    requires forall i :: 0 <= i < |batch| ==> Keeps(batch[i], stored[i])
    ensures StoresBatch(id, Pool(pool, generation, |batch|), wired, prior, stored)
  {
    BatchLayout(id, pool, wired, prior, generation);
  }

  predicate ContentSettled(stored: Spec, desired: Spec)
  {
    AtGeneration(CanonSpec(stored), 0) == CanonSpec(desired)
  }

  lemma AllSetSlicesSettle(id: Identity, header: Pool, wired: Wired, prior: seq<Entry>, stored: seq<Spec>, desired: seq<Spec>)
    requires StoresBatch(id, header, wired, prior, stored) && |desired| == |stored|
    requires forall i :: |DeviceChunks(wired)| <= i < |desired| ==>
      desired[i] == SetSpec(id, header.(generation := 0), SetChunks(wired)[i - |DeviceChunks(wired)|])
    ensures forall i :: |DeviceChunks(wired)| <= i < |stored| ==> Items(stored[i].devices) == [] && ContentSettled(stored[i], desired[i])
  {
    forall i | |DeviceChunks(wired)| <= i < |stored|
      ensures Items(stored[i].devices) == [] && ContentSettled(stored[i], desired[i])
    {
      SetSliceSettles(id, header, wired, prior, stored, i, header.(generation := 0));
    }
  }

  lemma AllDeviceSlicesSettle(id: Identity, header: Pool, wired: Wired, prior: seq<Entry>, stored: seq<Spec>, desired: seq<Spec>, entries: seq<Entry>)
    requires OrderedCanonical(wired.devices) && StoresBatch(id, header, wired, prior, stored) && |desired| == |stored|
    requires CandidatesAre(Candidates(entries), stored[..|DeviceChunks(wired)|])
    requires forall i :: 0 <= i < |DeviceChunks(wired)| ==>
      desired[i] == DeviceSpec(id, header.(generation := 0), PreserveDevices(DeviceChunks(wired)[i], entries))
    ensures forall i :: 0 <= i < |DeviceChunks(wired)| ==> ContentSettled(stored[i], desired[i])
  {
    forall i | 0 <= i < |DeviceChunks(wired)|
      ensures ContentSettled(stored[i], desired[i])
    {
      DeviceSliceSettles(id, header, wired, prior, stored, entries, i, header.(generation := 0));
    }
  }

  /** Every stored slice of the pool already has the content wanted next. */
  lemma SlicesSettle(s: Store, id: Identity, owner: string, pool: string, wired: Wired, prior: seq<Entry>, generation: int,
                     stored: seq<Spec>, entries: seq<Entry>, desired: seq<Spec>)
    requires OrderedCanonical(wired.devices) && |stored| <= I64_MAX
    requires StoresBatch(id, Pool(pool, generation, |stored|), wired, prior, stored)
    requires desired == Batch(id, pool, wired, entries, 0)
    requires StoredUnder(s, id, pool, stored) && ListsBatch(s, id, owner, pool, generation, |stored|, entries)
    ensures |desired| == |stored| && forall i :: 0 <= i < |stored| ==> ContentSettled(stored[i], desired[i])
  {
    var header := Pool(pool, generation, |stored|);
    BatchLayout(id, pool, wired, entries, 0);
    AllSetSlicesSettle(id, header, wired, prior, stored, desired);
    ListedCandidates(s, id, owner, pool, generation, stored, |DeviceChunks(wired)|, entries);
    AllDeviceSlicesSettle(id, header, wired, prior, stored, desired, entries);
  }

  lemma AllSameContent(id: Identity, stored: seq<Spec>, desired: seq<Spec>)
    requires ComparesCanonically(id) && |desired| == |stored|
    requires forall i :: 0 <= i < |desired| ==> desired[i].pool.generation == 0
    requires forall i :: 0 <= i < |stored| ==> ContentSettled(stored[i], desired[i])
    ensures forall i :: 0 <= i < |stored| ==> SameContent(id, stored[i], desired[i])
  {
    forall i | 0 <= i < |stored|
      ensures SameContent(id, stored[i], desired[i])
    {
      assert ContentSettled(stored[i], desired[i]);
      assert CanonAgrees(id, stored[i]) && CanonAgrees(id, desired[i]);
    }
  }

  lemma PlacedStored(s: Store, id: Identity, owner: string, pool: string, batch: seq<Spec>) returns (stored: seq<Spec>)
    requires ComparesCanonically(id) && |batch| <= I64_MAX
    requires forall i :: 0 <= i < |batch| ==> Kept(id, s, NameAt(id, pool, i), owner, batch[i])
    ensures |stored| == |batch| && StoredUnder(s, id, pool, stored)
    ensures forall i :: 0 <= i < |batch| ==> Keeps(batch[i], stored[i])
  {
    assert forall i :: 0 <= i < |batch| ==> Kept(id, s, NameAt(id, pool, i), owner, batch[i]);
    stored := seq(|batch|, i requires 0 <= i < |batch| && NameAt(id, pool, i) in s => s[NameAt(id, pool, i)].spec);
    forall i | 0 <= i < |batch|
      ensures Keeps(batch[i], stored[i])
    {
      assert Kept(id, s, NameAt(id, pool, i), owner, batch[i]);
      assert KeepsAgrees(id, batch[i], stored[i]);
    }
  }

  lemma ListedIsUnchanged(s: Store, id: Identity, owner: string, pool: string, generation: int, stored: seq<Spec>, desired: seq<Spec>,
                          entries: seq<Entry>)
    requires |desired| == |stored| <= I64_MAX && desired != [] && StoredUnder(s, id, pool, stored)
    requires ListsBatch(s, id, owner, pool, generation, |desired|, entries)
    requires forall i :: 0 <= i < |desired| ==> SameContent(id, stored[i], desired[i])
    ensures Unchanged(id, pool, entries, desired)
  {
    forall e | e in entries
      ensures MatchesSome(id, pool, e, desired) && e.slice.spec.pool.generation == generation
    {
      var i :| 0 <= i < |desired| && e.name == NameAt(id, pool, i);
      assert SameContent(id, stored[i], desired[i]);
    }
    assert entries[0] in entries;
  }

  lemma PoolSettles(s: Store, id: Identity, owner: string, pool: string, inventory: PoolInventory, again: PoolInventory, entries: seq<Entry>)
    requires Lawful(id) && ComparesCanonically(id) && SameInventory(inventory, again)
    requires Placed(s, id, owner, pool, inventory, {}) && IsEntries(entries, OwnSlices(s, id), pool)
    ensures SettledPool(id, owner, pool, again, entries)
  {
    var batch: seq<Spec>, generation: int, prior: seq<Entry> :|
      && IsBatch(id, pool, generation, batch, inventory, prior)
      && PlacedBatch(s, id, owner, pool, batch, {}, |batch|);
    WireIgnoresOrder(pool, inventory, again);
    WiredCanonical(pool, inventory);
    BatchHeaded(id, pool, generation, batch, inventory, prior);
    PlacedIsListed(s, id, owner, pool, generation, batch, entries);
    var stored := PlacedStored(s, id, owner, pool, batch);
    var wired := WireAll(inventory);
    KeptStores(id, pool, wired, prior, generation, batch, stored);
    var desired := Batch(id, pool, wired, entries, 0);
    SlicesSettle(s, id, owner, pool, wired, prior, generation, stored, entries, desired);
    AllSameContent(id, stored, desired);
    if desired != [] {
      ListedIsUnchanged(s, id, owner, pool, generation, stored, desired, entries);
    }
  }

  /** The same pools, each inventory possibly reordered. */
  ghost predicate SameSnapshot(a: Snapshot, b: Snapshot)
  {
    a.Keys == b.Keys && forall pool :: pool in a ==> SameInventory(a[pool], b[pool])
  }

  /**
   * Convergence: whatever faithful spelling the server keeps and whatever
   * absent taint times it fills in, a published snapshot is settled, so the
   * next publication of it, in any order, makes no write at all.
   */
  lemma PublishedIsSettled(s: Store, id: Identity, owner: string, snapshot: Snapshot, again: Snapshot)
    requires Lawful(id) && ComparesCanonically(id)
    requires Published(s, id, owner, snapshot) && SameSnapshot(snapshot, again)
    ensures Settled(s, id, owner, again)
  {
    forall pool, entries | pool in again && IsEntries(entries, OwnSlices(s, id), pool)
      ensures SettledPool(id, owner, pool, again[pool], entries)
    {
      PoolSettles(s, id, owner, pool, snapshot[pool], again[pool], entries);
    }
  }

  // ----- The re-spellings convergence covers -----

  ghost predicate ConsumesDistinct(d: Device)
  {
    DistinctKeys(Items(d.consumes), ConsumptionKey)
  }

  lemma WiredConsumesDistinct(pool: string, inventory: PoolInventory)
    requires ValidInventory(pool, inventory)
    ensures forall d :: d in WireAll(inventory).devices ==> ConsumesDistinct(d)
  {
    CanonWireMap(inventory.devices);
    var canon := Map(CanonWire, inventory.devices);
    SortByElements(canon, DeviceKey);
    forall d | d in canon
      ensures ConsumesDistinct(d)
    {
      var i :| 0 <= i < |canon| && canon[i] == d;
      var source := inventory.devices[i];
      assert source in inventory.devices && ValidDevice(source);
      CanonWireDevice(source);
      ConsumptionKeysDistinct(source.consumes);
      ItemsOfNonEmpty(SortBy(Map(WireConsumption, source.consumes), ConsumptionKey));
    }
  }

  lemma DeviceSpecWellFormed(id: Identity, pool: Pool, wired: Wired, entries: seq<Entry>, i: nat)
    requires OrderedCanonical(wired.devices) && i < |DeviceChunks(wired)|
    requires forall d :: d in wired.devices ==> ConsumesDistinct(d)
    ensures WellFormedSpec(DeviceSpec(id, pool, PreserveDevices(DeviceChunks(wired)[i], entries)))
  {
    var chunk := DeviceChunks(wired)[i];
    var written := PreserveDevices(chunk, entries);
    ChunkInOrder(wired.devices, DeviceKey, ChunkSize(wired.devices), i);
    PreservedIsFilled(chunk, entries);
    forall k | 0 <= k < |chunk|
      ensures WellFormedDevice(written[k]) && DeviceKey(written[k]) == DeviceKey(chunk[k])
    {
      ChunkElement(wired.devices, ChunkSize(wired.devices), i, k);
      assert FilledDevice(chunk[k], written[k]) && ConsumesDistinct(chunk[k]);
      FilledCanonical(chunk[k], written[k]);
    }
    forall a, b | 0 <= a < b < |written|
      ensures DeviceKey(written[a]) != DeviceKey(written[b])
    {
      assert DeviceKey(chunk[a]) != DeviceKey(chunk[b]);
    }
  }

  lemma SetSpecWellFormed(id: Identity, pool: Pool, wired: Wired, i: nat)
    requires Sorted(wired.sets, SetKey) && DistinctKeys(wired.sets, SetKey) && i < |SetChunks(wired)|
    ensures WellFormedSpec(SetSpec(id, pool, SetChunks(wired)[i]))
  {
    ChunkInOrder(wired.sets, SetKey, MAX_COUNTER_SETS_PER_SLICE, i);
  }

  lemma LayoutWellFormed(id: Identity, pool: string, wired: Wired, entries: seq<Entry>, generation: int, i: nat)
    requires i < |Batch(id, pool, wired, entries, generation)|
    requires OrderedCanonical(wired.devices) && forall d :: d in wired.devices ==> ConsumesDistinct(d)
    requires Sorted(wired.sets, SetKey) && DistinctKeys(wired.sets, SetKey)
    ensures WellFormedSpec(Batch(id, pool, wired, entries, generation)[i])
  {
    var header, n := Pool(pool, generation, |Batch(id, pool, wired, entries, generation)|), |DeviceChunks(wired)|;
    BatchLayout(id, pool, wired, entries, generation);
    if i < n {
      DeviceSpecWellFormed(id, header, wired, entries, i);
    } else {
      SetSpecWellFormed(id, header, wired, i - n);
    }
  }

  lemma BatchWellFormed(id: Identity, pool: string, inventory: PoolInventory, entries: seq<Entry>, generation: int, i: nat)
    requires ValidInventory(pool, inventory) && i < |Batch(id, pool, WireAll(inventory), entries, generation)|
    ensures WellFormedSpec(Batch(id, pool, WireAll(inventory), entries, generation)[i])
  {
    WiredCanonical(pool, inventory);
    WiredConsumesDistinct(pool, inventory);
    WiredSetsDistinct(inventory.sharedCounters);
    SortBySorted(Map(WireSet, inventory.sharedCounters), SetKey);
    LayoutWellFormed(id, pool, WireAll(inventory), entries, generation, i);
  }

  /**
   * Whatever re-spelling of a written slice the server returns (reordered
   * lists, empty for absent collections, numerically equal amounts, filled
   * taint times), it is a faithful stored form.
   */
  lemma AnyRespellingIsFaithful(id: Identity, pool: string, inventory: PoolInventory, entries: seq<Entry>, generation: int, i: nat, stored: Spec)
    requires ValidInventory(pool, inventory) && i < |Batch(id, pool, WireAll(inventory), entries, generation)|
    requires RespelledSpec(Batch(id, pool, WireAll(inventory), entries, generation)[i], stored)
    ensures Keeps(Batch(id, pool, WireAll(inventory), entries, generation)[i], stored)
  {
    BatchWellFormed(id, pool, inventory, entries, generation, i);
    RespellingAbsorbed(Batch(id, pool, WireAll(inventory), entries, generation)[i], stored);
  }
}
