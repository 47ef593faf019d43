/** The ResourceSlice publisher: one publication, call by call. */
module Publisher {
  import opened Wrappers
  import opened Sorting
  import opened Slices
  import opened Inventory
  import opened Identities
  import opened Desired
  import opened Coherence
  import opened Publication
  import opened ApiServer
  import opened Canonical

  // ----- Listing a pool -----

  function Listed(names: seq<string>, existing: Store, pool: string): seq<Entry>
    requires forall name :: name in names ==> name in existing
  {
    if names == [] then []
    else
      var last := names[|names| - 1];
      Listed(names[..|names| - 1], existing, pool) +
      if existing[last].spec.pool.name == pool then [Entry(last, existing[last])] else []
  }

  lemma {:induction false} ListedHolds(names: seq<string>, existing: Store, pool: string)
    requires forall name :: name in names ==> name in existing
    ensures forall e :: e in Listed(names, existing, pool) ==>
      e.name in names && e.slice == existing[e.name] && e.slice.spec.pool.name == pool
    ensures forall name :: name in names && existing[name].spec.pool.name == pool ==> Entry(name, existing[name]) in Listed(names, existing, pool)
  {
    if names != [] {
      var last := names[|names| - 1];
      ListedHolds(names[..|names| - 1], existing, pool);
      assert names == names[..|names| - 1] + [last];
    }
  }

  lemma {:induction false} ListedInOrder(names: seq<string>, existing: Store, pool: string)
    requires forall name :: name in names ==> name in existing
    requires Sorted(names, TextKey) && DistinctKeys(names, TextKey)
    ensures Sorted(Listed(names, existing, pool), EntryKey) && DistinctKeys(Listed(names, existing, pool), EntryKey)
  {
    if names != [] {
      var init, last := names[..|names| - 1], names[|names| - 1];
      ListedInOrder(init, existing, pool);
      ListedHolds(init, existing, pool);
      var entries := Listed(init, existing, pool);
      forall k | 0 <= k < |entries|
        ensures KeyLeq(EntryKey(entries[k]), TextKey(last)) && EntryKey(entries[k]) != TextKey(last)
      {
        assert entries[k] in entries;
        var at :| 0 <= at < |init| && init[at] == entries[k].name;
        assert names[at] == entries[k].name;
      }
    }
  }

  /** The listed slices of a pool, in name order. */
  method PoolEntries(existing: Store, pool: string) returns (entries: seq<Entry>)
    ensures IsEntries(entries, existing, pool)
  {
    var names := SortedNames(existing.Keys);
    entries := [];
    for i := 0 to |names|
      invariant entries == Listed(names[..i], existing, pool)
    {
      assert names[..i + 1][..i] == names[..i];
      if existing[names[i]].spec.pool.name == pool {
        entries := entries + [Entry(names[i], existing[names[i]])];
      }
    }
    assert names[..|names|] == names;
    ListedHolds(names, existing, pool);
    ListedInOrder(names, existing, pool);
  }

  // ----- The slices one reconcile wants -----

  method DesiredSlices(id: Identity, pool: string, wired: Wired, entries: seq<Entry>) returns (desired: seq<Spec>)
    ensures desired == Batch(id, pool, wired, entries, 0)
  {
    var devices := PreserveTaintTimes(wired.devices, entries);
    var chunks := Drain(devices, ChunkSize(devices));
    var setChunks := Drain(wired.sets, MAX_COUNTER_SETS_PER_SLICE);
    var contents := Payloads(chunks, setChunks);
    assert contents == Contents(devices, wired.sets);
    desired := [];
    for i := 0 to |contents|
      invariant |desired| == i
      invariant forall j :: 0 <= j < i ==> desired[j] == ContentSpec(id, Pool(pool, 0, |contents|), contents[j])
    {
      desired := desired + [ContentSpec(id, Pool(pool, 0, |contents|), contents[i])];
    }
    assert desired == Batch(id, pool, wired, entries, 0);
  }

  // ----- One write -----

  predicate Matches(id: Identity, current: Stored, owner: string, desired: Spec)
  {
    id.canon(current.spec) == id.canon(desired) && current.owners == [owner]
  }

  /** One slice: left alone when it matches, replaced when listed, created otherwise. */
  method WriteSlice(server: Server, id: Identity, owner: string, name: string, current: Option<Stored>, desired: Spec) returns (ok: bool)
    requires server.Valid() && Lawful(id)
    requires current.Some? ==> name in server.slices && server.slices[name] == current.value
    modifies server
    ensures server.Valid()
    ensures ok ==> Kept(id, server.slices, name, owner, desired)
    ensures (server.trace == old(server.trace) && server.slices == old(server.slices)) ||
      (server.trace == old(server.trace) + [server.slices] && Writes(id, old(server.slices), server.slices, name, owner, desired))
    ensures Willing(old(server.answers), server.answers, (current.None? && name in old(server.slices)) || ok)
    ensures current.None? && server.slices != old(server.slices) ==> name !in old(server.slices)
    ensures current.Some? && Matches(id, current.value, owner, desired) ==> ok && server.trace == old(server.trace)
  {
    match current
    case Some(slice) =>
      if Matches(id, slice, owner, desired) {
        assert EqualKept(id, desired, slice.spec);
        return true;
      }
      ok := server.Replace(id, name, slice, owner, desired);
    case None =>
      ok := server.Create(id, name, owner, desired);
  }

  // ----- One pool -----

  ghost predicate MatchedAt(id: Identity, owner: string, existing: Store, pool: string, batch: seq<Spec>, i: nat)
    requires i < |batch| <= I64_MAX
  {
    && NameAt(id, pool, i) in existing
    && existing[NameAt(id, pool, i)].spec.pool.name == pool
    && Matches(id, existing[NameAt(id, pool, i)], owner, batch[i])
  }

  ghost predicate AllMatched(id: Identity, owner: string, existing: Store, pool: string, batch: seq<Spec>)
    requires |batch| <= I64_MAX
  {
    forall i: nat :: i < |batch| ==> MatchedAt(id, owner, existing, pool, batch, i)
  }

  /** A matched slice is still listed when its turn comes. */
  lemma MatchedIsListed(id: Identity, owner: string, existing: Store, rest: Store, pool: string, batch: seq<Spec>, i: nat)
    requires Lawful(id) && i < |batch| <= I64_MAX && AllMatched(id, owner, existing, pool, batch)
    requires TakenFrom(existing, rest, pool)
    requires forall name :: name in existing && name !in rest ==> NamedInBatch(id, pool, name, i)
    ensures var name := NameAt(id, pool, i);
      name in rest && rest[name].spec.pool.name == pool && Matches(id, rest[name], owner, batch[i])
  {
    assert MatchedAt(id, owner, existing, pool, batch, i);
    assert !NamedInBatch(id, pool, NameAt(id, pool, i), i);
  }

  method WriteAt(server: Server, id: Identity, owner: string, existing: Store, rest: Store, pool: string, generation: int, batch: seq<Spec>, i: nat,
                 ghost base: Store)
    returns (fault: Option<Fault>)
    requires server.Valid() && Lawful(id) && i < |batch| <= I64_MAX && Headed(id, pool, generation, batch)
    requires Batching(base, server.slices, existing, rest, id, owner, pool, batch, i)
    requires forall name :: name in base && InPool(id, pool, base[name]) ==> name in existing
    modifies server
    ensures server.Valid() && Partial(base, server.slices, id, pool, batch)
    ensures server.trace == old(server.trace) || server.trace == old(server.trace) + [server.slices]
    ensures fault.None? ==> Batching(base, server.slices, existing, rest - {NameAt(id, pool, i)}, id, owner, pool, batch, i + 1)
    ensures AllMatched(id, owner, existing, pool, batch) ==> fault.None? && server.trace == old(server.trace)
    ensures Willing(old(server.answers), server.answers, Clear(old(server.slices), id, pool) ==> fault.None?)
  {
    var name := NameAt(id, pool, i);
    ghost var s := server.slices;
    if AllMatched(id, owner, existing, pool, batch) {
      MatchedIsListed(id, owner, existing, rest, pool, batch, i);
    }
    if Clear(s, id, pool) {
      ClearToCreate(base, s, existing, rest, id, owner, pool, batch, i);
    }
    if name in rest && rest[name].spec.pool.name != pool {
      return Some(NameOwnedByOtherPool);
    }
    var current := if name in rest then Some(rest[name]) else None;
    var ok := WriteSlice(server, id, owner, name, current, batch[i]);
    WrittenInPool(s, server.slices, id, owner, pool, generation, batch, i);
    PartialStep(base, s, server.slices, id, owner, pool, batch, i);
    if !ok {
      return Some(ApiRefused);
    }
    BatchingStep(base, s, server.slices, existing, rest, id, owner, pool, batch, i);
    return None;
  }

  /** The batch is written slice by slice; the server may stop answering after any of them. */
  method WriteBatch(server: Server, id: Identity, owner: string, existing: Store, pool: string, generation: int, batch: seq<Spec>)
    returns (fault: Option<Fault>, rest: Store)
    requires server.Valid() && Lawful(id) && |batch| <= I64_MAX && Headed(id, pool, generation, batch)
    requires Mirrored(server.slices, existing, id)
    requires forall name :: name in server.slices && InPool(id, pool, server.slices[name]) ==> name in existing
    modifies server
    ensures server.Valid() && PartialSteps(old(server.trace), server.trace, old(server.slices), id, pool, batch)
    ensures Partial(old(server.slices), server.slices, id, pool, batch)
    ensures fault.None? ==> Batching(old(server.slices), server.slices, existing, rest, id, owner, pool, batch, |batch|)
    ensures AllMatched(id, owner, existing, pool, batch) ==> fault.None? && server.trace == old(server.trace)
    ensures Willing(old(server.answers), server.answers, Clear(old(server.slices), id, pool) ==> fault.None?)
  {
    rest := existing;
    for i := 0 to |batch|
      invariant server.Valid() && PartialSteps(old(server.trace), server.trace, old(server.slices), id, pool, batch)
      invariant Batching(old(server.slices), server.slices, existing, rest, id, owner, pool, batch, i)
      invariant AllMatched(id, owner, existing, pool, batch) ==> server.trace == old(server.trace)
      invariant Willing(old(server.answers), server.answers, true)
    {
      ghost var before := server.trace;
      if Clear(old(server.slices), id, pool) {
        PartialOnlyPool(old(server.slices), server.slices, id, pool, generation, batch);
        PartialNames(old(server.slices), server.slices, id, pool, batch);
        StaysClear(old(server.slices), server.slices, id, pool, pool);
      }
      fault := WriteAt(server, id, owner, existing, rest, pool, generation, batch, i, old(server.slices));
      PartialStepsExtend(old(server.trace), before, old(server.slices), server.slices, id, pool, batch);
      if fault.Some? {
        return;
      }
      rest := rest - {NameAt(id, pool, i)};
    }
    fault := None;
  }
}
