/** Reconciling one pool: why every write is safe, and when there is none. */
module Reconcile {
  import opened Wrappers
  import opened Sorting
  import opened Slices
  import opened Inventory
  import opened Identities
  import opened Desired
  import opened Coherence
  import opened Publication
  import opened Publisher
  import opened ApiServer

  /** A logged reconcile's batch covers the pool's slices of this generation, and will after any write of `batch`. */
  ghost predicate Covered(s: Store, id: Identity, pool: string, generation: int, batch: seq<Spec>, log: Log)
    requires |batch| <= I64_MAX
  {
    exists cover: seq<Spec>, inventory: PoolInventory, entries: seq<Entry> ::
      && Begun(pool, generation, inventory, entries) in log
      && IsBatch(id, pool, generation, cover, inventory, entries)
      && Covers(s, id, pool, generation, cover) && Serves(id, pool, batch, cover)
  }

  lemma PartialStepsCoherent(before: seq<Store>, after: seq<Store>, s: Store, t: Store, id: Identity, pool: string, generation: int, batch: seq<Spec>,
                             log: Log)
    requires Lawful(id) && |batch| <= I64_MAX && Headed(id, pool, generation, batch)
    requires Coherent(s, id, log) && Covered(s, id, pool, generation, batch, log)
    requires PartialSteps(before, after, s, id, pool, batch) && Partial(s, t, id, pool, batch)
    ensures PoolSteps(before, after, s, id, pool, log) && Coherent(t, id, log) && OnlyPool(s, t, id, pool)
  {
    var cover: seq<Spec>, inventory: PoolInventory, entries: seq<Entry> :|
      && Begun(pool, generation, inventory, entries) in log
      && IsBatch(id, pool, generation, cover, inventory, entries)
      && Covers(s, id, pool, generation, cover) && Serves(id, pool, batch, cover);
    forall u | Partial(s, u, id, pool, batch)
      ensures Coherent(u, id, log) && OnlyPool(s, u, id, pool)
    {
      PartialCoherent(s, u, id, pool, generation, batch, cover, inventory, entries, log);
      PartialOnlyPool(s, u, id, pool, generation, batch);
    }
  }

  /** A new generation starts with no slices, so its own batch covers it. */
  lemma FreshIsCovered(s: Store, id: Identity, pool: string, inventory: PoolInventory, entries: seq<Entry>, existing: Store,
                       generation: int, batch: seq<Spec>, log: Log)
    requires IsBatch(id, pool, generation, batch, inventory, entries) && Begun(pool, generation, inventory, entries) in log
    requires IsEntries(entries, existing, pool) && Mirrored(s, existing, id)
    requires forall name :: name in s && InPool(id, pool, s[name]) ==> name in existing
    requires forall e :: e in entries ==> e.slice.spec.pool.generation < generation
    ensures Covered(s, id, pool, generation, batch, log)
  {
    ServesItself(id, pool, batch);
    forall name | name in s
      ensures !InBatch(id, pool, generation, s[name])
    {
      if InPool(id, pool, s[name]) {
        assert Entry(name, existing[name]) in entries;
      }
    }
    assert Covers(s, id, pool, generation, batch);
  }

  lemma ServedByCurrent(id: Identity, pool: string, batch: seq<Spec>, i: nat, slice: Stored, cover: seq<Spec>, current: Stored)
    requires Lawful(id) && i < |batch| <= I64_MAX && |cover| <= I64_MAX
    requires FromBatch(id, pool, NameAt(id, pool, i), current, cover)
    requires id.canon(current.spec) == id.canon(batch[i])
    ensures Served(id, pool, batch, i, slice, cover)
  {
    var j :| 0 <= j < |cover| && NameAt(id, pool, i) == NameAt(id, pool, j) && id.keeps(cover[j], current.spec);
    assert KeptThrough(id, cover[j], current.spec, batch[i], slice.spec);
  }

  /** An unchanged pool keeps its generation, and the logged reconcile that covered it still does. */
  lemma UnchangedIsCovered(s: Store, id: Identity, pool: string, entries: seq<Entry>, existing: Store,
                           generation: int, desired: seq<Spec>, batch: seq<Spec>, log: Log)
    requires Lawful(id) && Coherent(s, id, log) && |batch| == |desired| <= I64_MAX && Unchanged(id, pool, entries, desired)
    requires IsEntries(entries, existing, pool) && Mirrored(s, existing, id)
    requires forall e :: e in entries ==> e.slice.spec.pool.generation == generation
    requires forall i :: 0 <= i < |batch| ==> id.canon(batch[i]) == AtGeneration(id.canon(desired[i]), generation)
    ensures Covered(s, id, pool, generation, batch, log)
  {
    assert entries[0] in entries && entries[0].name in s && InBatch(id, pool, generation, s[entries[0].name]);
    assert Occupied(s, id, pool, generation);
    var cover: seq<Spec>, inventory: PoolInventory, ents: seq<Entry> :|
      && Begun(pool, generation, inventory, ents) in log
      && IsBatch(id, pool, generation, cover, inventory, ents) && Covers(s, id, pool, generation, cover);
    BatchHeaded(id, pool, generation, cover, inventory, ents);
    UnchangedServes(s, id, pool, entries, existing, generation, desired, batch, cover);
  }

  lemma UnchangedServes(s: Store, id: Identity, pool: string, entries: seq<Entry>, existing: Store,
                        generation: int, desired: seq<Spec>, batch: seq<Spec>, cover: seq<Spec>)
    requires Lawful(id) && |batch| == |desired| <= I64_MAX && Unchanged(id, pool, entries, desired)
    requires IsEntries(entries, existing, pool) && Mirrored(s, existing, id)
    requires forall e :: e in entries ==> e.slice.spec.pool.generation == generation
    requires forall i :: 0 <= i < |batch| ==> id.canon(batch[i]) == AtGeneration(id.canon(desired[i]), generation)
    requires |cover| <= I64_MAX && Covers(s, id, pool, generation, cover)
    ensures Serves(id, pool, batch, cover)
  {
    forall i: nat, slice | i < |batch|
      ensures Served(id, pool, batch, i, slice, cover)
    {
      UnchangedIsComplete(id, pool, entries, desired, i);
      var e :| e in entries && e.name == NameAt(id, pool, i) && SameContent(id, e.slice.spec, desired[i]);
      SameContentAtGeneration(id, e.slice.spec, desired[i], batch[i]);
      assert InBatch(id, pool, generation, s[e.name]);
      ServedByCurrent(id, pool, batch, i, slice, cover, e.slice);
    }
  }

  /** Nothing to write when every slice matches; nothing of the pool is then left on the listing. */
  lemma SettledIsMatched(id: Identity, owner: string, pool: string, inventory: PoolInventory, entries: seq<Entry>, existing: Store,
                         generation: int, desired: seq<Spec>, batch: seq<Spec>)
    requires Lawful(id) && |batch| == |desired| <= I64_MAX && Unchanged(id, pool, entries, desired)
    requires IsEntries(entries, existing, pool)
    requires forall e :: e in entries ==> e.slice.owners == [owner]
    requires forall e :: e in entries ==> e.slice.spec.pool.generation == generation
    requires forall i :: 0 <= i < |batch| ==> id.canon(batch[i]) == AtGeneration(id.canon(desired[i]), generation)
    ensures AllMatched(id, owner, existing, pool, batch)
    ensures forall name :: name in existing && existing[name].spec.pool.name == pool ==> NamedInBatch(id, pool, name, |batch|)
  {
    forall i: nat | i < |batch|
      ensures MatchedAt(id, owner, existing, pool, batch, i)
    {
      UnchangedIsComplete(id, pool, entries, desired, i);
      var e :| e in entries && e.name == NameAt(id, pool, i) && SameContent(id, e.slice.spec, desired[i]);
      SameContentAtGeneration(id, e.slice.spec, desired[i], batch[i]);
    }
    forall name | name in existing && existing[name].spec.pool.name == pool
      ensures NamedInBatch(id, pool, name, |batch|)
    {
      assert Entry(name, existing[name]) in entries;
      assert MatchesSome(id, pool, Entry(name, existing[name]), desired);
    }
  }

  // ----- The reconcile itself -----

  /** What the pool's wanted batch satisfies at the generation chosen for it. */
  ghost predicate Ready(s: Store, id: Identity, pool: string, inventory: PoolInventory, entries: seq<Entry>, existing: Store,
                        generation: int, batch: seq<Spec>, log: Log)
  {
    && |batch| <= I64_MAX && Headed(id, pool, generation, batch)
    && IsBatch(id, pool, generation, batch, inventory, entries)
    && Covered(s, id, pool, generation, batch, log)
  }

  lemma BatchReady(s: Store, id: Identity, pool: string, inventory: PoolInventory, entries: seq<Entry>, existing: Store,
                   generation: int, desired: seq<Spec>, batch: seq<Spec>, log: Log)
    requires Begun(pool, generation, inventory, entries) in log
    requires Lawful(id) && Coherent(s, id, log) && Mirrored(s, existing, id) && IsEntries(entries, existing, pool)
    requires forall name :: name in s && InPool(id, pool, s[name]) ==> name in existing
    requires IsBatch(id, pool, 0, desired, inventory, entries) && IsBatch(id, pool, generation, batch, inventory, entries)
    requires PoolGeneration(id, pool, entries, desired) == Ok(generation)
    ensures Ready(s, id, pool, inventory, entries, existing, generation, batch, log)
    ensures |batch| == |desired| && forall i :: 0 <= i < |batch| ==> id.canon(batch[i]) == AtGeneration(id.canon(desired[i]), generation)
  {
    BatchHeaded(id, pool, generation, batch, inventory, entries);
    BatchAtGeneration(id, pool, WireAll(inventory), entries, generation);
    if Unchanged(id, pool, entries, desired) {
      UnchangedIsCovered(s, id, pool, entries, existing, generation, desired, batch, log);
    } else {
      FreshIsCovered(s, id, pool, inventory, entries, existing, generation, batch, log);
    }
  }

  lemma PlacedFromBatch(s: Store, id: Identity, owner: string, pool: string, inventory: PoolInventory, entries: seq<Entry>,
                        generation: int, batch: seq<Spec>, pending: set<string>)
    requires IsBatch(id, pool, generation, batch, inventory, entries)
    requires PlacedBatch(s, id, owner, pool, batch, pending, |batch|)
    ensures Placed(s, id, owner, pool, inventory, pending)
  {
  }

  /** An empty inventory has no slices; every slice of the pool stays on the listing, to be deleted. */
  lemma EmptyIsPlaced(s: Store, id: Identity, owner: string, pool: string, inventory: PoolInventory, entries: seq<Entry>, existing: Store)
    requires IsBatch(id, pool, 0, [], inventory, entries)
    requires forall name :: name in s && InPool(id, pool, s[name]) ==> name in existing
    ensures Placed(s, id, owner, pool, inventory, existing.Keys)
  {
    assert PlacedBatch(s, id, owner, pool, [], existing.Keys, 0);
  }

  ghost predicate NothingToDo(id: Identity, owner: string, pool: string, inventory: PoolInventory, existing: Store)
  {
    forall entries :: IsEntries(entries, existing, pool) ==> SettledPool(id, owner, pool, inventory, entries)
  }

  lemma SettledGeneration(id: Identity, owner: string, pool: string, inventory: PoolInventory, entries: seq<Entry>, existing: Store,
                          generation: int, desired: seq<Spec>, batch: seq<Spec>)
    requires Lawful(id) && SettledPool(id, owner, pool, inventory, entries) && IsEntries(entries, existing, pool)
    requires desired == Batch(id, pool, WireAll(inventory), entries, 0) && desired != []
    requires |desired| <= I64_MAX && |batch| == |desired| && PoolGeneration(id, pool, entries, desired) == Ok(generation)
    requires forall i :: 0 <= i < |batch| ==> id.canon(batch[i]) == AtGeneration(id.canon(desired[i]), generation)
    ensures AllMatched(id, owner, existing, pool, batch)
    ensures forall name :: name in existing && existing[name].spec.pool.name == pool ==> NamedInBatch(id, pool, name, |batch|)
  {
    SettledIsMatched(id, owner, pool, inventory, entries, existing, generation, desired, batch);
  }

  ghost predicate NoneOf(rest: Store, pool: string)
  {
    forall name {:trigger rest[name]} :: name in rest ==> rest[name].spec.pool.name != pool
  }

  /** None of the pool's slices remain listed once all of them are named by the batch. */
  lemma NoneLeft(s: Store, id: Identity, owner: string, pool: string, existing: Store, rest: Store, batch: seq<Spec>)
    requires |batch| <= I64_MAX && TakenFrom(existing, rest, pool) && PlacedBatch(s, id, owner, pool, batch, rest.Keys, |batch|)
    requires forall name :: name in existing && existing[name].spec.pool.name == pool ==> NamedInBatch(id, pool, name, |batch|)
    ensures NoneOf(rest, pool)
  {
    forall name | name in existing && existing[name].spec.pool.name == pool
      ensures name !in rest
    {
      assert NamedInBatch(id, pool, name, |batch|);
      var i :| 0 <= i < |batch| && name == NameAt(id, pool, i);
      assert NameAt(id, pool, i) !in rest.Keys;
    }
  }

  /** The generation runs out only when a slice already holds the last one. */
  lemma Exhausted(s: Store, id: Identity, pool: string, entries: seq<Entry>, existing: Store, desired: seq<Spec>)
    requires |desired| <= I64_MAX && IsEntries(entries, existing, pool) && Mirrored(s, existing, id)
    requires PoolGeneration(id, pool, entries, desired).Err?
    ensures !Unexhausted(s, id, pool)
  {
    MaxIsTaken(entries);
  }

  lemma {:induction false} MaxIsTaken(entries: seq<Entry>)
    requires entries != []
    ensures exists e :: e in entries && e.slice.spec.pool.generation == MaxGeneration(entries)
  {
    if |entries| > 1 {
      MaxIsTaken(entries[..|entries| - 1]);
      var e :| e in entries[..|entries| - 1] && e.slice.spec.pool.generation == MaxGeneration(entries[..|entries| - 1]);
      assert e in entries;
    }
    assert entries[|entries| - 1] in entries;
  }

  /** The log has grown by nothing but the reconcile of this inventory from this listing. */
  ghost predicate Begins(log: Log, begun: Log, pool: string, inventory: PoolInventory, existing: Store)
  {
    && log <= begun
    && forall b {:trigger BeginsOne(b, pool, inventory, existing)} :: b in begun && b !in log ==> BeginsOne(b, pool, inventory, existing)
  }

  ghost predicate BeginsOne(b: Begun, pool: string, inventory: PoolInventory, existing: Store)
  {
    b.pool == pool && b.inventory == inventory && IsEntries(b.entries, existing, pool) && ChoosesGeneration(b)
  }

  /** Above every generation listed, or the one generation all listed slices have. */
  ghost predicate ChoosesGeneration(b: Begun)
  {
    || (forall e :: e in b.entries ==> e.slice.spec.pool.generation < b.generation)
    || (forall e :: e in b.entries ==> e.slice.spec.pool.generation == b.generation)
  }

  /** What a reconcile has decided to write: the wanted slices and their generation. */
  datatype Choice = Choice(entries: seq<Entry>, desired: seq<Spec>, generation: int)

  ghost predicate Chosen(id: Identity, pool: string, inventory: PoolInventory, existing: Store, c: Choice)
  {
    && IsEntries(c.entries, existing, pool) && c.desired != [] && IsBatch(id, pool, 0, c.desired, inventory, c.entries)
    && PoolGeneration(id, pool, c.entries, c.desired) == Ok(c.generation)
  }

  /** The decision, from the listing alone; nothing where nothing is wanted. */
  method ChoosePool(id: Identity, pool: string, inventory: PoolInventory, existing: Store, ghost s: Store, ghost owner: string)
    returns (r: Result<Option<Choice>, Fault>)
    requires Mirrored(s, existing, id) && forall name :: name in s && InPool(id, pool, s[name]) ==> name in existing
    ensures r.Ok? ==> ValidInventory(pool, inventory)
    ensures r.Ok? && r.value.Some? ==> Chosen(id, pool, inventory, existing, r.value.value)
    ensures r == Ok(None) ==> Placed(s, id, owner, pool, inventory, existing.Keys)
    ensures r.Err? ==> !(Publishable(id, pool, inventory) && Unexhausted(s, id, pool))
    ensures NothingToDo(id, owner, pool, inventory, existing) ==> r.Ok? && (r.value.None? ==> NoneOf(existing, pool))
    ensures NothingToDo(id, owner, pool, inventory, existing) && r.Ok? && r.value.Some? ==> SettledPool(id, owner, pool, inventory, r.value.value.entries)
  {
    var wired := WireInventory(pool, inventory);
    var entries := PoolEntries(existing, pool);
    if NothingToDo(id, owner, pool, inventory, existing) {
      SettledIsNotRefused(id, owner, pool, inventory, existing, entries);
    }
    if wired.Err? {
      return Err(wired.error);
    }
    var desired := DesiredSlices(id, pool, wired.value, entries);
    if desired == [] {
      EmptyIsPlaced(s, id, owner, pool, inventory, entries, existing);
      return Ok(None);
    }
    if |desired| > I64_MAX {
      return Err(TooManySlices);
    }
    var generation := PoolGeneration(id, pool, entries, desired);
    if generation.Err? {
      Exhausted(s, id, pool, entries, existing, desired);
      return Err(generation.error);
    }
    return Ok(Some(Choice(entries, desired, generation.value)));
  }

  /** Too many slices, or no generation left. */
  predicate Refused(id: Identity, pool: string, desired: seq<Spec>, entries: seq<Entry>)
  {
    |desired| > I64_MAX || (desired != [] && PoolGeneration(id, pool, entries, desired).Err?)
  }

  /** A pool with nothing to do is never refused. */
  lemma SettledIsNotRefused(id: Identity, owner: string, pool: string, inventory: PoolInventory, existing: Store, entries: seq<Entry>)
    requires NothingToDo(id, owner, pool, inventory, existing) && IsEntries(entries, existing, pool)
    ensures SettledPool(id, owner, pool, inventory, entries) && ValidInventory(pool, inventory)
    ensures !Refused(id, pool, Batch(id, pool, WireAll(inventory), entries, 0), entries)
    ensures Batch(id, pool, WireAll(inventory), entries, 0) == [] ==> NoneOf(existing, pool)
  {
    assert SettledPool(id, owner, pool, inventory, entries);
    forall name | name in existing
      ensures existing[name].spec.pool.name == pool ==> entries != []
    {
      assert existing[name].spec.pool.name == pool ==> Entry(name, existing[name]) in entries;
    }
  }

  lemma BeginsThis(id: Identity, pool: string, inventory: PoolInventory, entries: seq<Entry>, desired: seq<Spec>, generation: int,
                   existing: Store, log: Log)
    requires IsEntries(entries, existing, pool) && desired != [] && |desired| <= I64_MAX
    requires PoolGeneration(id, pool, entries, desired) == Ok(generation)
    ensures Begins(log, log + {Begun(pool, generation, inventory, entries)}, pool, inventory, existing)
  {
    assert ChoosesGeneration(Begun(pool, generation, inventory, entries));
  }

  lemma NothingDone(trace: seq<Store>, s: Store, id: Identity, pool: string, inventory: PoolInventory, existing: Store, log: Log)
    ensures Begins(log, log, pool, inventory, existing) && PoolSteps(trace, trace, s, id, pool, log)
    ensures OnlyPool(s, s, id, pool) && NewNames(s, s, id, pool)
  {
  }

  /**
   * One pool. Every state on the way is explained by the reconciles begun,
   * this one included, and touches this pool only; an invalid inventory writes
   * nothing; a settled pool writes nothing; on success the pool is its batch,
   * apart from what is still listed.
   */
  method ReconcilePool(server: Server, id: Identity, owner: string, existing: Store, pool: string, inventory: PoolInventory, ghost log: Log)
    returns (fault: Option<Fault>, rest: Store, ghost begun: Log)
    requires server.Valid() && Lawful(id) && Coherent(server.slices, id, log) && Mirrored(server.slices, existing, id)
    requires forall name :: name in server.slices && InPool(id, pool, server.slices[name]) ==> name in existing
    modifies server
    ensures Begins(log, begun, pool, inventory, existing)
    ensures server.Valid() && PoolSteps(old(server.trace), server.trace, old(server.slices), id, pool, begun)
    ensures Coherent(server.slices, id, begun) && OnlyPool(old(server.slices), server.slices, id, pool)
    ensures !ValidInventory(pool, inventory) ==> fault.Some? && server.trace == old(server.trace)
    ensures fault.None? ==> Mirrored(server.slices, rest, id) && TakenFrom(existing, rest, pool)
    ensures fault.None? ==> Placed(server.slices, id, owner, pool, inventory, rest.Keys)
    ensures Willing(old(server.answers), server.answers,
      Publishable(id, pool, inventory) && Clear(old(server.slices), id, pool) && Unexhausted(old(server.slices), id, pool) ==> fault.None?)
    ensures NewNames(old(server.slices), server.slices, id, pool)
    ensures NothingToDo(id, owner, pool, inventory, existing) ==>
      fault.None? && server.trace == old(server.trace) && NoneOf(rest, pool)
  {
    rest := existing;
    begun := log;
    ghost var s := server.slices;
    var choice := ChoosePool(id, pool, inventory, existing, s, owner);
    NothingDone(server.trace, s, id, pool, inventory, existing, log);
    if choice.Err? {
      return Some(choice.error), rest, begun;
    }
    if choice.value.None? {
      return None, rest, begun;
    }
    var c := choice.value.value;
    fault, rest, begun := WriteDesired(server, id, owner, existing, pool, inventory, c.entries, c.desired, c.generation, log);
  }

  /** The wanted slices, at the generation chosen for them: here the reconcile is begun. */
  method WriteDesired(server: Server, id: Identity, owner: string, existing: Store, pool: string, inventory: PoolInventory,
                      entries: seq<Entry>, desired: seq<Spec>, generation: int, ghost log: Log)
    returns (fault: Option<Fault>, rest: Store, ghost begun: Log)
    requires server.Valid() && Lawful(id) && Coherent(server.slices, id, log) && Mirrored(server.slices, existing, id)
    requires forall name :: name in server.slices && InPool(id, pool, server.slices[name]) ==> name in existing
    requires IsEntries(entries, existing, pool) && desired != [] && IsBatch(id, pool, 0, desired, inventory, entries)
    requires PoolGeneration(id, pool, entries, desired) == Ok(generation)
    modifies server
    ensures begun == log + {Begun(pool, generation, inventory, entries)} && Begins(log, begun, pool, inventory, existing)
    ensures server.Valid() && PoolSteps(old(server.trace), server.trace, old(server.slices), id, pool, begun)
    ensures Coherent(server.slices, id, begun) && OnlyPool(old(server.slices), server.slices, id, pool)
    ensures fault.None? ==> Mirrored(server.slices, rest, id) && TakenFrom(existing, rest, pool)
    ensures fault.None? ==> Placed(server.slices, id, owner, pool, inventory, rest.Keys)
    ensures Willing(old(server.answers), server.answers, Clear(old(server.slices), id, pool) ==> fault.None?)
    ensures NewNames(old(server.slices), server.slices, id, pool)
    ensures SettledPool(id, owner, pool, inventory, entries) ==>
      fault.None? && server.trace == old(server.trace) && NoneOf(rest, pool)
  {
    ghost var s := server.slices;
    BatchAtGeneration(id, pool, WireAll(inventory), entries, generation);
    var batch := Map((d: Spec) => AtGeneration(d, generation), desired);
    assert batch == Batch(id, pool, WireAll(inventory), entries, generation);
    begun := log + {Begun(pool, generation, inventory, entries)};
    BeginsThis(id, pool, inventory, entries, desired, generation, existing, log);
    CoherentGrows(s, id, log, begun);
    BatchReady(s, id, pool, inventory, entries, existing, generation, desired, batch, begun);
    fault, rest := WriteBatch(server, id, owner, existing, pool, generation, batch);
    PartialStepsCoherent(old(server.trace), server.trace, s, server.slices, id, pool, generation, batch, begun);
    PartialNames(s, server.slices, id, pool, batch);
    if SettledPool(id, owner, pool, inventory, entries) {
      SettledGeneration(id, owner, pool, inventory, entries, existing, generation, desired, batch);
      NoneLeft(server.slices, id, owner, pool, existing, rest, batch);
    }
    if fault.None? {
      PlacedFromBatch(server.slices, id, owner, pool, inventory, entries, generation, batch, rest.Keys);
    }
  }
}
