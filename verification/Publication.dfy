/** What one publication may change, and what it has achieved when it succeeds. */
module Publication {
  import opened Wrappers
  import opened Sorting
  import opened Slices
  import opened Inventory
  import opened Identities
  import opened Desired
  import opened Coherence
  import opened ApiServer

  // ----- Frames -----

  /** Only this publisher's slices of one pool differ. */
  ghost predicate OnlyPool(s: Store, t: Store, id: Identity, pool: string)
  {
    && (forall name :: name in s && !InPool(id, pool, s[name]) ==> name in t && t[name] == s[name])
    && (forall name :: name in t && !InPool(id, pool, t[name]) ==> name in s && s[name] == t[name])
  }

  /** Only this publisher's slices differ. */
  ghost predicate OnlyOwn(s: Store, t: Store, id: Identity)
  {
    && (forall name :: name in s && !(s[name].spec.driver == id.driver && s[name].spec.node == Some(id.node)) ==> name in t && t[name] == s[name])
    && (forall name :: name in t && !(t[name].spec.driver == id.driver && t[name].spec.node == Some(id.node)) ==> name in s && s[name] == t[name])
  }

  /** `after` extends `before` by states in which some of the batch is written. */
  ghost predicate PartialSteps(before: seq<Store>, after: seq<Store>, base: Store, id: Identity, pool: string, batch: seq<Spec>)
    requires |batch| <= I64_MAX
  {
    && |before| <= |after| && after[..|before|] == before
    && forall k :: |before| <= k < |after| ==> Partial(base, after[k], id, pool, batch)
  }

  /** `after` extends `before` by states that the log explains and that touch one pool only. */
  ghost predicate PoolSteps(before: seq<Store>, after: seq<Store>, base: Store, id: Identity, pool: string, log: Log)
  {
    && |before| <= |after| && after[..|before|] == before
    && forall k :: |before| <= k < |after| ==> Coherent(after[k], id, log) && OnlyPool(base, after[k], id, pool)
  }

  /** `after` extends `before` by states that the log explains and that touch this publisher's slices only. */
  ghost predicate SafeSteps(before: seq<Store>, after: seq<Store>, base: Store, id: Identity, log: Log)
  {
    && |before| <= |after| && after[..|before|] == before
    && forall k :: |before| <= k < |after| ==> Coherent(after[k], id, log) && OnlyOwn(base, after[k], id)
  }

  // ----- Listing a pool -----

  function EntryKey(e: Entry): Key { [e.name] }

  /** The pool's slices among `existing`, in name order. */
  ghost predicate IsEntries(entries: seq<Entry>, existing: Store, pool: string)
  {
    && (forall e :: e in entries ==> e.name in existing && e.slice == existing[e.name] && e.slice.spec.pool.name == pool)
    && (forall name :: name in existing && existing[name].spec.pool.name == pool ==> Entry(name, existing[name]) in entries)
    && Sorted(entries, EntryKey) && DistinctKeys(entries, EntryKey)
  }

  lemma {:induction false} DistinctMultiset<T>(xs: seq<T>)
    requires forall i, j :: 0 <= i < j < |xs| ==> xs[i] != xs[j]
    ensures forall x :: multiset(xs)[x] == if x in xs then 1 else 0
  {
    if xs != [] {
      DistinctMultiset(xs[1..]);
      assert xs == [xs[0]] + xs[1..];
      assert xs[0] !in xs[1..];
      forall x
        ensures multiset(xs)[x] == if x in xs then 1 else 0
      {
        assert x in xs <==> x == xs[0] || x in xs[1..];
      }
    }
  }

  lemma DistinctElements(entries: seq<Entry>)
    requires DistinctKeys(entries, EntryKey)
    ensures forall e :: multiset(entries)[e] == if e in entries then 1 else 0
  {
    forall i, j | 0 <= i < j < |entries|
      ensures entries[i] != entries[j]
    {
      assert EntryKey(entries[i]) != EntryKey(entries[j]);
    }
    DistinctMultiset(entries);
  }

  /** A listing determines the pool's entries. */
  lemma EntriesUnique(a: seq<Entry>, b: seq<Entry>, existing: Store, pool: string)
    requires IsEntries(a, existing, pool) && IsEntries(b, existing, pool)
    ensures a == b
  {
    DistinctElements(a);
    DistinctElements(b);
    forall e: Entry
      ensures e in a <==> e in b
    {
      if e in a {
        assert Entry(e.name, existing[e.name]) == e;
      }
      if e in b {
        assert Entry(e.name, existing[e.name]) == e;
      }
    }
    assert multiset(a) == multiset(b);
    DistinctKeysDecide(a, EntryKey);
    SortedUnique(a, b, EntryKey);
  }

  // ----- What success means -----

  /** The named slice is there, owned, and a faithful form of the desired spec. */
  ghost predicate Kept(id: Identity, s: Store, name: string, owner: string, desired: Spec)
  {
    name in s && s[name].owners == [owner] && id.keeps(desired, s[name].spec)
  }

  ghost predicate NamedInBatch(id: Identity, pool: string, name: string, count: nat)
    requires count <= I64_MAX
  {
    exists i :: 0 <= i < count && name == NameAt(id, pool, i)
  }

  /** The first `count` slices of the batch are in place, and every other slice of the pool is still pending. */
  ghost predicate PlacedBatch(s: Store, id: Identity, owner: string, pool: string, batch: seq<Spec>, pending: set<string>, count: nat)
    requires count <= |batch| <= I64_MAX
  {
    && (forall i :: 0 <= i < count ==> Kept(id, s, NameAt(id, pool, i), owner, batch[i]) && NameAt(id, pool, i) !in pending)
    && (forall name :: name in s && InPool(id, pool, s[name]) ==> name in pending || NamedInBatch(id, pool, name, count))
  }

  ghost predicate Placed(s: Store, id: Identity, owner: string, pool: string, inventory: PoolInventory, pending: set<string>)
  {
    exists batch: seq<Spec>, generation: int, entries: seq<Entry> ::
      && IsBatch(id, pool, generation, batch, inventory, entries)
      && PlacedBatch(s, id, owner, pool, batch, pending, |batch|)
  }

  /** Every pool of the snapshot is exactly its batch, and there is nothing else. */
  ghost predicate Published(s: Store, id: Identity, owner: string, snapshot: map<string, PoolInventory>)
  {
    && (forall name :: name in s && Owns(id, s[name]) ==> s[name].spec.pool.name in snapshot)
    && (forall pool :: pool in snapshot ==> Placed(s, id, owner, pool, snapshot[pool], {}))
  }

  lemma PlacedBatchElsewhere(s: Store, t: Store, id: Identity, owner: string, pool: string, batch: seq<Spec>,
                             pending: set<string>, still: set<string>, other: string, generation: int)
    requires Lawful(id) && |batch| <= I64_MAX && Headed(id, pool, generation, batch)
    requires PlacedBatch(s, id, owner, pool, batch, pending, |batch|) && OnlyPool(s, t, id, other) && other != pool
    requires still <= pending
    requires forall name :: name in pending && name in s && InPool(id, pool, s[name]) ==> name in still
    ensures PlacedBatch(t, id, owner, pool, batch, still, |batch|)
  {
    forall i | 0 <= i < |batch|
      ensures Kept(id, t, NameAt(id, pool, i), owner, batch[i])
    {
      assert HeaderKept(id, batch[i], s[NameAt(id, pool, i)].spec);
    }
    forall name | name in t && InPool(id, pool, t[name])
      ensures name in still || NamedInBatch(id, pool, name, |batch|)
    {
      assert name in s && s[name] == t[name];
    }
  }

  /** Publishing another pool leaves this one in place. */
  lemma PlacedElsewhere(s: Store, t: Store, id: Identity, owner: string, pool: string, inventory: PoolInventory,
                        pending: set<string>, still: set<string>, other: string)
    requires Lawful(id) && Placed(s, id, owner, pool, inventory, pending)
    requires OnlyPool(s, t, id, other) && other != pool && still <= pending
    requires forall name :: name in pending && name in s && InPool(id, pool, s[name]) ==> name in still
    ensures Placed(t, id, owner, pool, inventory, still)
  {
    var batch: seq<Spec>, generation: int, entries: seq<Entry> :|
      && IsBatch(id, pool, generation, batch, inventory, entries)
      && PlacedBatch(s, id, owner, pool, batch, pending, |batch|);
    BatchHeaded(id, pool, generation, batch, inventory, entries);
    PlacedBatchElsewhere(s, t, id, owner, pool, batch, pending, still, other, generation);
  }

  lemma PlacedBatchWithout(s: Store, id: Identity, owner: string, pool: string, batch: seq<Spec>, pending: set<string>, name: string)
    requires |batch| <= I64_MAX && PlacedBatch(s, id, owner, pool, batch, pending, |batch|) && name in pending
    ensures PlacedBatch(s - {name}, id, owner, pool, batch, pending - {name}, |batch|)
  {
    var t := s - {name};
    forall i | 0 <= i < |batch|
      ensures Kept(id, t, NameAt(id, pool, i), owner, batch[i]) && NameAt(id, pool, i) !in pending - {name}
    {
      assert Kept(id, s, NameAt(id, pool, i), owner, batch[i]);
    }
  }

  /** Deleting a pending slice leaves every pool in place. */
  lemma PlacedWithout(s: Store, id: Identity, owner: string, pool: string, inventory: PoolInventory, pending: set<string>, name: string)
    requires Placed(s, id, owner, pool, inventory, pending) && name in pending
    ensures Placed(s - {name}, id, owner, pool, inventory, pending - {name})
  {
    var batch: seq<Spec>, generation: int, entries: seq<Entry> :|
      && IsBatch(id, pool, generation, batch, inventory, entries)
      && PlacedBatch(s, id, owner, pool, batch, pending, |batch|);
    PlacedBatchWithout(s, id, owner, pool, batch, pending, name);
  }

  // ----- One more slice in place -----

  /** What the publisher still remembers of its listing is what the server has. */
  ghost predicate Mirrored(s: Store, rest: Store, id: Identity)
  {
    forall name :: name in rest ==> name in s && s[name] == rest[name] && Owns(id, rest[name])
  }

  /** Only slices of the pool have been taken off the listing. */
  ghost predicate TakenFrom(existing: Store, rest: Store, pool: string)
  {
    && rest.Keys <= existing.Keys
    && (forall name :: name in rest ==> rest[name] == existing[name])
    && forall name :: name in existing && existing[name].spec.pool.name != pool ==> name in rest
  }

  /** `t` is `s`, or `s` with one slice of the pool written under `name`. */
  ghost predicate PoolWrite(s: Store, t: Store, id: Identity, pool: string, name: string)
  {
    t == s || (name in t && t == s[name := t[name]] && InPool(id, pool, t[name]) && (name in s ==> InPool(id, pool, s[name])))
  }

  lemma PartialOnlyPool(s: Store, t: Store, id: Identity, pool: string, generation: int, batch: seq<Spec>)
    requires Lawful(id) && |batch| <= I64_MAX && Headed(id, pool, generation, batch) && Partial(s, t, id, pool, batch)
    ensures OnlyPool(s, t, id, pool)
  {
    forall name | name in t && !InPool(id, pool, t[name])
      ensures name in s && s[name] == t[name]
    {
      if name in s ==> t[name] != s[name] {
        FromBatchHeader(id, pool, generation, name, t[name], batch);
      }
    }
  }

  lemma WrittenInPool(s: Store, t: Store, id: Identity, owner: string, pool: string, generation: int, batch: seq<Spec>, i: nat)
    requires Lawful(id) && i < |batch| <= I64_MAX && Headed(id, pool, generation, batch)
    requires t == s || Writes(id, s, t, NameAt(id, pool, i), owner, batch[i])
    requires t != s && NameAt(id, pool, i) in s ==> InPool(id, pool, s[NameAt(id, pool, i)])
    ensures PoolWrite(s, t, id, pool, NameAt(id, pool, i))
    ensures t != s ==> Kept(id, t, NameAt(id, pool, i), owner, batch[i])
  {
    if t != s {
      assert HeaderKept(id, batch[i], t[NameAt(id, pool, i)].spec);
    }
  }

  lemma PartialStep(base: Store, s: Store, t: Store, id: Identity, owner: string, pool: string, batch: seq<Spec>, i: nat)
    requires i < |batch| <= I64_MAX && Partial(base, s, id, pool, batch)
    requires PoolWrite(s, t, id, pool, NameAt(id, pool, i))
    requires t != s ==> Kept(id, t, NameAt(id, pool, i), owner, batch[i])
    requires forall name :: name in base && !InPool(id, pool, base[name]) ==> name in s && s[name] == base[name]
    ensures Partial(base, t, id, pool, batch)
  {
    forall name | name in t && (name in base ==> t[name] != base[name])
      ensures FromBatch(id, pool, name, t[name], batch) && (name in base ==> InPool(id, pool, base[name]))
    {
      if t != s && name == NameAt(id, pool, i) {
        assert id.keeps(batch[i], t[name].spec);
      } else {
        assert name in s && t[name] == s[name];
      }
    }
  }

  lemma MirroredStep(s: Store, t: Store, rest: Store, id: Identity, pool: string, name: string)
    requires Mirrored(s, rest, id) && PoolWrite(s, t, id, pool, name)
    ensures Mirrored(t, rest - {name}, id)
  {
  }

  lemma PlacedStep(s: Store, t: Store, id: Identity, owner: string, pool: string, batch: seq<Spec>, pending: set<string>, count: nat)
    requires Lawful(id) && count < |batch| <= I64_MAX
    requires PlacedBatch(s, id, owner, pool, batch, pending, count)
    requires PoolWrite(s, t, id, pool, NameAt(id, pool, count)) && Kept(id, t, NameAt(id, pool, count), owner, batch[count])
    ensures PlacedBatch(t, id, owner, pool, batch, pending - {NameAt(id, pool, count)}, count + 1)
  {
    var name := NameAt(id, pool, count);
    forall i | 0 <= i < count + 1
      ensures Kept(id, t, NameAt(id, pool, i), owner, batch[i]) && NameAt(id, pool, i) !in pending - {name}
    {
      assert i < count ==> NameAt(id, pool, i) != name;
    }
    forall n | n in t && InPool(id, pool, t[n])
      ensures n in pending - {name} || NamedInBatch(id, pool, n, count + 1)
    {
      if n == name {
        assert NamedInBatch(id, pool, name, count + 1);
      } else if n !in pending {
        assert NamedInBatch(id, pool, n, count);
        var i :| 0 <= i < count && n == NameAt(id, pool, i);
      }
    }
  }

  /** The state between two slices of a batch. */
  ghost predicate Batching(base: Store, s: Store, existing: Store, rest: Store, id: Identity, owner: string, pool: string, batch: seq<Spec>, count: nat)
    requires count <= |batch| <= I64_MAX
  {
    && Partial(base, s, id, pool, batch)
    && Mirrored(s, rest, id) && TakenFrom(existing, rest, pool)
    && PlacedBatch(s, id, owner, pool, batch, rest.Keys, count)
    && forall name :: name in existing && name !in rest ==> NamedInBatch(id, pool, name, count)
  }

  lemma StillNamed(existing: Store, rest: Store, id: Identity, pool: string, i: nat)
    requires i < I64_MAX && forall name :: name in existing && name !in rest ==> NamedInBatch(id, pool, name, i)
    ensures forall name :: name in existing && name !in rest - {NameAt(id, pool, i)} ==> NamedInBatch(id, pool, name, i + 1)
  {
    forall n | n in existing && n !in rest - {NameAt(id, pool, i)}
      ensures NamedInBatch(id, pool, n, i + 1)
    {
      if n !in rest {
        assert NamedInBatch(id, pool, n, i);
      }
    }
  }

  lemma BatchingStep(base: Store, s: Store, t: Store, existing: Store, rest: Store, id: Identity, owner: string, pool: string,
                     batch: seq<Spec>, i: nat)
    requires Lawful(id) && i < |batch| <= I64_MAX
    requires Batching(base, s, existing, rest, id, owner, pool, batch, i)
    requires PoolWrite(s, t, id, pool, NameAt(id, pool, i)) && Kept(id, t, NameAt(id, pool, i), owner, batch[i])
    requires NameAt(id, pool, i) in rest ==> rest[NameAt(id, pool, i)].spec.pool.name == pool
    requires Partial(base, t, id, pool, batch)
    ensures Batching(base, t, existing, rest - {NameAt(id, pool, i)}, id, owner, pool, batch, i + 1)
  {
    var name := NameAt(id, pool, i);
    MirroredStep(s, t, rest, id, pool, name);
    PlacedStep(s, t, id, owner, pool, batch, rest.Keys, i);
    assert (rest - {name}).Keys == rest.Keys - {name};
    StillNamed(existing, rest, id, pool, i);
  }

  lemma PartialStepsExtend(before: seq<Store>, trace: seq<Store>, base: Store, t: Store, id: Identity, pool: string, batch: seq<Spec>)
    requires |batch| <= I64_MAX && PartialSteps(before, trace, base, id, pool, batch) && Partial(base, t, id, pool, batch)
    ensures PartialSteps(before, trace + [t], base, id, pool, batch)
  {
  }

  // ----- What a publication needs to succeed -----

  /** No other slice holds one of this pool's names. */
  ghost predicate Clear(s: Store, id: Identity, pool: string)
  {
    forall i: nat :: i <= I64_MAX && NameAt(id, pool, i) in s ==> InPool(id, pool, s[NameAt(id, pool, i)])
  }

  /** The two pools' slice names never coincide. */
  ghost predicate Apart(id: Identity, p: string, q: string)
  {
    forall i: nat, j: nat :: i <= I64_MAX && j <= I64_MAX ==> NameAt(id, p, i) != NameAt(id, q, j)
  }

  ghost predicate Unexhausted(s: Store, id: Identity, pool: string)
  {
    forall name :: name in s && InPool(id, pool, s[name]) ==> s[name].spec.pool.generation < I64_MAX
  }

  /** A valid inventory that fits the slice count. */
  ghost predicate Publishable(id: Identity, pool: string, inventory: PoolInventory)
  {
    ValidInventory(pool, inventory) && forall entries :: |Batch(id, pool, WireAll(inventory), entries, 0)| <= I64_MAX
  }

  ghost predicate NamesPool(id: Identity, pool: string, name: string)
  {
    exists i: nat :: i <= I64_MAX && name == NameAt(id, pool, i)
  }

  /** Every name that was not there before is one of this pool's. */
  ghost predicate NewNames(s: Store, t: Store, id: Identity, pool: string)
  {
    forall name {:trigger NamesPool(id, pool, name)} :: name in t && name !in s ==> NamesPool(id, pool, name)
  }

  lemma PartialNames(s: Store, t: Store, id: Identity, pool: string, batch: seq<Spec>)
    requires |batch| <= I64_MAX && Partial(s, t, id, pool, batch)
    ensures NewNames(s, t, id, pool)
  {
    forall name | name in t && name !in s
      ensures NamesPool(id, pool, name)
    {
      assert FromBatch(id, pool, name, t[name], batch);
    }
  }

  lemma ApartNames(id: Identity, p: string, pool: string, i: nat)
    requires Apart(id, p, pool) && i <= I64_MAX
    ensures !NamesPool(id, pool, NameAt(id, p, i))
  {
  }

  /** Writing a pool takes no name that it, or a pool apart from it, found free. */
  lemma StaysClear(s: Store, t: Store, id: Identity, pool: string, p: string)
    requires OnlyPool(s, t, id, pool) && NewNames(s, t, id, pool) && Clear(s, id, p) && (p == pool || Apart(id, p, pool))
    ensures Clear(t, id, p)
  {
    forall i: nat | i <= I64_MAX && NameAt(id, p, i) in t
      ensures InPool(id, p, t[NameAt(id, p, i)])
    {
      var name := NameAt(id, p, i);
      assert name !in s ==> NamesPool(id, pool, name);
      if p != pool {
        ApartNames(id, p, pool, i);
      }
    }
  }

  lemma UnexhaustedElsewhere(s: Store, t: Store, id: Identity, pool: string, other: string)
    requires Unexhausted(s, id, pool) && OnlyPool(s, t, id, other) && other != pool
    ensures Unexhausted(t, id, pool)
  {
  }

  /** On a clear pool a slice that is no longer listed is either not there or already placed. */
  lemma ClearToCreate(base: Store, s: Store, existing: Store, rest: Store, id: Identity, owner: string, pool: string, batch: seq<Spec>, i: nat)
    requires Lawful(id) && i < |batch| <= I64_MAX && Batching(base, s, existing, rest, id, owner, pool, batch, i)
    requires Clear(s, id, pool)
    ensures var name := NameAt(id, pool, i);
      (name in s ==> name in rest) && (name in rest ==> rest[name].spec.pool.name == pool && rest[name] == s[name])
  {
    var name := NameAt(id, pool, i);
    assert !NamedInBatch(id, pool, name, i);
  }

  // ----- Nothing left to do -----

  /** A reconcile of the pool from these slices has nothing to write. */
  ghost predicate SettledPool(id: Identity, owner: string, pool: string, inventory: PoolInventory, entries: seq<Entry>)
  {
    && ValidInventory(pool, inventory)
    && var desired := Batch(id, pool, WireAll(inventory), entries, 0);
    && |desired| <= I64_MAX && |entries| == |desired|
    && (desired != [] ==> Unchanged(id, pool, entries, desired))
    && forall e :: e in entries ==> e.slice.owners == [owner]
  }

  ghost predicate Settled(s: Store, id: Identity, owner: string, snapshot: map<string, PoolInventory>)
  {
    && (forall name :: name in s && Owns(id, s[name]) ==> s[name].spec.pool.name in snapshot)
    && (forall pool, entries :: pool in snapshot && IsEntries(entries, OwnSlices(s, id), pool) ==>
         SettledPool(id, owner, pool, snapshot[pool], entries))
  }

  ghost function OwnSlices(s: Store, id: Identity): Store
  {
    map name | name in s && Owns(id, s[name]) :: s[name]
  }

  // ----- Batches at a generation -----

  lemma BatchAtGeneration(id: Identity, pool: string, wired: Wired, entries: seq<Entry>, generation: int)
    requires Lawful(id)
    ensures
      var desired, batch := Batch(id, pool, wired, entries, 0), Batch(id, pool, wired, entries, generation);
      && |desired| == |batch|
      && (forall i :: 0 <= i < |batch| ==> batch[i] == AtGeneration(desired[i], generation))
      && forall i :: 0 <= i < |batch| ==> id.canon(batch[i]) == AtGeneration(id.canon(desired[i]), generation)
  {
    var contents := Contents(PreserveDevices(wired.devices, entries), wired.sets);
    var desired, batch := Batch(id, pool, wired, entries, 0), Batch(id, pool, wired, entries, generation);
    forall i | 0 <= i < |batch|
      ensures batch[i] == AtGeneration(desired[i], generation)
      ensures id.canon(batch[i]) == AtGeneration(id.canon(desired[i]), generation)
    {
      assert desired[i] == ContentSpec(id, Pool(pool, 0, |contents|), contents[i]);
      assert batch[i] == ContentSpec(id, Pool(pool, generation, |contents|), contents[i]);
      assert GenerationCarried(id, desired[i], generation);
    }
  }

  /** A listed slice with the wanted content and generation is canonically the wanted one. */
  lemma SameContentAtGeneration(id: Identity, stored: Spec, desired: Spec, wanted: Spec)
    requires Lawful(id) && SameContent(id, stored, desired)
    requires id.canon(wanted) == AtGeneration(id.canon(desired), stored.pool.generation)
    ensures id.canon(stored) == id.canon(wanted)
  {
    assert GenerationCarried(id, stored, 0);
    assert AtGeneration(AtGeneration(id.canon(stored), desired.pool.generation), stored.pool.generation) == id.canon(stored);
  }

  // ----- An unchanged pool has every slice -----

  ghost function EntryNames(entries: seq<Entry>): set<string>
  {
    set i: nat | i < |entries| :: entries[i].name
  }

  lemma EntryNamesCount(entries: seq<Entry>)
    requires DistinctKeys(entries, EntryKey)
    ensures |EntryNames(entries)| == |entries|
  {
    var nameOf := (i: nat) => if i < |entries| then entries[i].name else "";
    forall i: nat, j: nat | i < j < |entries|
      ensures nameOf(i) != nameOf(j)
    {
      assert EntryKey(entries[i]) != EntryKey(entries[j]);
    }
    CountImages(nameOf, |entries|);
    var images := set i: nat | i < |entries| :: nameOf(i);
    forall name
      ensures name in EntryNames(entries) <==> name in images
    {
      if name in EntryNames(entries) {
        var i: nat :| i < |entries| && entries[i].name == name;
        assert nameOf(i) == name;
      }
      if name in images {
        var i: nat :| i < |entries| && nameOf(i) == name;
      }
    }
    assert EntryNames(entries) == images;
  }

  /** As many distinct names as slots, each naming a slot: every slot is taken, with its own content. */
  lemma UnchangedIsComplete(id: Identity, pool: string, entries: seq<Entry>, desired: seq<Spec>, i: nat)
    requires Lawful(id) && |desired| <= I64_MAX && Unchanged(id, pool, entries, desired)
    requires DistinctKeys(entries, EntryKey) && i < |desired|
    ensures exists e :: e in entries && e.name == NameAt(id, pool, i) && SameContent(id, e.slice.spec, desired[i])
  {
    EntryNamesCount(entries);
    NamesCount(id, pool, |desired|);
    var taken, slots := EntryNames(entries), BatchNames(id, pool, |desired|);
    forall name | name in taken
      ensures name in slots
    {
      var k :| 0 <= k < |entries| && entries[k].name == name;
      assert entries[k] in entries && MatchesSome(id, pool, entries[k], desired);
    }
    SubsetOfEqualSize(taken, slots);
    assert NameAt(id, pool, i) in taken;
    var k :| 0 <= k < |entries| && entries[k].name == NameAt(id, pool, i);
    assert entries[k] in entries && MatchesSome(id, pool, entries[k], desired);
    var j :| 0 <= j < |desired| && entries[k].name == NameAt(id, pool, j) && SameContent(id, entries[k].slice.spec, desired[j]);
    assert i == j;
  }
}
