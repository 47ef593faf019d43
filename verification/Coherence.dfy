/**
 * What a scheduler may read at any moment: the slices of a pool at one
 * generation always come from one reconcile that was begun.
 */
module Coherence {
  import opened Wrappers
  import opened Sorting
  import opened Slices
  import opened Canonical
  import opened Inventory
  import opened Identities
  import opened Desired

  type Store = map<string, Stored>

  ghost predicate FromBatch(id: Identity, pool: string, name: string, slice: Stored, batch: seq<Spec>)
    requires |batch| <= I64_MAX
  {
    exists i :: 0 <= i < |batch| && name == NameAt(id, pool, i) && id.keeps(batch[i], slice.spec)
  }

  /** Every current slice of the pool at that generation is one of the batch, faithfully stored. */
  ghost predicate Covers(s: Store, id: Identity, pool: string, generation: int, batch: seq<Spec>)
    requires |batch| <= I64_MAX
  {
    forall name :: name in s && InBatch(id, pool, generation, s[name]) ==> FromBatch(id, pool, name, s[name], batch)
  }

  /** A batch some reconcile of a valid inventory wants at that generation. */
  ghost predicate IsBatch(id: Identity, pool: string, generation: int, batch: seq<Spec>, inventory: PoolInventory, entries: seq<Entry>)
  {
    && ValidInventory(pool, inventory)
    && batch == Batch(id, pool, WireAll(inventory), entries, generation)
    && |batch| <= I64_MAX
  }

  /** Every slice of the batch names this publisher, the pool, the generation and the count. */
  predicate Headed(id: Identity, pool: string, generation: int, batch: seq<Spec>)
  {
    forall i :: 0 <= i < |batch| ==>
      batch[i].driver == id.driver && batch[i].node == Some(id.node) && batch[i].pool == Pool(pool, generation, |batch|)
  }

  lemma BatchHeaded(id: Identity, pool: string, generation: int, batch: seq<Spec>, inventory: PoolInventory, entries: seq<Entry>)
    requires IsBatch(id, pool, generation, batch, inventory, entries)
    ensures Headed(id, pool, generation, batch) && |batch| <= I64_MAX
  {
  }

  /** A reconcile that went as far as writing: the inventory it was given, what it found listed, the generation it chose. */
  datatype Begun = Begun(pool: string, generation: int, inventory: PoolInventory, entries: seq<Entry>)

  type Log = set<Begun>

  /** Some reconcile of the log wants a batch that covers the pool's slices of this generation. */
  ghost predicate HasBatch(s: Store, id: Identity, pool: string, generation: int, log: Log)
  {
    exists batch: seq<Spec>, inventory: PoolInventory, entries: seq<Entry> ::
      && Begun(pool, generation, inventory, entries) in log
      && IsBatch(id, pool, generation, batch, inventory, entries) && Covers(s, id, pool, generation, batch)
  }

  ghost predicate Occupied(s: Store, id: Identity, pool: string, generation: int)
  {
    exists name :: name in s && InBatch(id, pool, generation, s[name])
  }

  /** The invariant over current slices, for every pool and every generation in use. */
  ghost predicate Coherent(s: Store, id: Identity, log: Log)
  {
    forall pool, generation :: Occupied(s, id, pool, generation) ==> HasBatch(s, id, pool, generation, log)
  }

  /** A server without slices of this publisher needs no reconcile to explain it. */
  lemma EmptyIsCoherent(s: Store, id: Identity)
    requires forall name :: name in s ==> !Owns(id, s[name])
    ensures Coherent(s, id, {})
  {
  }

  lemma CoherentGrows(s: Store, id: Identity, log: Log, more: Log)
    requires Coherent(s, id, log) && log <= more
    ensures Coherent(s, id, more)
  {
    forall pool, generation | Occupied(s, id, pool, generation)
      ensures HasBatch(s, id, pool, generation, more)
    {
      assert HasBatch(s, id, pool, generation, log);
    }
  }

  /** Fewer slices at a generation are covered by the same batch. */
  lemma CoveredSubset(s: Store, t: Store, id: Identity, pool: string, generation: int, log: Log)
    requires HasBatch(s, id, pool, generation, log)
    requires forall name :: name in t && InBatch(id, pool, generation, t[name]) ==> name in s && s[name] == t[name]
    ensures HasBatch(t, id, pool, generation, log)
  {
    var batch: seq<Spec>, inventory: PoolInventory, entries: seq<Entry> :|
      && Begun(pool, generation, inventory, entries) in log
      && IsBatch(id, pool, generation, batch, inventory, entries) && Covers(s, id, pool, generation, batch);
    forall name | name in t && InBatch(id, pool, generation, t[name])
      ensures FromBatch(id, pool, name, t[name], batch)
    {
      assert name in s && s[name] == t[name];
    }
  }

  lemma CoherentSubset(s: Store, t: Store, id: Identity, log: Log)
    requires Coherent(s, id, log)
    requires forall name :: name in t ==> name in s && s[name] == t[name]
    ensures Coherent(t, id, log)
  {
    forall pool, generation | Occupied(t, id, pool, generation)
      ensures HasBatch(t, id, pool, generation, log)
    {
      var name :| name in t && InBatch(id, pool, generation, t[name]);
      assert name in s && Occupied(s, id, pool, generation);
      CoveredSubset(s, t, id, pool, generation, log);
    }
  }

  // ----- A batch partly written -----

  /** `t` is `s` with some slices of the batch written, over slices of the same pool only. */
  ghost predicate Partial(s: Store, t: Store, id: Identity, pool: string, batch: seq<Spec>)
    requires |batch| <= I64_MAX
  {
    && (forall name :: name in s ==> name in t)
    && forall name :: name in t && (name in s ==> t[name] != s[name]) ==>
         FromBatch(id, pool, name, t[name], batch) && (name in s ==> InPool(id, pool, s[name]))
  }

  /** Whatever is faithfully stored for slice `i` of `batch` is also a faithful slice of `cover`. */
  ghost predicate Served(id: Identity, pool: string, batch: seq<Spec>, i: nat, slice: Stored, cover: seq<Spec>)
    requires i < |batch| <= I64_MAX && |cover| <= I64_MAX
  {
    id.keeps(batch[i], slice.spec) ==> FromBatch(id, pool, NameAt(id, pool, i), slice, cover)
  }

  ghost predicate Serves(id: Identity, pool: string, batch: seq<Spec>, cover: seq<Spec>)
    requires |batch| <= I64_MAX && |cover| <= I64_MAX
  {
    forall i: nat, slice :: i < |batch| ==> Served(id, pool, batch, i, slice, cover)
  }

  lemma ServesItself(id: Identity, pool: string, batch: seq<Spec>)
    requires |batch| <= I64_MAX
    ensures Serves(id, pool, batch, batch)
  {
  }

  lemma FromBatchHeader(id: Identity, pool: string, generation: int, name: string, slice: Stored, batch: seq<Spec>)
    requires Lawful(id) && |batch| <= I64_MAX && Headed(id, pool, generation, batch) && FromBatch(id, pool, name, slice, batch)
    ensures InBatch(id, pool, generation, slice) && slice.spec.pool.sliceCount == |batch|
  {
    var k :| 0 <= k < |batch| && name == NameAt(id, pool, k) && id.keeps(batch[k], slice.spec);
    assert HeaderKept(id, batch[k], slice.spec);
  }

  lemma PartialCovers(s: Store, t: Store, id: Identity, pool: string, generation: int, batch: seq<Spec>, cover: seq<Spec>)
    requires |batch| <= I64_MAX && |cover| <= I64_MAX && Partial(s, t, id, pool, batch)
    requires Covers(s, id, pool, generation, cover) && Serves(id, pool, batch, cover)
    ensures Covers(t, id, pool, generation, cover)
  {
    forall name | name in t && InBatch(id, pool, generation, t[name])
      ensures FromBatch(id, pool, name, t[name], cover)
    {
      if name in s ==> t[name] != s[name] {
        var i: nat :| i < |batch| && name == NameAt(id, pool, i) && id.keeps(batch[i], t[name].spec);
        assert Served(id, pool, batch, i, t[name], cover);
      }
    }
  }

  lemma PartialElsewhere(s: Store, t: Store, id: Identity, pool: string, generation: int, batch: seq<Spec>, name: string, p: string, g: int)
    requires Lawful(id) && |batch| <= I64_MAX && Headed(id, pool, generation, batch) && Partial(s, t, id, pool, batch)
    requires name in t && InBatch(id, p, g, t[name]) && (p != pool || g != generation)
    ensures name in s && s[name] == t[name]
  {
    if name in s ==> t[name] != s[name] {
      FromBatchHeader(id, pool, generation, name, t[name], batch);
    }
  }

  /** Every partly written state is as coherent as the state the batch was written over. */
  lemma PartialCoherent(s: Store, t: Store, id: Identity, pool: string, generation: int, batch: seq<Spec>, cover: seq<Spec>,
                        inventory: PoolInventory, entries: seq<Entry>, log: Log)
    requires Lawful(id) && |batch| <= I64_MAX && Headed(id, pool, generation, batch) && Partial(s, t, id, pool, batch)
    requires IsBatch(id, pool, generation, cover, inventory, entries)
    requires Begun(pool, generation, inventory, entries) in log
    requires Coherent(s, id, log) && Covers(s, id, pool, generation, cover) && Serves(id, pool, batch, cover)
    ensures Coherent(t, id, log)
  {
    PartialCovers(s, t, id, pool, generation, batch, cover);
    forall p, g | Occupied(t, id, p, g)
      ensures HasBatch(t, id, p, g, log)
    {
      if p != pool || g != generation {
        forall name | name in t && InBatch(id, p, g, t[name])
          ensures name in s && s[name] == t[name]
        {
          PartialElsewhere(s, t, id, pool, generation, batch, name, p, g);
        }
        assert Occupied(s, id, p, g);
        CoveredSubset(s, t, id, p, g, log);
      }
    }
  }

  // ----- The reader -----

  ghost function BatchNames(id: Identity, pool: string, count: nat): set<string>
    requires count <= I64_MAX
  {
    set i: nat | i < count :: NameAt(id, pool, i)
  }

  /** The names of a batch are as many as its slices. */
  lemma NamesCount(id: Identity, pool: string, count: nat)
    requires count <= I64_MAX && NamesSeparate(id)
    ensures |BatchNames(id, pool, count)| == count
  {
    var nameOf := (i: nat) => NameAt(id, pool, i);
    CountImages(nameOf, count);
    var images := set i: nat | i < count :: nameOf(i);
    forall name
      ensures name in BatchNames(id, pool, count) <==> name in images
    {
      if name in BatchNames(id, pool, count) {
        var i: nat :| i < count && NameAt(id, pool, i) == name;
        assert nameOf(i) == name;
      }
      if name in images {
        var i: nat :| i < count && nameOf(i) == name;
      }
    }
    assert BatchNames(id, pool, count) == images;
  }

  lemma SubsetOfEqualSize<T>(a: set<T>, b: set<T>)
    requires a <= b && |a| == |b|
    ensures a == b
  {
    assert b == a + (b - a);
    assert |b - a| == 0;
  }

  /** All the slices of a batch are present, each faithfully stored. */
  ghost predicate Complete(s: Store, id: Identity, pool: string, generation: int, batch: seq<Spec>)
    requires |batch| <= I64_MAX
  {
    forall i :: 0 <= i < |batch| ==>
      && NameAt(id, pool, i) in s
      && InBatch(id, pool, generation, s[NameAt(id, pool, i)])
      && id.keeps(batch[i], s[NameAt(id, pool, i)].spec)
  }

  lemma VisibleAreNamed(s: Store, id: Identity, pool: string, generation: int, batch: seq<Spec>, visible: set<string>)
    requires Lawful(id) && |batch| <= I64_MAX && Covers(s, id, pool, generation, batch)
    requires visible == set name | name in s && InBatch(id, pool, generation, s[name])
    requires |visible| == |batch|
    ensures forall i :: 0 <= i < |batch| ==> NameAt(id, pool, i) in visible
  {
    NamesCount(id, pool, |batch|);
    var names := BatchNames(id, pool, |batch|);
    forall name | name in visible
      ensures name in names
    {
      assert FromBatch(id, pool, name, s[name], batch);
    }
    SubsetOfEqualSize(visible, names);
  }

  lemma NamedSliceKept(id: Identity, pool: string, slice: Stored, batch: seq<Spec>, i: nat)
    requires Lawful(id) && i < |batch| <= I64_MAX && FromBatch(id, pool, NameAt(id, pool, i), slice, batch)
    ensures id.keeps(batch[i], slice.spec)
  {
    var j :| 0 <= j < |batch| && NameAt(id, pool, i) == NameAt(id, pool, j) && id.keeps(batch[j], slice.spec);
    assert i == j;
  }

  ghost predicate WantsBoth(s: Store, id: Identity, b: Begun, one: string, other: string)
    requires one in s && other in s
  {
    exists batch: seq<Spec> ::
      && IsBatch(id, b.pool, b.generation, batch, b.inventory, b.entries)
      && FromBatch(id, b.pool, one, s[one], batch) && FromBatch(id, b.pool, other, s[other], batch)
  }

  /** Two slices seen at one generation are both wanted by one single reconcile that was begun: slices of two are never mixed. */
  lemma NeverMixed(s: Store, id: Identity, pool: string, generation: int, log: Log, one: string, other: string)
    requires Coherent(s, id, log) && one in s && other in s
    requires InBatch(id, pool, generation, s[one]) && InBatch(id, pool, generation, s[other])
    ensures exists b :: b in log && b.pool == pool && b.generation == generation && WantsBoth(s, id, b, one, other)
  {
    assert Occupied(s, id, pool, generation);
    var batch: seq<Spec>, inventory: PoolInventory, entries: seq<Entry> :|
      && Begun(pool, generation, inventory, entries) in log
      && IsBatch(id, pool, generation, batch, inventory, entries) && Covers(s, id, pool, generation, batch);
    assert WantsBoth(s, id, Begun(pool, generation, inventory, entries), one, other);
  }

  /**
   * A reader that accepts a generation only when as many slices are visible
   * as one of them announces sees exactly the complete batch of one reconcile
   * that was begun, with that reconcile's inventory.
   */
  lemma ReaderSeesOneInventory(s: Store, id: Identity, pool: string, generation: int, witnessName: string, log: Log)
    requires Lawful(id) && Coherent(s, id, log) && witnessName in s && InBatch(id, pool, generation, s[witnessName])
    requires |set name | name in s && InBatch(id, pool, generation, s[name])| == s[witnessName].spec.pool.sliceCount
    ensures exists batch: seq<Spec>, inventory: PoolInventory, entries: seq<Entry> ::
      && Begun(pool, generation, inventory, entries) in log
      && IsBatch(id, pool, generation, batch, inventory, entries)
      && Covers(s, id, pool, generation, batch)
      && Complete(s, id, pool, generation, batch)
  {
    assert Occupied(s, id, pool, generation);
    var batch: seq<Spec>, inventory: PoolInventory, entries: seq<Entry> :|
      && Begun(pool, generation, inventory, entries) in log
      && IsBatch(id, pool, generation, batch, inventory, entries) && Covers(s, id, pool, generation, batch);
    BatchHeaded(id, pool, generation, batch, inventory, entries);
    FromBatchHeader(id, pool, generation, witnessName, s[witnessName], batch);
    var visible := set name | name in s && InBatch(id, pool, generation, s[name]);
    VisibleAreNamed(s, id, pool, generation, batch, visible);
    forall i | 0 <= i < |batch|
      ensures NameAt(id, pool, i) in visible && id.keeps(batch[i], s[NameAt(id, pool, i)].spec)
    {
      NamedSliceKept(id, pool, s[NameAt(id, pool, i)], batch, i);
    }
    assert Complete(s, id, pool, generation, batch);
  }
}
