/** After a successful publication, publishing the same inventory again writes nothing. */
module Convergence {
  import opened Wrappers
  import opened Sorting
  import opened Slices
  import opened Canonical
  import opened Respelling
  import opened Inventory
  import opened Identities
  import opened Desired
  import opened Coherence
  import opened Publication
  import opened Idempotence
  import opened PublishOnce

  // ----- One device -----

  lemma {:induction false} FindTimeIs(stored: seq<Taint>, t: Taint, time: Option<int>)
    requires exists q :: q in stored && SameTaint(q, t)
    requires forall q :: q in stored && SameTaint(q, t) ==> q.timeAdded == time
    ensures FindTime(stored, t) == time
  {
    if SameTaint(stored[0], t) {
      assert stored[0] in stored;
    } else {
      var q :| q in stored && SameTaint(q, t);
      var i :| 0 <= i < |stored| && stored[i] == q;
      assert stored[1..][i - 1] == q;
      FindTimeIs(stored[1..], t, time);
    }
  }

  lemma CanonTaintsElements(raw: seq<Taint>)
    ensures forall q :: q in raw ==> CanonTaint(q) in CanonTaints(raw)
    ensures forall e :: e in CanonTaints(raw) ==> exists q :: q in raw && CanonTaint(q) == e
  {
    var fixed := Map(CanonTaint, raw);
    SortByElements(fixed, TaintKey);
    forall q | q in raw
      ensures CanonTaint(q) in CanonTaints(raw)
    {
      var i :| 0 <= i < |raw| && raw[i] == q;
      assert fixed[i] == CanonTaint(q);
    }
    forall e | e in CanonTaints(raw)
      ensures exists q :: q in raw && CanonTaint(q) == e
    {
      var i :| 0 <= i < |fixed| && fixed[i] == e;
      assert raw[i] in raw;
    }
  }

  /** The time found among the stored taints is the one the canonical form shows. */
  lemma TimeFound(t: seq<Taint>, raw: seq<Taint>, m: nat)
    requires DistinctKeys(t, TaintIdentity) && Pairwise(t, CanonTaints(raw), FilledTaint) && m < |t|
    requires CanonTaint(t[m]) == t[m]
    ensures FindTime(raw, t[m]) == CanonTaints(raw)[m].timeAdded
  {
    var canon := CanonTaints(raw);
    CanonTaintsElements(raw);
    assert FilledTaint(t[m], canon[m]) && canon[m] in canon;
    var q :| q in raw && CanonTaint(q) == canon[m];
    assert SameTaint(q, t[m]);
    forall other | other in raw && SameTaint(other, t[m])
      ensures other.timeAdded == canon[m].timeAdded
    {
      assert CanonTaint(other) in canon;
      var k :| 0 <= k < |canon| && canon[k] == CanonTaint(other);
      assert FilledTaint(t[k], canon[k]);
      assert TaintIdentity(t[k]) == TaintIdentity(t[m]);
      DistinctAt(t, TaintIdentity, k, m);
    }
    FindTimeIs(raw, t[m], canon[m].timeAdded);
  }

  lemma TaintsSettle(t: seq<Taint>, raw: seq<Taint>)
    requires CanonicalTaints(t) && Pairwise(t, CanonTaints(raw), FilledTaint)
    ensures PreserveTaints(t, raw) == CanonTaints(raw)
  {
    forall m | 0 <= m < |t|
      ensures PreserveTaint(t[m], raw) == CanonTaints(raw)[m]
    {
      assert t[m] in t && FilledTaint(t[m], CanonTaints(raw)[m]);
      TimeFound(t, raw, m);
    }
  }

  function WithTimes(d: Device, stored: Device): Device
  {
    if d.taints.None? then d else d.(taints := Some(PreserveTaints(d.taints.value, Items(stored.taints))))
  }

  /** Times taken from any faithful stored form of a device reproduce that form. */
  lemma DeviceSettles(d: Device, stored: Device)
    requires CanonicalDevice(d) && FilledDevice(SpellDevice(d), SpellDevice(CanonDevice(stored)))
    ensures SpellDevice(WithTimes(d, stored)) == SpellDevice(CanonDevice(stored))
  {
    CanonicalDeviceTaints(d);
    var raw := Items(stored.taints);
    ItemsOfNonEmpty(CanonTaints(raw));
    assert SpellDevice(CanonDevice(stored)).taints == NonEmpty(CanonTaints(raw));
    if d.taints.Some? {
      TaintsSettle(d.taints.value, raw);
    }
  }

  // ----- Which stored device the times come from -----

  lemma {:induction false} CandidatesStored(entries: seq<Entry>)
    ensures forall c :: c in Candidates(entries) ==> exists e :: e in entries && c.device in Items(e.slice.spec.devices)
  {
    if entries != [] {
      var init, last := entries[..|entries| - 1], entries[|entries| - 1];
      CandidatesStored(init);
      var devices := Items(last.slice.spec.devices);
      forall c | c in Candidates(entries)
        ensures exists e :: e in entries && c.device in Items(e.slice.spec.devices)
      {
        if c in Candidates(init) {
          var e :| e in init && c.device in Items(e.slice.spec.devices);
          assert e in entries;
        } else {
          assert last in entries && c.device in devices;
        }
      }
    }
  }

  lemma {:induction false} StoredAreCandidates(entries: seq<Entry>, e: Entry, r: Device)
    requires e in entries && r in Items(e.slice.spec.devices)
    ensures exists c :: c in Candidates(entries) && c.device == r
  {
    var init, last := entries[..|entries| - 1], entries[|entries| - 1];
    var devices := Items(last.slice.spec.devices);
    var tail := Map((d: Device) => Candidate(last.slice.spec.pool.generation, d), devices);
    assert Candidates(entries) == Candidates(init) + tail;
    if e in init {
      StoredAreCandidates(init, e, r);
      var c :| c in Candidates(init) && c.device == r;
      assert c in Candidates(entries);
    } else {
      var i :| 0 <= i < |devices| && devices[i] == r;
      assert tail[i] in Candidates(entries);
    }
  }

  /** The canonical, spelled devices of a stored spec. */
  function StoredForm(spec: Spec): seq<Device>
  {
    Map(SpellDevice, CanonDevices(Items(spec.devices)))
  }

  lemma SortedImageElements<S, T, U>(xs: seq<S>, f: S -> T, key: T -> Key, g: T -> U)
    ensures forall r :: r in xs ==> g(f(r)) in Map(g, SortBy(Map(f, xs), key))
    ensures forall e :: e in Map(g, SortBy(Map(f, xs), key)) ==> exists r :: r in xs && g(f(r)) == e
  {
    var images, sorted := Map(f, xs), SortBy(Map(f, xs), key);
    SortByElements(images, key);
    forall r | r in xs
      ensures g(f(r)) in Map(g, sorted)
    {
      var i :| 0 <= i < |xs| && xs[i] == r;
      assert images[i] in sorted;
      var j :| 0 <= j < |sorted| && sorted[j] == images[i];
      assert Map(g, sorted)[j] == g(f(r));
    }
    forall e | e in Map(g, sorted)
      ensures exists r :: r in xs && g(f(r)) == e
    {
      var j :| 0 <= j < |sorted| && Map(g, sorted)[j] == e;
      assert sorted[j] in sorted;
      var i :| 0 <= i < |images| && images[i] == sorted[j];
      assert xs[i] in xs;
    }
  }

  lemma StoredFormElements(spec: Spec)
    ensures forall r :: r in Items(spec.devices) ==> SpellDevice(CanonDevice(r)) in StoredForm(spec)
    ensures forall e :: e in StoredForm(spec) ==> exists r :: r in Items(spec.devices) && SpellDevice(CanonDevice(r)) == e
  {
    SortedImageElements(Items(spec.devices), CanonDevice, DeviceKey, SpellDevice);
  }

  /** Chunk `i` of the wanted devices is what slice `i` stores, absent taint times aside. */
  ghost predicate StoredChunks(chunks: seq<seq<Device>>, stored: seq<Spec>)
  {
    |stored| == |chunks| && forall i :: 0 <= i < |chunks| ==> Pairwise(Map(SpellDevice, chunks[i]), StoredForm(stored[i]), FilledDevice)
  }

  lemma SpelledName(d: Device)
    ensures SpellDevice(d).name == d.name && CanonDevice(d).name == d.name
  {
  }

  lemma ChunkElement(xs: seq<Device>, size: nat, i: nat, k: nat)
    requires size > 0 && i < |Chunks(xs, size)| && k < |Chunks(xs, size)[i]|
    ensures Chunks(xs, size)[i][k] in xs
    decreases |xs|
  {
    if |xs| > size && i > 0 {
      ChunkElement(xs[size..], size, i - 1, k);
    }
  }

  /** A key occurs in one chunk only, at one place. */
  lemma {:induction false} ChunkPlace(xs: seq<Device>, size: nat, i: nat, k: nat, j: nat, l: nat)
    requires size > 0 && DistinctKeys(xs, DeviceKey)
    requires i < |Chunks(xs, size)| && k < |Chunks(xs, size)[i]|
    requires j < |Chunks(xs, size)| && l < |Chunks(xs, size)[j]|
    requires Chunks(xs, size)[i][k].name == Chunks(xs, size)[j][l].name
    ensures i == j && k == l
    decreases |xs|
  {
    if |xs| <= size {
      DistinctAt(xs, DeviceKey, k, l);
    } else {
      var rest := xs[size..];
      assert DistinctKeys(rest, DeviceKey) by {
        forall a, b | 0 <= a < b < |rest|
          ensures DeviceKey(rest[a]) != DeviceKey(rest[b])
        {
          assert DeviceKey(xs[a + size]) != DeviceKey(xs[b + size]);
        }
      }
      if i > 0 && j > 0 {
        ChunkPlace(rest, size, i - 1, k, j - 1, l);
      } else if i > 0 {
        HeadApart(xs, size, l, i - 1, k);
      } else if j > 0 {
        HeadApart(xs, size, k, j - 1, l);
      } else {
        DistinctAt(xs, DeviceKey, k, l);
      }
    }
  }

  lemma HeadApart(xs: seq<Device>, size: nat, k: nat, j: nat, l: nat)
    requires 0 < size < |xs| && DistinctKeys(xs, DeviceKey) && k < size
    requires j < |Chunks(xs[size..], size)| && l < |Chunks(xs[size..], size)[j]|
    ensures xs[k].name != Chunks(xs[size..], size)[j][l].name
  {
    var rest := xs[size..];
    ChunkElement(rest, size, j, l);
    var a :| 0 <= a < |rest| && rest[a] == Chunks(rest, size)[j][l];
    assert DeviceKey(xs[k]) != DeviceKey(xs[a + size]);
  }

  lemma PairAt(chunk: seq<Device>, form: seq<Device>, l: nat)
    requires Pairwise(Map(SpellDevice, chunk), form, FilledDevice) && l < |form|
    ensures l < |chunk| && FilledDevice(SpellDevice(chunk[l]), form[l])
  {
  }

  /** Any stored device of a wanted device's name is that device's stored form. */
  lemma NamedIsItsForm(xs: seq<Device>, size: nat, stored: seq<Spec>, i: nat, k: nat, j: nat, r: Device)
    requires size > 0 && DistinctKeys(xs, DeviceKey) && StoredChunks(Chunks(xs, size), stored)
    requires i < |stored| && k < |Chunks(xs, size)[i]| && j < |stored| && r in Items(stored[j].devices)
    requires r.name == Chunks(xs, size)[i][k].name
    ensures SpellDevice(CanonDevice(r)) == StoredForm(stored[i])[k]
  {
    var chunks := Chunks(xs, size);
    StoredFormElements(stored[j]);
    var form := SpellDevice(CanonDevice(r));
    var l :| 0 <= l < |StoredForm(stored[j])| && StoredForm(stored[j])[l] == form;
    PairAt(chunks[j], StoredForm(stored[j]), l);
    SpelledName(chunks[j][l]);
    SpelledName(r);
    SpelledName(CanonDevice(r));
    ChunkPlace(xs, size, i, k, j, l);
  }

  /** The candidates are exactly the devices of the stored slices. */
  ghost predicate CandidatesAre(candidates: seq<Candidate>, stored: seq<Spec>)
  {
    && (forall c :: c in candidates ==> exists j :: 0 <= j < |stored| && c.device in Items(stored[j].devices))
    && forall j, r :: 0 <= j < |stored| && r in Items(stored[j].devices) ==> exists c :: c in candidates && c.device == r
  }

  lemma WantedIsStored(xs: seq<Device>, size: nat, stored: seq<Spec>, candidates: seq<Candidate>, i: nat, k: nat)
    requires size > 0 && StoredChunks(Chunks(xs, size), stored) && CandidatesAre(candidates, stored)
    requires i < |stored| && k < |Chunks(xs, size)[i]|
    ensures k < |StoredForm(stored[i])| && FilledDevice(SpellDevice(Chunks(xs, size)[i][k]), StoredForm(stored[i])[k])
    ensures Newest(candidates, Chunks(xs, size)[i][k].name).Some?
  {
    var chunks := Chunks(xs, size);
    var d, form := chunks[i][k], StoredForm(stored[i])[k];
    assert Pairwise(Map(SpellDevice, chunks[i]), StoredForm(stored[i]), FilledDevice);
    assert FilledDevice(SpellDevice(d), form);
    StoredFormElements(stored[i]);
    assert form in StoredForm(stored[i]);
    var own :| own in Items(stored[i].devices) && SpellDevice(CanonDevice(own)) == form;
    SpelledName(d);
    SpelledName(own);
    SpelledName(CanonDevice(own));
    var c :| c in candidates && c.device == own;
    assert c.device.name == d.name;
  }

  /** Preserving times from the stored slices reproduces, device by device, what they store. */
  lemma WantedSettles(xs: seq<Device>, size: nat, stored: seq<Spec>, candidates: seq<Candidate>, i: nat, k: nat)
    requires size > 0 && DistinctKeys(xs, DeviceKey) && forall d :: d in xs ==> CanonicalDevice(d)
    requires StoredChunks(Chunks(xs, size), stored) && CandidatesAre(candidates, stored)
    requires i < |stored| && k < |Chunks(xs, size)[i]|
    ensures k < |StoredForm(stored[i])| && SpellDevice(PreserveDevice(Chunks(xs, size)[i][k], candidates)) == StoredForm(stored[i])[k]
  {
    var d := Chunks(xs, size)[i][k];
    ChunkElement(xs, size, i, k);
    WantedIsStored(xs, size, stored, candidates, i, k);
    var newest := Newest(candidates, d.name).value;
    var j :| 0 <= j < |stored| && newest.device in Items(stored[j].devices);
    NamedIsItsForm(xs, size, stored, i, k, j, newest.device);
    DeviceSettles(d, newest.device);
    PreserveIsWithTimes(d, candidates);
  }

  lemma PreserveIsWithTimes(d: Device, candidates: seq<Candidate>)
    requires Newest(candidates, d.name).Some?
    ensures PreserveDevice(d, candidates) == WithTimes(d, Newest(candidates, d.name).value.device)
  {
  }
}
