/** Which time a published taint carries: the one it was given, or the one it already had. */
module TaintTimes {
  import opened Wrappers
  import opened Sorting
  import opened Slices
  import opened Canonical
  import opened Inventory
  import opened Desired

  // ----- Where a device is stored -----

  function DevicesAt(entries: seq<Entry>, e: nat): seq<Device>
    requires e < |entries|
  {
    Items(entries[e].slice.spec.devices)
  }

  /** The `k`-th device of the `e`-th slice has this name. */
  predicate StoredAt(entries: seq<Entry>, name: string, e: nat, k: nat)
  {
    e < |entries| && k < |DevicesAt(entries, e)| && DevicesAt(entries, e)[k].name == name
  }

  /** The second position is of a lower generation, or of the same and no earlier. */
  predicate NotNewer(entries: seq<Entry>, e: nat, k: nat, e2: nat, k2: nat)
    requires e < |entries| && e2 < |entries|
  {
    var g, g2 := entries[e].slice.spec.pool.generation, entries[e2].slice.spec.pool.generation;
    g2 < g || (g2 == g && (e < e2 || (e == e2 && k <= k2)))
  }

  /** No other stored device of the name is of a higher generation, or of the same and earlier. */
  ghost predicate NewestAt(entries: seq<Entry>, name: string, e: nat, k: nat)
  {
    && StoredAt(entries, name, e, k)
    && forall e2: nat, k2: nat {:trigger StoredAt(entries, name, e2, k2)} ::
         StoredAt(entries, name, e2, k2) ==> NotNewer(entries, e, k, e2, k2)
  }

  // ----- The search, position by position -----

  /** How many devices the first `e` slices hold. */
  function Offset(entries: seq<Entry>, e: nat): nat
    requires e <= |entries|
  {
    if e == 0 then 0 else Offset(entries, e - 1) + |DevicesAt(entries, e - 1)|
  }

  lemma {:induction false} OffsetOfPart(entries: seq<Entry>, n: nat, e: nat)
    requires e <= n <= |entries|
    ensures Offset(entries[..n], e) == Offset(entries, e)
  {
    if e > 0 {
      OffsetOfPart(entries, n, e - 1);
    }
  }

  lemma {:induction false} OffsetGrows(entries: seq<Entry>, d: nat, e: nat)
    requires d <= e <= |entries|
    ensures Offset(entries, d) <= Offset(entries, e)
  {
    if d < e {
      OffsetGrows(entries, d, e - 1);
    }
  }

  lemma {:induction false} CandidateCount(entries: seq<Entry>)
    ensures |Candidates(entries)| == Offset(entries, |entries|)
  {
    if entries != [] {
      var n := |entries| - 1;
      CandidateCount(entries[..n]);
      OffsetOfPart(entries, n, n);
    }
  }

  /** The candidates are the stored devices, slice by slice, each with its slice's generation. */
  lemma {:induction false} CandidateAt(entries: seq<Entry>, e: nat, k: nat)
    requires e < |entries| && k < |DevicesAt(entries, e)|
    ensures Offset(entries, e) + k < |Candidates(entries)|
    ensures Candidates(entries)[Offset(entries, e) + k] == Candidate(entries[e].slice.spec.pool.generation, DevicesAt(entries, e)[k])
  {
    var n := |entries| - 1;
    CandidateCount(entries[..n]);
    OffsetOfPart(entries, n, n);
    if e < n {
      CandidateAt(entries[..n], e, k);
      OffsetOfPart(entries, n, e);
    }
  }

  lemma {:induction false} Located(entries: seq<Entry>, n: nat, i: nat) returns (e: nat, k: nat)
    requires n <= |entries| && i < Offset(entries, n)
    ensures e < n && k < |DevicesAt(entries, e)| && i == Offset(entries, e) + k
  {
    if i >= Offset(entries, n - 1) {
      e, k := n - 1, i - Offset(entries, n - 1);
    } else {
      e, k := Located(entries, n - 1, i);
    }
  }

  lemma {:induction false} CandidateFrom(entries: seq<Entry>, i: nat) returns (e: nat, k: nat)
    requires i < |Candidates(entries)|
    ensures e < |entries| && k < |DevicesAt(entries, e)| && i == Offset(entries, e) + k
    ensures Candidates(entries)[i] == Candidate(entries[e].slice.spec.pool.generation, DevicesAt(entries, e)[k])
  {
    CandidateCount(entries);
    e, k := Located(entries, |entries|, i);
    CandidateAt(entries, e, k);
  }

  /** The first of that name at the highest generation, as a position. */
  predicate FirstHighest(candidates: seq<Candidate>, name: string, i: nat)
  {
    && i < |candidates| && candidates[i].device.name == name
    && forall j {:trigger candidates[j]} :: 0 <= j < |candidates| && candidates[j].device.name == name ==>
         candidates[j].generation < candidates[i].generation || (candidates[j].generation == candidates[i].generation && i <= j)
  }

  lemma {:induction false} NewestIsFirstHighest(candidates: seq<Candidate>, name: string)
    ensures Newest(candidates, name).Some? ==> exists i: nat :: FirstHighest(candidates, name, i) && candidates[i] == Newest(candidates, name).value
  {
    if candidates != [] && Newest(candidates, name).Some? {
      var n := |candidates| - 1;
      var part := candidates[..n];
      NewestIsFirstHighest(part, name);
      if Newest(part, name).Some? {
        var i: nat :| FirstHighest(part, name, i) && part[i] == Newest(part, name).value;
        var found := if Newest(candidates, name) == Newest(part, name) then i else n;
        if Newest(candidates, name) != Newest(part, name) {
          assert Newest(candidates, name) == Some(candidates[n]);
        }
        forall j | 0 <= j < |candidates| && candidates[j].device.name == name
          ensures candidates[j].generation < candidates[found].generation ||
                  (candidates[j].generation == candidates[found].generation && found <= j)
        {
          if j < n {
            assert part[j] == candidates[j];
          }
        }
        assert FirstHighest(candidates, name, found);
      } else {
        assert forall j :: 0 <= j < n ==> candidates[j] == part[j] && part[j] in part;
        assert FirstHighest(candidates, name, n);
      }
    }
  }

  /** A stored device of a lower position stands before it among the candidates. */
  lemma {:induction false} PositionsAgree(entries: seq<Entry>, e: nat, k: nat, e2: nat, k2: nat)
    requires e < |entries| && k < |DevicesAt(entries, e)| && e2 < |entries| && k2 < |DevicesAt(entries, e2)|
    requires Offset(entries, e) + k <= Offset(entries, e2) + k2
    ensures e < e2 || (e == e2 && k <= k2)
  {
    if e2 < e {
      OffsetGrows(entries, e2 + 1, e);
    }
  }

  lemma {:induction false} NewestComparison(entries: seq<Entry>, name: string, i: nat, e: nat, k: nat, e2: nat, k2: nat)
    requires FirstHighest(Candidates(entries), name, i) && e < |entries| && k < |DevicesAt(entries, e)| && i == Offset(entries, e) + k
    requires StoredAt(entries, name, e2, k2)
    ensures NotNewer(entries, e, k, e2, k2)
  {
    CandidateAt(entries, e, k);
    CandidateAt(entries, e2, k2);
    var j := Offset(entries, e2) + k2;
    assert Candidates(entries)[j].device.name == name;
    if i <= j {
      PositionsAgree(entries, e, k, e2, k2);
    }
  }

  lemma {:induction false} NewestPosition(entries: seq<Entry>, name: string) returns (i: nat, e: nat, k: nat)
    requires Newest(Candidates(entries), name).Some?
    ensures FirstHighest(Candidates(entries), name, i) && StoredAt(entries, name, e, k) && i == Offset(entries, e) + k
    ensures Newest(Candidates(entries), name).value.device == DevicesAt(entries, e)[k]
  {
    NewestIsFirstHighest(Candidates(entries), name);
    i :| FirstHighest(Candidates(entries), name, i) && Candidates(entries)[i] == Newest(Candidates(entries), name).value;
    e, k := CandidateFrom(entries, i);
  }

  lemma {:induction false} NewestIsStored(entries: seq<Entry>, name: string) returns (e: nat, k: nat)
    requires Newest(Candidates(entries), name).Some?
    ensures NewestAt(entries, name, e, k) && Newest(Candidates(entries), name).value.device == DevicesAt(entries, e)[k]
  {
    var i;
    i, e, k := NewestPosition(entries, name);
    forall e2: nat, k2: nat | StoredAt(entries, name, e2, k2)
      ensures NotNewer(entries, e, k, e2, k2)
    {
      NewestComparison(entries, name, i, e, k, e2, k2);
    }
  }

  lemma {:induction false} StoredIsFound(entries: seq<Entry>, name: string, e: nat, k: nat)
    requires StoredAt(entries, name, e, k)
    ensures Newest(Candidates(entries), name).Some?
  {
    CandidateAt(entries, e, k);
    var c := Candidates(entries)[Offset(entries, e) + k];
    assert c in Candidates(entries) && c.device.name == name;
  }

  // ----- The times -----

  /** One taint under different times: the same key, effect and value, absent and empty alike. */
  predicate OneTaint(a: Taint, b: Taint)
  {
    a.key == b.key && a.effect == b.effect && (a.value == b.value || (a.value.None? && b.value == Some("")) || (a.value == Some("") && b.value.None?))
  }

  predicate FirstTaint(stored: seq<Taint>, t: Taint, i: nat)
  {
    i < |stored| && OneTaint(stored[i], t) && forall j :: 0 <= j < i ==> !OneTaint(stored[j], t)
  }

  /** The time of the first such taint, or none where there is no such taint. */
  ghost predicate TimeFound(stored: seq<Taint>, t: Taint, time: Option<int>)
  {
    if exists i: nat :: FirstTaint(stored, t, i) then exists i: nat :: FirstTaint(stored, t, i) && time == stored[i].timeAdded
    else time.None?
  }

  lemma {:induction false} FindsTime(stored: seq<Taint>, t: Taint)
    ensures TimeFound(stored, t, FindTime(stored, t))
  {
    if stored != [] {
      if SameTaint(stored[0], t) {
        assert FirstTaint(stored, t, 0);
      } else {
        var rest := stored[1..];
        FindsTime(rest, t);
        if i: nat :| FirstTaint(rest, t, i) && FindTime(rest, t) == rest[i].timeAdded {
          assert forall j :: 0 <= j < i ==> rest[j] == stored[j + 1];
          assert FirstTaint(stored, t, i + 1);
        }
        if i: nat :| FirstTaint(stored, t, i) {
          assert forall j :: 0 <= j < i ==> rest[j] == stored[j + 1];
          assert FirstTaint(rest, t, i - 1);
        }
      }
    }
  }

  /** The time a taint of this device is published with. */
  ghost predicate Timed(entries: seq<Entry>, name: string, wanted: Taint, published: Taint)
  {
    && published == wanted.(timeAdded := published.timeAdded)
    && (wanted.timeAdded.Some? ==> published.timeAdded == wanted.timeAdded)
    && (wanted.timeAdded.None? ==> TimeKept(entries, name, wanted, published.timeAdded))
  }

  /** The time of the newest stored device's same taint; none where no device of the name is stored. */
  ghost predicate TimeKept(entries: seq<Entry>, name: string, wanted: Taint, time: Option<int>)
  {
    && (forall e: nat, k: nat {:trigger NewestAt(entries, name, e, k)} ::
          NewestAt(entries, name, e, k) ==> TimeFound(Items(DevicesAt(entries, e)[k].taints), wanted, time))
    && ((forall e: nat, k: nat :: !StoredAt(entries, name, e, k)) ==> time.None?)
  }

  lemma {:induction false} OneNewest(entries: seq<Entry>, name: string, e: nat, k: nat, e2: nat, k2: nat)
    requires NewestAt(entries, name, e, k) && NewestAt(entries, name, e2, k2)
    ensures e == e2 && k == k2
  {
    assert StoredAt(entries, name, e, k) && StoredAt(entries, name, e2, k2);
  }

  ghost predicate DeviceTimed(entries: seq<Entry>, wanted: Device, published: Device)
  {
    && published == wanted.(taints := published.taints) && (published.taints.Some? <==> wanted.taints.Some?)
    && |Items(published.taints)| == |Items(wanted.taints)|
    && forall i {:trigger Items(published.taints)[i]} :: 0 <= i < |Items(wanted.taints)| ==>
         Timed(entries, wanted.name, Items(wanted.taints)[i], Items(published.taints)[i])
  }

  lemma {:induction false} PreservedTaintIsTimed(entries: seq<Entry>, d: Device, i: nat)
    requires i < |Items(d.taints)|
    ensures |Items(PreserveDevice(d, Candidates(entries)).taints)| == |Items(d.taints)|
    ensures Timed(entries, d.name, Items(d.taints)[i], Items(PreserveDevice(d, Candidates(entries)).taints)[i])
  {
    var t := Items(d.taints)[i];
    var p := Items(PreserveDevice(d, Candidates(entries)).taints)[i];
    if Newest(Candidates(entries), d.name).Some? {
      var e, k := NewestIsStored(entries, d.name);
      var stored := Items(DevicesAt(entries, e)[k].taints);
      assert StoredAt(entries, d.name, e, k);
      assert p == PreserveTaint(t, stored);
      FindsTime(stored, t);
      forall e2: nat, k2: nat | NewestAt(entries, d.name, e2, k2)
        ensures e == e2 && k == k2
      {
        OneNewest(entries, d.name, e, k, e2, k2);
      }
    } else {
      forall e: nat, k: nat
        ensures !StoredAt(entries, d.name, e, k)
      {
        if StoredAt(entries, d.name, e, k) {
          StoredIsFound(entries, d.name, e, k);
        }
      }
      assert p == t;
    }
  }

  /** Every taint is published with its own time, or else with the one it has been stored with. */
  lemma {:induction false} PreservedIsTimed(devices: seq<Device>, entries: seq<Entry>, i: nat)
    requires i < |devices|
    ensures DeviceTimed(entries, devices[i], PreserveDevices(devices, entries)[i])
  {
    var d := devices[i];
    forall j | 0 <= j < |Items(d.taints)|
      ensures Timed(entries, d.name, Items(d.taints)[j], Items(PreserveDevice(d, Candidates(entries)).taints)[j])
    {
      PreservedTaintIsTimed(entries, d, j);
    }
  }

  /** So for everything a batch wants: its devices are the pool's, each taint with its time. */
  lemma {:induction false} BatchIsTimed(id: Identity, pool: string, wired: Wired, entries: seq<Entry>, generation: int, i: nat)
    requires i < |wired.devices|
    ensures var devices := DevicesOf(Batch(id, pool, wired, entries, generation));
      |devices| == |wired.devices| && DeviceTimed(entries, wired.devices[i], devices[i])
  {
    BatchHolds(id, pool, wired, entries, generation);
    PreservedIsTimed(wired.devices, entries, i);
  }
}
