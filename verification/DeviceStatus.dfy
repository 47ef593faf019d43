/** Merging a driver's device-status reports into a claim's stored list. */
module DeviceStatus {
  import opened Wrappers

  const MAX_PATCH_ATTEMPTS: nat := 3
  const MAX_CONDITIONS: nat := 8
  const MAX_DATA_BYTES: nat := 10 * 1024

  datatype Key = Key(pool: string, device: string, share: Option<string>)

  datatype Condition = Condition(kind: string, status: string)

  /** A report as a driver makes it; `data` is its serialised form. */
  datatype Report = Report(key: Key, conditions: Option<seq<Condition>>, data: Option<string>, network: Option<string>)

  /** An entry of the claim's stored list. */
  datatype Status = Status(driver: string, key: Key, conditions: Option<seq<Condition>>, data: Option<string>, network: Option<string>)

  datatype Allocation = Allocation(driver: string, key: Key)

  datatype Claim = Claim(uid: string, version: Option<nat>, allocations: seq<Allocation>, devices: Option<seq<Status>>)

  datatype Error =
    | MissingResourceVersion | ClaimIdentityMismatch | DuplicateDeviceStatus | TooManyConditions | DataTooLarge
    | DriverNotAllocated | DeviceNotAllocated | Kubernetes

  type Desired = map<Key, Status>

  function Entries(claim: Claim): seq<Status>
  {
    if claim.devices.Some? then claim.devices.value else []
  }

  predicate Is(s: Status, driver: string, key: Key)
  {
    s.driver == driver && s.key == key
  }

  /** The first entry of that driver and key. */
  function Find(entries: seq<Status>, driver: string, key: Key): (r: Option<Status>)
    ensures r.Some? ==> r.value in entries && Is(r.value, driver, key)
    ensures r.None? ==> forall s :: s in entries ==> !Is(s, driver, key)
  {
    if entries == [] then None
    else if Is(entries[0], driver, key) then Some(entries[0])
    else Find(entries[1..], driver, key)
  }

  /** No driver and key twice. */
  predicate UniqueKeys(entries: seq<Status>)
  {
    forall i, j :: 0 <= i < j < |entries| ==> !(entries[i].driver == entries[j].driver && entries[i].key == entries[j].key)
  }

  lemma {:induction false} FindUnique(entries: seq<Status>, i: nat)
    requires UniqueKeys(entries) && i < |entries|
    ensures Find(entries, entries[i].driver, entries[i].key) == Some(entries[i])
  {
    if i > 0 {
      assert entries[1..][i - 1] == entries[i];
      FindUnique(entries[1..], i - 1);
    }
  }

  /** Every desired entry carries this driver and its own key. */
  predicate Keyed(driver: string, desired: Desired)
  {
    forall k :: k in desired ==> Is(desired[k], driver, k)
  }

  // ----- Reports -----

  function ToStatus(driver: string, report: Report): Status
  {
    Status(driver, report.key, report.conditions, report.data, report.network)
  }

  predicate Acceptable(report: Report)
  {
    && (report.conditions.Some? ==> |report.conditions.value| <= MAX_CONDITIONS)
    && (report.data.Some? ==> |report.data.value| <= MAX_DATA_BYTES)
  }

  predicate Distinct(reports: seq<Report>)
  {
    forall i, j :: 0 <= i < j < |reports| ==> reports[i].key != reports[j].key
  }

  /** `desired` is exactly these reports, by key. */
  predicate Gathered(driver: string, reports: seq<Report>, desired: Desired)
  {
    && (forall r :: r in reports ==> r.key in desired && desired[r.key] == ToStatus(driver, r))
    && forall k :: k in desired ==> exists r :: r in reports && r.key == k
  }

  method DesiredStatuses(driver: string, reports: seq<Report>) returns (r: Result<Desired, Error>)
    ensures r.Ok? <==> (forall report :: report in reports ==> Acceptable(report)) && Distinct(reports)
    ensures r.Ok? ==> Gathered(driver, reports, r.value) && Keyed(driver, r.value)
  {
    var desired: Desired := map[];
    for i := 0 to |reports|
      invariant forall j :: 0 <= j < i ==> Acceptable(reports[j])
      invariant Distinct(reports[..i])
      invariant Gathered(driver, reports[..i], desired) && Keyed(driver, desired)
    {
      var report := reports[i];
      assert report in reports;
      if report.conditions.Some? && |report.conditions.value| > MAX_CONDITIONS {
        return Err(TooManyConditions);
      }
      if report.data.Some? && |report.data.value| > MAX_DATA_BYTES {
        return Err(DataTooLarge);
      }
      if report.key in desired {
        var earlier :| earlier in reports[..i] && earlier.key == report.key;
        var k :| 0 <= k < i && reports[k] == earlier;
        return Err(DuplicateDeviceStatus);
      }
      assert reports[..i + 1] == reports[..i] + [report];
      assert forall k :: 0 <= k < i ==> reports[k] in reports[..i];
      desired := desired[report.key := ToStatus(driver, report)];
    }
    assert reports[..|reports|] == reports;
    return Ok(desired);
  }

  // ----- What a reader finds of a report -----

  /** Absent conditions and empty conditions are alike. */
  predicate SameConditions(a: Option<seq<Condition>>, b: Option<seq<Condition>>)
  {
    a == b || (a.None? && b == Some([])) || (a == Some([]) && b.None?)
  }

  /** The stored entry says what the report says: all of it, or each field the report names. */
  predicate ShowsReport(r: Report, s: Status, fieldwise: bool)
  {
    if fieldwise then
      && (r.data.Some? ==> s.data == r.data) && (r.network.Some? ==> s.network == r.network)
      && (r.conditions.Some? ==> SameConditions(s.conditions, r.conditions))
    else s.data == r.data && s.network == r.network && SameConditions(s.conditions, r.conditions)
  }

  predicate NamesNothing(r: Report)
  {
    r.data.None? && r.network.None? && r.conditions.None?
  }

  /** There is one entry under this driver and the report's key, and it says what the report says. */
  ghost predicate Stands(r: Report, driver: string, fieldwise: bool, entries: seq<Status>)
  {
    (fieldwise && NamesNothing(r)) ||
    ((exists s :: s in entries && s.driver == driver && s.key == r.key)
     && forall s :: s in entries && s.driver == driver && s.key == r.key ==> ShowsReport(r, s, fieldwise))
  }

  ghost predicate AllStand(reports: seq<Report>, driver: string, fieldwise: bool, entries: seq<Status>)
  {
    UniqueKeys(entries) && forall r {:trigger Stands(r, driver, fieldwise, entries)} :: r in reports ==> Stands(r, driver, fieldwise, entries)
  }

  predicate Specifies(s: Status)
  {
    s.conditions.Some? || s.data.Some? || s.network.Some?
  }

  /** Field-wise publication ignores reports that name no field. */
  function Retained(desired: Desired): Desired
  {
    map k | k in desired && Specifies(desired[k]) :: desired[k]
  }

  // ----- Validation -----

  predicate Allocated(driver: string, claim: Claim, key: Key)
  {
    Allocation(driver, key) in claim.allocations
  }

  predicate MayPublish(driver: string, claim: Claim, desired: Desired)
  {
    (exists a :: a in claim.allocations && a.driver == driver) && forall k :: k in desired ==> Allocated(driver, claim, k)
  }

  method ValidateAllocations(driver: string, claim: Claim, desired: Desired) returns (error: Option<Error>)
    ensures error.None? <==> MayPublish(driver, claim, desired)
    ensures error.Some? ==> error.value.DriverNotAllocated? || error.value.DeviceNotAllocated?
    ensures error == Some(DriverNotAllocated) <==> forall a :: a in claim.allocations ==> a.driver != driver
  {
    var granted: set<Key> := {};
    for i := 0 to |claim.allocations|
      invariant forall k :: k in granted <==> Allocation(driver, k) in claim.allocations[..i]
    {
      if claim.allocations[i].driver == driver {
        granted := granted + {claim.allocations[i].key};
      }
    }
    assert claim.allocations[..|claim.allocations|] == claim.allocations;
    if granted == {} {
      forall a | a in claim.allocations
        ensures a.driver != driver
      {
        assert a == Allocation(a.driver, a.key) && a.key !in granted;
      }
      return Some(DriverNotAllocated);
    }
    var some :| some in granted;
    assert Allocation(driver, some) in claim.allocations;
    if exists k :: k in desired && k !in granted {
      return Some(DeviceNotAllocated);
    }
    return None;
  }

  // ----- Field-wise merging -----

  function MergeOne(update: Status, current: Option<Status>): Status
  {
    if current.None? then update
    else update.(
      conditions := if update.conditions.None? then current.value.conditions else update.conditions,
      data := if update.data.None? then current.value.data else update.data,
      network := if update.network.None? then current.value.network else update.network)
  }

  /** Unspecified fields keep the stored values. */
  function MergeFields(driver: string, entries: seq<Status>, desired: Desired): (merged: Desired)
    ensures merged.Keys == desired.Keys
  {
    map k | k in desired :: MergeOne(desired[k], Find(entries, driver, k))
  }

  lemma FindPrefix(entries: seq<Status>, i: nat, driver: string, key: Key)
    requires UniqueKeys(entries) && i < |entries|
    ensures Is(entries[i], driver, key) ==> Find(entries[..i], driver, key).None? && Find(entries[..i + 1], driver, key) == Some(entries[i])
    ensures !Is(entries[i], driver, key) ==> Find(entries[..i + 1], driver, key) == Find(entries[..i], driver, key)
  {
    if Is(entries[i], driver, key) {
      FindUnique(entries[..i + 1], i);
    } else {
      FindAppended(entries[..i], entries[i], driver, key);
      assert entries[..i + 1] == entries[..i] + [entries[i]];
    }
  }

  lemma {:induction false} FindAppended(entries: seq<Status>, s: Status, driver: string, key: Key)
    ensures Find(entries + [s], driver, key) ==
      if Find(entries, driver, key).Some? then Find(entries, driver, key) else if Is(s, driver, key) then Some(s) else None
  {
    if entries != [] {
      assert (entries + [s])[1..] == entries[1..] + [s];
      FindAppended(entries[1..], s, driver, key);
    } else {
      assert (entries + [s])[1..] == [];
    }
  }

  lemma MergeStep(driver: string, entries: seq<Status>, i: nat, desired: Desired)
    requires UniqueKeys(entries) && i < |entries|
    ensures var s, merged := entries[i], MergeFields(driver, entries[..i], desired);
      MergeFields(driver, entries[..i + 1], desired) ==
      if s.driver == driver && s.key in merged then merged[s.key := MergeOne(merged[s.key], Some(s))] else merged
  {
    var s, before, after := entries[i], entries[..i], entries[..i + 1];
    forall k | k in desired
      ensures Find(after, driver, k) == if Is(s, driver, k) then Some(s) else Find(before, driver, k)
      ensures Is(s, driver, k) ==> Find(before, driver, k).None?
    {
      FindPrefix(entries, i, driver, k);
    }
  }

  /** The stored list is walked once, filling in the fields each report leaves out. */
  method MergeExistingFields(driver: string, entries: seq<Status>, desired: Desired) returns (merged: Desired)
    requires UniqueKeys(entries)
    ensures merged == MergeFields(driver, entries, desired)
  {
    merged := desired;
    assert merged == MergeFields(driver, entries[..0], desired);
    for i := 0 to |entries|
      invariant merged == MergeFields(driver, entries[..i], desired)
    {
      var s := entries[i];
      MergeStep(driver, entries, i, desired);
      if s.driver == driver && s.key in merged {
        merged := merged[s.key := MergeOne(merged[s.key], Some(s))];
      }
    }
    assert entries[..|entries|] == entries;
  }

  // ----- Comparing -----

  function Conditions(s: Status): seq<Condition>
  {
    if s.conditions.Some? then s.conditions.value else []
  }

  /** The stored entry already says what is wanted; no conditions and empty conditions are alike. */
  predicate SaysSame(current: Status, wanted: Status)
  {
    && current.driver == wanted.driver && current.key == wanted.key
    && current.data == wanted.data && current.network == wanted.network && Conditions(current) == Conditions(wanted)
  }

  predicate Current(driver: string, entries: seq<Status>, desired: Desired)
  {
    forall k :: k in desired ==> Find(entries, driver, k).Some? && SaysSame(Find(entries, driver, k).value, desired[k])
  }

  /** The table holds exactly what looking the entries up finds. */
  predicate IndexedAt(byKey: map<Key, Status>, driver: string, entries: seq<Status>, k: Key)
  {
    Find(entries, driver, k) == if k in byKey then Some(byKey[k]) else None
  }

  function Index(byKey: map<Key, Status>, driver: string, s: Status): map<Key, Status>
  {
    if s.driver == driver then byKey[s.key := s] else byKey
  }

  lemma IndexStep(byKey: map<Key, Status>, driver: string, entries: seq<Status>, i: nat, k: Key)
    requires UniqueKeys(entries) && i < |entries| && IndexedAt(byKey, driver, entries[..i], k)
    ensures IndexedAt(Index(byKey, driver, entries[i]), driver, entries[..i + 1], k)
  {
    FindPrefix(entries, i, driver, k);
  }

  method StatusesAreCurrent(driver: string, entries: seq<Status>, desired: Desired) returns (current: bool)
    requires UniqueKeys(entries)
    ensures current <==> Current(driver, entries, desired)
  {
    var byKey: map<Key, Status> := map[];
    for i := 0 to |entries|
      invariant forall k :: IndexedAt(byKey, driver, entries[..i], k)
    {
      var next, seen := Index(byKey, driver, entries[i]), entries[..i + 1];
      forall k
        ensures IndexedAt(next, driver, seen, k)
      {
        IndexStep(byKey, driver, entries, i, k);
      }
      byKey := next;
    }
    assert entries[..|entries|] == entries;
    assert forall k :: k in desired ==> IndexedAt(byKey, driver, entries, k);
    return forall k :: k in desired ==> k in byKey && SaysSame(byKey[k], desired[k]);
  }

  // ----- Upserting -----

  /** Every entry stays in place, and only desired ones change. */
  ghost predicate Aligned(driver: string, before: seq<Status>, desired: Desired, after: seq<Status>)
  {
    && |before| <= |after|
    && (forall i :: 0 <= i < |before| ==> after[i].driver == before[i].driver && after[i].key == before[i].key)
    && (forall i :: 0 <= i < |before| ==> after[i] == before[i] || (before[i].driver == driver && before[i].key in desired))
  }

  /** Looking up `after` finds the desired entries outside `todo`, and `before` elsewhere. */
  ghost predicate LooksUp(driver: string, before: seq<Status>, desired: Desired, todo: set<Key>, after: seq<Status>)
  {
    forall d, k :: Find(after, d, k) == if d == driver && k in desired && k !in todo then Some(desired[k]) else Find(before, d, k)
  }

  /**
   * `after` is `before` with every desired entry in its place: replaced where
   * it stood, appended where it was missing, everything else untouched.
   */
  ghost predicate Upserted(driver: string, before: seq<Status>, desired: Desired, after: seq<Status>)
  {
    UniqueKeys(after) && LooksUp(driver, before, desired, {}, after) && Aligned(driver, before, desired, after)
  }

  lemma FindReplaced(entries: seq<Status>, i: nat, s: Status, driver: string, key: Key)
    requires UniqueKeys(entries) && i < |entries| && Is(entries[i], s.driver, s.key)
    ensures UniqueKeys(entries[i := s])
    ensures Find(entries[i := s], driver, key) == if Is(s, driver, key) then Some(s) else Find(entries, driver, key)
  {
    var after := entries[i := s];
    if Is(s, driver, key) {
      FindUnique(after, i);
    } else {
      FindElsewhere(entries, after, i, driver, key);
    }
  }

  lemma {:induction false} FindElsewhere(a: seq<Status>, b: seq<Status>, i: nat, driver: string, key: Key)
    requires |a| == |b| && i < |a| && forall j :: 0 <= j < |a| && j != i ==> a[j] == b[j]
    requires !Is(a[i], driver, key) && !Is(b[i], driver, key)
    ensures Find(a, driver, key) == Find(b, driver, key)
  {
    if i > 0 {
      FindElsewhere(a[1..], b[1..], i - 1, driver, key);
    } else {
      assert a[1..] == b[1..];
    }
  }

  method Position(entries: seq<Status>, s: Status) returns (at: Option<nat>)
    ensures at.Some? ==> at.value < |entries| && Is(entries[at.value], s.driver, s.key)
    ensures at.None? ==> Find(entries, s.driver, s.key).None?
  {
    for i := 0 to |entries|
      invariant forall j :: 0 <= j < i ==> !Is(entries[j], s.driver, s.key)
    {
      if Is(entries[i], s.driver, s.key) {
        return Some(i);
      }
    }
    return None;
  }

  /** One entry put in its place. */
  ghost predicate PutsOne(mid: seq<Status>, s: Status, after: seq<Status>)
  {
    UniqueKeys(after) && forall d, p :: Find(after, d, p) == if Is(s, d, p) then Some(s) else Find(mid, d, p)
  }

  lemma Replaced(mid: seq<Status>, at: nat, s: Status)
    requires UniqueKeys(mid) && at < |mid| && Is(mid[at], s.driver, s.key)
    ensures PutsOne(mid, s, mid[at := s])
  {
    FindReplaced(mid, at, s, s.driver, s.key);
    forall d, p
      ensures Find(mid[at := s], d, p) == if Is(s, d, p) then Some(s) else Find(mid, d, p)
    {
      FindReplaced(mid, at, s, d, p);
    }
  }

  lemma Appended(mid: seq<Status>, s: Status)
    requires UniqueKeys(mid) && Find(mid, s.driver, s.key).None?
    ensures PutsOne(mid, s, mid + [s])
  {
    forall d, p
      ensures Find(mid + [s], d, p) == if Is(s, d, p) then Some(s) else Find(mid, d, p)
    {
      FindAppended(mid, s, d, p);
    }
    forall i | 0 <= i < |mid|
      ensures !Is(mid[i], s.driver, s.key)
    {
      assert mid[i] in mid;
    }
  }

  lemma LookUpStep(driver: string, before: seq<Status>, desired: Desired, todo: set<Key>, mid: seq<Status>, k: Key, after: seq<Status>)
    requires Keyed(driver, desired) && LooksUp(driver, before, desired, todo, mid) && k in desired && PutsOne(mid, desired[k], after)
    ensures LooksUp(driver, before, desired, todo - {k}, after)
  {
    forall d, p
      ensures Find(after, d, p) == if d == driver && p in desired && p !in todo - {k} then Some(desired[p]) else Find(before, d, p)
    {
      assert Find(mid, d, p) == if d == driver && p in desired && p !in todo then Some(desired[p]) else Find(before, d, p);
    }
  }

  method Upsert(driver: string, before: seq<Status>, desired: Desired) returns (after: seq<Status>)
    requires UniqueKeys(before) && Keyed(driver, desired)
    ensures Upserted(driver, before, desired, after)
  {
    after := before;
    var todo := desired.Keys;
    while todo != {}
      invariant todo <= desired.Keys && UniqueKeys(after)
      invariant LooksUp(driver, before, desired, todo, after) && Aligned(driver, before, desired, after)
      decreases |todo|
    {
      var k :| k in todo;
      ghost var mid := after;
      var at := Position(after, desired[k]);
      if at.Some? {
        Replaced(after, at.value, desired[k]);
        after := after[at.value := desired[k]];
      } else {
        Appended(after, desired[k]);
        after := after + [desired[k]];
      }
      LookUpStep(driver, before, desired, todo, mid, k, after);
      todo := todo - {k};
    }
  }
}
