/** The devices a publisher wants are already in canonical form, before and after their taint times are preserved. */
module Idempotence {
  import opened Wrappers
  import opened Sorting
  import opened Slices
  import opened Canonical
  import opened Respelling
  import opened Inventory
  import opened Desired

  /** Canonical already, with no taint twice. */
  ghost predicate CanonicalDevice(d: Device)
  {
    CanonDevice(d) == d && DistinctKeys(Items(d.taints), TaintIdentity)
  }

  predicate CanonicalTaints(taints: seq<Taint>)
  {
    && (forall t :: t in taints ==> CanonTaint(t) == t)
    && Sorted(taints, TaintKey) && DistinctKeys(taints, TaintIdentity)
  }

  lemma SortTwice<T>(xs: seq<T>, key: T -> Key)
    requires KeysDecide(xs, key)
    ensures SortBy(SortBy(xs, key), key) == SortBy(xs, key)
  {
    SortBySorted(xs, key);
    KeysDecideTransfer(xs, SortBy(xs, key), key);
    SortByIdentity(SortBy(xs, key), key);
  }

  lemma DistinctIdentityDecides(taints: seq<Taint>)
    requires DistinctKeys(taints, TaintIdentity)
    ensures KeysDecide(taints, TaintKey)
  {
    forall i, j | 0 <= i < j < |taints|
      ensures TaintKey(taints[i]) != TaintKey(taints[j])
    {
      assert TaintIdentity(taints[i]) == TaintKey(taints[i])[..2];
      assert TaintIdentity(taints[j]) == TaintKey(taints[j])[..2];
    }
    DistinctKeysDecide(taints, TaintKey);
  }

  lemma FixedTaints(taints: seq<Taint>)
    requires CanonicalTaints(taints)
    ensures CanonTaints(taints) == taints
  {
    assert Map(CanonTaint, taints) == taints;
    DistinctIdentityDecides(taints);
    SortByIdentity(taints, TaintKey);
  }

  lemma CanonTaintsCanonical(taints: seq<Taint>)
    requires DistinctKeys(CanonTaints(taints), TaintIdentity)
    ensures CanonicalTaints(CanonTaints(taints))
  {
    var fixed := Map(CanonTaint, taints);
    SortBySorted(fixed, TaintKey);
    SortByElements(fixed, TaintKey);
  }

  lemma CanonListsTwice(consumes: seq<Consumption>, conditions: seq<string>)
    requires DistinctKeys(consumes, ConsumptionKey)
    ensures SortBy(SortBy(consumes, ConsumptionKey), ConsumptionKey) == SortBy(consumes, ConsumptionKey)
    ensures SortBy(SortBy(conditions, TextKey), TextKey) == SortBy(conditions, TextKey)
  {
    DistinctKeysDecide(consumes, ConsumptionKey);
    SortTwice(consumes, ConsumptionKey);
    TextKeysDecide(conditions);
    SortTwice(conditions, TextKey);
  }

  lemma CanonDeviceTwice(d: Device)
    requires DistinctKeys(CanonTaints(Items(d.taints)), TaintIdentity) && DistinctKeys(Items(d.consumes), ConsumptionKey)
    ensures CanonicalDevice(CanonDevice(d))
  {
    CanonTaintsCanonical(Items(d.taints));
    FixedTaints(CanonTaints(Items(d.taints)));
    CanonListsTwice(Items(d.consumes), Items(d.bindingConditions));
    CanonListsTwice(Items(d.consumes), Items(d.bindingFailureConditions));
    ItemsOfNonEmpty(CanonTaints(Items(d.taints)));
    ItemsOfNonEmpty(SortBy(Items(d.consumes), ConsumptionKey));
    ItemsOfNonEmpty(SortBy(Items(d.bindingConditions), TextKey));
    ItemsOfNonEmpty(SortBy(Items(d.bindingFailureConditions), TextKey));
  }

  lemma WireDeviceCanonical(d: InventoryDevice)
    requires ValidDevice(d)
    ensures CanonicalDevice(CanonWire(d))
  {
    TaintKeysDistinct(d.taints);
    ConsumptionKeysDistinct(d.consumes);
    ItemsOfNonEmpty(Map(WireTaint, d.taints));
    ItemsOfNonEmpty(Map(WireConsumption, d.consumes));
    CanonDeviceTwice(WireDevice(d));
  }

  /** Every wanted device is canonical. */
  lemma WiredCanonical(pool: string, inventory: PoolInventory)
    requires ValidInventory(pool, inventory)
    ensures forall d :: d in WireAll(inventory).devices ==> CanonicalDevice(d)
    ensures Sorted(WireAll(inventory).devices, DeviceKey) && DistinctKeys(WireAll(inventory).devices, DeviceKey)
  {
    CanonWireMap(inventory.devices);
    var canon := Map(CanonWire, inventory.devices);
    SortBySorted(canon, DeviceKey);
    SortByElements(canon, DeviceKey);
    forall d | d in canon
      ensures CanonicalDevice(d)
    {
      var i :| 0 <= i < |canon| && canon[i] == d;
      assert inventory.devices[i] in inventory.devices;
      WireDeviceCanonical(inventory.devices[i]);
    }
  }

  // ----- Filling in taint times -----

  lemma TimesDoNotSort(a: seq<Taint>, b: seq<Taint>)
    requires Pairwise(a, b, FilledTaint) && CanonicalTaints(a)
    ensures CanonicalTaints(b)
  {
    forall i | 0 <= i < |a|
      ensures TaintKey(b[i]) == TaintKey(a[i]) && TaintIdentity(b[i]) == TaintIdentity(a[i]) && CanonTaint(b[i]) == b[i]
    {
      assert FilledTaint(a[i], b[i]) && a[i] in a;
    }
    forall i, j | 0 <= i < j < |b|
      ensures KeyLeq(TaintKey(b[i]), TaintKey(b[j])) && TaintIdentity(b[i]) != TaintIdentity(b[j])
    {
      assert KeyLeq(TaintKey(a[i]), TaintKey(a[j])) && TaintIdentity(a[i]) != TaintIdentity(a[j]);
    }
  }

  lemma CanonicalDeviceTaints(d: Device)
    requires CanonicalDevice(d)
    ensures CanonicalTaints(Items(d.taints)) && d.taints == NonEmpty(Items(d.taints))
  {
    ItemsOfNonEmpty(CanonTaints(Items(d.taints)));
    assert Items(d.taints) == CanonTaints(Items(d.taints));
    CanonTaintsCanonical(Items(d.taints));
  }

  /** A canonical device stays canonical when absent taint times are filled in. */
  lemma FilledCanonical(d: Device, p: Device)
    requires CanonicalDevice(d) && FilledDevice(d, p)
    ensures CanonicalDevice(p)
  {
    CanonicalDeviceTaints(d);
    TimesDoNotSort(Items(d.taints), Items(p.taints));
    FixedTaints(Items(p.taints));
    assert p.taints == NonEmpty(Items(p.taints));
  }

  /** Canonical devices in name order are their own canonical list. */
  lemma CanonicalList(devices: seq<Device>)
    requires forall d :: d in devices ==> CanonicalDevice(d)
    requires Sorted(devices, DeviceKey) && DistinctKeys(devices, DeviceKey)
    ensures CanonDevices(devices) == devices
  {
    assert Map(CanonDevice, devices) == devices by {
      forall i | 0 <= i < |devices|
        ensures CanonDevice(devices[i]) == devices[i]
      {
        assert devices[i] in devices;
      }
    }
    DistinctKeysDecide(devices, DeviceKey);
    SortByIdentity(devices, DeviceKey);
  }
}
