/**
 * Concrete re-spellings (reordered lists, empty for absent collections,
 * numerically equal amounts, filled taint times), all absorbed by the
 * canonical form.
 */
module Respelling {
  import opened Wrappers
  import opened Sorting
  import opened Slices
  import opened Canonical
  import opened QuantityLaws

  /** Every element re-spelled, then the list reordered. */
  ghost predicate RespelledList<T(!new)>(a: seq<T>, b: seq<T>, related: (T, T) -> bool)
  {
    exists m: seq<T> :: Pairwise(a, m, related) && multiset(m) == multiset(b)
  }

  ghost predicate RespelledTaint(w: Taint, s: Taint)
  {
    && s.key == w.key && s.effect == w.effect
    && CanonTaint(s).value == CanonTaint(w).value
    && (w.timeAdded.Some? ==> s.timeAdded == w.timeAdded)
  }

  predicate RespelledAmounts(a: map<string, string>, b: map<string, string>)
  {
    a.Keys == b.Keys && forall k :: k in a ==> SameAmount(a[k], b[k])
  }

  ghost predicate RespelledConsumption(w: Consumption, s: Consumption)
  {
    s.counterSet == w.counterSet && RespelledAmounts(w.counters, s.counters)
  }

  ghost predicate RespelledSet(w: CounterSet, s: CounterSet)
  {
    s.name == w.name && RespelledAmounts(w.counters, s.counters)
  }

  function Amounts(m: Option<map<string, string>>): map<string, string>
  {
    if m.Some? then m.value else map[]
  }

  ghost predicate RespelledDevice(w: Device, s: Device)
  {
    && s.name == w.name
    && NonEmptyMap(s.attributes) == NonEmptyMap(w.attributes)
    && RespelledAmounts(Amounts(w.capacity), Amounts(s.capacity))
    && RespelledList(Items(w.taints), Items(s.taints), (x, y) => RespelledTaint(x, y))
    && RespelledList(Items(w.consumes), Items(s.consumes), (x, y) => RespelledConsumption(x, y))
    && multiset(Items(w.bindingConditions)) == multiset(Items(s.bindingConditions))
    && multiset(Items(w.bindingFailureConditions)) == multiset(Items(s.bindingFailureConditions))
    && NonFalse(s.bindsToNode) == NonFalse(w.bindsToNode)
  }

  ghost predicate RespelledSpec(w: Spec, s: Spec)
  {
    && s.driver == w.driver && s.node == w.node && s.pool == w.pool
    && RespelledList(Items(w.devices), Items(s.devices), (x, y) => RespelledDevice(x, y))
    && RespelledList(Items(w.counterSets), Items(s.counterSets), (x, y) => RespelledSet(x, y))
  }

  function TaintIdentity(t: Taint): Key { [t.key, t.effect] }

  /** What validation guarantees of a device that is written. */
  ghost predicate WellFormedDevice(d: Device)
  {
    && DistinctKeys(Items(d.taints), TaintIdentity)
    && DistinctKeys(Items(d.consumes), ConsumptionKey)
  }

  ghost predicate WellFormedSpec(s: Spec)
  {
    && DistinctKeys(Items(s.devices), DeviceKey)
    && (forall d :: d in Items(s.devices) ==> WellFormedDevice(d))
    && DistinctKeys(Items(s.counterSets), SetKey)
  }

  lemma DistinctSameKeys<T>(a: seq<T>, b: seq<T>, key: T -> Key)
    requires SameKeys(a, b, key) && DistinctKeys(a, key)
    ensures DistinctKeys(b, key) && KeysDecide(b, key)
  {
    forall i, j | 0 <= i < j < |b|
      ensures key(b[i]) != key(b[j])
    {
      assert key(a[i]) == key(b[i]) && key(a[j]) == key(b[j]);
    }
    DistinctKeysDecide(b, key);
  }

  lemma TextKeysDecide(xs: seq<string>)
    ensures KeysDecide(xs, TextKey)
  {
    forall x, y | x in xs && y in xs && TextKey(x) == TextKey(y)
      ensures x == y
    {
      assert TextKey(x)[0] == TextKey(y)[0];
    }
  }

  lemma SortedText(a: seq<string>, b: seq<string>)
    requires multiset(a) == multiset(b)
    ensures SortBy(a, TextKey) == SortBy(b, TextKey)
  {
    TextKeysDecide(a);
    SortByPermutation(a, b, TextKey);
  }

  lemma SpelledAmounts(a: map<string, string>, b: map<string, string>)
    requires RespelledAmounts(a, b)
    ensures SpellAmounts(a) == SpellAmounts(b)
  {
    forall k | k in a
      ensures CanonicalText(a[k]) == CanonicalText(b[k])
    {
      CanonicalTextDecides(a[k], b[k]);
    }
  }

  /** The list step: re-spelled lists have pairwise related sorted images. */
  lemma SortedImages<T(!new)>(a: seq<T>, b: seq<T>, m: seq<T>, related: (T, T) -> bool, canon: T -> T, key: T -> Key, after: (T, T) -> bool)
    requires Pairwise(a, m, related) && multiset(m) == multiset(b)
    requires forall i :: 0 <= i < |a| ==> key(canon(a[i])) == key(canon(m[i])) && after(canon(a[i]), canon(m[i]))
    requires DistinctKeys(Map(canon, a), key)
    ensures Pairwise(SortBy(Map(canon, a), key), SortBy(Map(canon, b), key), after)
    ensures |a| == |b|
  {
    var x, y := Map(canon, a), Map(canon, m);
    assert SameKeys(x, y, key) && Pairwise(x, y, after);
    SortByPairwise(x, y, key, after);
    DistinctSameKeys(x, y, key);
    MapMultiset(canon, m, b);
    SortByPermutation(y, Map(canon, b), key);
    assert |m| == |multiset(m)| == |b|;
  }

  lemma AbsorbTaints(a: seq<Taint>, b: seq<Taint>)
    requires RespelledList(a, b, (x, y) => RespelledTaint(x, y)) && DistinctKeys(a, TaintIdentity)
    ensures Pairwise(CanonTaints(a), CanonTaints(b), FilledTaint)
  {
    var m :| Pairwise(a, m, (x, y) => RespelledTaint(x, y)) && multiset(m) == multiset(b);
    forall i | 0 <= i < |a|
      ensures TaintKey(CanonTaint(a[i])) == TaintKey(CanonTaint(m[i])) && FilledTaint(CanonTaint(a[i]), CanonTaint(m[i]))
    {
      assert RespelledTaint(a[i], m[i]);
    }
    forall i, j | 0 <= i < j < |a|
      ensures TaintKey(Map(CanonTaint, a)[i]) != TaintKey(Map(CanonTaint, a)[j])
    {
      assert TaintIdentity(a[i]) == TaintKey(CanonTaint(a[i]))[..2];
      assert TaintIdentity(a[j]) == TaintKey(CanonTaint(a[j]))[..2];
    }
    SortedImages(a, b, m, (x, y) => RespelledTaint(x, y), CanonTaint, TaintKey, FilledTaint);
  }

  predicate SameSpelled(x: Consumption, y: Consumption) { SpellConsumption(x) == SpellConsumption(y) }

  predicate SameSpelledSet(x: CounterSet, y: CounterSet) { SpellSet(x) == SpellSet(y) }

  lemma ConsumptionSpelled(x: Consumption, y: Consumption)
    requires RespelledConsumption(x, y)
    ensures ConsumptionKey(x) == ConsumptionKey(y) && SameSpelled(x, y)
  {
    SpelledAmounts(x.counters, y.counters);
  }

  lemma SetSpelled(x: CounterSet, y: CounterSet)
    requires RespelledSet(x, y)
    ensures SetKey(x) == SetKey(y) && SameSpelledSet(x, y)
  {
    SpelledAmounts(x.counters, y.counters);
  }

  lemma SpelledConsumptions(x: seq<Consumption>, y: seq<Consumption>)
    requires Pairwise(x, y, SameSpelled)
    ensures Map(SpellConsumption, x) == Map(SpellConsumption, y)
  {
    assert forall i :: 0 <= i < |x| ==> SameSpelled(x[i], y[i]);
  }

  lemma SpelledSets(x: seq<CounterSet>, y: seq<CounterSet>)
    requires Pairwise(x, y, SameSpelledSet)
    ensures Map(SpellSet, x) == Map(SpellSet, y)
  {
    assert forall i :: 0 <= i < |x| ==> SameSpelledSet(x[i], y[i]);
  }

  lemma AbsorbConsumptions(a: seq<Consumption>, b: seq<Consumption>)
    requires RespelledList(a, b, (x, y) => RespelledConsumption(x, y)) && DistinctKeys(a, ConsumptionKey)
    ensures Map(SpellConsumption, SortBy(a, ConsumptionKey)) == Map(SpellConsumption, SortBy(b, ConsumptionKey))
  {
    var m: seq<Consumption> :| Pairwise(a, m, (x, y) => RespelledConsumption(x, y)) && multiset(m) == multiset(b);
    forall i | 0 <= i < |a|
      ensures ConsumptionKey(a[i]) == ConsumptionKey(m[i]) && SameSpelled(a[i], m[i])
    {
      ConsumptionSpelled(a[i], m[i]);
    }
    SortByPairwise(a, m, ConsumptionKey, SameSpelled);
    DistinctSameKeys(a, m, ConsumptionKey);
    SortByPermutation(m, b, ConsumptionKey);
    SpelledConsumptions(SortBy(a, ConsumptionKey), SortBy(b, ConsumptionKey));
  }

  lemma AbsorbSets(a: seq<CounterSet>, b: seq<CounterSet>)
    requires RespelledList(a, b, (x, y) => RespelledSet(x, y)) && DistinctKeys(a, SetKey)
    ensures Map(SpellSet, SortBy(a, SetKey)) == Map(SpellSet, SortBy(b, SetKey))
  {
    var m: seq<CounterSet> :| Pairwise(a, m, (x, y) => RespelledSet(x, y)) && multiset(m) == multiset(b);
    forall i | 0 <= i < |a|
      ensures SetKey(a[i]) == SetKey(m[i]) && SameSpelledSet(a[i], m[i])
    {
      SetSpelled(a[i], m[i]);
    }
    SortByPairwise(a, m, SetKey, SameSpelledSet);
    DistinctSameKeys(a, m, SetKey);
    SortByPermutation(m, b, SetKey);
    SpelledSets(SortBy(a, SetKey), SortBy(b, SetKey));
  }

  lemma AbsorbCapacity(a: Option<map<string, string>>, b: Option<map<string, string>>)
    requires RespelledAmounts(Amounts(a), Amounts(b))
    ensures NonEmptyMap(a).Some? <==> NonEmptyMap(b).Some?
    ensures NonEmptyMap(a).Some? ==> SpellAmounts(NonEmptyMap(a).value) == SpellAmounts(NonEmptyMap(b).value)
  {
    SpelledAmounts(Amounts(a), Amounts(b));
    assert Amounts(a) == map[] <==> Amounts(a).Keys == {};
    assert Amounts(b) == map[] <==> Amounts(b).Keys == {};
  }

  predicate FilledOnceSpelled(x: Device, y: Device) { FilledDevice(SpellDevice(x), SpellDevice(y)) }

  lemma AbsorbConsumes(w: Device, s: Device)
    requires RespelledDevice(w, s) && WellFormedDevice(w)
    ensures SpellDevice(CanonDevice(w)).consumes == SpellDevice(CanonDevice(s)).consumes
  {
    AbsorbConsumptions(Items(w.consumes), Items(s.consumes));
    var x, y := SortBy(Items(w.consumes), ConsumptionKey), SortBy(Items(s.consumes), ConsumptionKey);
    assert |x| == |Map(SpellConsumption, x)| == |Map(SpellConsumption, y)| == |y|;
  }

  lemma AbsorbConditions(w: Device, s: Device)
    requires multiset(Items(w.bindingConditions)) == multiset(Items(s.bindingConditions))
    requires multiset(Items(w.bindingFailureConditions)) == multiset(Items(s.bindingFailureConditions))
    ensures CanonDevice(w).bindingConditions == CanonDevice(s).bindingConditions
    ensures CanonDevice(w).bindingFailureConditions == CanonDevice(s).bindingFailureConditions
  {
    SortedText(Items(w.bindingConditions), Items(s.bindingConditions));
    SortedText(Items(w.bindingFailureConditions), Items(s.bindingFailureConditions));
  }

  lemma AbsorbDevice(w: Device, s: Device)
    requires RespelledDevice(w, s) && WellFormedDevice(w)
    ensures FilledOnceSpelled(CanonDevice(w), CanonDevice(s))
  {
    AbsorbTaints(Items(w.taints), Items(s.taints));
    AbsorbConsumes(w, s);
    AbsorbConditions(w, s);
    AbsorbCapacity(w.capacity, s.capacity);
    FilledFromParts(SpellDevice(CanonDevice(w)), SpellDevice(CanonDevice(s)));
  }

  lemma FilledFromParts(x: Device, y: Device)
    requires x.name == y.name && x.attributes == y.attributes && x.capacity == y.capacity && x.consumes == y.consumes
    requires x.bindingConditions == y.bindingConditions && x.bindingFailureConditions == y.bindingFailureConditions
    requires x.bindsToNode == y.bindsToNode
    requires (x.taints.Some? <==> y.taints.Some?) && Pairwise(Items(x.taints), Items(y.taints), FilledTaint)
    ensures FilledDevice(x, y)
  {
  }

  lemma AbsorbDevices(a: seq<Device>, b: seq<Device>)
    requires RespelledList(a, b, (x, y) => RespelledDevice(x, y))
    requires DistinctKeys(a, DeviceKey) && forall d :: d in a ==> WellFormedDevice(d)
    ensures Pairwise(CanonDevices(a), CanonDevices(b), FilledOnceSpelled)
  {
    var m: seq<Device> :| Pairwise(a, m, (x, y) => RespelledDevice(x, y)) && multiset(m) == multiset(b);
    forall i | 0 <= i < |a|
      ensures DeviceKey(CanonDevice(a[i])) == DeviceKey(CanonDevice(m[i])) && FilledOnceSpelled(CanonDevice(a[i]), CanonDevice(m[i]))
    {
      assert RespelledDevice(a[i], m[i]) && WellFormedDevice(a[i]);
      AbsorbDevice(a[i], m[i]);
    }
    forall i, j | 0 <= i < j < |a|
      ensures DeviceKey(Map(CanonDevice, a)[i]) != DeviceKey(Map(CanonDevice, a)[j])
    {
      assert DeviceKey(a[i]) != DeviceKey(a[j]);
    }
    SortedImages(a, b, m, (x, y) => RespelledDevice(x, y), CanonDevice, DeviceKey, FilledOnceSpelled);
  }

  lemma FilledAfterSpelling(x: seq<Device>, y: seq<Device>)
    requires Pairwise(x, y, FilledOnceSpelled)
    ensures Pairwise(Map(SpellDevice, x), Map(SpellDevice, y), FilledDevice)
  {
    forall i | 0 <= i < |x|
      ensures FilledDevice(Map(SpellDevice, x)[i], Map(SpellDevice, y)[i])
    {
      assert FilledOnceSpelled(x[i], y[i]);
    }
  }

  /** The canonical form absorbs every re-spelling of a well-formed spec. */
  lemma RespellingAbsorbed(w: Spec, s: Spec)
    requires RespelledSpec(w, s) && WellFormedSpec(w)
    ensures Keeps(w, s)
  {
    AbsorbDevices(Items(w.devices), Items(s.devices));
    FilledAfterSpelling(CanonDevices(Items(w.devices)), CanonDevices(Items(s.devices)));
    AbsorbSets(Items(w.counterSets), Items(s.counterSets));
  }
}
