/**
 * What a published pool tells a reader of it, field by field: exactly the
 * devices and counter sets of the inventory, in whatever spelling is stored.
 */
module Advertised {
  import opened Wrappers
  import opened Sorting
  import opened Names
  import opened Text
  import opened Decimal
  import opened Slices
  import opened Canonical
  import opened Inventory
  import opened Identities
  import opened Desired
  import opened Coherence
  import opened Publication
  import Quantity
  import QuantityLaws

  // ----- Amounts -----

  /** Amounts just written are read digit by digit; a server may keep another spelling of the same number. */
  datatype Reading = Exactly | AsParsed

  predicate Denotes(text: string, value: BigDecimal)
  {
    Quantity.ReadLiteral(text).Some? && NumEq(Quantity.Exact(Quantity.ReadLiteral(text).value), value)
  }

  /** The text says that number: by parsing, and where its exponent is too wide for that, digit by digit. */
  predicate Says(text: string, value: BigDecimal)
  {
    if Quantity.Parse(text).Ok? then NumEq(Quantity.Parse(text).value.value, value) else Denotes(text, value)
  }

  predicate IsAmount(text: string, value: BigDecimal, how: Reading)
  {
    Says(text, value) && (how.Exactly? ==> Denotes(text, value))
  }

  /** Printed text says its quantity's number. */
  lemma PrintSays(q: Amount)
    ensures IsAmount(Quantity.Print(q), q.value, Exactly)
  {
    QuantityLaws.RoundTrip(q);
    if QuantityLaws.PrintsBinary(q) {
      BinaryPrintDenotes(q);
    } else {
      var literal := QuantityLaws.ReadFormatted(q.value, q.format);
    }
  }

  lemma BinaryPrintDenotes(q: Amount)
    requires QuantityLaws.PrintsBinary(q)
    ensures Denotes(Quantity.Print(q), q.value)
  {
    var n := IntegerValue(q.value);
    var i := Quantity.BinaryIndex(n, |Quantity.BINARY_FACTORS|).value;
    var factor := Quantity.BINARY_FACTORS[i];
    QuantityLaws.ReadBinaryForm(n / factor, i);
    QuantityLaws.ExactDivision(n, factor);
    IntegerValueExact(q.value);
  }

  /** Text with the same canonical spelling says the same number. */
  lemma SameSpellingSays(a: string, b: string, value: BigDecimal)
    requires IsAmount(a, value, Exactly) && QuantityLaws.CanonicalText(a) == QuantityLaws.CanonicalText(b)
    ensures Says(b, value)
  {
    QuantityLaws.ParseValid(a);
    QuantityLaws.ParseValid(b);
    if Quantity.Parse(a).Ok? && Quantity.Parse(b).Ok? {
      QuantityLaws.CanonicalDecides(Quantity.Parse(a).value, Quantity.Parse(b).value);
      NumEqTransitive(Quantity.Parse(b).value.value, Quantity.Parse(a).value.value, value);
    } else if Quantity.Parse(a).Ok? {
      var x := Quantity.Parse(a).value.value;
      var literal := QuantityLaws.ReadFormatted(x, Quantity.DecimalSI);
      NumEqTransitive(Quantity.Exact(literal), x, value);
    } else if Quantity.Parse(b).Ok? {
      var y := Quantity.Parse(b).value.value;
      var literal := QuantityLaws.ReadFormatted(y, Quantity.DecimalSI);
      NumEqTransitive(y, Quantity.Exact(literal), value);
    }
  }

  function AmountTexts(m: Option<map<string, string>>): map<string, string>
  {
    if m.Some? then m.value else map[]
  }

  /** Under the same names, the same numbers. */
  predicate ShowsAmounts(amounts: map<string, Amount>, texts: map<string, string>, how: Reading)
  {
    texts.Keys == amounts.Keys && forall k :: k in amounts ==> IsAmount(texts[k], amounts[k].value, how)
  }

  lemma WireShowsAmounts(amounts: map<string, Amount>)
    ensures ShowsAmounts(amounts, WireAmounts(amounts), Exactly)
  {
    forall k | k in amounts
      ensures IsAmount(WireAmounts(amounts)[k], amounts[k].value, Exactly)
    {
      PrintSays(amounts[k]);
    }
  }

  lemma SpelledShowsAmounts(amounts: map<string, Amount>, a: map<string, string>, b: map<string, string>)
    requires ShowsAmounts(amounts, a, Exactly) && SpellAmounts(a) == SpellAmounts(b)
    ensures ShowsAmounts(amounts, b, AsParsed)
  {
    assert a.Keys == SpellAmounts(a).Keys == SpellAmounts(b).Keys == b.Keys;
    forall k | k in amounts
      ensures IsAmount(b[k], amounts[k].value, AsParsed)
    {
      assert SpellAmounts(a)[k] == SpellAmounts(b)[k];
      SameSpellingSays(a[k], b[k], amounts[k].value);
    }
  }

  // ----- One device -----

  predicate ShowsTaint(t: InventoryTaint, u: Taint)
  {
    && u.key == t.key && (if u.value.Some? then u.value.value else "") == t.value
    && (t.effect.NoEffect? ==> u.effect == "None") && (t.effect.NoSchedule? ==> u.effect == "NoSchedule")
    && (t.effect.NoExecute? ==> u.effect == "NoExecute")
    && (t.timeAdded.Some? ==> u.timeAdded == t.timeAdded)
  }

  ghost predicate TaintIsShown(t: InventoryTaint, shown: seq<Taint>)
  {
    exists u :: u in shown && ShowsTaint(t, u)
  }

  ghost predicate TaintIsOf(taints: seq<InventoryTaint>, u: Taint)
  {
    exists t :: t in taints && ShowsTaint(t, u)
  }

  /** As many taints as there are, each of them, and no other. */
  ghost predicate ShowsTaints(taints: seq<InventoryTaint>, shown: seq<Taint>)
  {
    && |shown| == |taints|
    && (forall t {:trigger TaintIsShown(t, shown)} :: t in taints ==> TaintIsShown(t, shown))
    && forall u {:trigger TaintIsOf(taints, u)} :: u in shown ==> TaintIsOf(taints, u)
  }

  predicate ShowsConsumption(c: InventoryConsumption, w: Consumption, how: Reading)
  {
    w.counterSet == c.counterSet && ShowsAmounts(c.counters, w.counters, how)
  }

  ghost predicate ConsumptionIsShown(c: InventoryConsumption, shown: seq<Consumption>, how: Reading)
  {
    exists w :: w in shown && ShowsConsumption(c, w, how)
  }

  ghost predicate ConsumptionIsOf(consumes: seq<InventoryConsumption>, w: Consumption, how: Reading)
  {
    exists c :: c in consumes && ShowsConsumption(c, w, how)
  }

  ghost predicate ShowsConsumptions(consumes: seq<InventoryConsumption>, shown: seq<Consumption>, how: Reading)
  {
    && |shown| == |consumes|
    && (forall c {:trigger ConsumptionIsShown(c, shown, how)} :: c in consumes ==> ConsumptionIsShown(c, shown, how))
    && forall w {:trigger ConsumptionIsOf(consumes, w, how)} :: w in shown ==> ConsumptionIsOf(consumes, w, how)
  }

  /** The binding a device states, if it states one. */
  predicate ShowsBinding(d: InventoryDevice, s: Device)
  {
    match d.binding
    case None => Items(s.bindingConditions) == [] && Items(s.bindingFailureConditions) == [] && s.bindsToNode != Some(true)
    case Some(b) =>
      && multiset(Items(s.bindingConditions)) == multiset(b.conditions)
      && multiset(Items(s.bindingFailureConditions)) == multiset(b.failureConditions)
      && (s.bindsToNode == Some(true) <==> b.bindsToNode)
  }

  /** The stored device tells of that one: every field, absent and empty alike. */
  ghost predicate Shows(d: InventoryDevice, s: Device, how: Reading)
  {
    && s.name == d.name
    && (if s.attributes.Some? then s.attributes.value else map[]) == d.attributes
    && ShowsAmounts(d.capacity, AmountTexts(s.capacity), how)
    && ShowsTaints(d.taints, Items(s.taints)) && ShowsConsumptions(d.consumes, Items(s.consumes), how) && ShowsBinding(d, s)
  }

  predicate ShowsSet(c: InventorySet, s: CounterSet, how: Reading)
  {
    s.name == c.name && ShowsAmounts(c.counters, s.counters, how)
  }

  lemma MapMembers<S, T>(f: S -> T, xs: seq<S>)
    ensures forall x :: x in xs ==> f(x) in Map(f, xs)
    ensures forall y :: y in Map(f, xs) ==> exists x :: x in xs && f(x) == y
  {
    forall x | x in xs
      ensures f(x) in Map(f, xs)
    {
      var i :| 0 <= i < |xs| && xs[i] == x;
      assert Map(f, xs)[i] == f(x);
    }
    forall y | y in Map(f, xs)
      ensures exists x :: x in xs && f(x) == y
    {
      var i :| 0 <= i < |xs| && Map(f, xs)[i] == y;
      assert xs[i] in xs;
    }
  }

  lemma WireShowsTaint(t: InventoryTaint)
    ensures ShowsTaint(t, WireTaint(t))
  {
  }

  lemma WireShowsTaints(taints: seq<InventoryTaint>)
    ensures ShowsTaints(taints, Map(WireTaint, taints))
  {
    MapMembers(WireTaint, taints);
    forall t | t in taints
      ensures TaintIsShown(t, Map(WireTaint, taints))
    {
      WireShowsTaint(t);
      assert WireTaint(t) in Map(WireTaint, taints);
    }
    forall u | u in Map(WireTaint, taints)
      ensures TaintIsOf(taints, u)
    {
      var t :| t in taints && WireTaint(t) == u;
      WireShowsTaint(t);
    }
  }

  lemma WireShowsConsumptions(consumes: seq<InventoryConsumption>)
    ensures ShowsConsumptions(consumes, Map(WireConsumption, consumes), Exactly)
  {
    MapMembers(WireConsumption, consumes);
    forall c | c in consumes
      ensures ConsumptionIsShown(c, Map(WireConsumption, consumes), Exactly)
    {
      WireShowsAmounts(c.counters);
      assert WireConsumption(c) in Map(WireConsumption, consumes) && ShowsConsumption(c, WireConsumption(c), Exactly);
    }
    forall w | w in Map(WireConsumption, consumes)
      ensures ConsumptionIsOf(consumes, w, Exactly)
    {
      var c :| c in consumes && WireConsumption(c) == w;
      WireShowsAmounts(c.counters);
      assert ShowsConsumption(c, w, Exactly);
    }
  }

  lemma WireShows(d: InventoryDevice)
    ensures Shows(d, WireDevice(d), Exactly)
  {
    WireShowsAmounts(d.capacity);
    WireShowsTaints(d.taints);
    WireShowsConsumptions(d.consumes);
    ItemsOfNonEmpty(Map(WireTaint, d.taints));
    ItemsOfNonEmpty(Map(WireConsumption, d.consumes));
    ItemsOfNonEmpty(BindingOf(d).conditions);
    ItemsOfNonEmpty(BindingOf(d).failureConditions);
  }

  // ----- Re-spelling a device -----

  lemma ReorderedTaints(taints: seq<InventoryTaint>, a: seq<Taint>, b: seq<Taint>)
    requires multiset(a) == multiset(b) && ShowsTaints(taints, a)
    ensures ShowsTaints(taints, b)
  {
    SamePermutationElements(a, b);
    forall t | t in taints
      ensures TaintIsShown(t, b)
    {
      assert TaintIsShown(t, a);
    }
  }

  lemma RespelledTaints(taints: seq<InventoryTaint>, shown: seq<Taint>)
    ensures ShowsTaints(taints, Map(CanonTaint, shown)) <==> ShowsTaints(taints, shown)
  {
    MapMembers(CanonTaint, shown);
    forall t
      ensures TaintIsShown(t, Map(CanonTaint, shown)) <==> TaintIsShown(t, shown)
    {
      if u :| u in shown && ShowsTaint(t, u) {
        assert CanonTaint(u) in Map(CanonTaint, shown) && ShowsTaint(t, CanonTaint(u));
      }
      if u :| u in Map(CanonTaint, shown) && ShowsTaint(t, u) {
        var v :| v in shown && CanonTaint(v) == u;
        assert ShowsTaint(t, v);
      }
    }
    forall u
      ensures TaintIsOf(taints, CanonTaint(u)) <==> TaintIsOf(taints, u)
    {
      TaintSpelling(taints, u);
    }
  }

  lemma TaintSpelling(taints: seq<InventoryTaint>, u: Taint)
    ensures TaintIsOf(taints, CanonTaint(u)) <==> TaintIsOf(taints, u)
  {
    forall t
      ensures ShowsTaint(t, CanonTaint(u)) <==> ShowsTaint(t, u)
    {
    }
  }

  lemma CanonShowsTaints(taints: seq<InventoryTaint>, shown: seq<Taint>)
    ensures ShowsTaints(taints, CanonTaints(shown)) <==> ShowsTaints(taints, shown)
  {
    RespelledTaints(taints, shown);
    if ShowsTaints(taints, shown) {
      ReorderedTaints(taints, Map(CanonTaint, shown), CanonTaints(shown));
    }
    if ShowsTaints(taints, CanonTaints(shown)) {
      ReorderedTaints(taints, CanonTaints(shown), Map(CanonTaint, shown));
    }
  }

  lemma ReorderedConsumptions(consumes: seq<InventoryConsumption>, a: seq<Consumption>, b: seq<Consumption>, how: Reading)
    requires multiset(a) == multiset(b) && ShowsConsumptions(consumes, a, how)
    ensures ShowsConsumptions(consumes, b, how)
  {
    SamePermutationElements(a, b);
    forall c | c in consumes
      ensures ConsumptionIsShown(c, b, how)
    {
      assert ConsumptionIsShown(c, a, how);
    }
  }

  lemma CanonShowsConsumptions(consumes: seq<InventoryConsumption>, shown: seq<Consumption>, how: Reading)
    ensures ShowsConsumptions(consumes, SortBy(shown, ConsumptionKey), how) <==> ShowsConsumptions(consumes, shown, how)
  {
    if ShowsConsumptions(consumes, shown, how) {
      ReorderedConsumptions(consumes, shown, SortBy(shown, ConsumptionKey), how);
    }
    if ShowsConsumptions(consumes, SortBy(shown, ConsumptionKey), how) {
      ReorderedConsumptions(consumes, SortBy(shown, ConsumptionKey), shown, how);
    }
  }

  /** The canonical form tells the same as the device. */
  lemma CanonShows(d: InventoryDevice, s: Device, how: Reading)
    ensures Shows(d, CanonDevice(s), how) <==> Shows(d, s, how)
  {
    CanonShowsTaints(d.taints, Items(s.taints));
    CanonShowsConsumptions(d.consumes, Items(s.consumes), how);
    ItemsOfNonEmpty(CanonTaints(Items(s.taints)));
    ItemsOfNonEmpty(SortBy(Items(s.consumes), ConsumptionKey));
    CanonBinding(d, s);
  }

  lemma CanonBinding(d: InventoryDevice, s: Device)
    ensures ShowsBinding(d, CanonDevice(s)) <==> ShowsBinding(d, s)
  {
    var x, y := Items(s.bindingConditions), Items(s.bindingFailureConditions);
    ItemsOfNonEmpty(SortBy(x, TextKey));
    ItemsOfNonEmpty(SortBy(y, TextKey));
    SamePermutationElements(SortBy(x, TextKey), x);
    SamePermutationElements(SortBy(y, TextKey), y);
  }

  lemma FilledShowsTaints(taints: seq<InventoryTaint>, w: seq<Taint>, s: seq<Taint>)
    requires ShowsTaints(taints, w) && Pairwise(w, s, FilledTaint)
    ensures ShowsTaints(taints, s)
  {
    forall t | t in taints
      ensures TaintIsShown(t, s)
    {
      assert TaintIsShown(t, w);
      var u :| u in w && ShowsTaint(t, u);
      var i :| 0 <= i < |w| && w[i] == u;
      assert s[i] in s && ShowsTaint(t, s[i]);
    }
    forall u | u in s
      ensures TaintIsOf(taints, u)
    {
      var i :| 0 <= i < |s| && s[i] == u;
      assert w[i] in w && TaintIsOf(taints, w[i]);
      var t :| t in taints && ShowsTaint(t, w[i]);
      assert ShowsTaint(t, u);
    }
  }

  lemma FilledShows(d: InventoryDevice, w: Device, s: Device, how: Reading)
    requires Shows(d, w, how) && FilledDevice(w, s)
    ensures Shows(d, s, how)
  {
    FilledShowsTaints(d.taints, Items(w.taints), Items(s.taints));
  }

  lemma SpelledShowsConsumption(c: InventoryConsumption, a: Consumption, b: Consumption)
    requires ShowsConsumption(c, a, Exactly) && SpellConsumption(a) == SpellConsumption(b)
    ensures ShowsConsumption(c, b, AsParsed)
  {
    SpelledShowsAmounts(c.counters, a.counters, b.counters);
  }

  lemma SpelledShowsConsumptions(consumes: seq<InventoryConsumption>, a: seq<Consumption>, b: seq<Consumption>)
    requires ShowsConsumptions(consumes, a, Exactly) && Map(SpellConsumption, a) == Map(SpellConsumption, b)
    ensures ShowsConsumptions(consumes, b, AsParsed)
  {
    forall c | c in consumes
      ensures ConsumptionIsShown(c, b, AsParsed)
    {
      assert ConsumptionIsShown(c, a, Exactly);
      var w :| w in a && ShowsConsumption(c, w, Exactly);
      var i :| 0 <= i < |a| && a[i] == w;
      assert Map(SpellConsumption, a)[i] == Map(SpellConsumption, b)[i];
      SpelledShowsConsumption(c, w, b[i]);
      assert b[i] in b;
    }
    forall w | w in b
      ensures ConsumptionIsOf(consumes, w, AsParsed)
    {
      var i :| 0 <= i < |b| && b[i] == w;
      assert Map(SpellConsumption, a)[i] == Map(SpellConsumption, b)[i];
      assert a[i] in a && ConsumptionIsOf(consumes, a[i], Exactly);
      var c :| c in consumes && ShowsConsumption(c, a[i], Exactly);
      SpelledShowsConsumption(c, a[i], w);
    }
  }

  function Spelled(s: Device): Device
  {
    SpellDevice(CanonDevice(s))
  }

  /** However a server re-spells a device, as long as it compares the same it tells the same. */
  lemma KeptShows(d: InventoryDevice, w: Device, s: Device)
    requires Shows(d, w, Exactly) && FilledDevice(Spelled(w), Spelled(s))
    ensures Shows(d, s, AsParsed)
  {
    var a, b := CanonDevice(w), CanonDevice(s);
    CanonShows(d, w, Exactly);
    CanonShows(d, s, AsParsed);
    FilledShowsTaints(d.taints, Items(a.taints), Items(b.taints));
    assert Spelled(s).capacity == Spelled(w).capacity && Spelled(s).consumes == Spelled(w).consumes;
    SameCapacity(d.capacity, a.capacity, b.capacity);
    SameConsumes(d.consumes, a.consumes, b.consumes);
  }

  lemma SameCapacity(amounts: map<string, Amount>, a: Option<map<string, string>>, b: Option<map<string, string>>)
    requires ShowsAmounts(amounts, AmountTexts(a), Exactly)
    requires (if a.Some? then Some(SpellAmounts(a.value)) else None) == if b.Some? then Some(SpellAmounts(b.value)) else None
    ensures ShowsAmounts(amounts, AmountTexts(b), AsParsed)
  {
    SpelledShowsAmounts(amounts, AmountTexts(a), AmountTexts(b));
  }

  lemma SameConsumes(consumes: seq<InventoryConsumption>, a: Option<seq<Consumption>>, b: Option<seq<Consumption>>)
    requires ShowsConsumptions(consumes, Items(a), Exactly)
    requires (if a.Some? then Some(Map(SpellConsumption, a.value)) else None) == if b.Some? then Some(Map(SpellConsumption, b.value)) else None
    ensures ShowsConsumptions(consumes, Items(b), AsParsed)
  {
    SpelledShowsConsumptions(consumes, Items(a), Items(b));
  }

  // ----- What is written -----

  predicate DeviceWritten(batch: seq<Spec>, x: Device)
  {
    exists i :: 0 <= i < |batch| && x in Items(batch[i].devices)
  }

  predicate SetWritten(batch: seq<Spec>, x: CounterSet)
  {
    exists i :: 0 <= i < |batch| && x in Items(batch[i].counterSets)
  }

  lemma {:induction false} WrittenAre(batch: seq<Spec>, x: Device, y: CounterSet)
    ensures DeviceWritten(batch, x) <==> x in DevicesOf(batch)
    ensures SetWritten(batch, y) <==> y in SetsOf(batch)
  {
    if batch != [] {
      var rest := batch[1..];
      WrittenAre(rest, x, y);
      if DeviceWritten(rest, x) {
        var i :| 0 <= i < |rest| && x in Items(rest[i].devices);
        assert rest[i] == batch[i + 1];
      }
      if SetWritten(rest, y) {
        var i :| 0 <= i < |rest| && y in Items(rest[i].counterSets);
        assert rest[i] == batch[i + 1];
      }
      if DeviceWritten(batch, x) {
        var i :| 0 <= i < |batch| && x in Items(batch[i].devices);
        assert i > 0 ==> rest[i - 1] == batch[i];
      }
      if SetWritten(batch, y) {
        var i :| 0 <= i < |batch| && y in Items(batch[i].counterSets);
        assert i > 0 ==> rest[i - 1] == batch[i];
      }
    }
  }

  ghost predicate DeviceTold(d: InventoryDevice, batch: seq<Spec>, how: Reading)
  {
    exists x :: DeviceWritten(batch, x) && Shows(d, x, how)
  }

  ghost predicate DeviceMeant(inventory: PoolInventory, x: Device, how: Reading)
  {
    exists d :: d in inventory.devices && Shows(d, x, how)
  }

  ghost predicate SetTold(c: InventorySet, batch: seq<Spec>, how: Reading)
  {
    exists x :: SetWritten(batch, x) && ShowsSet(c, x, how)
  }

  ghost predicate SetMeant(inventory: PoolInventory, x: CounterSet, how: Reading)
  {
    exists c :: c in inventory.sharedCounters && ShowsSet(c, x, how)
  }

  /** The specs tell of every device and counter set of the inventory, and of nothing else. */
  ghost predicate Tells(inventory: PoolInventory, batch: seq<Spec>, how: Reading)
  {
    && (forall d {:trigger DeviceTold(d, batch, how)} :: d in inventory.devices ==> DeviceTold(d, batch, how))
    && (forall x {:trigger DeviceMeant(inventory, x, how)} :: DeviceWritten(batch, x) ==> DeviceMeant(inventory, x, how))
    && (forall c {:trigger SetTold(c, batch, how)} :: c in inventory.sharedCounters ==> SetTold(c, batch, how))
    && forall x {:trigger SetMeant(inventory, x, how)} :: SetWritten(batch, x) ==> SetMeant(inventory, x, how)
  }

  /** Some device has taints or consumes counters. */
  predicate Elaborate(inventory: PoolInventory)
  {
    exists d :: d in inventory.devices && (d.taints != [] || d.consumes != [])
  }

  /** One slice's contents: devices or counter sets, never none, mixed, or more than the API server takes. */
  predicate Sized(spec: Spec, elaborate: bool)
  {
    if spec.devices.Some?
    then spec.counterSets.None? && 0 < |spec.devices.value| <= if elaborate then 64 else 128
    else spec.counterSets.Some? && 0 < |spec.counterSets.value| <= 8
  }

  /** Every slice but the last of the devices, and the last of the counter sets, is full; devices come first. */
  predicate Filled(spec: Spec, next: Spec, elaborate: bool)
  {
    if spec.devices.Some? then next.devices.Some? ==> |spec.devices.value| == if elaborate then 64 else 128
    else next.devices.None? && (spec.counterSets.Some? ==> |spec.counterSets.value| == 8)
  }

  lemma AdvancedWire(d: InventoryDevice)
    ensures Advanced(CanonWire(d)) <==> d.taints != [] || d.consumes != []
  {
    CanonWireDevice(d);
    SamePermutationElements(CanonTaints(Map(WireTaint, d.taints)), Map(CanonTaint, Map(WireTaint, d.taints)));
    SamePermutationElements(SortBy(Map(WireConsumption, d.consumes), ConsumptionKey), Map(WireConsumption, d.consumes));
    assert |CanonTaints(Map(WireTaint, d.taints))| == |d.taints|;
    assert |SortBy(Map(WireConsumption, d.consumes), ConsumptionKey)| == |d.consumes|;
  }

  lemma ElaborateIsAdvanced(inventory: PoolInventory)
    ensures Elaborate(inventory) <==> HasAdvanced(WireAll(inventory).devices)
  {
    WiredAre(inventory);
    forall d | d in inventory.devices
      ensures Advanced(CanonWire(d)) <==> d.taints != [] || d.consumes != []
    {
      AdvancedWire(d);
    }
  }

  /** The wanted devices and sets are the inventory's, one for one. */
  lemma WiredAre(inventory: PoolInventory)
    ensures |WireAll(inventory).devices| == |inventory.devices| && |WireAll(inventory).sets| == |inventory.sharedCounters|
    ensures forall d :: d in inventory.devices ==> CanonWire(d) in WireAll(inventory).devices
    ensures forall x :: x in WireAll(inventory).devices ==> exists d :: d in inventory.devices && CanonWire(d) == x
    ensures forall c :: c in inventory.sharedCounters ==> WireSet(c) in WireAll(inventory).sets
    ensures forall x :: x in WireAll(inventory).sets ==> exists c :: c in inventory.sharedCounters && WireSet(c) == x
  {
    CanonWireMap(inventory.devices);
    MapMembers(CanonWire, inventory.devices);
    MapMembers(WireSet, inventory.sharedCounters);
    SamePermutationElements(WireAll(inventory).devices, Map(CanonWire, inventory.devices));
    SamePermutationElements(WireAll(inventory).sets, Map(WireSet, inventory.sharedCounters));
  }

  lemma WantedShows(d: InventoryDevice, w: Device, x: Device)
    requires w == CanonWire(d) && FilledDevice(w, x)
    ensures Shows(d, x, Exactly)
  {
    WireShows(d);
    CanonShows(d, WireDevice(d), Exactly);
    FilledShows(d, w, x, Exactly);
  }

  ghost predicate DeviceIsAmong(d: InventoryDevice, shown: seq<Device>, how: Reading)
  {
    exists x :: x in shown && Shows(d, x, how)
  }

  ghost predicate SetIsAmong(c: InventorySet, shown: seq<CounterSet>, how: Reading)
  {
    exists x :: x in shown && ShowsSet(c, x, how)
  }

  lemma DevicesTell(inventory: PoolInventory, shown: seq<Device>)
    requires Pairwise(WireAll(inventory).devices, shown, FilledDevice)
    ensures forall d {:trigger DeviceIsAmong(d, shown, Exactly)} :: d in inventory.devices ==> DeviceIsAmong(d, shown, Exactly)
    ensures forall x {:trigger DeviceMeant(inventory, x, Exactly)} :: x in shown ==> DeviceMeant(inventory, x, Exactly)
  {
    var wanted := WireAll(inventory).devices;
    WiredAre(inventory);
    forall d | d in inventory.devices
      ensures DeviceIsAmong(d, shown, Exactly)
    {
      var i :| 0 <= i < |wanted| && wanted[i] == CanonWire(d);
      WantedShows(d, wanted[i], shown[i]);
      assert shown[i] in shown;
    }
    forall x | x in shown
      ensures DeviceMeant(inventory, x, Exactly)
    {
      var i :| 0 <= i < |shown| && shown[i] == x;
      assert wanted[i] in wanted;
      var d :| d in inventory.devices && CanonWire(d) == wanted[i];
      WantedShows(d, wanted[i], x);
    }
  }

  lemma SetsTell(inventory: PoolInventory)
    ensures forall c {:trigger SetIsAmong(c, WireAll(inventory).sets, Exactly)} ::
              c in inventory.sharedCounters ==> SetIsAmong(c, WireAll(inventory).sets, Exactly)
    ensures forall x {:trigger SetMeant(inventory, x, Exactly)} :: x in WireAll(inventory).sets ==> SetMeant(inventory, x, Exactly)
  {
    WiredAre(inventory);
    forall c
      ensures ShowsSet(c, WireSet(c), Exactly)
    {
      WireShowsAmounts(c.counters);
    }
  }

  lemma AmongIsTold(d: InventoryDevice, batch: seq<Spec>, how: Reading)
    requires DeviceIsAmong(d, DevicesOf(batch), how)
    ensures DeviceTold(d, batch, how)
  {
    var x :| x in DevicesOf(batch) && Shows(d, x, how);
    WrittenAre(batch, x, CounterSet("", map[]));
  }

  lemma AmongSetsIsTold(c: InventorySet, batch: seq<Spec>, how: Reading)
    requires SetIsAmong(c, SetsOf(batch), how)
    ensures SetTold(c, batch, how)
  {
    var x :| x in SetsOf(batch) && ShowsSet(c, x, how);
    WrittenAre(batch, Device("", None, None, None, None, None, None, None), x);
  }

  lemma DevicesTold(inventory: PoolInventory, batch: seq<Spec>)
    requires Pairwise(WireAll(inventory).devices, DevicesOf(batch), FilledDevice)
    ensures forall d {:trigger DeviceTold(d, batch, Exactly)} :: d in inventory.devices ==> DeviceTold(d, batch, Exactly)
    ensures forall x {:trigger DeviceMeant(inventory, x, Exactly)} :: DeviceWritten(batch, x) ==> DeviceMeant(inventory, x, Exactly)
  {
    DevicesTell(inventory, DevicesOf(batch));
    forall d | d in inventory.devices
      ensures DeviceTold(d, batch, Exactly)
    {
      assert DeviceIsAmong(d, DevicesOf(batch), Exactly);
      AmongIsTold(d, batch, Exactly);
    }
    forall x | DeviceWritten(batch, x)
      ensures DeviceMeant(inventory, x, Exactly)
    {
      WrittenAre(batch, x, CounterSet("", map[]));
    }
  }

  lemma SetsTold(inventory: PoolInventory, batch: seq<Spec>)
    requires SetsOf(batch) == WireAll(inventory).sets
    ensures forall c {:trigger SetTold(c, batch, Exactly)} :: c in inventory.sharedCounters ==> SetTold(c, batch, Exactly)
    ensures forall x {:trigger SetMeant(inventory, x, Exactly)} :: SetWritten(batch, x) ==> SetMeant(inventory, x, Exactly)
  {
    SetsTell(inventory);
    forall c | c in inventory.sharedCounters
      ensures SetTold(c, batch, Exactly)
    {
      assert SetIsAmong(c, SetsOf(batch), Exactly);
      AmongSetsIsTold(c, batch, Exactly);
    }
    forall x | SetWritten(batch, x)
      ensures SetMeant(inventory, x, Exactly)
    {
      WrittenAre(batch, Device("", None, None, None, None, None, None, None), x);
    }
  }

  /**
   * What is written for a pool tells exactly of its inventory, field by field
   * and number by number: every device and counter set once, with nothing
   * added, in slices within the limits.
   */
  lemma BatchTells(id: Identity, pool: string, inventory: PoolInventory, entries: seq<Entry>, generation: int)
    requires ValidInventory(pool, inventory)
    ensures var batch := Batch(id, pool, WireAll(inventory), entries, generation);
      && Tells(inventory, batch, Exactly)
      && |DevicesOf(batch)| == |inventory.devices| && |SetsOf(batch)| == |inventory.sharedCounters|
      && (forall i :: 0 <= i < |batch| ==> Sized(batch[i], Elaborate(inventory)))
      && forall i {:trigger batch[i]} :: 0 <= i < |batch| - 1 ==> Filled(batch[i], batch[i + 1], Elaborate(inventory))
  {
    var batch := Batch(id, pool, WireAll(inventory), entries, generation);
    BatchConserves(id, pool, inventory, entries, generation, batch);
    DevicesTold(inventory, batch);
    SetsTold(inventory, batch);
  }

  lemma BatchConserves(id: Identity, pool: string, inventory: PoolInventory, entries: seq<Entry>, generation: int, batch: seq<Spec>)
    requires ValidInventory(pool, inventory) && batch == Batch(id, pool, WireAll(inventory), entries, generation)
    ensures Pairwise(WireAll(inventory).devices, DevicesOf(batch), FilledDevice) && SetsOf(batch) == WireAll(inventory).sets
    ensures |DevicesOf(batch)| == |inventory.devices| && |SetsOf(batch)| == |inventory.sharedCounters|
    ensures forall i :: 0 <= i < |batch| ==> Sized(batch[i], Elaborate(inventory))
    ensures forall i {:trigger batch[i]} :: 0 <= i < |batch| - 1 ==> Filled(batch[i], batch[i + 1], Elaborate(inventory))
  {
    PublicationConserves(id, pool, inventory, entries, generation);
    ElaborateIsAdvanced(inventory);
    WiredAre(inventory);
    forall i | 0 <= i < |batch|
      ensures Sized(batch[i], Elaborate(inventory))
    {
      assert WithinLimits(batch[i], HasAdvanced(WireAll(inventory).devices));
    }
    forall i | 0 <= i < |batch| - 1
      ensures Filled(batch[i], batch[i + 1], Elaborate(inventory))
    {
      assert Packed(batch[i], batch[i + 1], HasAdvanced(WireAll(inventory).devices));
      assert Sized(batch[i], Elaborate(inventory)) && Sized(batch[i + 1], Elaborate(inventory));
    }
  }

  // ----- What is stored -----

  lemma SpelledMembers(devices: seq<Device>)
    ensures forall y :: y in devices ==> Spelled(y) in Map(SpellDevice, CanonDevices(devices))
    ensures forall x :: x in Map(SpellDevice, CanonDevices(devices)) ==> exists y :: y in devices && Spelled(y) == x
  {
    MapMembers(CanonDevice, devices);
    SamePermutationElements(CanonDevices(devices), Map(CanonDevice, devices));
    MapMembers(SpellDevice, CanonDevices(devices));
  }

  lemma SpelledSetMembers(sets: seq<CounterSet>)
    ensures forall y :: y in sets ==> SpellSet(y) in Map(SpellSet, SortBy(sets, SetKey))
    ensures forall x :: x in Map(SpellSet, SortBy(sets, SetKey)) ==> exists y :: y in sets && SpellSet(y) == x
  {
    SamePermutationElements(SortBy(sets, SetKey), sets);
    MapMembers(SpellSet, SortBy(sets, SetKey));
  }

  lemma KeptLists(w: Spec, s: Spec)
    requires Keeps(w, s)
    ensures Pairwise(Map(SpellDevice, CanonDevices(Items(w.devices))), Map(SpellDevice, CanonDevices(Items(s.devices))), FilledDevice)
    ensures Map(SpellSet, SortBy(Items(w.counterSets), SetKey)) == Map(SpellSet, SortBy(Items(s.counterSets), SetKey))
  {
    ItemsOfNonEmpty(Map(SpellDevice, CanonDevices(Items(w.devices))));
    ItemsOfNonEmpty(Map(SpellDevice, CanonDevices(Items(s.devices))));
    ItemsOfNonEmpty(Map(SpellSet, SortBy(Items(w.counterSets), SetKey)));
    ItemsOfNonEmpty(Map(SpellSet, SortBy(Items(s.counterSets), SetKey)));
  }

  /** Every device written is stored, however spelled. */
  lemma KeptCopy(w: Spec, s: Spec, y: Device) returns (x: Device)
    requires Keeps(w, s) && y in Items(w.devices)
    ensures x in Items(s.devices) && FilledDevice(Spelled(y), Spelled(x))
  {
    KeptLists(w, s);
    SpelledMembers(Items(w.devices));
    SpelledMembers(Items(s.devices));
    var a, b := Map(SpellDevice, CanonDevices(Items(w.devices))), Map(SpellDevice, CanonDevices(Items(s.devices)));
    var i :| 0 <= i < |a| && a[i] == Spelled(y);
    assert b[i] in b;
    x :| x in Items(s.devices) && Spelled(x) == b[i];
  }

  /** Every device stored was written. */
  lemma KeptSource(w: Spec, s: Spec, x: Device) returns (y: Device)
    requires Keeps(w, s) && x in Items(s.devices)
    ensures y in Items(w.devices) && FilledDevice(Spelled(y), Spelled(x))
  {
    KeptLists(w, s);
    SpelledMembers(Items(w.devices));
    SpelledMembers(Items(s.devices));
    var a, b := Map(SpellDevice, CanonDevices(Items(w.devices))), Map(SpellDevice, CanonDevices(Items(s.devices)));
    var i :| 0 <= i < |b| && b[i] == Spelled(x);
    assert a[i] in a;
    y :| y in Items(w.devices) && Spelled(y) == a[i];
  }

  lemma KeptSetCopy(w: Spec, s: Spec, y: CounterSet) returns (x: CounterSet)
    requires Keeps(w, s) && y in Items(w.counterSets)
    ensures x in Items(s.counterSets) && SpellSet(x) == SpellSet(y)
  {
    KeptLists(w, s);
    SpelledSetMembers(Items(w.counterSets));
    SpelledSetMembers(Items(s.counterSets));
    x :| x in Items(s.counterSets) && SpellSet(x) == SpellSet(y);
  }

  lemma KeptSetSource(w: Spec, s: Spec, x: CounterSet) returns (y: CounterSet)
    requires Keeps(w, s) && x in Items(s.counterSets)
    ensures y in Items(w.counterSets) && SpellSet(x) == SpellSet(y)
  {
    KeptLists(w, s);
    SpelledSetMembers(Items(w.counterSets));
    SpelledSetMembers(Items(s.counterSets));
    y :| y in Items(w.counterSets) && SpellSet(y) == SpellSet(x);
  }

  lemma KeptShowsSet(c: InventorySet, y: CounterSet, x: CounterSet)
    requires ShowsSet(c, y, Exactly) && SpellSet(x) == SpellSet(y)
    ensures ShowsSet(c, x, AsParsed)
  {
    assert SpellSet(x).counters == SpellSet(y).counters && SpellSet(x).name == x.name && SpellSet(y).name == y.name;
    SpelledShowsAmounts(c.counters, y.counters, x.counters);
  }

  ghost predicate AllKept(batch: seq<Spec>, stored: seq<Spec>)
  {
    |stored| == |batch| && forall i {:trigger Keeps(batch[i], stored[i])} :: 0 <= i < |batch| ==> Keeps(batch[i], stored[i])
  }

  lemma KeptDevicesTold(inventory: PoolInventory, batch: seq<Spec>, stored: seq<Spec>, d: InventoryDevice)
    requires AllKept(batch, stored) && DeviceTold(d, batch, Exactly)
    ensures DeviceTold(d, stored, AsParsed)
  {
    var y :| DeviceWritten(batch, y) && Shows(d, y, Exactly);
    var i :| 0 <= i < |batch| && y in Items(batch[i].devices);
    assert Keeps(batch[i], stored[i]);
    var x := KeptCopy(batch[i], stored[i], y);
    KeptShows(d, y, x);
    assert DeviceWritten(stored, x);
  }

  lemma KeptDeviceMeant(inventory: PoolInventory, batch: seq<Spec>, stored: seq<Spec>, x: Device)
    requires AllKept(batch, stored) && Tells(inventory, batch, Exactly) && DeviceWritten(stored, x)
    ensures DeviceMeant(inventory, x, AsParsed)
  {
    var i :| 0 <= i < |stored| && x in Items(stored[i].devices);
    assert Keeps(batch[i], stored[i]);
    var y := KeptSource(batch[i], stored[i], x);
    assert DeviceWritten(batch, y) && DeviceMeant(inventory, y, Exactly);
    var d :| d in inventory.devices && Shows(d, y, Exactly);
    KeptShows(d, y, x);
  }

  lemma KeptSetTold(batch: seq<Spec>, stored: seq<Spec>, c: InventorySet)
    requires AllKept(batch, stored) && SetTold(c, batch, Exactly)
    ensures SetTold(c, stored, AsParsed)
  {
    var y :| SetWritten(batch, y) && ShowsSet(c, y, Exactly);
    var i :| 0 <= i < |batch| && y in Items(batch[i].counterSets);
    assert Keeps(batch[i], stored[i]);
    var x := KeptSetCopy(batch[i], stored[i], y);
    KeptShowsSet(c, y, x);
    assert SetWritten(stored, x);
  }

  lemma KeptSetMeant(inventory: PoolInventory, batch: seq<Spec>, stored: seq<Spec>, x: CounterSet)
    requires AllKept(batch, stored) && Tells(inventory, batch, Exactly) && SetWritten(stored, x)
    ensures SetMeant(inventory, x, AsParsed)
  {
    var i :| 0 <= i < |stored| && x in Items(stored[i].counterSets);
    assert Keeps(batch[i], stored[i]);
    var y := KeptSetSource(batch[i], stored[i], x);
    assert SetWritten(batch, y) && SetMeant(inventory, y, Exactly);
    var c :| c in inventory.sharedCounters && ShowsSet(c, y, Exactly);
    KeptShowsSet(c, y, x);
  }

  /** Faithfully stored specs tell the same as the written ones. */
  lemma KeptTells(inventory: PoolInventory, batch: seq<Spec>, stored: seq<Spec>)
    requires AllKept(batch, stored) && Tells(inventory, batch, Exactly)
    ensures Tells(inventory, stored, AsParsed)
  {
    forall d | d in inventory.devices
      ensures DeviceTold(d, stored, AsParsed)
    {
      assert DeviceTold(d, batch, Exactly);
      KeptDevicesTold(inventory, batch, stored, d);
    }
    forall x | DeviceWritten(stored, x)
      ensures DeviceMeant(inventory, x, AsParsed)
    {
      KeptDeviceMeant(inventory, batch, stored, x);
    }
    forall c | c in inventory.sharedCounters
      ensures SetTold(c, stored, AsParsed)
    {
      assert SetTold(c, batch, Exactly);
      KeptSetTold(batch, stored, c);
    }
    forall x | SetWritten(stored, x)
      ensures SetMeant(inventory, x, AsParsed)
    {
      KeptSetMeant(inventory, batch, stored, x);
    }
  }

  /** The specs of a pool's slices, all of them. */
  ghost predicate ArePoolSpecs(s: Store, id: Identity, pool: string, stored: seq<Spec>)
  {
    && (forall spec :: spec in stored ==> exists name :: name in s && InPool(id, pool, s[name]) && s[name].spec == spec)
    && forall name :: name in s && InPool(id, pool, s[name]) ==> s[name].spec in stored
  }

  lemma PlacedAt(s: Store, id: Identity, owner: string, pool: string, generation: int, batch: seq<Spec>, i: nat)
    requires Lawful(id) && ComparesCanonically(id) && i < |batch| <= I64_MAX && Headed(id, pool, generation, batch)
    requires PlacedBatch(s, id, owner, pool, batch, {}, |batch|)
    ensures NameAt(id, pool, i) in s && InPool(id, pool, s[NameAt(id, pool, i)]) && Keeps(batch[i], s[NameAt(id, pool, i)].spec)
  {
    assert Kept(id, s, NameAt(id, pool, i), owner, batch[i]);
    var spec := s[NameAt(id, pool, i)].spec;
    assert KeepsAgrees(id, batch[i], spec) && HeaderKept(id, batch[i], spec);
  }

  function SpecAt(s: Store, name: string): Spec
  {
    if name in s then s[name].spec else Spec("", None, Pool("", 0, 0), None, None)
  }

  lemma PlacedSpecs(s: Store, id: Identity, owner: string, pool: string, generation: int, batch: seq<Spec>) returns (stored: seq<Spec>)
    requires Lawful(id) && ComparesCanonically(id) && |batch| <= I64_MAX && Headed(id, pool, generation, batch)
    requires PlacedBatch(s, id, owner, pool, batch, {}, |batch|)
    ensures AllKept(batch, stored) && ArePoolSpecs(s, id, pool, stored)
  {
    stored := seq(|batch|, i requires 0 <= i < |batch| => SpecAt(s, NameAt(id, pool, i)));
    forall i | 0 <= i < |batch|
      ensures NameAt(id, pool, i) in s && InPool(id, pool, s[NameAt(id, pool, i)]) && Keeps(batch[i], stored[i])
    {
      PlacedAt(s, id, owner, pool, generation, batch, i);
    }
    SpecsArePlaced(s, id, pool, batch, stored);
  }

  lemma SpecsArePlaced(s: Store, id: Identity, pool: string, batch: seq<Spec>, stored: seq<Spec>)
    requires |stored| == |batch| <= I64_MAX
    requires forall i :: 0 <= i < |batch| ==> stored[i] == SpecAt(s, NameAt(id, pool, i)) && NameAt(id, pool, i) in s && InPool(id, pool, s[NameAt(id, pool, i)])
    requires forall name :: name in s && InPool(id, pool, s[name]) ==> NamedInBatch(id, pool, name, |batch|)
    ensures ArePoolSpecs(s, id, pool, stored)
  {
    forall name | name in s && InPool(id, pool, s[name])
      ensures s[name].spec in stored
    {
      assert NamedInBatch(id, pool, name, |batch|);
      var i :| 0 <= i < |batch| && name == NameAt(id, pool, i);
      assert stored[i] == s[name].spec;
    }
  }

  /**
   * A reader of a published pool finds, field by field and number by number,
   * exactly its inventory, whatever spelling the server keeps.
   */
  lemma PublishedTells(s: Store, id: Identity, owner: string, snapshot: map<string, PoolInventory>, pool: string) returns (stored: seq<Spec>)
    requires Lawful(id) && ComparesCanonically(id) && Published(s, id, owner, snapshot) && pool in snapshot
    ensures ArePoolSpecs(s, id, pool, stored) && Tells(snapshot[pool], stored, AsParsed)
  {
    assert Placed(s, id, owner, pool, snapshot[pool], {});
    var batch: seq<Spec>, generation: int, entries: seq<Entry> :|
      IsBatch(id, pool, generation, batch, snapshot[pool], entries) && PlacedBatch(s, id, owner, pool, batch, {}, |batch|);
    BatchHeaded(id, pool, generation, batch, snapshot[pool], entries);
    stored := PlacedSpecs(s, id, owner, pool, generation, batch);
    BatchTells(id, pool, snapshot[pool], entries, generation);
    KeptTells(snapshot[pool], batch, stored);
  }

  ghost predicate PoolTold(s: Store, id: Identity, pool: string, inventory: PoolInventory)
  {
    exists stored :: ArePoolSpecs(s, id, pool, stored) && Tells(inventory, stored, AsParsed)
  }

  /** Each pool's slices tell of its inventory, all of it and nothing else. */
  ghost predicate AllTold(s: Store, id: Identity, snapshot: map<string, PoolInventory>)
  {
    forall pool {:trigger PoolTold(s, id, pool, snapshot[pool])} :: pool in snapshot ==> PoolTold(s, id, pool, snapshot[pool])
  }

  lemma PublishedIsTold(s: Store, id: Identity, owner: string, snapshot: map<string, PoolInventory>)
    requires Lawful(id) && Published(s, id, owner, snapshot)
    ensures ComparesCanonically(id) ==> AllTold(s, id, snapshot)
  {
    if ComparesCanonically(id) {
      forall pool | pool in snapshot
        ensures PoolTold(s, id, pool, snapshot[pool])
      {
        var stored := PublishedTells(s, id, owner, snapshot, pool);
      }
    }
  }
}
