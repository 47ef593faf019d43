/** What planning promises: nothing invented, nothing missed, every request apart, and no order seen. */
module PlanLaws {
  import opened Wrappers
  import opened Names
  import opened Artifacts
  import opened Sorting
  import opened ClaimFiles
  import opened Persist
  import opened MetadataFacts
  import opened MetadataPlan

  // ----- Documents and allocations -----

  ghost predicate Contributes(w: Writer, claim: Claim, p: Prepared, q: string, a: Allocation)
  {
    && q in Asked(claim, p.device) && a in Local(w.driver, claim)
    && Matches(q, p.device, a)
  }

  /** The document line an allocation of a prepared device accounts for. */
  ghost predicate Backs(w: Writer, facts: set<Fact>, base: string, key: Key, p: Prepared, a: Allocation)
    requires Consistent(facts) && base in BasesOf(facts) && key in Group(facts, base)
  {
    && a.pool == p.device.pool && a.device == p.device.device && key == [a.pool, a.device]
    && Base(a.request) == base && a.request == FullName(facts, base)
    && Group(facts, base)[key] == ContentOf(w.driver, p)
  }

  lemma FactMeans(w: Writer, claim: Claim, ps: set<Prepared>, f: Fact) returns (p: Prepared, q: string, a: Allocation)
    requires f in AllFacts(w.driver, claim, ps)
    ensures p in ps && Contributes(w, claim, p, q, a) && f == FactOf(w.driver, p, q, a)
  {
    p :| p in ps && f in FactsOf(w.driver, claim, p);
    q :| q in Asked(claim, p.device) && f in FactsFor(w.driver, claim, p, q);
    FactsForAre(w.driver, claim, p, q);
    a :| a in Matching(w.driver, claim, p.device, q) && f == FactOf(w.driver, p, q, a);
  }

  lemma FactMade(w: Writer, claim: Claim, ps: set<Prepared>, p: Prepared, q: string, a: Allocation)
    requires p in ps && Contributes(w, claim, p, q, a)
    ensures FactOf(w.driver, p, q, a) in AllFacts(w.driver, claim, ps)
  {
    FactsForAre(w.driver, claim, p, q);
    assert a in Matching(w.driver, claim, p.device, q);
    assert FactOf(w.driver, p, q, a) in FactsFor(w.driver, claim, p, q);
    assert FactOf(w.driver, p, q, a) in FactsOf(w.driver, claim, p);
  }

  lemma FactIsGrouped(facts: set<Fact>, f: Fact)
    requires Consistent(facts) && f in facts
    ensures f.base in BasesOf(facts) && FullName(facts, f.base) == f.full
    ensures f.key in Group(facts, f.base) && Group(facts, f.base)[f.key] == f.content
  {
    var g :| g in facts && g.base == f.base && g.full == FullName(facts, f.base);
    assert Agree(g, f);
    var h :| h in facts && h.base == f.base && h.key == f.key && h.content == Group(facts, f.base)[f.key];
    assert Agree(h, f);
  }

  lemma AsksAreRefs(w: Writer, claim: Claim, p: Prepared, q: string, a: Allocation)
    requires ClaimAccepted(w.driver, claim) && DeviceAccepted(w, claim, p) && Contributes(w, claim, p, q, a)
    ensures RequestRef(q) && RequestRef(a.request) && Base(a.request) == Base(q) && Base(q) in Declared(claim)
  {
    assert AskAccepted(w.driver, claim, p, q);
    assert AllocationAccepted(claim, a);
    MatchingBase(q, p.device, a);
  }

  /** Every documented device is one of the results, allocated by this driver to that very request. */
  lemma EveryDeviceIsBacked(w: Writer, claim: Claim, ps: set<Prepared>, base: string, key: Key)
    requires Buildable(w, claim, ps)
    requires base in BasesOf(AllFacts(w.driver, claim, ps)) && key in Group(AllFacts(w.driver, claim, ps), base)
    ensures exists p, a :: p in ps && a in Local(w.driver, claim) && Backs(w, AllFacts(w.driver, claim, ps), base, key, p, a)
  {
    var facts := AllFacts(w.driver, claim, ps);
    var f :| f in facts && f.base == base && f.key == key;
    FactIsGrouped(facts, f);
    var p, q, a := FactMeans(w, claim, ps, f);
    AsksAreRefs(w, claim, p, q, a);
    assert Backs(w, facts, base, key, p, a);
  }

  /** The device is documented for the request it was allocated to, with its own attributes. */
  ghost predicate Documented(w: Writer, facts: set<Fact>, p: Prepared, a: Allocation)
    requires Consistent(facts)
  {
    && Base(a.request) in BasesOf(facts) && FullName(facts, Base(a.request)) == a.request
    && KeyOf(p.device) in Group(facts, Base(a.request))
    && Group(facts, Base(a.request))[KeyOf(p.device)] == ContentOf(w.driver, p)
  }

  /** No allocation of a prepared device is missed, when the driver named every request, that request or its base. */
  lemma NoAllocationIsMissed(w: Writer, claim: Claim, ps: set<Prepared>, p: Prepared, a: Allocation)
    requires Buildable(w, claim, ps) && p in ps && a in Local(w.driver, claim)
    requires a.pool == p.device.pool && a.device == p.device.device
    requires p.device.requests == [] || a.request in p.device.requests || Base(a.request) in p.device.requests
    ensures Documented(w, AllFacts(w.driver, claim, ps), p, a)
  {
    assert AllocationAccepted(claim, a);
    AllocationMatches(p.device, a);
    var q := if a.request in p.device.requests then a.request else Base(a.request);
    if p.device.requests == [] {
      var request := Find(claim.requests, Base(a.request)).value;
      assert request.name in Declared(claim);
    }
    FactMade(w, claim, ps, p, q, a);
    FactIsGrouped(AllFacts(w.driver, claim, ps), FactOf(w.driver, p, q, a));
    AsksAreRefs(w, claim, p, q, a);
  }

  // ----- Names that keep requests apart -----

  lemma DriverHasNoSlash(driver: string)
    requires Subdomain(driver, 63)
    ensures '/' !in driver
  {
    SubdomainChars(driver, 63);
  }

  /** A CDI identifier names one driver, one claim and one request. */
  lemma IdDecides(d: string, u: string, b: string, d2: string, u2: string, b2: string)
    requires Subdomain(d, 63) && Label(u, 64) && Subdomain(d2, 63) && Label(u2, 64)
    requires MetadataId(d, u, b) == MetadataId(d2, u2, b2)
    ensures d == d2 && u == u2 && b == b2
  {
    DriverHasNoSlash(d);
    DriverHasNoSlash(d2);
    LabelHasNoSeparator(u, 64);
    LabelHasNoSeparator(u2, 64);
    var x, x2 := u + ("_" + b), u2 + ("_" + b2);
    CutEqual(MetadataId(d, u, b), d, "metadata=" + x, d2, "metadata=" + x2, '/');
    DropEqual("metadata=" + x, "metadata=", x, x2);
    CutEqual(x, u, b, u2, b2, '_');
  }

  function MountName(claim: ClaimRef, podClaim: Option<string>): string
  {
    if podClaim.Some? then podClaim.value else claim.name
  }

  predicate Mountable(driver: string, claim: ClaimRef, podClaim: Option<string>, base: string)
  {
    && Subdomain(driver, 63) && Subdomain(claim.name, 253) && Label(base, 63)
    && (podClaim.Some? ==> Label(podClaim.value, 63))
  }

  lemma SubdomainHasNoSlash(s: string, limit: nat)
    requires Subdomain(s, limit)
    ensures '/' !in s
  {
    SubdomainChars(s, limit);
  }

  lemma TailFields(root: string, name: string, base: string, driver: string, name2: string, base2: string, driver2: string)
    requires '/' !in name && '/' !in name2 && '/' !in base && '/' !in base2
    requires root + (name + ("/" + (base + ("/" + (driver + "-metadata.json")))))
          == root + (name2 + ("/" + (base2 + ("/" + (driver2 + "-metadata.json")))))
    ensures name == name2 && base == base2 && driver == driver2
  {
    var y, y2 := driver + "-metadata.json", driver2 + "-metadata.json";
    var x, x2 := base + ("/" + y), base2 + ("/" + y2);
    var z, z2 := name + ("/" + x), name2 + ("/" + x2);
    DropEqual(root + z, root, z, z2);
    CutEqual(z, name, x, name2, x2, '/');
    CutEqual(x, base, y, base2, y2, '/');
    assert driver == y[..|y| - |"-metadata.json"|] && driver2 == y2[..|y2| - |"-metadata.json"|];
  }

  /** In one pod, two documents never mount over each other, whichever claims, requests or drivers they describe. */
  lemma MountDecides(d: string, c: ClaimRef, p: Option<string>, b: string, d2: string, c2: ClaimRef, p2: Option<string>, b2: string)
    requires Mountable(d, c, p, b) && Mountable(d2, c2, p2, b2)
    requires ContainerPath(d, c, p, b) == ContainerPath(d2, c2, p2, b2)
    ensures d == d2 && b == b2 && (p.Some? <==> p2.Some?) && MountName(c, p) == MountName(c2, p2)
  {
    SubdomainHasNoSlash(c.name, 253);
    SubdomainHasNoSlash(c2.name, 253);
    var n, n2 := MountName(c, p), MountName(c2, p2);
    var t := n + ("/" + (b + ("/" + (d + "-metadata.json"))));
    var t2 := n2 + ("/" + (b2 + ("/" + (d2 + "-metadata.json"))));
    var r := if p.Some? then "/resourceclaimtemplates/" else "/resourceclaims/";
    var r2 := if p2.Some? then "/resourceclaimtemplates/" else "/resourceclaims/";
    DropEqual(ContainerPath(d, c, p, b), CONTAINER_ROOT, r + t, r2 + t2);
    assert (r + t)[14] == r[14] && (r2 + t2)[14] == r2[14];
    TailFields(r, n, b, d, n2, b2, d2);
  }

  // ----- The plan as a whole -----

  lemma BaseIsLabel(w: Writer, claim: Claim, ps: set<Prepared>, base: string)
    requires Buildable(w, claim, ps) && base in BasesOf(AllFacts(w.driver, claim, ps))
    ensures Label(base, 63)
  {
    var f :| f in AllFacts(w.driver, claim, ps) && f.base == base;
    var p, q, a := FactMeans(w, claim, ps, f);
    AsksAreRefs(w, claim, p, q, a);
    RefForm(q);
  }

  /** A plan is one its store accepts: documents and specs for the same labels. */
  lemma PlanIsValid(w: Writer, claim: Claim, prepared: seq<Prepared>, plan: Plan)
    requires Buildable(w, claim, Elements(prepared)) && IsPlan(w, claim, prepared, plan)
    ensures ValidPlan(plan) && plan.documents.Keys == plan.specs.Keys
  {
    var facts := AllFacts(w.driver, claim, Elements(prepared));
    forall b | b in plan.documents
      ensures Label(b, 63)
    {
      BaseIsLabel(w, claim, Elements(prepared), b);
    }
  }

  /** This entry, and no other metadata entry, answers the request and carries its CDI identifier. */
  ghost predicate OnlySelector(entries: seq<PreparedDevice>, i: nat, base: string, id: string)
    requires i < |entries|
  {
    && entries[i].requests == [base] && entries[i].cdi == [id]
    && forall j :: 0 <= j < |entries| && j != i ==> base !in entries[j].requests && id !in entries[j].cdi
  }

  lemma OthersSelectOthers(w: Writer, claim: Claim, facts: set<Fact>, entries: seq<PreparedDevice>, i: nat, j: nat, base: string)
    requires Subdomain(w.driver, 63) && Label(claim.identity.uid, 64) && Consistent(facts) && IsEntries(w, claim, facts, entries)
    requires i < |entries| && j < |entries| && i != j && entries[i].requests == [base]
    ensures base !in entries[j].requests && MetadataId(w.driver, claim.identity.uid, base) !in entries[j].cdi
  {
    var other := entries[j];
    assert SelectsDocument(w, claim, facts, other);
    assert RequestsKey(entries[i]) != RequestsKey(other);
    assert other.requests == [other.requests[0]];
    if MetadataId(w.driver, claim.identity.uid, base) == MetadataId(w.driver, claim.identity.uid, other.requests[0]) {
      IdDecides(w.driver, claim.identity.uid, base, w.driver, claim.identity.uid, other.requests[0]);
    }
  }

  /** Each documented request selects exactly its own metadata entry. */
  lemma RequestSelectsItsOwn(w: Writer, claim: Claim, facts: set<Fact>, entries: seq<PreparedDevice>, base: string)
    requires Subdomain(w.driver, 63) && Label(claim.identity.uid, 64) && Consistent(facts) && IsEntries(w, claim, facts, entries)
    requires base in BasesOf(facts)
    ensures exists i: nat :: i < |entries| && OnlySelector(entries, i, base, MetadataId(w.driver, claim.identity.uid, base))
  {
    assert Selects(entries, base);
    var d :| d in entries && d.requests == [base];
    var i: nat :| i < |entries| && entries[i] == d;
    assert SelectsDocument(w, claim, facts, d);
    forall j | 0 <= j < |entries| && j != i
      ensures base !in entries[j].requests && MetadataId(w.driver, claim.identity.uid, base) !in entries[j].cdi
    {
      OthersSelectOthers(w, claim, facts, entries, i, j, base);
    }
    assert OnlySelector(entries, i, base, MetadataId(w.driver, claim.identity.uid, base));
  }

  // ----- Order -----

  lemma OneEntryForEach(w: Writer, claim: Claim, facts: set<Fact>, d: PreparedDevice, e: PreparedDevice)
    requires Consistent(facts) && SelectsDocument(w, claim, facts, d) && SelectsDocument(w, claim, facts, e)
    requires d.requests == e.requests
    ensures d == e
  {
    KeyLeqAntisymmetric([d.pool, d.device], [e.pool, e.device]);
    assert [d.pool, d.device][0] == [e.pool, e.device][0] && [d.pool, d.device][1] == [e.pool, e.device][1];
  }

  lemma EntriesInclude(w: Writer, claim: Claim, facts: set<Fact>, a: seq<PreparedDevice>, b: seq<PreparedDevice>, d: PreparedDevice)
    requires Consistent(facts) && IsEntries(w, claim, facts, a) && IsEntries(w, claim, facts, b) && d in a
    ensures d in b
  {
    assert SelectsDocument(w, claim, facts, d);
    assert Selects(b, d.requests[0]);
    var e :| e in b && e.requests == [d.requests[0]];
    assert SelectsDocument(w, claim, facts, e);
    OneEntryForEach(w, claim, facts, d, e);
  }

  /** The same results in any order, however often repeated: the same artifacts and the same metadata entries. */
  lemma OrderIsNotSeen(w: Writer, claim: Claim, a: seq<Prepared>, b: seq<Prepared>, planA: Plan, planB: Plan)
    requires Elements(a) == Elements(b) && Consistent(AllFacts(w.driver, claim, Elements(a)))
    requires IsPlan(w, claim, a, planA) && IsPlan(w, claim, b, planB)
    ensures planA.claim == planB.claim && planA.documents == planB.documents && planA.specs == planB.specs
    ensures planA.devices[|a|..] == planB.devices[|b|..]
  {
    var facts := AllFacts(w.driver, claim, Elements(a));
    var x, y := planA.devices[|a|..], planB.devices[|b|..];
    forall d
      ensures d in x <==> d in y
    {
      if d in x {
        EntriesInclude(w, claim, facts, x, y, d);
      }
      if d in y {
        EntriesInclude(w, claim, facts, y, x, d);
      }
    }
    SameElementsSameList(x, y, RequestsKey);
  }
}
