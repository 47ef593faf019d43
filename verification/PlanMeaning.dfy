/**
 * What a plan says and where it ends up, field by field: each document lists
 * exactly the prepared devices allocated to its request, each CDI spec mounts
 * the very file the store publishes, and each request finds its spec.
 */
module PlanMeaning {
  import opened Wrappers
  import opened Names
  import opened Artifacts
  import opened Disk
  import opened Sorting
  import opened ClaimFiles
  import opened Persist
  import opened MetadataFacts
  import opened MetadataPlan
  import opened PlanLaws

  // ----- Which devices serve which requests -----

  /** `request`, or one of its subrequests. */
  predicate Under(request: string, full: string)
  {
    full == request || request + "/" <= full
  }

  /** The driver named the request, its base, or every request. */
  predicate Named(requests: seq<string>, full: string)
  {
    requests == [] || exists q :: q in requests && Under(q, full)
  }

  /** The prepared device is the one allocated by this driver, to a request it was prepared for. */
  predicate Serves(driver: string, claim: Claim, p: Prepared, a: Allocation)
  {
    && a in claim.allocations && a.driver == driver && a.pool == p.device.pool && a.device == p.device.device
    && Named(p.device.requests, a.request)
  }

  lemma PrefixHasSlash(s: string, q: string)
    ensures q + "/" <= s ==> |q| < |s| && s[|q|] == '/' && '/' in s
  {
    if q + "/" <= s {
      assert s[|q|] == (q + "/")[|q|];
    }
  }

  lemma SlashOnce(s: string, base: string, rest: string, q: string)
    requires s == base + ("/" + rest) && '/' !in base && '/' !in rest && q + "/" <= s
    ensures q == base
  {
    forall i | 0 <= i < |s| && i != |base|
      ensures s[i] != '/'
    {
      assert s[i] == if i < |base| then base[i] else rest[i - |base| - 1];
    }
    PrefixHasSlash(s, q);
    assert q == s[..|q|] && base == s[..|base|];
  }

  lemma LabelHasNoSlash(s: string, limit: nat)
    requires Label(s, limit)
    ensures '/' !in s
  {
  }

  /** A reference lies under its base and, beside itself, under nothing else. */
  lemma UnderItsBase(full: string, q: string)
    requires RequestRef(full)
    ensures Label(Base(full), 63) && Under(Base(full), full)
    ensures Under(q, full) && q != full ==> q == Base(full)
    ensures '/' !in q && Under(q, full) ==> q == Base(full)
  {
    RefForm(full);
    LabelHasNoSlash(Base(full), 63);
    PrefixHasSlash(full, q);
    if SplitOnce(full, '/').Some? {
      var rest := SplitOnce(full, '/').value.1;
      LabelHasNoSlash(rest, 63);
      assert full == (Base(full) + "/") + rest;
      if q + "/" <= full {
        SlashOnce(full, Base(full), rest, q);
      }
    }
  }

  lemma BaseOfBase(full: string)
    requires RequestRef(full)
    ensures Base(Base(full)) == Base(full)
  {
    RefForm(full);
    LabelHasNoSlash(Base(full), 63);
    SplitFirst(Base(full), '/');
  }

  /** What the plan gathers for a device is what the device serves. */
  lemma ServesContributes(w: Writer, claim: Claim, p: Prepared, a: Allocation) returns (q: string)
    requires ClaimAccepted(w.driver, claim) && Serves(w.driver, claim, p, a)
    ensures Contributes(w, claim, p, q, a) && Base(q) == Base(a.request)
  {
    assert a in Local(w.driver, claim) && AllocationAccepted(claim, a);
    AllocationMatches(p.device, a);
    BaseOfBase(a.request);
    q := Base(a.request);
    if p.device.requests == [] {
      assert Find(claim.requests, q).value.name in Declared(claim);
    } else {
      q :| q in p.device.requests && Under(q, a.request);
      UnderItsBase(a.request, q);
    }
  }

  lemma ContributesServes(w: Writer, claim: Claim, p: Prepared, q: string, a: Allocation)
    requires Contributes(w, claim, p, q, a)
    ensures Serves(w.driver, claim, p, a)
  {
    if p.device.requests != [] {
      assert q in p.device.requests;
      assert a.request == q || q + "/" <= a.request;
    }
  }

  // ----- What a document says -----

  predicate Shown(driver: string, p: Prepared, a: Allocation, c: MetadataFacts.Content)
  {
    c.attributes == p.attributes && c.driver == driver && c.name == a.device && c.pool == a.pool
  }

  predicate Lists(driver: string, doc: Document, p: Prepared, a: Allocation)
  {
    && a.request == doc.request
    && [a.pool, a.device] in doc.devices && Shown(driver, p, a, doc.devices[[a.pool, a.device]])
  }

  ghost predicate Accounted(driver: string, claim: Claim, ps: set<Prepared>, doc: Document, k: Key)
  {
    exists p, a :: p in ps && Serves(driver, claim, p, a) && a.request == doc.request && k == [a.pool, a.device]
  }

  /** The claim, the request as allocated, and exactly the devices prepared for it. */
  ghost predicate Describes(driver: string, claim: Claim, ps: set<Prepared>, base: string, doc: Document)
  {
    && doc.claim == claim.identity && doc.podClaim == claim.podClaim && Under(base, doc.request)
    && (forall p, a {:trigger Serves(driver, claim, p, a)} ::
          p in ps && Serves(driver, claim, p, a) && Under(base, a.request) ==> Lists(driver, doc, p, a))
    && (forall k {:trigger Accounted(driver, claim, ps, doc, k)} :: k in doc.devices ==> Accounted(driver, claim, ps, doc, k))
  }

  lemma ServedIsListed(w: Writer, claim: Claim, ps: set<Prepared>, base: string, p: Prepared, a: Allocation)
    requires Buildable(w, claim, ps) && p in ps && Serves(w.driver, claim, p, a) && base == Base(a.request)
    ensures base in BasesOf(AllFacts(w.driver, claim, ps))
    ensures Lists(w.driver, DocumentFor(claim, AllFacts(w.driver, claim, ps), base), p, a)
  {
    var q := ServesContributes(w, claim, p, a);
    FactMade(w, claim, ps, p, q, a);
    FactIsGrouped(AllFacts(w.driver, claim, ps), FactOf(w.driver, p, q, a));
  }

  lemma ListedIsServed(w: Writer, claim: Claim, ps: set<Prepared>, base: string, k: Key)
    requires Buildable(w, claim, ps) && base in BasesOf(AllFacts(w.driver, claim, ps))
    requires k in Group(AllFacts(w.driver, claim, ps), base)
    ensures Accounted(w.driver, claim, ps, DocumentFor(claim, AllFacts(w.driver, claim, ps), base), k)
  {
    var facts := AllFacts(w.driver, claim, ps);
    var f :| f in facts && f.base == base && f.key == k;
    FactIsGrouped(facts, f);
    var p, q, a := FactMeans(w, claim, ps, f);
    ContributesServes(w, claim, p, q, a);
  }

  /** A documented request has a device serving it. */
  lemma BaseIsServed(w: Writer, claim: Claim, ps: set<Prepared>, base: string) returns (p: Prepared, a: Allocation)
    requires Buildable(w, claim, ps) && base in BasesOf(AllFacts(w.driver, claim, ps))
    ensures p in ps && Serves(w.driver, claim, p, a) && base == Base(a.request) && RequestRef(a.request)
    ensures FullName(AllFacts(w.driver, claim, ps), base) == a.request
  {
    var facts := AllFacts(w.driver, claim, ps);
    var f :| f in facts && f.base == base;
    FactIsGrouped(facts, f);
    var q;
    p, q, a := FactMeans(w, claim, ps, f);
    AsksAreRefs(w, claim, p, q, a);
    ContributesServes(w, claim, p, q, a);
  }

  lemma DocumentDescribes(w: Writer, claim: Claim, ps: set<Prepared>, base: string)
    requires Buildable(w, claim, ps) && base in BasesOf(AllFacts(w.driver, claim, ps))
    ensures Describes(w.driver, claim, ps, base, DocumentFor(claim, AllFacts(w.driver, claim, ps), base))
  {
    var doc := DocumentFor(claim, AllFacts(w.driver, claim, ps), base);
    var p0, a0 := BaseIsServed(w, claim, ps, base);
    UnderItsBase(a0.request, base);
    forall p, a | p in ps && Serves(w.driver, claim, p, a) && Under(base, a.request)
      ensures Lists(w.driver, doc, p, a)
    {
      assert a in Local(w.driver, claim) && AllocationAccepted(claim, a);
      LabelHasNoSlash(base, 63);
      UnderItsBase(a.request, base);
      ServedIsListed(w, claim, ps, base, p, a);
    }
    forall k | k in doc.devices
      ensures Accounted(w.driver, claim, ps, doc, k)
    {
      ListedIsServed(w, claim, ps, base, k);
    }
  }

  // ----- What a spec mounts -----

  predicate PartsOf(tail: string, driver: string, claim: ClaimRef, podClaim: Option<string>, base: string)
  {
    Split(tail, '/') ==
    ["", if podClaim.Some? then "resourceclaimtemplates" else "resourceclaims",
     if podClaim.Some? then podClaim.value else claim.name, base, driver + "-metadata.json"]
  }

  /** Where containers look for a request's document: below one directory, part by part. */
  ghost predicate LooksAt(container: string, driver: string, claim: ClaimRef, podClaim: Option<string>, base: string)
  {
    exists tail ::
      container == CONTAINER_ROOT + tail && PartsOf(tail, driver, claim, podClaim, base)
  }

  /** From the file the store publishes for the request to where its containers look for it. */
  ghost predicate Mounts(w: Writer, claim: Claim, root: string, base: string, spec: Spec)
  {
    && spec.host == [w.host] + PathBelow(DocumentPlace(root, claim.identity.uid, base))
    && LooksAt(spec.container, w.driver, claim.identity, claim.podClaim, base)
  }

  lemma TailParts(kind: string, name: string, base: string, file: string)
    requires '/' !in kind && '/' !in name && '/' !in base && '/' !in file
    ensures Split(kind + ("/" + (name + ("/" + (base + ("/" + file))))), '/') == [kind, name, base, file]
  {
    SplitWhole(file, '/');
    SplitAt(base, file, '/');
    var x := base + ("/" + file);
    SplitAt(name, x, '/');
    SplitAt(kind, name + ("/" + x), '/');
  }

  lemma TemplateStart(t: string)
    ensures "/resourceclaimtemplates/" + t == "" + ("/" + ("resourceclaimtemplates" + ("/" + t)))
  {
    assert "/resourceclaimtemplates/" == "/" + ("resourceclaimtemplates" + "/");
  }

  lemma ClaimStart(t: string)
    ensures "/resourceclaims/" + t == "" + ("/" + ("resourceclaims" + ("/" + t)))
  {
    assert "/resourceclaims/" == "/" + ("resourceclaims" + "/");
  }

  lemma LooksBelow(container: string, root: string, tail: string, driver: string, claim: ClaimRef, podClaim: Option<string>, base: string)
    requires container == root + tail && root == CONTAINER_ROOT && PartsOf(tail, driver, claim, podClaim, base)
    ensures LooksAt(container, driver, claim, podClaim, base)
  {
  }

  lemma ContainerParts(driver: string, claim: ClaimRef, podClaim: Option<string>, base: string)
    requires '/' !in driver && '/' !in claim.name && '/' !in base && (podClaim.Some? ==> '/' !in podClaim.value)
    ensures LooksAt(ContainerPath(driver, claim, podClaim, base), driver, claim, podClaim, base)
  {
    var kind := if podClaim.Some? then "resourceclaimtemplates" else "resourceclaims";
    var name := if podClaim.Some? then podClaim.value else claim.name;
    var t := name + ("/" + (base + ("/" + (driver + "-metadata.json"))));
    TailParts(kind, name, base, driver + "-metadata.json");
    SplitAt("", kind + ("/" + t), '/');
    TemplateStart(t);
    ClaimStart(t);
    var tail := "" + ("/" + (kind + ("/" + t)));
    assert PartsOf(tail, driver, claim, podClaim, base);
    LooksBelow(ContainerPath(driver, claim, podClaim, base), CONTAINER_ROOT, tail, driver, claim, podClaim, base);
  }

  lemma SpecMounts(w: Writer, claim: Claim, root: string, base: string)
    requires Subdomain(w.driver, 63) && IdentityAccepted(claim.identity) && Label(base, 63)
    requires claim.podClaim.Some? ==> Label(claim.podClaim.value, 63)
    ensures Mounts(w, claim, root, base, SpecFor(w, claim, base))
  {
    PathsBelow(root, w.driver, claim.identity.uid, base);
    DriverHasNoSlash(w.driver);
    SubdomainHasNoSlash(claim.identity.name, 253);
    ContainerParts(w.driver, claim.identity, claim.podClaim, base);
  }

  // ----- The plan -----

  /** The request's entry names the spec's device, and stands under the first of its own devices. */
  predicate Selecting(d: PreparedDevice, base: string, doc: Document, spec: Spec)
  {
    && d.requests == [base] && d.cdi == [spec.kind + "=" + spec.name]
    && [d.pool, d.device] in doc.devices && forall k :: k in doc.devices ==> KeyLeq([d.pool, d.device], k)
  }

  ghost predicate PlannedAs(w: Writer, claim: Claim, root: string, prepared: seq<Prepared>, plan: Plan, base: string, doc: Document, spec: Spec)
    requires |prepared| <= |plan.devices| && base in plan.documents && base in plan.specs
  {
    && plan.documents[base] == w.document(doc) && Describes(w.driver, claim, Elements(prepared), base, doc)
    && plan.specs[base] == w.spec(spec) && Mounts(w, claim, root, base, spec)
    && exists i: nat :: |prepared| <= i < |plan.devices| && Selecting(plan.devices[i], base, doc, spec)
  }

  /** A document, a spec and an entry for the request. */
  ghost predicate PlannedIn(w: Writer, claim: Claim, root: string, prepared: seq<Prepared>, plan: Plan, base: string)
  {
    && |prepared| <= |plan.devices| && base in plan.documents && base in plan.specs
    && exists doc, spec :: PlannedAs(w, claim, root, prepared, plan, base, doc, spec)
  }

  /** Some prepared device serves the request. */
  ghost predicate Served(driver: string, claim: Claim, ps: set<Prepared>, base: string)
  {
    Label(base, 63) && exists p, a :: p in ps && Serves(driver, claim, p, a) && Under(base, a.request)
  }

  /** What kubelet is told of a prepared device: its subrequests give way to their requests, nothing else changes. */
  ghost predicate Handed(d: PreparedDevice, out: PreparedDevice)
  {
    && out.pool == d.pool && out.device == d.device && out.cdi == d.cdi
    && Sorted(out.requests, TextKey) && DistinctKeys(out.requests, TextKey)
    && (forall n :: n in out.requests ==> '/' !in n && exists q :: q in d.requests && Under(n, q))
    && forall q :: q in d.requests ==> exists n :: n in out.requests && Under(n, q)
  }

  lemma PhysicalIsHanded(d: PreparedDevice, out: PreparedDevice)
    requires Physical(d, out) && forall q :: q in d.requests ==> RequestRef(q)
    ensures Handed(d, out)
  {
    forall q | q in d.requests
      ensures Under(Base(q), q) && '/' !in Base(q) && Base(q) in out.requests
    {
      UnderItsBase(q, q);
      LabelHasNoSlash(Base(q), 63);
    }
  }

  lemma AllHanded(w: Writer, claim: Claim, prepared: seq<Prepared>, out: seq<PreparedDevice>, i: nat)
    requires Buildable(w, claim, Elements(prepared)) && AllPhysical(prepared, out) && i < |prepared|
    ensures Handed(prepared[i].device, out[i])
  {
    var p := prepared[i];
    assert p in Elements(prepared) && Physical(p.device, out[i]);
    forall q | q in p.device.requests
      ensures RequestRef(q)
    {
      assert AskAccepted(w.driver, claim, p, q);
    }
    PhysicalIsHanded(p.device, out[i]);
  }

  ghost predicate HandedOn(prepared: seq<Prepared>, out: seq<PreparedDevice>)
  {
    |prepared| <= |out| && forall i {:trigger out[i]} {:trigger prepared[i]} :: 0 <= i < |prepared| ==> Handed(prepared[i].device, out[i])
  }

  /** Every device is handed on; exactly the requests served are documented, and each finds its document and spec. */
  ghost predicate Means(w: Writer, claim: Claim, root: string, prepared: seq<Prepared>, plan: Plan)
  {
    && plan.claim == claim.identity && plan.specs.Keys == plan.documents.Keys && HandedOn(prepared, plan.devices)
    && (forall b {:trigger Served(w.driver, claim, Elements(prepared), b)} :: b in plan.documents <==> Served(w.driver, claim, Elements(prepared), b))
    && forall b {:trigger PlannedIn(w, claim, root, prepared, plan, b)} :: b in plan.documents ==> PlannedIn(w, claim, root, prepared, plan, b)
  }

  lemma HasSelecting(w: Writer, claim: Claim, facts: set<Fact>, entries: seq<PreparedDevice>, base: string) returns (i: nat)
    requires Consistent(facts) && IsEntries(w, claim, facts, entries) && base in BasesOf(facts)
    ensures i < |entries| && Selecting(entries[i], base, DocumentFor(claim, facts, base), SpecFor(w, claim, base))
  {
    assert Selects(entries, base);
    var d :| d in entries && d.requests == [base];
    assert SelectsDocument(w, claim, facts, d);
    i :| 0 <= i < |entries| && entries[i] == d;
    IdIsKindAndName(w.driver, claim.identity.uid, base);
  }

  lemma PlannedAsSaid(w: Writer, claim: Claim, root: string, prepared: seq<Prepared>, plan: Plan, facts: set<Fact>, base: string)
    requires Subdomain(w.driver, 63) && Buildable(w, claim, Elements(prepared))
    requires facts == AllFacts(w.driver, claim, Elements(prepared)) && |prepared| <= |plan.devices|
    requires IsEntries(w, claim, facts, plan.devices[|prepared|..]) && base in BasesOf(facts)
    requires base in plan.documents && plan.documents[base] == w.document(DocumentFor(claim, facts, base))
    requires base in plan.specs && plan.specs[base] == w.spec(SpecFor(w, claim, base))
    ensures PlannedIn(w, claim, root, prepared, plan, base)
  {
    var doc, spec := DocumentFor(claim, facts, base), SpecFor(w, claim, base);
    BaseIsLabel(w, claim, Elements(prepared), base);
    DocumentDescribes(w, claim, Elements(prepared), base);
    SpecMounts(w, claim, root, base);
    var i := HasSelecting(w, claim, facts, plan.devices[|prepared|..], base);
    assert Selecting(plan.devices[|prepared| + i], base, doc, spec);
    assert PlannedAs(w, claim, root, prepared, plan, base, doc, spec);
  }

  lemma IdIsKindAndName(driver: string, uid: string, base: string)
    ensures MetadataId(driver, uid, base) == (driver + "/metadata") + "=" + (uid + "_" + base)
  {
  }

  lemma PlannedIsServed(w: Writer, claim: Claim, ps: set<Prepared>, base: string)
    requires Buildable(w, claim, ps)
    ensures base in BasesOf(AllFacts(w.driver, claim, ps)) <==> Served(w.driver, claim, ps, base)
  {
    if base in BasesOf(AllFacts(w.driver, claim, ps)) {
      BaseIsLabel(w, claim, ps, base);
      var p, a := BaseIsServed(w, claim, ps, base);
      UnderItsBase(a.request, base);
    }
    if Served(w.driver, claim, ps, base) {
      var p, a :| p in ps && Serves(w.driver, claim, p, a) && Under(base, a.request);
      assert a in Local(w.driver, claim) && AllocationAccepted(claim, a);
      LabelHasNoSlash(base, 63);
      UnderItsBase(a.request, base);
      ServedIsListed(w, claim, ps, base, p, a);
    }
  }

  ghost predicate HoldsTexts(w: Writer, claim: Claim, facts: set<Fact>, plan: Plan)
    requires Consistent(facts)
  {
    && plan.documents.Keys == BasesOf(facts) == plan.specs.Keys
    && (forall b :: b in BasesOf(facts) ==> plan.documents[b] == w.document(DocumentFor(claim, facts, b)))
    && forall b :: b in BasesOf(facts) ==> plan.specs[b] == w.spec(SpecFor(w, claim, b))
  }

  lemma TextsOf(w: Writer, claim: Claim, facts: set<Fact>, plan: Plan)
    requires Consistent(facts) && plan.documents == DocumentsOf(w, claim, facts) && plan.specs == SpecsOf(w, claim, facts)
    ensures HoldsTexts(w, claim, facts, plan)
  {
  }

  lemma TextsMean(w: Writer, claim: Claim, root: string, prepared: seq<Prepared>, plan: Plan, facts: set<Fact>)
    requires Subdomain(w.driver, 63) && Buildable(w, claim, Elements(prepared)) && plan.claim == claim.identity
    requires facts == AllFacts(w.driver, claim, Elements(prepared)) && HandedOn(prepared, plan.devices)
    requires IsEntries(w, claim, facts, plan.devices[|prepared|..]) && HoldsTexts(w, claim, facts, plan)
    ensures Means(w, claim, root, prepared, plan)
  {
    forall b
      ensures b in plan.documents <==> Served(w.driver, claim, Elements(prepared), b)
    {
      PlannedIsServed(w, claim, Elements(prepared), b);
    }
    forall b | b in plan.documents
      ensures PlannedIn(w, claim, root, prepared, plan, b)
    {
      PlannedAsSaid(w, claim, root, prepared, plan, facts, b);
    }
  }

  /** What is planned, said of the results and the claim alone. */
  lemma PlanMeans(w: Writer, claim: Claim, root: string, prepared: seq<Prepared>, plan: Plan)
    requires Subdomain(w.driver, 63) && Buildable(w, claim, Elements(prepared)) && IsPlan(w, claim, prepared, plan)
    ensures Means(w, claim, root, prepared, plan)
  {
    var facts := AllFacts(w.driver, claim, Elements(prepared));
    TextsOf(w, claim, facts, plan);
    forall i | 0 <= i < |prepared|
      ensures Handed(prepared[i].device, plan.devices[i])
    {
      AllHanded(w, claim, prepared, plan.devices, i);
    }
    TextsMean(w, claim, root, prepared, plan, facts);
  }

  // ----- On disk -----

  predicate FileHolds(t: Tree, place: Place, text: string)
  {
    File(place, None) in t.files && t.files[File(place, None)] == Bytes(text)
  }

  /** The documents, specs and journal of the plan are each where they belong. */
  ghost predicate OnDisk(t: Tree, r: Runtime, plan: Plan)
  {
    && (forall b :: b in plan.documents ==> FileHolds(t, DocumentPlace(r.root, plan.claim.uid, b), plan.documents[b]))
    && (forall b :: b in plan.specs ==> FileHolds(t, SpecPlace(r.driver, plan.claim.uid, b), plan.specs[b]))
    && FileHolds(t, JournalPlace(r.root, plan.claim.uid),
                 r.encode(Journal(plan.claim, plan.devices, plan.documents, r.driver, 1, plan.specs)))
  }

  /** The claim's files on disk say what the results mean, and kubelet is told the planned devices. */
  ghost predicate Readable(t: Tree, w: Writer, r: Runtime, claim: Claim, prepared: seq<Prepared>, devices: seq<PreparedDevice>)
  {
    exists plan :: Means(w, claim, r.root, prepared, plan) && OnDisk(t, r, plan) && devices == plan.devices
  }

  /** So every mount has its source: the file a published spec names is there, with the document it is for. */
  lemma PublishedIsOnDisk(t: Tree, r: Runtime, plan: Plan)
    requires WellFormed(r, plan.claim.uid, JournalOf(r, plan)) && Published(t, r, JournalOf(r, plan))
    ensures OnDisk(t, r, plan)
  {
    var j := JournalOf(r, plan);
    forall b | b in plan.documents
      ensures FileHolds(t, DocumentPlace(r.root, plan.claim.uid, b), plan.documents[b])
    {
      PublishedExactly(t, r, j, File(DocumentPlace(r.root, plan.claim.uid, b), None));
    }
    forall b | b in plan.specs
      ensures FileHolds(t, SpecPlace(r.driver, plan.claim.uid, b), plan.specs[b])
    {
      PublishedExactly(t, r, j, File(SpecPlace(r.driver, plan.claim.uid, b), None));
    }
    PublishedExactly(t, r, j, File(JournalPlace(r.root, plan.claim.uid), None));
  }
}
