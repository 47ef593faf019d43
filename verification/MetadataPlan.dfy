/**
 * Planning a claim's container metadata: one document and one CDI spec for
 * each request, from whatever a driver says it prepared. What is planned is
 * decided by the set of results alone.
 */
module MetadataPlan {
  import opened Wrappers
  import opened Names
  import opened Artifacts
  import opened Sorting
  import opened ClaimFiles
  import opened Persist
  import opened MetadataFacts

  const CONTAINER_ROOT := "/var/run/kubernetes.io/dra-device-attributes"

  // ----- Checks on the claim -----

  method CheckAllocations(driver: string, claim: Claim) returns (error: Option<Error>)
    ensures error.None? <==> forall a :: a in Local(driver, claim) ==> AllocationAccepted(claim, a)
  {
    var local := Local(driver, claim);
    for i := 0 to |local|
      invariant forall j :: 0 <= j < i ==> AllocationAccepted(claim, local[j])
    {
      var allocation := local[i];
      assert allocation in local;
      if !RequestRef(allocation.request) {
        return Some(RequestReference);
      }
      var request := Find(claim.requests, Base(allocation.request));
      if request.None? {
        return Some(UndeclaredAllocation);
      }
      var cut := SplitOnce(allocation.request, '/');
      if cut.Some? && !Offers(request.value, cut.value.1) {
        return Some(UndeclaredSubrequest);
      }
    }
    error := None;
  }

  method CheckClaim(driver: string, claim: Claim) returns (error: Option<Error>)
    ensures error.None? <==> ClaimAccepted(driver, claim)
  {
    if !IdentityAccepted(claim.identity) {
      return Some(ClaimIdentity);
    }
    if claim.podClaim.Some? && !Label(claim.podClaim.value, 63) {
      return Some(PodClaimName);
    }
    if exists r :: r in claim.requests && !Label(r.name, 63) {
      return Some(RequestName);
    }
    error := CheckAllocations(driver, claim);
    if error.Some? {
      return;
    }
    if exists a :: a in Local(driver, claim) && a.share.Some? {
      return Some(SharedDevice);
    }
  }

  // ----- One prepared device -----

  /** The device as kubelet hears of it: subrequests stripped, names deduplicated and in order. */
  ghost predicate Physical(d: PreparedDevice, out: PreparedDevice)
  {
    && out.pool == d.pool && out.device == d.device && out.cdi == d.cdi
    && (d.requests == [] ==> out.requests == [])
    && Sorted(out.requests, TextKey) && DistinctKeys(out.requests, TextKey)
    && forall n :: n in out.requests <==> exists q :: q in d.requests && Base(q) == n
  }

  function FactsIn(driver: string, claim: Claim, p: Prepared, asked: seq<string>): set<Fact>
  {
    if asked == [] then {}
    else FactsIn(driver, claim, p, asked[..|asked| - 1]) + FactsFor(driver, claim, p, asked[|asked| - 1])
  }

  /** The bases of the requests something is allocated to. */
  function FoundBases(driver: string, claim: Claim, p: Prepared, asked: seq<string>): set<string>
  {
    if asked == [] then {}
    else
      var q := asked[|asked| - 1];
      FoundBases(driver, claim, p, asked[..|asked| - 1]) + if FactsFor(driver, claim, p, q) != {} then {Base(q)} else {}
  }

  lemma {:induction false} FactInIs(driver: string, claim: Claim, p: Prepared, asked: seq<string>, f: Fact)
    ensures f in FactsIn(driver, claim, p, asked) <==> exists q :: q in asked && f in FactsFor(driver, claim, p, q)
  {
    if asked != [] {
      var n := |asked| - 1;
      FactInIs(driver, claim, p, asked[..n], f);
      assert asked == asked[..n] + [asked[n]];
    }
  }

  lemma {:induction false} FoundBaseIs(driver: string, claim: Claim, p: Prepared, asked: seq<string>, base: string)
    ensures base in FoundBases(driver, claim, p, asked) <==> exists q :: q in asked && FactsFor(driver, claim, p, q) != {} && Base(q) == base
  {
    if asked != [] {
      var n := |asked| - 1;
      FoundBaseIs(driver, claim, p, asked[..n], base);
      assert asked == asked[..n] + [asked[n]];
    }
  }

  lemma MoreAsked(driver: string, claim: Claim, p: Prepared, asked: seq<string>, i: nat)
    requires i < |asked|
    ensures FactsIn(driver, claim, p, asked[..i + 1]) == FactsIn(driver, claim, p, asked[..i]) + FactsFor(driver, claim, p, asked[i])
    ensures FactsIn(driver, claim, p, asked[..i + 1]) <= FactsIn(driver, claim, p, asked)
    ensures FoundBases(driver, claim, p, asked[..i + 1])
         == FoundBases(driver, claim, p, asked[..i]) + if FactsFor(driver, claim, p, asked[i]) != {} then {Base(asked[i])} else {}
  {
    assert asked[..i + 1][..i] == asked[..i];
    forall f | f in FactsIn(driver, claim, p, asked[..i + 1])
      ensures f in FactsIn(driver, claim, p, asked)
    {
      FactInIs(driver, claim, p, asked[..i + 1], f);
      FactInIs(driver, claim, p, asked, f);
    }
  }

  /** One request a device answers; refused where it is unknown, unallocated or contradicted. */
  method Answer(driver: string, claim: Claim, p: Prepared, q: string, g: Gathered, ghost facts: set<Fact>)
    returns (r: Result<Gathered, Error>, found: bool)
    requires Gathers(facts, g) && ClaimAccepted(driver, claim)
    ensures r.Ok? <==> AskAccepted(driver, claim, p, q) && Consistent(facts + FactsFor(driver, claim, p, q))
    ensures r.Ok? ==> Gathers(facts + FactsFor(driver, claim, p, q), r.value)
    ensures r.Ok? ==> (found <==> FactsFor(driver, claim, p, q) != {})
  {
    if !RequestRef(q) {
      return Err(RequestReference), false;
    }
    if Base(q) !in Declared(claim) {
      return Err(UndeclaredRequest), false;
    }
    r, found := RecordRequest(driver, claim, p, q, g, facts);
    if !found && p.device.requests != [] {
      r := Err(NotAllocated);
    }
  }

  ghost predicate AllAccepted(driver: string, claim: Claim, p: Prepared, asked: seq<string>)
  {
    forall q {:trigger AskAccepted(driver, claim, p, q)} :: q in asked ==> AskAccepted(driver, claim, p, q)
  }

  lemma OneMoreAccepted(driver: string, claim: Claim, p: Prepared, asked: seq<string>, i: nat)
    requires i < |asked| && AllAccepted(driver, claim, p, asked[..i]) && AskAccepted(driver, claim, p, asked[i])
    ensures AllAccepted(driver, claim, p, asked[..i + 1])
  {
    assert asked[..i + 1] == asked[..i] + [asked[i]];
  }

  /** Everything a device is asked for. */
  method RecordRequests(driver: string, claim: Claim, p: Prepared, asked: seq<string>, g: Gathered, ghost facts: set<Fact>)
    returns (r: Result<Gathered, Error>, bases: set<string>)
    requires Gathers(facts, g) && ClaimAccepted(driver, claim)
    ensures r.Ok? <==> AllAccepted(driver, claim, p, asked) && Consistent(facts + FactsIn(driver, claim, p, asked))
    ensures r.Ok? ==> Gathers(facts + FactsIn(driver, claim, p, asked), r.value)
    ensures r.Ok? ==> bases == FoundBases(driver, claim, p, asked)
  {
    var more := g;
    bases := {};
    ghost var known := facts;
    for i := 0 to |asked|
      invariant known == facts + FactsIn(driver, claim, p, asked[..i])
      invariant Gathers(known, more)
      invariant AllAccepted(driver, claim, p, asked[..i])
      invariant bases == FoundBases(driver, claim, p, asked[..i])
    {
      var q := asked[i];
      assert q in asked;
      MoreAsked(driver, claim, p, asked, i);
      var found;
      r, found := Answer(driver, claim, p, q, more, known);
      known := known + FactsFor(driver, claim, p, q);
      if r.Err? {
        if !Consistent(known) {
          PartRefused(facts, known, FactsIn(driver, claim, p, asked));
        }
        return;
      }
      more := r.value;
      if found {
        bases := bases + {Base(q)};
      }
      OneMoreAccepted(driver, claim, p, asked, i);
    }
    assert asked[..|asked|] == asked;
    GathersConsistent(known, more);
    r := Ok(more);
  }

  lemma {:induction false} SomeFound(driver: string, claim: Claim, p: Prepared, asked: seq<string>)
    ensures FoundBases(driver, claim, p, asked) == {} <==> FactsIn(driver, claim, p, asked) == {}
  {
    if asked != [] {
      SomeFound(driver, claim, p, asked[..|asked| - 1]);
    }
  }

  lemma AsksAll(w: Writer, claim: Claim, p: Prepared, asked: seq<string>)
    requires DeviceNamed(w, p) && forall q :: q in asked <==> q in Asked(claim, p.device)
    ensures FactsIn(w.driver, claim, p, asked) == FactsOf(w.driver, claim, p)
    ensures DeviceAccepted(w, claim, p) <==> AllAccepted(w.driver, claim, p, asked) && FactsOf(w.driver, claim, p) != {}
  {
    forall f
      ensures f in FactsIn(w.driver, claim, p, asked) <==> f in FactsOf(w.driver, claim, p)
    {
      FactInIs(w.driver, claim, p, asked, f);
    }
  }

  lemma StripsRequests(driver: string, claim: Claim, p: Prepared)
    requires p.device.requests != [] && AllAccepted(driver, claim, p, p.device.requests)
    ensures forall n :: n in FoundBases(driver, claim, p, p.device.requests) <==> exists q :: q in p.device.requests && Base(q) == n
  {
    forall n
      ensures n in FoundBases(driver, claim, p, p.device.requests) <==> exists q :: q in p.device.requests && Base(q) == n
    {
      FoundBaseIs(driver, claim, p, p.device.requests, n);
      assert forall q :: q in p.device.requests ==> AskAccepted(driver, claim, p, q);
    }
  }

  /** One prepared device: its facts are recorded and kubelet's copy made, or it is refused. */
  method RecordDevice(w: Writer, claim: Claim, p: Prepared, g: Gathered, ghost facts: set<Fact>)
    returns (r: Result<Gathered, Error>, out: PreparedDevice)
    requires Gathers(facts, g) && ClaimAccepted(w.driver, claim)
    ensures r.Ok? <==> DeviceAccepted(w, claim, p) && Consistent(facts + FactsOf(w.driver, claim, p))
    ensures r.Ok? ==> Gathers(facts + FactsOf(w.driver, claim, p), r.value) && Physical(p.device, out)
  {
    out := p.device;
    if !(Label(out.device, 63) && PoolName(out.pool)) {
      return Err(DeviceIdentity), out;
    }
    if !AttributesAccepted(w, p.attributes) {
      return Err(Attributes), out;
    }
    var asked := out.requests;
    if asked == [] {
      asked := SortedNames(Declared(claim));
    }
    AsksAll(w, claim, p, asked);
    SomeFound(w.driver, claim, p, asked);
    var bases;
    r, bases := RecordRequests(w.driver, claim, p, asked, g, facts);
    if r.Err? {
      return;
    }
    if bases == {} {
      return Err(NoLocalAllocation), out;
    }
    if out.requests != [] {
      StripsRequests(w.driver, claim, p);
      var names := SortedNames(bases);
      out := out.(requests := names);
    }
  }

  // ----- All prepared devices -----

  function Elements(prepared: seq<Prepared>): set<Prepared>
  {
    set p | p in prepared
  }

  function FactsAmong(driver: string, claim: Claim, prepared: seq<Prepared>): set<Fact>
  {
    if prepared == [] then {}
    else FactsAmong(driver, claim, prepared[..|prepared| - 1]) + FactsOf(driver, claim, prepared[|prepared| - 1])
  }

  lemma {:induction false} FactAmongIs(driver: string, claim: Claim, prepared: seq<Prepared>, f: Fact)
    ensures f in FactsAmong(driver, claim, prepared) <==> exists p :: p in prepared && f in FactsOf(driver, claim, p)
  {
    if prepared != [] {
      var n := |prepared| - 1;
      FactAmongIs(driver, claim, prepared[..n], f);
      assert prepared == prepared[..n] + [prepared[n]];
    }
  }

  lemma AmongAre(driver: string, claim: Claim, prepared: seq<Prepared>)
    ensures FactsAmong(driver, claim, prepared) == AllFacts(driver, claim, Elements(prepared))
  {
    forall f
      ensures f in FactsAmong(driver, claim, prepared) <==> f in AllFacts(driver, claim, Elements(prepared))
    {
      FactAmongIs(driver, claim, prepared, f);
    }
  }

  /** Keys are a pool and a device. */
  ghost predicate PairKeys(facts: set<Fact>)
  {
    forall f :: f in facts ==> |f.key| == 2
  }

  lemma AmongPairKeys(driver: string, claim: Claim, prepared: seq<Prepared>)
    ensures PairKeys(FactsAmong(driver, claim, prepared))
  {
    AmongAre(driver, claim, prepared);
    forall p, q, f | p in prepared && q in Asked(claim, p.device) && f in FactsFor(driver, claim, p, q)
      ensures |f.key| == 2
    {
      FactsForAre(driver, claim, p, q);
    }
  }

  lemma MoreAmong(driver: string, claim: Claim, prepared: seq<Prepared>, i: nat)
    requires i < |prepared|
    ensures FactsAmong(driver, claim, prepared[..i + 1]) == FactsAmong(driver, claim, prepared[..i]) + FactsOf(driver, claim, prepared[i])
    ensures FactsAmong(driver, claim, prepared[..i + 1]) <= FactsAmong(driver, claim, prepared)
  {
    assert prepared[..i + 1][..i] == prepared[..i];
    forall f | f in FactsAmong(driver, claim, prepared[..i + 1])
      ensures f in FactsAmong(driver, claim, prepared)
    {
      FactAmongIs(driver, claim, prepared[..i + 1], f);
      FactAmongIs(driver, claim, prepared, f);
    }
  }

  ghost predicate DevicesAccepted(w: Writer, claim: Claim, prepared: seq<Prepared>)
  {
    forall p {:trigger DeviceAccepted(w, claim, p)} :: p in prepared ==> DeviceAccepted(w, claim, p)
  }

  ghost predicate AllPhysical(prepared: seq<Prepared>, out: seq<PreparedDevice>)
  {
    |prepared| <= |out| && forall i {:trigger Physical(prepared[i].device, out[i])} :: 0 <= i < |prepared| ==> Physical(prepared[i].device, out[i])
  }

  lemma OneMorePhysical(prepared: seq<Prepared>, i: nat, out: seq<PreparedDevice>, d: PreparedDevice)
    requires i < |prepared| && |out| == i && AllPhysical(prepared[..i], out) && Physical(prepared[i].device, d)
    ensures AllPhysical(prepared[..i + 1], out + [d])
  {
    forall k | 0 <= k < i + 1
      ensures Physical(prepared[..i + 1][k].device, (out + [d])[k])
    {
      assert k < i ==> Physical(prepared[..i][k].device, out[k]);
    }
  }

  lemma OneMoreDevice(w: Writer, claim: Claim, prepared: seq<Prepared>, i: nat)
    requires i < |prepared| && DevicesAccepted(w, claim, prepared[..i]) && DeviceAccepted(w, claim, prepared[i])
    ensures DevicesAccepted(w, claim, prepared[..i + 1])
  {
    assert prepared[..i + 1] == prepared[..i] + [prepared[i]];
  }

  method RecordDevices(w: Writer, claim: Claim, prepared: seq<Prepared>)
    returns (r: Result<Gathered, Error>, out: seq<PreparedDevice>)
    requires ClaimAccepted(w.driver, claim)
    ensures r.Ok? <==> DevicesAccepted(w, claim, prepared) && Consistent({} + FactsAmong(w.driver, claim, prepared))
    ensures r.Ok? ==> Gathers(FactsAmong(w.driver, claim, prepared), r.value) && |out| == |prepared| && AllPhysical(prepared, out)
  {
    out := [];
    var g := Gathered(map[], map[]);
    ghost var known: set<Fact> := {};
    for i := 0 to |prepared|
      invariant known == FactsAmong(w.driver, claim, prepared[..i])
      invariant Gathers(known, g) && |out| == i
      invariant DevicesAccepted(w, claim, prepared[..i]) && AllPhysical(prepared[..i], out)
    {
      var p := prepared[i];
      assert p in prepared;
      MoreAmong(w.driver, claim, prepared, i);
      var d;
      r, d := RecordDevice(w, claim, p, g, known);
      known := known + FactsOf(w.driver, claim, p);
      if r.Err? {
        if !Consistent(known) {
          PartRefused({}, known, FactsAmong(w.driver, claim, prepared));
        }
        return;
      }
      g := r.value;
      OneMorePhysical(prepared, i, out, d);
      out := out + [d];
      OneMoreDevice(w, claim, prepared, i);
    }
    assert prepared[..|prepared|] == prepared;
    GathersConsistent(known, g);
    r := Ok(g);
  }

  // ----- Artifacts -----

  function MetadataId(driver: string, uid: string, base: string): string
  {
    driver + ("/" + ("metadata=" + (uid + ("_" + base))))
  }

  function ContainerPath(driver: string, claim: ClaimRef, podClaim: Option<string>, base: string): string
  {
    CONTAINER_ROOT + match podClaim
                     case Some(name) => "/resourceclaimtemplates/" + (name + ("/" + (base + ("/" + (driver + "-metadata.json")))))
                     case None => "/resourceclaims/" + (claim.name + ("/" + (base + ("/" + (driver + "-metadata.json")))))
  }

  function SpecFor(w: Writer, claim: Claim, base: string): Spec
  {
    var id := claim.identity;
    Spec(w.driver + "/metadata", id.uid + "_" + base,
         [w.host, "dra-device-metadata", id.uid, base, "metadata.json"],
         ContainerPath(w.driver, id, claim.podClaim, base))
  }

  function BasesOf(facts: set<Fact>): set<string>
  {
    set f | f in facts :: f.base
  }

  /** The devices the facts give one request. */
  function Group(facts: set<Fact>, base: string): map<Key, Content>
    requires Consistent(facts)
  {
    assert forall f, g :: f in facts && g in facts ==> Agree(f, g);
    map f | f in facts && f.base == base :: f.key := f.content
  }

  /** The request as allocated, with its subrequest. */
  ghost function FullName(facts: set<Fact>, base: string): string
    requires base in BasesOf(facts)
  {
    var f :| f in facts && f.base == base;
    f.full
  }

  ghost function DocumentFor(claim: Claim, facts: set<Fact>, base: string): Document
    requires Consistent(facts) && base in BasesOf(facts)
  {
    Document(claim.identity, claim.podClaim, FullName(facts, base), Group(facts, base))
  }

  ghost function DocumentsOf(w: Writer, claim: Claim, facts: set<Fact>): map<string, string>
    requires Consistent(facts)
  {
    map b | b in BasesOf(facts) :: w.document(DocumentFor(claim, facts, b))
  }

  function SpecsOf(w: Writer, claim: Claim, facts: set<Fact>): map<string, string>
  {
    map b | b in BasesOf(facts) :: w.spec(SpecFor(w, claim, b))
  }

  /** What was gathered is what the facts say. */
  lemma GatheredGroup(facts: set<Fact>, g: Gathered, base: string)
    requires Gathers(facts, g) && Consistent(facts)
    ensures base in g.groups <==> base in BasesOf(facts)
    ensures base in g.groups ==> g.groups[base] == Group(facts, base) && g.full[base] == FullName(facts, base) && g.groups[base] != map[]
  {
    if base in g.groups {
      assert FromFact(facts, base);
      var f :| f in facts && f.base == base && f.full == FullName(facts, base);
      assert HasFact(g, f);
      forall k
        ensures k in g.groups[base] <==> k in Group(facts, base)
        ensures k in g.groups[base] ==> g.groups[base][k] == Group(facts, base)[k]
      {
        if k in g.groups[base] {
          assert KeyFromFact(facts, base, k);
          var h :| h in facts && h.base == base && h.key == k;
          assert HasFact(g, h);
          var j :| j in facts && j.base == base && j.key == k && j.content == Group(facts, base)[k];
          assert HasFact(g, j);
        }
        if k in Group(facts, base) {
          var h :| h in facts && h.base == base && h.key == k;
          assert HasFact(g, h);
        }
      }
    }
    if base in BasesOf(facts) {
      var f :| f in facts && f.base == base;
      assert HasFact(g, f);
    }
  }

  predicate Least(keys: set<Key>, key: Key)
  {
    key in keys && forall k :: k in keys ==> KeyLeq(key, k)
  }

  /** The first key of an ordered map. */
  method FirstKey(keys: set<Key>) returns (least: Key)
    requires keys != {}
    ensures Least(keys, least)
  {
    least :| least in keys;
    KeyLeqReflexive(least);
    var rest := keys - {least};
    while rest != {}
      invariant rest <= keys && least in keys
      invariant forall k :: k in keys && k !in rest ==> KeyLeq(least, k)
      decreases |rest|
    {
      var next :| next in rest;
      KeyLeqTotal(least, next);
      if !KeyLeq(least, next) {
        forall k | k in keys && k !in rest
          ensures KeyLeq(next, k)
        {
          KeyLeqTransitive(next, least, k);
        }
        least := next;
        KeyLeqReflexive(next);
      }
      rest := rest - {next};
    }
  }

  /** The entry by which one request selects its own document. */
  predicate MetadataEntry(w: Writer, claim: Claim, keys: set<Key>, base: string, d: PreparedDevice)
  {
    d.requests == [base] && d.cdi == [MetadataId(w.driver, claim.identity.uid, base)] && Least(keys, [d.pool, d.device])
  }

  predicate EntryAt(w: Writer, claim: Claim, g: Gathered, base: string, entry: PreparedDevice)
  {
    base in g.groups && MetadataEntry(w, claim, g.groups[base].Keys, base, entry)
  }

  ghost predicate Entries(w: Writer, claim: Claim, g: Gathered, bases: seq<string>, entries: seq<PreparedDevice>)
  {
    && |entries| == |bases|
    && forall i {:trigger EntryAt(w, claim, g, bases[i], entries[i])} :: 0 <= i < |bases| ==> EntryAt(w, claim, g, bases[i], entries[i])
  }

  /** Every group has a device, under a pool and a device name. */
  ghost predicate Keyed(g: Gathered)
  {
    forall b {:trigger g.groups[b]} :: b in g.groups ==> g.groups[b].Keys != {} && forall k :: k in g.groups[b] ==> |k| == 2
  }

  lemma GatheredKeyed(facts: set<Fact>, g: Gathered)
    requires Gathers(facts, g) && PairKeys(facts)
    ensures Keyed(g)
  {
    forall b | b in g.groups
      ensures g.groups[b].Keys != {}
    {
      assert FromFact(facts, b);
      var f :| f in facts && f.base == b;
      assert HasFact(g, f);
    }
    forall b, k | b in g.groups && k in g.groups[b]
      ensures |k| == 2
    {
      assert KeyFromFact(facts, b, k);
    }
  }

  method EntryFor(w: Writer, claim: Claim, g: Gathered, base: string) returns (d: PreparedDevice)
    requires Keyed(g) && base in g.groups
    ensures MetadataEntry(w, claim, g.groups[base].Keys, base, d)
  {
    var representative := FirstKey(g.groups[base].Keys);
    assert representative == [representative[0], representative[1]];
    d := PreparedDevice([base], representative[0], representative[1], [MetadataId(w.driver, claim.identity.uid, base)]);
  }

  /** These maps are the texts of what was gathered. */
  ghost predicate Texts(w: Writer, claim: Claim, g: Gathered, documents: map<string, string>, specs: map<string, string>)
  {
    && documents.Keys == specs.Keys == g.groups.Keys == g.full.Keys
    && (forall b {:trigger documents[b]} :: b in g.groups ==> documents[b] == w.document(Document(claim.identity, claim.podClaim, g.full[b], g.groups[b])))
    && (forall b {:trigger specs[b]} :: b in g.groups ==> specs[b] == w.spec(SpecFor(w, claim, b)))
  }

  lemma GatheredTexts(w: Writer, claim: Claim, g: Gathered, facts: set<Fact>)
    requires Gathers(facts, g) && Consistent(facts)
    ensures Texts(w, claim, g, DocumentsOf(w, claim, facts), SpecsOf(w, claim, facts))
  {
    forall b
      ensures b in g.groups <==> b in BasesOf(facts)
      ensures b in g.groups ==> g.groups[b] == Group(facts, b) && g.full[b] == FullName(facts, b)
    {
      GatheredGroup(facts, g, b);
    }
  }

  /** The part of `all` these names select. */
  function Part(all: map<string, string>, names: seq<string>): map<string, string>
    requires forall n :: n in names ==> n in all
  {
    if names == [] then map[]
    else
      var n := |names| - 1;
      assert names[n] in names && forall x :: x in names[..n] ==> x in names;
      Part(all, names[..n])[names[n] := all[names[n]]]
  }

  lemma {:induction false} PartIs(all: map<string, string>, names: seq<string>)
    requires forall n :: n in names ==> n in all
    ensures Part(all, names) == map b | b in all && b in names :: all[b]
  {
    if names != [] {
      var n := |names| - 1;
      assert names == names[..n] + [names[n]];
      PartIs(all, names[..n]);
    }
  }

  lemma MorePart(all: map<string, string>, names: seq<string>, i: nat)
    requires i < |names| && forall n :: n in names ==> n in all
    ensures (forall n :: n in names[..i + 1] ==> n in all) && (forall n :: n in names[..i] ==> n in all) && names[i] in all
    ensures Part(all, names[..i + 1]) == Part(all, names[..i])[names[i] := all[names[i]]]
  {
    assert names[..i + 1][..i] == names[..i];
  }

  lemma WholePart(all: map<string, string>, names: seq<string>)
    requires forall n :: n in names <==> n in all
    ensures Part(all, names) == all
  {
    PartIs(all, names);
  }

  lemma OneMoreEntry(w: Writer, claim: Claim, g: Gathered, bases: seq<string>, i: nat, entries: seq<PreparedDevice>, entry: PreparedDevice)
    requires i < |bases| && Entries(w, claim, g, bases[..i], entries)
    requires EntryAt(w, claim, g, bases[i], entry)
    ensures Entries(w, claim, g, bases[..i + 1], entries + [entry])
  {
    forall k | 0 <= k < i + 1
      ensures EntryAt(w, claim, g, bases[..i + 1][k], (entries + [entry])[k])
    {
      if k < i {
        assert EntryAt(w, claim, g, bases[..i][k], entries[k]);
      }
    }
  }

  method WriteArtifacts(w: Writer, claim: Claim, g: Gathered, ghost allDocuments: map<string, string>, ghost allSpecs: map<string, string>)
    returns (documents: map<string, string>, specs: map<string, string>, bases: seq<string>, entries: seq<PreparedDevice>)
    requires Keyed(g) && Texts(w, claim, g, allDocuments, allSpecs)
    ensures documents == allDocuments && specs == allSpecs
    ensures Sorted(bases, TextKey) && DistinctKeys(bases, TextKey) && (forall b :: b in bases <==> b in g.groups)
    ensures Entries(w, claim, g, bases, entries)
  {
    documents, specs, entries := map[], map[], [];
    bases := SortedNames(g.groups.Keys);
    for i := 0 to |bases|
      invariant forall n :: n in bases[..i] ==> n in allDocuments && n in allSpecs
      invariant documents == Part(allDocuments, bases[..i])
      invariant specs == Part(allSpecs, bases[..i])
      invariant Entries(w, claim, g, bases[..i], entries)
    {
      var base := bases[i];
      assert base in bases && base in g.groups;
      MorePart(allDocuments, bases, i);
      MorePart(allSpecs, bases, i);
      documents := documents[base := w.document(Document(claim.identity, claim.podClaim, g.full[base], g.groups[base]))];
      specs := specs[base := w.spec(SpecFor(w, claim, base))];
      var entry := EntryFor(w, claim, g, base);
      OneMoreEntry(w, claim, g, bases, i, entries, entry);
      entries := entries + [entry];
    }
    assert bases[..|bases|] == bases;
    WholePart(allDocuments, bases);
    WholePart(allSpecs, bases);
  }

  // ----- The plan -----

  function RequestsKey(d: PreparedDevice): Key { d.requests }

  /** An entry for one of the documented requests. */
  predicate SelectsDocument(w: Writer, claim: Claim, facts: set<Fact>, d: PreparedDevice)
    requires Consistent(facts)
  {
    |d.requests| == 1 && d.requests[0] in BasesOf(facts) && MetadataEntry(w, claim, Group(facts, d.requests[0]).Keys, d.requests[0], d)
  }

  ghost predicate Selects(entries: seq<PreparedDevice>, base: string)
  {
    exists d :: d in entries && d.requests == [base]
  }

  /** In request order, one entry for each documented request. */
  ghost predicate IsEntries(w: Writer, claim: Claim, facts: set<Fact>, entries: seq<PreparedDevice>)
    requires Consistent(facts)
  {
    && Sorted(entries, RequestsKey) && DistinctKeys(entries, RequestsKey)
    && (forall d {:trigger SelectsDocument(w, claim, facts, d)} :: d in entries ==> SelectsDocument(w, claim, facts, d))
    && (forall b {:trigger Selects(entries, b)} :: b in BasesOf(facts) ==> Selects(entries, b))
  }

  /** The plan of these results: kubelet's copy of each device, then an entry for each document. */
  ghost predicate IsPlan(w: Writer, claim: Claim, prepared: seq<Prepared>, plan: Plan)
    requires Consistent(AllFacts(w.driver, claim, Elements(prepared)))
  {
    var facts := AllFacts(w.driver, claim, Elements(prepared));
    && plan.claim == claim.identity
    && plan.documents == DocumentsOf(w, claim, facts) && plan.specs == SpecsOf(w, claim, facts)
    && AllPhysical(prepared, plan.devices)
    && IsEntries(w, claim, facts, plan.devices[|prepared|..])
  }

  lemma WrittenEntries(w: Writer, claim: Claim, facts: set<Fact>, g: Gathered, bases: seq<string>, entries: seq<PreparedDevice>)
    requires Gathers(facts, g) && Consistent(facts) && Entries(w, claim, g, bases, entries)
    requires Sorted(bases, TextKey) && DistinctKeys(bases, TextKey) && forall b :: b in bases <==> b in g.groups
    ensures IsEntries(w, claim, facts, entries)
  {
    forall i | 0 <= i < |entries|
      ensures entries[i].requests == TextKey(bases[i]) && SelectsDocument(w, claim, facts, entries[i])
    {
      assert EntryAt(w, claim, g, bases[i], entries[i]);
      GatheredGroup(facts, g, bases[i]);
    }
    forall b | b in BasesOf(facts)
      ensures Selects(entries, b)
    {
      GatheredGroup(facts, g, b);
      var i :| 0 <= i < |bases| && bases[i] == b;
      assert entries[i] in entries && entries[i].requests == TextKey(bases[i]);
    }
  }

  /** A plan, exactly when the claim and every result are acceptable and no two results disagree. */
  method Build(w: Writer, claim: Claim, prepared: seq<Prepared>) returns (r: Result<Plan, Error>)
    ensures r.Ok? <==> Buildable(w, claim, Elements(prepared))
    ensures r.Ok? ==> IsPlan(w, claim, prepared, r.value)
  {
    AmongAre(w.driver, claim, prepared);
    var error := CheckClaim(w.driver, claim);
    if error.Some? {
      return Err(error.value);
    }
    var gathered, wire := RecordDevices(w, claim, prepared);
    if gathered.Err? {
      return Err(gathered.error);
    }
    var g := gathered.value;
    ghost var facts := AllFacts(w.driver, claim, Elements(prepared));
    AmongPairKeys(w.driver, claim, prepared);
    GatheredKeyed(facts, g);
    GatheredTexts(w, claim, g, facts);
    var documents, specs, bases, entries := WriteArtifacts(w, claim, g, DocumentsOf(w, claim, facts), SpecsOf(w, claim, facts));
    WrittenEntries(w, claim, facts, g, bases, entries);
    assert (wire + entries)[|prepared|..] == entries;
    r := Ok(Plan(claim.identity, documents, specs, wire + entries));
  }
}
