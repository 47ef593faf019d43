/** Which results can be planned, said of the claim and the results alone. */
module PlanAcceptance {
  import opened Wrappers
  import opened Names
  import opened Artifacts
  import opened ClaimFiles
  import opened MetadataFacts
  import opened MetadataPlan
  import opened PlanLaws
  import opened PlanMeaning

  // ----- The claim -----

  /** The first request of that name. */
  predicate FirstNamed(requests: seq<Request>, i: nat, name: string)
  {
    i < |requests| && requests[i].name == name && forall j :: 0 <= j < i ==> requests[j].name != name
  }

  /** The request itself, or a subrequest the request offers. */
  predicate Refers(request: Request, full: string)
  {
    || full == request.name
    || (request.firstAvailable.Some? && exists s :: s in request.firstAvailable.value && full == request.name + ("/" + s))
  }

  /** An allocation to a request of the claim, or to one of its alternatives, and to no one else. */
  ghost predicate SoundAllocation(claim: Claim, a: Allocation)
  {
    && RequestRef(a.request) && a.share.None?
    && exists i: nat :: FirstOf(claim.requests, i, a.request)
  }

  predicate FirstOf(requests: seq<Request>, i: nat, full: string)
  {
    i < |requests| && FirstNamed(requests, i, requests[i].name) && Refers(requests[i], full)
  }

  ghost predicate SoundClaim(driver: string, claim: Claim)
  {
    && Subdomain(claim.identity.name, 253) && Label(claim.identity.namespace, 63) && Label(claim.identity.uid, 64)
    && (claim.podClaim.Some? ==> Label(claim.podClaim.value, 63))
    && (forall r :: r in claim.requests ==> Label(r.name, 63))
    && forall a {:trigger SoundAllocation(claim, a)} :: a in claim.allocations && a.driver == driver ==> SoundAllocation(claim, a)
  }

  lemma {:induction false} FindIsFirst(requests: seq<Request>, name: string)
    ensures Find(requests, name).Some? ==> exists i: nat :: FirstNamed(requests, i, name) && requests[i] == Find(requests, name).value
  {
    if requests != [] && requests[0].name != name {
      FindIsFirst(requests[1..], name);
      if Find(requests, name).Some? {
        var i: nat :| FirstNamed(requests[1..], i, name) && requests[1..][i] == Find(requests, name).value;
        assert FirstNamed(requests, i + 1, name) by {
          forall j | 0 <= j < i + 1
            ensures requests[j].name != name
          {
            assert j > 0 ==> requests[j] == requests[1..][j - 1];
          }
        }
      }
    } else if requests != [] {
      assert FirstNamed(requests, 0, name);
    }
  }

  lemma {:induction false} FirstIsFound(requests: seq<Request>, i: nat, name: string)
    requires FirstNamed(requests, i, name)
    ensures Find(requests, name) == Some(requests[i])
  {
    if i > 0 {
      assert requests[0].name != name;
      assert FirstNamed(requests[1..], i - 1, name) by {
        assert forall j :: 0 <= j < i - 1 ==> requests[1..][j] == requests[j + 1];
      }
      FirstIsFound(requests[1..], i - 1, name);
    }
  }

  lemma SlashNameIs(full: string, name: string, s: string)
    requires '/' !in name && full == name + ("/" + s)
    ensures SplitOnce(full, '/') == Some((name, s)) && Base(full) == name
  {
    assert full[|name|] == '/';
    var cut := SplitOnce(full, '/').value;
    CutEqual(full, name, s, cut.0, cut.1, '/');
    SplitFirst(full, '/');
  }

  lemma WholeNameIs(name: string)
    requires '/' !in name
    ensures SplitOnce(name, '/').None? && Base(name) == name
  {
    SplitFirst(name, '/');
  }

  lemma AllocationIsSound(claim: Claim, a: Allocation)
    requires forall r :: r in claim.requests ==> Label(r.name, 63)
    ensures AllocationAccepted(claim, a) && a.share.None? <==> SoundAllocation(claim, a)
  {
    if AllocationAccepted(claim, a) && a.share.None? {
      RefForm(a.request);
      FindIsFirst(claim.requests, Base(a.request));
      var i: nat :| FirstNamed(claim.requests, i, Base(a.request)) && claim.requests[i] == Find(claim.requests, Base(a.request)).value;
      assert FirstOf(claim.requests, i, a.request);
    }
    if SoundAllocation(claim, a) {
      var i: nat :| FirstOf(claim.requests, i, a.request);
      var r := claim.requests[i];
      assert r in claim.requests;
      LabelHasNoSlash(r.name, 63);
      FirstIsFound(claim.requests, i, r.name);
      if a.request == r.name {
        WholeNameIs(r.name);
      } else {
        var s :| s in r.firstAvailable.value && a.request == r.name + ("/" + s);
        SlashNameIs(a.request, r.name, s);
      }
    }
  }

  lemma ClaimIsSound(driver: string, claim: Claim)
    ensures ClaimAccepted(driver, claim) <==> SoundClaim(driver, claim)
  {
    if forall r :: r in claim.requests ==> Label(r.name, 63) {
      forall a
        ensures AllocationAccepted(claim, a) && a.share.None? <==> SoundAllocation(claim, a)
      {
        AllocationIsSound(claim, a);
      }
      assert forall a :: a in Local(driver, claim) <==> a in claim.allocations && a.driver == driver;
    }
  }

  // ----- The results -----

  /** Up to 32 letters, digits and underscores, not beginning with a digit. */
  predicate ReadableName(name: string)
  {
    && 1 <= |name| <= 32 && !('0' <= name[0] <= '9')
    && forall i :: 0 <= i < |name| ==>
         ('a' <= name[i] <= 'z') || ('A' <= name[i] <= 'Z') || ('0' <= name[i] <= '9') || name[i] == '_'
  }

  /** A name, or a subdomain's name. */
  ghost predicate ReadableKey(key: string)
  {
    ReadableName(key) || exists domain, name :: key == domain + ("/" + name) && Subdomain(domain, 63) && ReadableName(name)
  }

  predicate ReadableValue(w: Writer, value: Value)
  {
    && (value.Text? ==> |value.text| <= 64)
    && (value.Version? ==> |value.text| <= 64 && w.version(value.text))
  }

  lemma NameIsReadable(name: string)
    ensures AttributeName(name) <==> ReadableName(name)
    ensures ReadableName(name) ==> '/' !in name
  {
    if AttributeName(name) {
      assert forall i :: 0 <= i < |name| ==> name[i] in name;
    }
    if ReadableName(name) {
      assert forall c :: c in name ==> exists i :: 0 <= i < |name| && name[i] == c;
    }
  }

  lemma KeyIsReadable(key: string)
    ensures AttributeKey(key) <==> ReadableKey(key)
  {
    NameIsReadable(key);
    if SplitOnce(key, '/').Some? {
      NameIsReadable(SplitOnce(key, '/').value.1);
    }
    if domain, name :| key == domain + ("/" + name) && Subdomain(domain, 63) && ReadableName(name) {
      NameIsReadable(name);
      DriverHasNoSlash(domain);
      SlashNameIs(key, domain, name);
    }
  }

  ghost predicate ReadableAttributes(w: Writer, attributes: map<string, Value>)
  {
    |attributes| <= 32 && forall k :: k in attributes ==> ReadableKey(k) && ReadableValue(w, attributes[k])
  }

  lemma AttributesAreReadable(w: Writer, attributes: map<string, Value>)
    ensures AttributesAccepted(w, attributes) <==> ReadableAttributes(w, attributes)
  {
    forall k | k in attributes
      ensures AttributeKey(k) && AttributeValue(w, attributes[k]) <==> ReadableKey(k) && ReadableValue(w, attributes[k])
    {
      KeyIsReadable(k);
    }
  }

  /** A reference to a request of the claim. */
  predicate Declares(claim: Claim, q: string)
  {
    RequestRef(q) && exists r :: r in claim.requests && Under(r.name, q)
  }

  /** This driver's allocation of the device, to the request named or one of its alternatives. */
  predicate AllocatedTo(driver: string, claim: Claim, p: Prepared, q: string, a: Allocation)
  {
    a in claim.allocations && a.driver == driver && a.pool == p.device.pool && a.device == p.device.device && Under(q, a.request)
  }

  ghost predicate SoundAsk(driver: string, claim: Claim, p: Prepared, q: string)
  {
    Declares(claim, q) && exists a :: AllocatedTo(driver, claim, p, q, a)
  }

  ghost predicate SoundAsks(driver: string, claim: Claim, p: Prepared)
  {
    forall q {:trigger SoundAsk(driver, claim, p, q)} :: q in p.device.requests ==> SoundAsk(driver, claim, p, q)
  }

  /** A named device with readable attributes; every request it names, or some request, is allocated it. */
  ghost predicate SoundDevice(w: Writer, claim: Claim, p: Prepared)
  {
    && Label(p.device.device, 63) && PoolName(p.device.pool)
    && ReadableAttributes(w, p.attributes)
    && SoundAsks(w.driver, claim, p)
    && exists a :: Serves(w.driver, claim, p, a)
  }

  /** Devices of one request name one alternative of it; one device has one set of attributes there. */
  predicate Compatible(p: Prepared, a: Allocation, p2: Prepared, a2: Allocation)
  {
    Base(a.request) == Base(a2.request) ==>
      a.request == a2.request && (a.pool == a2.pool && a.device == a2.device ==> p.attributes == p2.attributes)
  }

  ghost predicate AllCompatible(driver: string, claim: Claim, ps: set<Prepared>)
  {
    forall p, a, p2, a2 {:trigger Serves(driver, claim, p, a), Serves(driver, claim, p2, a2)} ::
      p in ps && Serves(driver, claim, p, a) && p2 in ps && Serves(driver, claim, p2, a2) ==> Compatible(p, a, p2, a2)
  }

  lemma AskIsSound(w: Writer, claim: Claim, p: Prepared, q: string)
    requires ClaimAccepted(w.driver, claim) && q in p.device.requests
    ensures AskAccepted(w.driver, claim, p, q) <==> SoundAsk(w.driver, claim, p, q)
  {
    FactsForAre(w.driver, claim, p, q);
    if RequestRef(q) {
      DeclaredIs(w, claim, q);
      forall a
        ensures a in Matching(w.driver, claim, p.device, q) <==> AllocatedTo(w.driver, claim, p, q, a)
      {
        if a in Local(w.driver, claim) {
          MatchesUnder(claim, p.device, q, a);
        }
      }
      if FactsFor(w.driver, claim, p, q) != {} {
        var f :| f in FactsFor(w.driver, claim, p, q);
        var a :| a in Matching(w.driver, claim, p.device, q) && f == FactOf(w.driver, p, q, a);
        assert AllocatedTo(w.driver, claim, p, q, a);
      }
      if a :| AllocatedTo(w.driver, claim, p, q, a) {
        assert FactOf(w.driver, p, q, a) in FactsFor(w.driver, claim, p, q);
      }
    }
  }

  lemma DeclaredIs(w: Writer, claim: Claim, q: string)
    requires ClaimAccepted(w.driver, claim) && RequestRef(q)
    ensures Base(q) in Declared(claim) <==> Declares(claim, q)
  {
    UnderItsBase(q, q);
    if Base(q) in Declared(claim) {
      var r :| r in claim.requests && r.name == Base(q);
      assert Under(r.name, q);
    }
    if Declares(claim, q) {
      var r :| r in claim.requests && Under(r.name, q);
      LabelHasNoSlash(r.name, 63);
      UnderItsBase(q, r.name);
    }
  }

  lemma MatchesUnder(claim: Claim, d: PreparedDevice, q: string, a: Allocation)
    requires RequestRef(q) && AllocationAccepted(claim, a)
    ensures Matches(q, d, a) <==> a.pool == d.pool && a.device == d.device && Under(q, a.request)
  {
    UnderItsBase(a.request, q);
    BaseOfBase(a.request);
  }

  ghost predicate AsksAccepted(driver: string, claim: Claim, p: Prepared)
  {
    forall q {:trigger AskAccepted(driver, claim, p, q)} :: q in Asked(claim, p.device) ==> AskAccepted(driver, claim, p, q)
  }

  lemma AsksAreSound(w: Writer, claim: Claim, p: Prepared)
    requires ClaimAccepted(w.driver, claim)
    ensures AsksAccepted(w.driver, claim, p) <==> SoundAsks(w.driver, claim, p)
  {
    forall q | q in p.device.requests
      ensures AskAccepted(w.driver, claim, p, q) <==> SoundAsk(w.driver, claim, p, q)
    {
      AskIsSound(w, claim, p, q);
    }
    if p.device.requests == [] {
      forall q | q in Declared(claim)
        ensures AskAccepted(w.driver, claim, p, q)
      {
        LabelIsRef(q);
      }
    }
  }

  lemma DeviceIsSound(w: Writer, claim: Claim, p: Prepared)
    requires ClaimAccepted(w.driver, claim)
    ensures DeviceAccepted(w, claim, p) <==> SoundDevice(w, claim, p)
  {
    AsksAreSound(w, claim, p);
    AttributesAreReadable(w, p.attributes);
    FactsAreServed(w, claim, p);
    assert DeviceAccepted(w, claim, p) <==>
      DeviceNamed(w, p) && AsksAccepted(w.driver, claim, p) && FactsOf(w.driver, claim, p) != {};
  }

  lemma LabelIsRef(q: string)
    requires Label(q, 63)
    ensures RequestRef(q) && Base(q) == q
  {
    LabelHasNoSlash(q, 63);
    SplitWhole(q, '/');
  }

  lemma FactsAreServed(w: Writer, claim: Claim, p: Prepared)
    requires ClaimAccepted(w.driver, claim)
    ensures FactsOf(w.driver, claim, p) != {} <==> exists a :: Serves(w.driver, claim, p, a)
  {
    if a :| Serves(w.driver, claim, p, a) {
      var q := ServesContributes(w, claim, p, a);
      FactMade(w, claim, {p}, p, q, a);
    }
    if FactsOf(w.driver, claim, p) != {} {
      var f :| f in FactsOf(w.driver, claim, p);
      assert f in AllFacts(w.driver, claim, {p});
      var p2, q, a := FactMeans(w, claim, {p}, f);
      ContributesServes(w, claim, p2, q, a);
    }
  }

  /** The fact a served allocation makes. */
  lemma ServedFact(w: Writer, claim: Claim, ps: set<Prepared>, p: Prepared, a: Allocation) returns (f: Fact)
    requires ClaimAccepted(w.driver, claim) && p in ps && Serves(w.driver, claim, p, a)
    ensures f == Fact(Base(a.request), a.request, [a.pool, a.device], Content(p.attributes, w.driver, a.device, a.pool))
    ensures f in AllFacts(w.driver, claim, ps)
  {
    var q := ServesContributes(w, claim, p, a);
    FactMade(w, claim, ps, p, q, a);
    f := FactOf(w.driver, p, q, a);
  }

  lemma FactServed(w: Writer, claim: Claim, ps: set<Prepared>, f: Fact) returns (p: Prepared, a: Allocation)
    requires ClaimAccepted(w.driver, claim) && (forall p :: p in ps ==> DeviceAccepted(w, claim, p)) && f in AllFacts(w.driver, claim, ps)
    ensures p in ps && Serves(w.driver, claim, p, a)
    ensures f == Fact(Base(a.request), a.request, [a.pool, a.device], Content(p.attributes, w.driver, a.device, a.pool))
  {
    var q;
    p, q, a := FactMeans(w, claim, ps, f);
    ContributesServes(w, claim, p, q, a);
    AsksAreRefs(w, claim, p, q, a);
  }

  lemma ConsistentIsCompatible(w: Writer, claim: Claim, ps: set<Prepared>)
    requires ClaimAccepted(w.driver, claim) && forall p :: p in ps ==> DeviceAccepted(w, claim, p)
    ensures Consistent(AllFacts(w.driver, claim, ps)) <==> AllCompatible(w.driver, claim, ps)
  {
    var facts := AllFacts(w.driver, claim, ps);
    if Consistent(facts) {
      forall p, a, p2, a2 | p in ps && Serves(w.driver, claim, p, a) && p2 in ps && Serves(w.driver, claim, p2, a2)
        ensures Compatible(p, a, p2, a2)
      {
        var f := ServedFact(w, claim, ps, p, a);
        var g := ServedFact(w, claim, ps, p2, a2);
        assert Agree(f, g);
      }
    }
    if AllCompatible(w.driver, claim, ps) {
      forall f, g | f in facts && g in facts
        ensures Agree(f, g)
      {
        var p, a := FactServed(w, claim, ps, f);
        var p2, a2 := FactServed(w, claim, ps, g);
        assert Compatible(p, a, p2, a2);
        assert f.key == g.key ==> f.key[0] == g.key[0] && f.key[1] == g.key[1];
      }
    }
  }

  /** Results are planned exactly when the claim is sound, every device is, and no two contradict each other. */
  lemma PlannedExactly(w: Writer, claim: Claim, ps: set<Prepared>)
    ensures Buildable(w, claim, ps) <==>
      SoundClaim(w.driver, claim) && (forall p :: p in ps ==> SoundDevice(w, claim, p)) && AllCompatible(w.driver, claim, ps)
  {
    ClaimIsSound(w.driver, claim);
    if ClaimAccepted(w.driver, claim) {
      forall p
        ensures DeviceAccepted(w, claim, p) <==> SoundDevice(w, claim, p)
      {
        DeviceIsSound(w, claim, p);
      }
      if forall p :: p in ps ==> DeviceAccepted(w, claim, p) {
        ConsistentIsCompatible(w, claim, ps);
      }
    }
  }
}
