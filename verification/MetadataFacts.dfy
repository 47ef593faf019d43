/**
 * What the devices a driver says it prepared contribute to its claim's
 * container metadata: facts, each saying that a request holds a device.
 */
module MetadataFacts {
  import opened Wrappers
  import opened Names
  import opened Artifacts
  import opened Sorting
  import opened ClaimFiles

  const MAX_ATTRIBUTES: nat := 32

  datatype Value = Text(text: string) | Version(text: string) | Int(number: int) | Flag(flag: bool)

  datatype Request = Request(name: string, firstAvailable: Option<seq<string>>)

  datatype Allocation = Allocation(driver: string, request: string, pool: string, device: string, share: Option<string>)

  datatype Claim = Claim(identity: ClaimRef, podClaim: Option<string>, requests: seq<Request>, allocations: seq<Allocation>)

  /** A device the driver prepared, with the attributes containers may read. */
  datatype Prepared = Prepared(device: PreparedDevice, attributes: map<string, Value>)

  datatype Content = Content(attributes: map<string, Value>, driver: string, name: string, pool: string)

  /** One request's document; its devices are keyed by pool and device name. */
  datatype Document = Document(claim: ClaimRef, podClaim: Option<string>, request: string, devices: map<Key, Content>)

  datatype Spec = Spec(kind: string, name: string, host: seq<string>, container: string)

  /** The driver, its host-side root, the version syntax, and how artifacts are written. */
  datatype Writer = Writer(
    driver: string, host: string, version: string -> bool, document: Document -> string, spec: Spec -> string)

  datatype Error =
    | ClaimIdentity | PodClaimName | RequestName | RequestReference | UndeclaredAllocation | UndeclaredSubrequest
    | SharedDevice | DeviceIdentity | Attributes | UndeclaredRequest | NotAllocated | ConflictingSubrequests
    | ConflictingAttributes | NoLocalAllocation

  // ----- Names -----

  /** The text around the first separator. */
  function SplitOnce(s: string, c: char): (r: Option<(string, string)>)
    ensures r.None? ==> c !in s
    ensures r.Some? ==> s == r.value.0 + ([c] + r.value.1) && c !in r.value.0
  {
    if s == [] then None
    else if s[0] == c then Some(([], s[1..]))
    else
      match SplitOnce(s[1..], c)
      case None => None
      case Some(cut) =>
        assert s == [s[0]] + s[1..];
        Some(([s[0]] + cut.0, cut.1))
  }

  lemma {:induction false} SplitFirst(s: string, c: char)
    ensures SplitOnce(s, c).None? ==> Split(s, c) == [s]
    ensures SplitOnce(s, c).Some? ==> Split(s, c) == [SplitOnce(s, c).value.0] + Split(SplitOnce(s, c).value.1, c)
  {
    if s != [] {
      SplitFirst(s[1..], c);
      assert s == [s[0]] + s[1..];
    }
  }

  function Base(name: string): string { Split(name, '/')[0] }

  /** `request` or `request/subrequest`. */
  predicate RequestRef(name: string)
  {
    |Split(name, '/')| <= 2 && forall part :: part in Split(name, '/') ==> Label(part, 63)
  }

  lemma RefForm(name: string)
    requires RequestRef(name)
    ensures Label(Base(name), 63) && '/' !in Base(name)
    ensures SplitOnce(name, '/').None? ==> name == Base(name)
    ensures SplitOnce(name, '/').Some? ==> name == Base(name) + ("/" + SplitOnce(name, '/').value.1)
    ensures SplitOnce(name, '/').Some? ==> Label(SplitOnce(name, '/').value.1, 63)
  {
    SplitFirst(name, '/');
    assert Base(name) in Split(name, '/');
    if SplitOnce(name, '/').Some? {
      var rest := SplitOnce(name, '/').value.1;
      SplitFirst(rest, '/');
      assert Split(name, '/')[1] in Split(name, '/');
      assert Split(rest, '/')[0] == Split(name, '/')[1];
    }
  }

  predicate NameChar(c: char)
  {
    ('a' <= c <= 'z') || ('A' <= c <= 'Z') || ('0' <= c <= '9') || c == '_'
  }

  predicate AttributeName(name: string)
  {
    0 < |name| <= 32 && (forall c :: c in name ==> NameChar(c)) && !('0' <= name[0] <= '9')
  }

  predicate AttributeKey(name: string)
  {
    match SplitOnce(name, '/')
    case None => AttributeName(name)
    case Some(cut) => Subdomain(cut.0, 63) && AttributeName(cut.1)
  }

  predicate AttributeValue(w: Writer, value: Value)
  {
    match value
    case Text(text) => |text| <= 64
    case Version(text) => |text| <= 64 && w.version(text)
    case _ => true
  }

  predicate AttributesAccepted(w: Writer, attributes: map<string, Value>)
  {
    |attributes| <= MAX_ATTRIBUTES && forall k :: k in attributes ==> AttributeKey(k) && AttributeValue(w, attributes[k])
  }

  // ----- What a claim allows -----

  function Keep<T(!new)>(xs: seq<T>, wanted: T -> bool): (r: seq<T>)
    ensures forall x :: x in r <==> x in xs && wanted(x)
  {
    if xs == [] then []
    else
      assert forall x :: x in xs <==> x == xs[0] || x in xs[1..];
      (if wanted(xs[0]) then [xs[0]] else []) + Keep(xs[1..], wanted)
  }

  function Local(driver: string, claim: Claim): seq<Allocation>
  {
    Keep(claim.allocations, (a: Allocation) => a.driver == driver)
  }

  function Declared(claim: Claim): set<string>
  {
    set r | r in claim.requests :: r.name
  }

  /** The first request of that name. */
  function Find(requests: seq<Request>, name: string): (r: Option<Request>)
    ensures r.Some? ==> r.value in requests && r.value.name == name
    ensures r.None? ==> forall x :: x in requests ==> x.name != name
  {
    if requests == [] then None
    else if requests[0].name == name then Some(requests[0])
    else Find(requests[1..], name)
  }

  predicate Offers(request: Request, subrequest: string)
  {
    request.firstAvailable.Some? && subrequest in request.firstAvailable.value
  }

  predicate AllocationAccepted(claim: Claim, a: Allocation)
  {
    && RequestRef(a.request)
    && var request := Find(claim.requests, Base(a.request));
    && request.Some?
    && (SplitOnce(a.request, '/').Some? ==> Offers(request.value, SplitOnce(a.request, '/').value.1))
  }

  predicate IdentityAccepted(id: ClaimRef)
  {
    Subdomain(id.name, 253) && Label(id.namespace, 63) && Label(id.uid, 64)
  }

  predicate ClaimAccepted(driver: string, claim: Claim)
  {
    && IdentityAccepted(claim.identity)
    && (claim.podClaim.Some? ==> Label(claim.podClaim.value, 63))
    && (forall r :: r in claim.requests ==> Label(r.name, 63))
    && (forall a {:trigger AllocationAccepted(claim, a)} :: a in Local(driver, claim) ==> AllocationAccepted(claim, a))
    && (forall a :: a in Local(driver, claim) ==> a.share.None?)
  }

  // ----- What a prepared device contributes -----

  /** An allocation of this device, for this request or for a subrequest of it. */
  predicate Matches(q: string, d: PreparedDevice, a: Allocation)
  {
    && a.pool == d.pool && a.device == d.device
    && (a.request == q || (q == Base(q) && HasPrefix(a.request, Base(q) + "/")))
  }

  function Matching(driver: string, claim: Claim, d: PreparedDevice, q: string): seq<Allocation>
  {
    Keep(Local(driver, claim), (a: Allocation) => Matches(q, d, a))
  }

  function KeyOf(d: PreparedDevice): Key { [d.pool, d.device] }

  function ContentOf(driver: string, p: Prepared): Content
  {
    Content(p.attributes, driver, p.device.device, p.device.pool)
  }

  /** One line of a document: this request, as allocated, holds this device. */
  datatype Fact = Fact(base: string, full: string, key: Key, content: Content)

  function FactOf(driver: string, p: Prepared, q: string, a: Allocation): Fact
  {
    Fact(Base(q), a.request, KeyOf(p.device), ContentOf(driver, p))
  }

  function Facts(driver: string, p: Prepared, q: string, matching: seq<Allocation>): set<Fact>
  {
    if matching == [] then {}
    else Facts(driver, p, q, matching[..|matching| - 1]) + {FactOf(driver, p, q, matching[|matching| - 1])}
  }

  lemma {:induction false} FactsAre(driver: string, p: Prepared, q: string, matching: seq<Allocation>)
    ensures Facts(driver, p, q, matching) == set a | a in matching :: FactOf(driver, p, q, a)
  {
    if matching != [] {
      var n := |matching| - 1;
      FactsAre(driver, p, q, matching[..n]);
      assert matching == matching[..n] + [matching[n]];
      assert forall a :: a in matching <==> a in matching[..n] || a == matching[n];
    }
  }

  function FactsFor(driver: string, claim: Claim, p: Prepared, q: string): set<Fact>
  {
    Facts(driver, p, q, Matching(driver, claim, p.device, q))
  }

  lemma FactsForAre(driver: string, claim: Claim, p: Prepared, q: string)
    ensures forall f :: f in FactsFor(driver, claim, p, q) <==> exists a :: a in Matching(driver, claim, p.device, q) && f == FactOf(driver, p, q, a)
  {
    FactsAre(driver, p, q, Matching(driver, claim, p.device, q));
  }

  /** Naming no request means every declared one. */
  function Asked(claim: Claim, d: PreparedDevice): set<string>
  {
    if d.requests == [] then Declared(claim) else set q | q in d.requests
  }

  function FactsOf(driver: string, claim: Claim, p: Prepared): set<Fact>
  {
    set q, f | q in Asked(claim, p.device) && f in FactsFor(driver, claim, p, q) :: f
  }

  function AllFacts(driver: string, claim: Claim, ps: set<Prepared>): set<Fact>
  {
    set p, f | p in ps && f in FactsOf(driver, claim, p) :: f
  }

  /** A request named by a device is declared, and allocated here unless every request was meant. */
  predicate AskAccepted(driver: string, claim: Claim, p: Prepared, q: string)
  {
    RequestRef(q) && Base(q) in Declared(claim) && (p.device.requests == [] || FactsFor(driver, claim, p, q) != {})
  }

  predicate DeviceNamed(w: Writer, p: Prepared)
  {
    Label(p.device.device, 63) && PoolName(p.device.pool) && AttributesAccepted(w, p.attributes)
  }

  predicate DeviceAccepted(w: Writer, claim: Claim, p: Prepared)
  {
    && DeviceNamed(w, p)
    && (forall q :: q in Asked(claim, p.device) ==> AskAccepted(w.driver, claim, p, q))
    && FactsOf(w.driver, claim, p) != {}
  }

  predicate Agree(f: Fact, g: Fact)
  {
    f.base == g.base ==> f.full == g.full && (f.key == g.key ==> f.content == g.content)
  }

  /** One subrequest for each request, one content for each of its devices. */
  predicate Consistent(facts: set<Fact>)
  {
    forall f, g {:trigger Agree(f, g)} :: f in facts && g in facts ==> Agree(f, g)
  }

  predicate Buildable(w: Writer, claim: Claim, ps: set<Prepared>)
  {
    && ClaimAccepted(w.driver, claim)
    && (forall p :: p in ps ==> DeviceAccepted(w, claim, p))
    && Consistent(AllFacts(w.driver, claim, ps))
  }

  // ----- Allocations and the requests they answer -----

  lemma MatchingBase(q: string, d: PreparedDevice, a: Allocation)
    requires RequestRef(q) && RequestRef(a.request) && Matches(q, d, a)
    ensures Base(a.request) == Base(q)
  {
    RefForm(q);
    RefForm(a.request);
    if a.request != q {
      var prefix := Base(q) + "/";
      StartsWith(a.request, prefix);
      var rest := a.request[|prefix|..];
      assert a.request == Base(q) + ("/" + rest);
      assert a.request[|Base(q)|] == '/';
      CutEqual(a.request, Base(q), rest, Base(a.request), SplitOnce(a.request, '/').value.1, '/');
    }
  }

  /** Every local allocation answers the request it names, in full or by its base. */
  lemma AllocationMatches(d: PreparedDevice, a: Allocation)
    requires RequestRef(a.request) && a.pool == d.pool && a.device == d.device
    ensures Matches(Base(a.request), d, a)
  {
    RefForm(a.request);
    var base := Base(a.request);
    SplitFirst(base, '/');
    if SplitOnce(a.request, '/').Some? {
      assert a.request == (base + "/") + SplitOnce(a.request, '/').value.1;
    }
  }

  // ----- Gathering -----

  /** The build's two accumulators: each base's full request name and its devices. */
  datatype Gathered = Gathered(full: map<string, string>, groups: map<string, map<Key, Content>>)

  predicate HasFact(g: Gathered, f: Fact)
  {
    && f.base in g.full && g.full[f.base] == f.full
    && f.base in g.groups && f.key in g.groups[f.base] && g.groups[f.base][f.key] == f.content
  }

  predicate FromFact(facts: set<Fact>, base: string)
  {
    exists f :: f in facts && f.base == base
  }

  predicate KeyFromFact(facts: set<Fact>, base: string, key: Key)
  {
    exists f :: f in facts && f.base == base && f.key == key
  }

  /** The accumulators hold exactly these facts. */
  ghost predicate Gathers(facts: set<Fact>, g: Gathered)
  {
    && g.full.Keys == g.groups.Keys
    && (forall f {:trigger HasFact(g, f)} :: f in facts ==> HasFact(g, f))
    && (forall b {:trigger FromFact(facts, b)} :: b in g.groups ==> FromFact(facts, b))
    && (forall b, k {:trigger KeyFromFact(facts, b, k)} :: b in g.groups && k in g.groups[b] ==> KeyFromFact(facts, b, k))
  }

  lemma GathersConsistent(facts: set<Fact>, g: Gathered)
    requires Gathers(facts, g)
    ensures Consistent(facts)
  {
    forall f, h | f in facts && h in facts
      ensures Agree(f, h)
    {
      assert HasFact(g, f) && HasFact(g, h);
    }
  }

  lemma FewerConsistent(few: set<Fact>, many: set<Fact>)
    requires few <= many && Consistent(many)
    ensures Consistent(few)
  {
  }

  /** Facts of one base, or of one base and key, stay where they were. */
  lemma FactsKept(few: set<Fact>, many: set<Fact>)
    requires few <= many
    ensures forall b {:trigger FromFact(many, b)} :: FromFact(few, b) ==> FromFact(many, b)
    ensures forall b, k {:trigger KeyFromFact(many, b, k)} :: KeyFromFact(few, b, k) ==> KeyFromFact(many, b, k)
  {
  }

  lemma NewFact(f: Fact, facts: set<Fact>)
    requires f in facts
    ensures FromFact(facts, f.base) && KeyFromFact(facts, f.base, f.key)
  {
  }

  function Devices(g: Gathered, base: string): map<Key, Content>
  {
    if base in g.groups then g.groups[base] else map[]
  }

  function Adding(g: Gathered, f: Fact): Gathered
  {
    Gathered(g.full[f.base := f.full], g.groups[f.base := Devices(g, f.base)[f.key := f.content]])
  }

  predicate Agrees(g: Gathered, f: Fact)
  {
    && (f.base in g.full ==> g.full[f.base] == f.full)
    && (f.key in Devices(g, f.base) ==> Devices(g, f.base)[f.key] == f.content)
  }

  lemma Kept(g: Gathered, f: Fact, h: Fact)
    requires HasFact(g, h) && Agrees(g, f)
    ensures HasFact(Adding(g, f), h)
  {
  }

  lemma Recorded(g: Gathered, f: Fact, facts: set<Fact>)
    requires Gathers(facts, g) && Agrees(g, f)
    ensures Gathers(facts + {f}, Adding(g, f))
  {
    var more := Adding(g, f);
    NewFact(f, facts + {f});
    FactsKept(facts, facts + {f});
    forall h | h in facts + {f}
      ensures HasFact(more, h)
    {
      if h in facts {
        Kept(g, f, h);
      }
    }
    forall b | b in more.groups
      ensures FromFact(facts + {f}, b)
    {
      assert b in g.groups ==> FromFact(facts, b);
    }
    forall b, k | b in more.groups && k in more.groups[b]
      ensures KeyFromFact(facts + {f}, b, k)
    {
      assert b in g.groups && k in g.groups[b] ==> KeyFromFact(facts, b, k);
    }
  }

  /** One more fact: refused exactly when it contradicts what is gathered. */
  method Record(g: Gathered, f: Fact, ghost facts: set<Fact>) returns (r: Result<Gathered, Error>)
    requires Gathers(facts, g)
    ensures r.Ok? <==> Consistent(facts + {f})
    ensures r.Ok? ==> Gathers(facts + {f}, r.value)
  {
    if f.base in g.full && g.full[f.base] != f.full {
      assert FromFact(facts, f.base);
      ghost var h :| h in facts && h.base == f.base;
      assert HasFact(g, h) && !Agree(h, f);
      return Err(ConflictingSubrequests);
    }
    var devices := Devices(g, f.base);
    if f.key in devices && devices[f.key] != f.content {
      assert KeyFromFact(facts, f.base, f.key);
      ghost var h :| h in facts && h.base == f.base && h.key == f.key;
      assert HasFact(g, h) && !Agree(h, f);
      return Err(ConflictingAttributes);
    }
    Recorded(g, f, facts);
    GathersConsistent(facts + {f}, Adding(g, f));
    r := Ok(Gathered(g.full[f.base := f.full], g.groups[f.base := devices[f.key := f.content]]));
  }

  lemma MoreFacts(driver: string, p: Prepared, q: string, matching: seq<Allocation>, i: nat)
    requires i < |matching|
    ensures Facts(driver, p, q, matching[..i + 1]) == Facts(driver, p, q, matching[..i]) + {FactOf(driver, p, q, matching[i])}
    ensures Facts(driver, p, q, matching[..i + 1]) <= Facts(driver, p, q, matching)
  {
    assert matching[..i + 1][..i] == matching[..i];
    FactsAre(driver, p, q, matching[..i + 1]);
    FactsAre(driver, p, q, matching);
  }

  lemma PartRefused(facts: set<Fact>, known: set<Fact>, all: set<Fact>)
    requires known <= facts + all && !Consistent(known)
    ensures !Consistent(facts + all)
  {
    if Consistent(facts + all) {
      FewerConsistent(known, facts + all);
    }
  }

  /** One request a device names: everything allocated to it here is recorded. */
  method RecordRequest(driver: string, claim: Claim, p: Prepared, q: string, g: Gathered, ghost facts: set<Fact>)
    returns (r: Result<Gathered, Error>, found: bool)
    requires Gathers(facts, g) && RequestRef(q) && ClaimAccepted(driver, claim)
    ensures r.Ok? ==> Gathers(facts + FactsFor(driver, claim, p, q), r.value)
    ensures r.Ok? ==> Consistent(facts + FactsFor(driver, claim, p, q))
    ensures Consistent(facts + FactsFor(driver, claim, p, q)) ==> r.Ok?
    ensures found <==> FactsFor(driver, claim, p, q) != {}
  {
    var matching := Matching(driver, claim, p.device, q);
    found := matching != [];
    var more := g;
    ghost var known := facts;
    for i := 0 to |matching|
      invariant known == facts + Facts(driver, p, q, matching[..i])
      invariant Gathers(known, more)
    {
      assert matching[i] in matching && AllocationAccepted(claim, matching[i]);
      MatchingBase(q, p.device, matching[i]);
      MoreFacts(driver, p, q, matching, i);
      var one := FactOf(driver, p, q, matching[i]);
      r := Record(more, one, known);
      known := known + {one};
      if r.Err? {
        PartRefused(facts, known, FactsFor(driver, claim, p, q));
        return;
      }
      more := r.value;
    }
    assert matching[..|matching|] == matching;
    GathersConsistent(known, more);
    r := Ok(more);
  }
}
