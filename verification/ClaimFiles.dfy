/** What the files of one claim may look like at any moment. */
module ClaimFiles {
  import opened Wrappers
  import opened Names
  import opened Artifacts
  import opened Disk
  import opened StoreFiles

  datatype ClaimRef = ClaimRef(namespace: string, name: string, uid: string)

  datatype PreparedDevice = PreparedDevice(requests: seq<string>, pool: string, device: string, cdi: seq<string>)

  datatype Journal = Journal(
    claim: ClaimRef, devices: seq<PreparedDevice>, documents: map<string, string>,
    driver: string, version: nat, specs: map<string, string>)

  /** One driver's store: its plugin-data root, and how journals are written and read back. */
  datatype Runtime = Runtime(driver: string, root: string, encode: Journal -> string, decode: string -> Option<Journal>)

  predicate Decodes(r: Runtime, j: Journal)
  {
    r.decode(r.encode(j)) == Some(j)
  }

  ghost predicate Lawful(r: Runtime)
  {
    Subdomain(r.driver, 63) && forall j :: Decodes(r, j)
  }

  predicate WellFormed(r: Runtime, uid: string, j: Journal)
  {
    && j.version == 1 && j.driver == r.driver && j.claim.uid == uid && Label(uid, 64)
    && j.documents.Keys == j.specs.Keys && forall q :: q in j.documents ==> Label(q, 63)
  }

  predicate Owned(r: Runtime, uid: string, place: Place)
  {
    match place
    case JournalPlace(root, u) => root == r.root && u == uid
    case DocumentPlace(root, u, _) => root == r.root && u == uid
    case SpecPlace(driver, u, _) => driver == r.driver && u == uid
  }

  predicate OwnedDir(r: Runtime, uid: string, dir: Dir)
  {
    match dir
    case ClaimDir(root, u) => root == r.root && u == uid
    case RequestDir(root, u, _) => root == r.root && u == uid
    case _ => false
  }

  function JournalAt(r: Runtime, uid: string): Place { JournalPlace(r.root, uid) }

  function DocumentAt(r: Runtime, uid: string, q: string): Place { DocumentPlace(r.root, uid, q) }

  function SpecAt(r: Runtime, uid: string, q: string): Place { SpecPlace(r.driver, uid, q) }

  /** The bytes a journal plans for a place of its claim. */
  function Planned(r: Runtime, j: Journal, place: Place): Option<string>
  {
    match place
    case JournalPlace(_, _) => Some(r.encode(j))
    case DocumentPlace(_, _, q) => if q in j.documents then Some(j.documents[q]) else None
    case SpecPlace(_, _, q) => if q in j.specs then Some(j.specs[q]) else None
  }

  ghost predicate AllDocuments(t: Tree, r: Runtime, j: Journal)
  {
    forall q :: q in j.documents ==> Main(DocumentAt(r, j.claim.uid, q)) in t.files
  }

  /** A planned file: a stage in any condition, or the whole planned content. */
  predicate AsPlanned(t: Tree, r: Runtime, j: Journal, f: File)
    requires f in t.files
  {
    var planned := Planned(r, j, f.place);
    planned.Some? && (f.stage.None? ==> t.files[f] == Bytes(planned.value) && |planned.value| <= LIMIT)
  }

  /** The claim's journal is there, and everything else of the claim is as it plans. */
  ghost predicate Journaled(t: Tree, r: Runtime, j: Journal)
  {
    && Main(JournalAt(r, j.claim.uid)) in t.files
    && (forall f :: f in t.files && Owned(r, j.claim.uid, f.place) ==> AsPlanned(t, r, j, f))
    && (forall q :: Main(SpecAt(r, j.claim.uid, q)) in t.files ==> AllDocuments(t, r, j))
    && (forall q :: RequestDir(r.root, j.claim.uid, q) in t.dirs ==> q in j.documents)
  }

  /** No journal, and nothing of the claim but journal stages. */
  ghost predicate Clean(t: Tree, r: Runtime, uid: string)
  {
    && (forall f :: f in t.files && Owned(r, uid, f.place) ==> f.place == JournalAt(r, uid) && f.stage.Some?)
    && (forall q :: RequestDir(r.root, uid, q) !in t.dirs)
  }

  /** What any interrupted run leaves of a claim. */
  ghost predicate ClaimState(t: Tree, r: Runtime, uid: string)
  {
    Clean(t, r, uid) || exists j :: WellFormed(r, uid, j) && Journaled(t, r, j)
  }

  /** Only this claim's files and directories differ; shared roots may have been created. */
  ghost predicate OnlyClaim(base: Tree, t: Tree, r: Runtime, uid: string)
  {
    && (forall f: File :: !Owned(r, uid, f.place) ==> (f in t.files <==> f in base.files))
    && (forall f :: f in base.files && !Owned(r, uid, f.place) ==> t.files[f] == base.files[f])
    && (forall d :: d in base.dirs && !OwnedDir(r, uid, d) ==> d in t.dirs)
    && (forall d :: d in t.dirs && !OwnedDir(r, uid, d) ==> d in base.dirs || d == LocalRoot(r.root) || d == MetadataRoot(r.root) || d == CdiRoot)
  }

  /** `after` extends `before` by allowed states. */
  ghost predicate Within(before: seq<Tree>, after: seq<Tree>, allowed: iset<Tree>)
  {
    && |before| <= |after| && after[..|before|] == before
    && forall k :: |before| <= k < |after| ==> after[k] in allowed
  }

  /** The states a run on this claim may pass through, from `base` on. */
  ghost function Allowed(base: Tree, r: Runtime, uid: string): iset<Tree>
  {
    iset t: Tree | ClaimState(t, r, uid) && OnlyClaim(base, t, r, uid)
  }

  ghost predicate Allows(allowed: iset<Tree>, base: Tree, r: Runtime, uid: string)
  {
    forall t :: ClaimState(t, r, uid) && OnlyClaim(base, t, r, uid) ==> t in allowed
  }

  // ----- What the invariant says -----

  /** A visible CDI spec has its journal and every planned document behind it, whole; a visible document has its journal. */
  ghost predicate Backed(t: Tree, r: Runtime, uid: string)
  {
    && (forall q :: Main(SpecAt(r, uid, q)) in t.files ==> exists j :: WellFormed(r, uid, j) && FullyBacked(t, r, j, q))
    && (forall q :: Main(DocumentAt(r, uid, q)) in t.files ==>
          exists j :: WellFormed(r, uid, j) && Holds(t, JournalAt(r, uid), r.encode(j)) && q in j.documents)
  }

  predicate Holds(t: Tree, place: Place, content: string)
  {
    Main(place) in t.files && t.files[Main(place)] == Bytes(content)
  }

  ghost predicate FullyBacked(t: Tree, r: Runtime, j: Journal, q: string)
  {
    && Holds(t, JournalAt(r, j.claim.uid), r.encode(j))
    && q in j.specs && Holds(t, SpecAt(r, j.claim.uid, q), j.specs[q])
    && forall d :: d in j.documents ==> Holds(t, DocumentAt(r, j.claim.uid, d), j.documents[d])
  }

  lemma StateIsBacked(t: Tree, r: Runtime, uid: string)
    requires ClaimState(t, r, uid)
    ensures Backed(t, r, uid)
  {
    if !Clean(t, r, uid) {
      var j :| WellFormed(r, uid, j) && Journaled(t, r, j);
      assert Holds(t, JournalAt(r, uid), r.encode(j)) by {
        assert AsPlanned(t, r, j, Main(JournalAt(r, uid)));
      }
      forall q | Main(SpecAt(r, uid, q)) in t.files
        ensures FullyBacked(t, r, j, q)
      {
        assert AsPlanned(t, r, j, Main(SpecAt(r, uid, q)));
        forall d | d in j.documents
          ensures Holds(t, DocumentAt(r, uid, d), j.documents[d])
        {
          assert AsPlanned(t, r, j, Main(DocumentAt(r, uid, d)));
        }
      }
      forall q | Main(DocumentAt(r, uid, q)) in t.files
        ensures q in j.documents
      {
        assert AsPlanned(t, r, j, Main(DocumentAt(r, uid, q)));
      }
    }
  }

  // ----- Steps -----

  lemma OnlyClaimThrough(a: Tree, b: Tree, c: Tree, r: Runtime, uid: string)
    requires OnlyClaim(a, b, r, uid) && OnlyClaim(b, c, r, uid)
    ensures OnlyClaim(a, c, r, uid)
  {
  }

  lemma WithinJoin(before: seq<Tree>, mid: seq<Tree>, after: seq<Tree>, allowed: iset<Tree>)
    requires Within(before, mid, allowed) && Within(mid, after, allowed)
    ensures Within(before, after, allowed)
  {
    assert after[..|before|] == mid[..|before|];
    forall k | |before| <= k < |after|
      ensures after[k] in allowed
    {
      if k < |mid| {
        assert after[k] == mid[k];
      }
    }
  }

  lemma PublishIsClaims(base: Tree, t: Tree, r: Runtime, uid: string, place: Place, content: string)
    requires OnlyPublishes(base, t, place, content) && Owned(r, uid, place)
    ensures OnlyClaim(base, t, r, uid)
  {
  }

  lemma RemoveIsClaims(base: Tree, t: Tree, r: Runtime, uid: string, place: Place)
    requires OnlyRemovesStages(base, t, place) && Owned(r, uid, place)
    ensures OnlyClaim(base, t, r, uid)
  {
  }

  /** Publishing a planned artifact keeps the claim as journaled; a spec waits for every document. */
  lemma JournaledPublish(t: Tree, u: Tree, r: Runtime, j: Journal, place: Place, content: string)
    requires Journaled(t, r, j) && OnlyPublishes(t, u, place, content)
    requires Owned(r, j.claim.uid, place) && Planned(r, j, place) == Some(content)
    requires place.SpecPlace? ==> AllDocuments(t, r, j)
    ensures Journaled(u, r, j)
  {
    forall f | f in u.files && Owned(r, j.claim.uid, f.place)
      ensures AsPlanned(u, r, j, f)
    {
      if f in t.files {
        assert AsPlanned(t, r, j, f);
      }
    }
    forall q | Main(SpecAt(r, j.claim.uid, q)) in u.files
      ensures AllDocuments(u, r, j)
    {
      assert AllDocuments(t, r, j);
    }
  }

  lemma JournaledRemove(t: Tree, u: Tree, r: Runtime, j: Journal, place: Place)
    requires Journaled(t, r, j) && OnlyRemovesStages(t, u, place)
    ensures Journaled(u, r, j)
  {
    forall f | f in u.files && Owned(r, j.claim.uid, f.place)
      ensures AsPlanned(u, r, j, f)
    {
      assert AsPlanned(t, r, j, f);
    }
    forall q | Main(SpecAt(r, j.claim.uid, q)) in u.files
      ensures AllDocuments(u, r, j)
    {
      assert AllDocuments(t, r, j);
    }
  }

  /** The journal appears whole or not at all. */
  lemma CleanPublish(t: Tree, u: Tree, r: Runtime, j: Journal)
    requires Clean(t, r, j.claim.uid) && WellFormed(r, j.claim.uid, j)
    requires OnlyPublishes(t, u, JournalAt(r, j.claim.uid), r.encode(j))
    ensures if Main(JournalAt(r, j.claim.uid)) in u.files then Journaled(u, r, j) else Clean(u, r, j.claim.uid)
    ensures ClaimState(u, r, j.claim.uid)
  {
    var uid := j.claim.uid;
    forall f | f in u.files && Owned(r, uid, f.place)
      ensures f.place == JournalAt(r, uid)
    {
      assert f.place != JournalAt(r, uid) ==> f in t.files;
    }
    forall q
      ensures Main(SpecAt(r, uid, q)) !in u.files
    {
      assert Owned(r, uid, Main(SpecAt(r, uid, q)).place);
    }
  }
}
