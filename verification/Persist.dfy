/** Publishing a claim's metadata: journal first, documents next, CDI references last. */
module Persist {
  import opened Wrappers
  import opened Names
  import opened Sorting
  import opened Artifacts
  import opened Disk
  import opened StoreFiles
  import opened ClaimFiles

  /** A claim's plan: what is recorded in its journal before anything else is visible. */
  datatype Plan = Plan(claim: ClaimRef, documents: map<string, string>, specs: map<string, string>, devices: seq<PreparedDevice>)

  function JournalOf(r: Runtime, plan: Plan): Journal
  {
    Journal(plan.claim, plan.devices, plan.documents, r.driver, 1, plan.specs)
  }

  predicate ValidPlan(plan: Plan)
  {
    Label(plan.claim.uid, 64) && plan.documents.Keys == plan.specs.Keys && forall q :: q in plan.documents ==> Label(q, 63)
  }

  // ----- Creating directories -----

  ghost predicate OnlyMakes(t: Tree, u: Tree, dir: Dir)
  {
    u == t || u == t.(dirs := t.dirs + {dir})
  }

  /** Made, or there already, and then opened. */
  method EnsureDir(volume: Volume, dir: Dir) returns (ok: bool)
    requires volume.Valid()
    modifies volume`tree, volume`outcomes, volume`trace
    ensures volume.Valid() && OnlyMakes(old(volume.tree), volume.tree, dir)
    ensures volume.trace == old(volume.trace) || volume.trace == old(volume.trace) + [volume.tree]
    ensures ok ==> dir in volume.tree.dirs
    ensures dir in old(volume.tree).dirs ==> volume.trace == old(volume.trace)
    ensures old(volume.outcomes) == [] ==> volume.outcomes == []
    ensures old(volume.outcomes) == [] && (Parent(dir).Some? ==> Parent(dir).value in old(volume.tree).dirs) ==> ok
  {
    var made := volume.Apply(MakeDir(dir));
    if made.Failed? || made.Missing? {
      return false;
    }
    var found := volume.Open(dir);
    return found.Okay?;
  }

  predicate SharedOrOwn(r: Runtime, uid: string, dir: Dir)
  {
    OwnedDir(r, uid, dir) || dir == LocalRoot(r.root) || dir == MetadataRoot(r.root) || dir == CdiRoot
  }

  lemma MakeKeepsState(base: Tree, t: Tree, u: Tree, r: Runtime, uid: string, dir: Dir)
    requires ClaimState(t, r, uid) && OnlyMakes(t, u, dir) && !dir.RequestDir? && SharedOrOwn(r, uid, dir)
    requires OnlyClaim(base, t, r, uid)
    ensures ClaimState(u, r, uid) && OnlyClaim(base, u, r, uid)
  {
    if Clean(t, r, uid) {
      assert Clean(u, r, uid);
    } else {
      var j :| WellFormed(r, uid, j) && Journaled(t, r, j);
      MakeKeepsJournaled(t, u, r, j, dir);
    }
  }

  lemma MakeKeepsJournaled(t: Tree, u: Tree, r: Runtime, j: Journal, dir: Dir)
    requires Journaled(t, r, j) && OnlyMakes(t, u, dir)
    requires dir.RequestDir? && dir.root == r.root && dir.uid == j.claim.uid ==> dir.request in j.documents
    ensures Journaled(u, r, j)
  {
    forall f | f in u.files && Owned(r, j.claim.uid, f.place)
      ensures AsPlanned(u, r, j, f)
    {
      assert AsPlanned(t, r, j, f);
    }
    forall q | Main(SpecAt(r, j.claim.uid, q)) in u.files
      ensures AllDocuments(u, r, j)
    {
      assert AllDocuments(t, r, j);
    }
  }

  lemma MakeIsOpening(start: seq<Tree>, before: seq<Tree>, after: seq<Tree>, base: Tree, s: Tree, t: Tree, u: Tree, r: Runtime, uid: string, dir: Dir,
                      allowed: iset<Tree>)
    requires ClaimState(t, r, uid) && OnlyMakes(t, u, dir) && !dir.RequestDir? && SharedOrOwn(r, uid, dir) && OnlyClaim(base, t, r, uid)
    requires Allows(allowed, base, r, uid) && OnlyOpens(s, t) && Within(start, before, allowed) && (after == before || after == before + [u])
    ensures ClaimState(u, r, uid) && OnlyClaim(base, u, r, uid) && OnlyOpens(s, u) && Within(start, after, allowed)
  {
    MakeKeepsState(base, t, u, r, uid, dir);
  }

  /** The roots and the claim's directory, from the outside in. */
  method OpenClaim(volume: Volume, r: Runtime, uid: string, ghost base: Tree, ghost allowed: iset<Tree>) returns (ok: bool)
    requires volume.Valid() && ClaimState(volume.tree, r, uid) && OnlyClaim(base, volume.tree, r, uid) && Allows(allowed, base, r, uid)
    modifies volume`tree, volume`outcomes, volume`trace
    ensures volume.Valid() && Within(old(volume.trace), volume.trace, allowed)
    ensures ClaimState(volume.tree, r, uid) && OnlyClaim(base, volume.tree, r, uid)
    ensures OnlyOpens(old(volume.tree), volume.tree)
    ensures ok ==> ClaimDir(r.root, uid) in volume.tree.dirs && CdiRoot in volume.tree.dirs
    ensures ClaimDir(r.root, uid) in old(volume.tree).dirs && CdiRoot in old(volume.tree).dirs ==> volume.trace == old(volume.trace)
    ensures old(volume.outcomes) == [] ==> volume.outcomes == [] && ok
  {
    ghost var idle := ClaimDir(r.root, uid) in volume.tree.dirs && CdiRoot in volume.tree.dirs;
    var dirs := [LocalRoot(r.root), MetadataRoot(r.root), ClaimDir(r.root, uid), CdiRoot];
    assert ClaimDir(r.root, uid) in volume.tree.dirs ==> Parent(ClaimDir(r.root, uid)).value in volume.tree.dirs;
    assert MetadataRoot(r.root) in volume.tree.dirs ==> Parent(MetadataRoot(r.root)).value in volume.tree.dirs;
    for i := 0 to |dirs|
      invariant volume.Valid() && Within(old(volume.trace), volume.trace, allowed)
      invariant ClaimState(volume.tree, r, uid) && OnlyClaim(base, volume.tree, r, uid)
      invariant OnlyOpens(old(volume.tree), volume.tree)
      invariant forall k :: 0 <= k < i ==> dirs[k] in volume.tree.dirs
      invariant idle ==> volume.trace == old(volume.trace) && volume.tree == old(volume.tree)
      invariant old(volume.outcomes) == [] ==> volume.outcomes == []
    {
      assert Parent(dirs[i]).Some? ==> Parent(dirs[i]).value == dirs[i - 1];
      ghost var t, before := volume.tree, volume.trace;
      ok := EnsureDir(volume, dirs[i]);
      MakeIsOpening(old(volume.trace), before, volume.trace, base, old(volume.tree), t, volume.tree, r, uid, dirs[i], allowed);
      if !ok {
        return;
      }
    }
    ok := true;
    assert dirs[2] in volume.tree.dirs && dirs[3] in volume.tree.dirs;
  }

  /** Directories outside requests may have been made. */
  ghost predicate OnlyOpens(t: Tree, u: Tree)
  {
    u.files == t.files && t.dirs <= u.dirs && forall d :: d in u.dirs ==> d in t.dirs || !d.RequestDir?
  }

  // ----- The journal -----

  lemma JournalFits(t: Tree, r: Runtime, j: Journal)
    ensures Journaled(t, r, j) ==> Holds(t, JournalAt(r, j.claim.uid), r.encode(j))
    ensures Clean(t, r, j.claim.uid) ==> Main(JournalAt(r, j.claim.uid)) !in t.files
  {
    if Journaled(t, r, j) {
      assert AsPlanned(t, r, j, Main(JournalAt(r, j.claim.uid)));
    }
    assert Owned(r, j.claim.uid, Main(JournalAt(r, j.claim.uid)).place);
  }

  lemma StateHasJournal(t: Tree, r: Runtime, uid: string)
    requires ClaimState(t, r, uid)
    ensures Main(JournalAt(r, uid)) in t.files <==> !Clean(t, r, uid)
  {
    assert Owned(r, uid, Main(JournalAt(r, uid)).place);
  }

  /** Journals that read alike are the same plan. */
  lemma SameJournal(t: Tree, r: Runtime, j: Journal)
    requires Lawful(r) && ClaimState(t, r, j.claim.uid) && Holds(t, JournalAt(r, j.claim.uid), r.encode(j))
    ensures Journaled(t, r, j)
  {
    StateHasJournal(t, r, j.claim.uid);
    var k :| WellFormed(r, j.claim.uid, k) && Journaled(t, r, k);
    assert AsPlanned(t, r, k, Main(JournalAt(r, j.claim.uid)));
    assert Decodes(r, k) && Decodes(r, j);
  }

  lemma JournalOutcome(before: seq<Tree>, after: seq<Tree>, base: Tree, t: Tree, u: Tree, r: Runtime, j: Journal, ok: bool, allowed: iset<Tree>)
    requires Lawful(r) && WellFormed(r, j.claim.uid, j) && ClaimState(t, r, j.claim.uid)
    requires OnlyClaim(base, t, r, j.claim.uid) && Allows(allowed, base, r, j.claim.uid)
    requires PublishSteps(before, after, t, JournalAt(r, j.claim.uid), r.encode(j))
    requires OnlyPublishes(t, u, JournalAt(r, j.claim.uid), r.encode(j))
    requires Main(JournalAt(r, j.claim.uid)) in t.files ==> after == before && u == t
    requires ok ==> Holds(u, JournalAt(r, j.claim.uid), r.encode(j))
    ensures Within(before, after, allowed) && ClaimState(u, r, j.claim.uid) && OnlyClaim(base, u, r, j.claim.uid)
    ensures ok ==> Journaled(u, r, j)
  {
    StateHasJournal(t, r, j.claim.uid);
    if Clean(t, r, j.claim.uid) {
      CleanPublish(t, u, r, j);
      PublishIsClaims(t, u, r, j.claim.uid, JournalAt(r, j.claim.uid), r.encode(j));
      OnlyClaimThrough(base, t, u, r, j.claim.uid);
      forall k | |before| <= k < |after|
        ensures after[k] in allowed
      {
        CleanPublish(t, after[k], r, j);
        PublishIsClaims(t, after[k], r, j.claim.uid, JournalAt(r, j.claim.uid), r.encode(j));
        OnlyClaimThrough(base, t, after[k], r, j.claim.uid);
      }
    } else if ok {
      SameJournal(t, r, j);
    }
  }

  /** No other plan is recorded for the claim, and this one's journal is not too long. */
  ghost predicate Recordable(t: Tree, r: Runtime, j: Journal)
  {
    |r.encode(j)| <= LIMIT && (Clean(t, r, j.claim.uid) || Journaled(t, r, j))
  }

  /** Recordable is what the journal file decides. */
  lemma RecordableMeans(t: Tree, r: Runtime, j: Journal)
    requires Lawful(r) && ClaimState(t, r, j.claim.uid)
    ensures Recordable(t, r, j) <==>
      (|r.encode(j)| <= LIMIT && (Main(JournalAt(r, j.claim.uid)) in t.files ==> t.files[Main(JournalAt(r, j.claim.uid))] == Bytes(r.encode(j))))
    ensures Journaled(t, r, j) ==> Main(JournalAt(r, j.claim.uid)) in t.files
  {
    JournalFits(t, r, j);
    StateHasJournal(t, r, j.claim.uid);
    if Holds(t, JournalAt(r, j.claim.uid), r.encode(j)) {
      SameJournal(t, r, j);
    }
  }

  /**
   * A journal is written once; a different one already there is never
   * replaced. Undisturbed, it is written exactly when the plan is recordable
   * and a stage can be made.
   */
  method PublishJournal(volume: Volume, r: Runtime, j: Journal, ghost base: Tree, ghost allowed: iset<Tree>) returns (ok: bool)
    requires volume.Valid() && Lawful(r) && WellFormed(r, j.claim.uid, j) && ClaimState(volume.tree, r, j.claim.uid)
    requires OnlyClaim(base, volume.tree, r, j.claim.uid) && Allows(allowed, base, r, j.claim.uid)
    modifies volume
    ensures volume.Valid() && Within(old(volume.trace), volume.trace, allowed)
    ensures ClaimState(volume.tree, r, j.claim.uid) && OnlyClaim(base, volume.tree, r, j.claim.uid)
    ensures old(volume.tree).dirs == volume.tree.dirs
    ensures ok ==> Journaled(volume.tree, r, j)
    ensures Journaled(old(volume.tree), r, j) ==> volume.trace == old(volume.trace)
    ensures volume.pid == old(volume.pid) && OnlyPublishes(old(volume.tree), volume.tree, JournalAt(r, j.claim.uid), r.encode(j))
    ensures old(volume.outcomes) == [] ==> volume.outcomes == []
    ensures old(volume.outcomes) == [] && ClaimDir(r.root, j.claim.uid) in old(volume.tree).dirs ==>
      (ok <==> Recordable(old(volume.tree), r, j) && Admits(old(volume.tree), JournalAt(r, j.claim.uid), volume.pid, old(volume.nextStage)))
    ensures old(volume.outcomes) == [] && ok ==>
      volume.nextStage == AfterStage(old(volume.tree), JournalAt(r, j.claim.uid), volume.pid, old(volume.nextStage))
  {
    ghost var t := volume.tree;
    RecordableMeans(t, r, j);
    ok := EnsureFile(volume, JournalAt(r, j.claim.uid), r.encode(j));
    JournalOutcome(old(volume.trace), volume.trace, base, t, volume.tree, r, j, ok, allowed);
  }

  // ----- One artifact -----

  /** Nothing outside the place changed. */
  ghost predicate OnlyAt(t: Tree, u: Tree, place: Place)
  {
    && t.dirs == u.dirs
    && (forall f: File :: f.place != place ==> (f in t.files <==> f in u.files))
    && (forall f :: f in t.files && f.place != place ==> t.files[f] == u.files[f])
  }

  /** The file is there and none of its stages are. */
  ghost predicate Finished(t: Tree, place: Place)
  {
    Main(place) in t.files && NoStages(t, place)
  }

  /** The safe states are closed under publishing that content at that place, and hold no other content there. */
  ghost predicate Absorbs(safe: iset<Tree>, place: Place, content: string)
  {
    && (forall t, u :: t in safe && OnlyPublishes(t, u, place, content) ==> u in safe)
    && (forall t, u :: t in safe && OnlyRemovesStages(t, u, place) ==> u in safe)
    && (forall t :: t in safe && Main(place) in t.files ==> t.files[Main(place)] == Bytes(content))
  }

  ghost predicate AbsorbsDir(safe: iset<Tree>, dir: Dir)
  {
    forall t, u :: t in safe && OnlyMakes(t, u, dir) ==> u in safe
  }

  ghost predicate AlwaysHas(safe: iset<Tree>, dir: Dir)
  {
    forall t :: t in safe ==> dir in t.dirs
  }

  lemma PublishedStays(t: Tree, u: Tree, place: Place)
    requires OnlyRemovesStages(t, u, place)
    ensures Main(place) in t.files ==> Main(place) in u.files
  {
  }

  lemma OnlyAtThrough(t: Tree, u: Tree, v: Tree, place: Place, content: string)
    requires OnlyPublishes(t, u, place, content) && OnlyRemovesStages(u, v, place)
    ensures OnlyAt(t, v, place)
  {
  }

  /** A planned document or spec: published whole, then its stages removed; every state on the way is safe. */
  method PublishArtifact(volume: Volume, place: Place, content: string, ghost safe: iset<Tree>) returns (ok: bool)
    requires volume.Valid() && Accepted(place) && volume.tree in safe && Absorbs(safe, place, content)
    modifies volume
    ensures volume.Valid() && Within(old(volume.trace), volume.trace, safe) && volume.tree in safe
    ensures OnlyAt(old(volume.tree), volume.tree, place)
    ensures ok ==> Finished(volume.tree, place)
    ensures Finished(old(volume.tree), place) ==> volume.trace == old(volume.trace)
    ensures volume.pid == old(volume.pid) && (old(volume.outcomes) == [] ==> volume.outcomes == [])
    ensures old(volume.outcomes) == [] && DirOf(place) in old(volume.tree).dirs ==>
      (ok <==> |content| <= LIMIT && Admits(old(volume.tree), place, volume.pid, old(volume.nextStage)))
    ensures old(volume.outcomes) == [] && ok ==> volume.nextStage == AfterStage(old(volume.tree), place, volume.pid, old(volume.nextStage))
  {
    ghost var t := volume.tree;
    ok := EnsureFile(volume, place, content);
    ghost var u := volume.tree;
    if ok {
      ok := RemoveStages(volume, place);
    }
    PublishedStays(u, volume.tree, place);
    OnlyAtThrough(t, u, volume.tree, place, content);
  }

  // ----- All artifacts of a plan -----

  lemma FinishedElsewhere(t: Tree, u: Tree, place: Place, other: Place)
    requires Finished(t, place) && OnlyAt(t, u, other) && other != place
    ensures Finished(u, place)
  {
  }

  method PublishDocument(volume: Volume, root: string, uid: string, q: string, content: string, ghost safe: iset<Tree>) returns (ok: bool)
    requires volume.Valid() && volume.tree in safe && Accepted(DocumentPlace(root, uid, q))
    requires Absorbs(safe, DocumentPlace(root, uid, q), content) && AbsorbsDir(safe, RequestDir(root, uid, q)) && AlwaysHas(safe, ClaimDir(root, uid))
    modifies volume
    ensures volume.Valid() && Within(old(volume.trace), volume.trace, safe) && volume.tree in safe
    ensures OnlyAt(Tree(volume.tree.dirs, old(volume.tree).files), volume.tree, DocumentPlace(root, uid, q))
    ensures ok ==> Finished(volume.tree, DocumentPlace(root, uid, q))
    ensures Finished(old(volume.tree), DocumentPlace(root, uid, q)) ==> volume.trace == old(volume.trace)
    ensures volume.pid == old(volume.pid) && (old(volume.outcomes) == [] ==> volume.outcomes == [])
    ensures old(volume.outcomes) == [] ==>
      (ok <==> |content| <= LIMIT && Admits(old(volume.tree), DocumentPlace(root, uid, q), volume.pid, old(volume.nextStage)))
    ensures old(volume.outcomes) == [] && ok ==>
      volume.nextStage == AfterStage(old(volume.tree), DocumentPlace(root, uid, q), volume.pid, old(volume.nextStage))
  {
    var place := DocumentPlace(root, uid, q);
    ghost var t := volume.tree;
    assert Main(place) in volume.tree.files ==> DirOf(place) in volume.tree.dirs;
    ok := EnsureDir(volume, RequestDir(root, uid, q));
    SameAdmits(t, volume.tree, place, volume.pid, volume.nextStage);
    ghost var mid := volume.trace;
    if !ok {
      return;
    }
    ok := PublishArtifact(volume, place, content, safe);
    WithinJoin(old(volume.trace), mid, volume.trace, safe);
  }

  predicate WithinLimit(contents: map<string, string>)
  {
    forall q :: q in contents ==> |contents[q]| <= LIMIT
  }

  predicate RequestNames(contents: map<string, string>)
  {
    forall q :: q in contents ==> Label(q, 63)
  }

  /** Every document outside `rest` is finished. */
  ghost predicate DocumentsDone(t: Tree, root: string, uid: string, documents: map<string, string>, rest: set<string>)
  {
    forall q {:trigger Finished(t, DocumentPlace(root, uid, q))} :: q in documents && q !in rest ==> Finished(t, DocumentPlace(root, uid, q))
  }

  ghost predicate SpecsDone(t: Tree, driver: string, uid: string, specs: map<string, string>, rest: set<string>)
  {
    forall q {:trigger Finished(t, SpecPlace(driver, uid, q))} :: q in specs && q !in rest ==> Finished(t, SpecPlace(driver, uid, q))
  }

  ghost predicate AbsorbsDocuments(safe: iset<Tree>, root: string, uid: string, documents: map<string, string>)
  {
    && AlwaysHas(safe, ClaimDir(root, uid))
    && forall q {:trigger Absorbs(safe, DocumentPlace(root, uid, q), documents[q])} :: q in documents ==>
         Absorbs(safe, DocumentPlace(root, uid, q), documents[q]) && AbsorbsDir(safe, RequestDir(root, uid, q))
  }

  ghost predicate AbsorbsSpecs(safe: iset<Tree>, driver: string, uid: string, specs: map<string, string>)
  {
    && AlwaysHas(safe, CdiRoot)
    && forall q {:trigger Absorbs(safe, SpecPlace(driver, uid, q), specs[q])} :: q in specs ==> Absorbs(safe, SpecPlace(driver, uid, q), specs[q])
  }

  lemma DocumentsDoneStep(t: Tree, u: Tree, root: string, uid: string, documents: map<string, string>, rest: set<string>, q: string)
    requires DocumentsDone(t, root, uid, documents, rest)
    requires OnlyAt(Tree(u.dirs, t.files), u, DocumentPlace(root, uid, q)) && Finished(u, DocumentPlace(root, uid, q))
    ensures DocumentsDone(u, root, uid, documents, rest - {q})
  {
    forall p | p in documents && p !in rest - {q}
      ensures Finished(u, DocumentPlace(root, uid, p))
    {
      if p != q {
        assert Finished(t, DocumentPlace(root, uid, p));
        FinishedElsewhere(Tree(u.dirs, t.files), u, DocumentPlace(root, uid, p), DocumentPlace(root, uid, q));
      }
    }
  }

  // ----- Undisturbed publication -----

  /** Where and as whom a publication starts. */
  datatype Start = Start(tree: Tree, pid: nat, next: nat)

  ghost function DocumentPlaces(root: string, uid: string, names: seq<string>): (places: seq<Place>)
    ensures |places| == |names| && forall k :: 0 <= k < |names| ==> places[k] == DocumentPlace(root, uid, names[k])
  {
    seq(|names|, k requires 0 <= k < |names| => DocumentPlace(root, uid, names[k]))
  }

  ghost function SpecPlaces(driver: string, uid: string, names: seq<string>): (places: seq<Place>)
    ensures |places| == |names| && forall k :: 0 <= k < |names| ==> places[k] == SpecPlace(driver, uid, names[k])
  {
    seq(|names|, k requires 0 <= k < |names| => SpecPlace(driver, uid, names[k]))
  }

  /** The first `i` artifacts were short enough and staged one after another; the later places are as at the start. */
  ghost predicate SoFar(start: Start, t: Tree, next: nat, names: seq<string>, contents: map<string, string>, places: seq<Place>, i: nat)
  {
    && i <= |places| == |names| && (forall k :: 0 <= k < i && names[k] in contents ==> |contents[names[k]]| <= LIMIT)
    && AdmitsAll(start.tree, places[..i], start.pid, start.next) && next == AfterAll(start.tree, places[..i], start.pid, start.next)
    && forall k :: i <= k < |places| ==> SameAt(start.tree, t, places[k])
  }

  /** Every artifact of these names can be published, in this order. */
  ghost predicate Publishes(start: Start, contents: map<string, string>, places: seq<Place>)
  {
    WithinLimit(contents) && AdmitsAll(start.tree, places, start.pid, start.next)
  }

  predicate DistinctPlaces(places: seq<Place>)
  {
    forall i, k :: 0 <= i < k < |places| ==> places[i] != places[k]
  }

  lemma SoFarNext(start: Start, t: Tree, u: Tree, next: nat, after: nat, names: seq<string>, contents: map<string, string>, places: seq<Place>, i: nat)
    requires SoFar(start, t, next, names, contents, places, i) && i < |places| && names[i] in contents && DistinctPlaces(places)
    requires forall f: File :: f.place != places[i] ==> (f in t.files <==> f in u.files)
    requires |contents[names[i]]| <= LIMIT && Admits(t, places[i], start.pid, next) && after == AfterStage(t, places[i], start.pid, next)
    ensures SoFar(start, u, after, names, contents, places, i + 1)
  {
    SameAdmits(start.tree, t, places[i], start.pid, next);
    AdmitsNext(start.tree, places, i, start.pid, start.next);
    forall k | i < k < |places|
      ensures SameAt(start.tree, u, places[k])
    {
      assert SameAt(start.tree, t, places[k]);
    }
  }

  lemma SoFarFails(start: Start, t: Tree, next: nat, names: seq<string>, contents: map<string, string>, places: seq<Place>, i: nat)
    requires SoFar(start, t, next, names, contents, places, i) && i < |places| && names[i] in contents
    requires !(|contents[names[i]]| <= LIMIT && Admits(t, places[i], start.pid, next))
    ensures !Publishes(start, contents, places)
  {
    SameAdmits(start.tree, t, places[i], start.pid, next);
    AdmitsNext(start.tree, places, i, start.pid, start.next);
    if AdmitsAll(start.tree, places, start.pid, start.next) {
      AdmitsPrefix(start.tree, places, i + 1, start.pid, start.next);
    }
  }

  lemma SoFarNone(start: Start, names: seq<string>, contents: map<string, string>, places: seq<Place>)
    requires |places| == |names|
    ensures SoFar(start, start.tree, start.next, names, contents, places, 0)
  {
  }

  lemma SoFarAll(start: Start, t: Tree, next: nat, names: seq<string>, contents: map<string, string>, places: seq<Place>)
    requires SoFar(start, t, next, names, contents, places, |places|) && forall q :: q in names <==> q in contents.Keys
    ensures Publishes(start, contents, places) && next == AfterAll(start.tree, places, start.pid, start.next)
  {
    assert places[..|places|] == places;
  }

  lemma NamesArePlaces(names: seq<string>, driver: string, root: string, uid: string)
    requires DistinctKeys(names, TextKey)
    ensures DistinctPlaces(DocumentPlaces(root, uid, names)) && DistinctPlaces(SpecPlaces(driver, uid, names))
  {
    forall i, k | 0 <= i < k < |names|
      ensures names[i] != names[k]
    {
      assert TextKey(names[i]) != TextKey(names[k]);
    }
  }

  /** Only documents may differ. */
  ghost predicate OnlyDocuments(t: Tree, u: Tree)
  {
    forall f: File :: !f.place.DocumentPlace? ==> (f in t.files <==> f in u.files)
  }

  /** One more document: finished, or the reason that not every document can be published. */
  method PublishNextDocument(volume: Volume, root: string, uid: string, documents: map<string, string>, names: seq<string>, i: nat,
                             ghost start: Start, ghost origin: seq<Tree>, ghost calm: bool, ghost safe: iset<Tree>) returns (ok: bool)
    requires volume.Valid() && volume.tree in safe && Label(uid, 64) && RequestNames(documents) && AbsorbsDocuments(safe, root, uid, documents)
    requires i < |names| && names[i] in documents && DistinctKeys(names, TextKey) && DocumentsDone(volume.tree, root, uid, documents, Later(names, i))
    requires Within(origin, volume.trace, safe)
    requires calm ==>
      volume.outcomes == [] && volume.pid == start.pid && SoFar(start, volume.tree, volume.nextStage, names, documents, DocumentPlaces(root, uid, names), i)
    modifies volume
    ensures volume.Valid() && Within(origin, volume.trace, safe) && volume.tree in safe
    ensures ok ==> DocumentsDone(volume.tree, root, uid, documents, Later(names, i + 1))
    ensures DocumentsDone(old(volume.tree), root, uid, documents, {}) ==> volume.trace == old(volume.trace) && volume.tree == old(volume.tree)
    ensures volume.pid == old(volume.pid) && OnlyDocuments(old(volume.tree), volume.tree) && (calm ==> volume.outcomes == [])
    ensures calm && ok ==> SoFar(start, volume.tree, volume.nextStage, names, documents, DocumentPlaces(root, uid, names), i + 1)
    ensures calm && !ok ==> !Publishes(start, documents, DocumentPlaces(root, uid, names))
  {
    var q := names[i];
    LaterNext(names, i);
    NamesArePlaces(names, "", root, uid);
    ghost var t, next, places := volume.tree, volume.nextStage, DocumentPlaces(root, uid, names);
    assert Absorbs(safe, DocumentPlace(root, uid, q), documents[q]);
    ghost var before := volume.trace;
    ok := PublishDocument(volume, root, uid, q, documents[q], safe);
    WithinJoin(origin, before, volume.trace, safe);
    if calm {
      if ok {
        SoFarNext(start, t, volume.tree, next, volume.nextStage, names, documents, places, i);
      } else {
        SoFarFails(start, t, next, names, documents, places, i);
      }
    }
    if ok {
      DocumentsDoneStep(t, volume.tree, root, uid, documents, Later(names, i), q);
    }
  }

  /** The documents in the order of their requests. */
  method PublishDocuments(volume: Volume, root: string, uid: string, documents: map<string, string>, ghost safe: iset<Tree>) returns (ok: bool)
    requires volume.Valid() && volume.tree in safe && Label(uid, 64) && RequestNames(documents) && AbsorbsDocuments(safe, root, uid, documents)
    modifies volume
    ensures volume.Valid() && Within(old(volume.trace), volume.trace, safe) && volume.tree in safe
    ensures ok ==> DocumentsDone(volume.tree, root, uid, documents, {})
    ensures DocumentsDone(old(volume.tree), root, uid, documents, {}) ==> volume.trace == old(volume.trace)
    ensures volume.pid == old(volume.pid) && OnlyDocuments(old(volume.tree), volume.tree)
    ensures old(volume.outcomes) == [] ==> volume.outcomes == []
    ensures old(volume.outcomes) == [] ==>
      (ok <==> Publishes(old(Start(volume.tree, volume.pid, volume.nextStage)), documents, DocumentPlaces(root, uid, Ordered(documents.Keys))))
    ensures old(volume.outcomes) == [] && ok ==>
      volume.nextStage == AfterAll(old(volume.tree), DocumentPlaces(root, uid, Ordered(documents.Keys)), volume.pid, old(volume.nextStage))
  {
    var names := SortedNames(documents.Keys);
    OrderedIs(names, documents.Keys);
    ghost var start, places := Start(volume.tree, volume.pid, volume.nextStage), DocumentPlaces(root, uid, names);
    ghost var idle := DocumentsDone(volume.tree, root, uid, documents, {});
    LaterAll(names, documents.Keys);
    SoFarNone(start, names, documents, places);
    for i := 0 to |names|
      invariant volume.Valid() && Within(old(volume.trace), volume.trace, safe) && volume.tree in safe
      invariant DocumentsDone(volume.tree, root, uid, documents, Later(names, i))
      invariant idle ==> volume.trace == old(volume.trace) && volume.tree == old(volume.tree)
      invariant volume.pid == start.pid && OnlyDocuments(start.tree, volume.tree)
      invariant old(volume.outcomes) == [] ==> volume.outcomes == []
      invariant old(volume.outcomes) == [] ==> SoFar(start, volume.tree, volume.nextStage, names, documents, places, i)
    {
      assert names[i] in documents;
      ok := PublishNextDocument(volume, root, uid, documents, names, i, start, old(volume.trace), old(volume.outcomes) == [], safe);
      if !ok {
        return;
      }
    }
    if old(volume.outcomes) == [] {
      SoFarAll(start, volume.tree, volume.nextStage, names, documents, places);
    }
    ok := true;
  }

  lemma SpecsDoneStep(t: Tree, u: Tree, driver: string, uid: string, specs: map<string, string>, rest: set<string>, q: string)
    requires SpecsDone(t, driver, uid, specs, rest)
    requires OnlyAt(t, u, SpecPlace(driver, uid, q)) && Finished(u, SpecPlace(driver, uid, q))
    ensures SpecsDone(u, driver, uid, specs, rest - {q})
  {
    forall p | p in specs && p !in rest - {q}
      ensures Finished(u, SpecPlace(driver, uid, p))
    {
      if p != q {
        FinishedElsewhere(t, u, SpecPlace(driver, uid, p), SpecPlace(driver, uid, q));
      }
    }
  }

  /** One more spec: finished, or the reason that not every spec can be published. */
  method PublishNextSpec(volume: Volume, driver: string, uid: string, specs: map<string, string>, names: seq<string>, i: nat,
                         ghost start: Start, ghost origin: seq<Tree>, ghost calm: bool, ghost safe: iset<Tree>) returns (ok: bool)
    requires volume.Valid() && volume.tree in safe && Subdomain(driver, 63) && Label(uid, 64) && RequestNames(specs) && AbsorbsSpecs(safe, driver, uid, specs)
    requires i < |names| && names[i] in specs && DistinctKeys(names, TextKey) && SpecsDone(volume.tree, driver, uid, specs, Later(names, i))
    requires Within(origin, volume.trace, safe)
    requires calm ==>
      volume.outcomes == [] && volume.pid == start.pid && SoFar(start, volume.tree, volume.nextStage, names, specs, SpecPlaces(driver, uid, names), i)
    modifies volume
    ensures volume.Valid() && Within(origin, volume.trace, safe) && volume.tree in safe
    ensures ok ==> SpecsDone(volume.tree, driver, uid, specs, Later(names, i + 1))
    ensures SpecsDone(old(volume.tree), driver, uid, specs, {}) ==> volume.trace == old(volume.trace) && volume.tree == old(volume.tree)
    ensures volume.pid == old(volume.pid) && (calm ==> volume.outcomes == [])
    ensures calm && ok ==> SoFar(start, volume.tree, volume.nextStage, names, specs, SpecPlaces(driver, uid, names), i + 1)
    ensures calm && !ok ==> !Publishes(start, specs, SpecPlaces(driver, uid, names))
  {
    var q := names[i];
    LaterNext(names, i);
    NamesArePlaces(names, driver, "", uid);
    ghost var t, next, places := volume.tree, volume.nextStage, SpecPlaces(driver, uid, names);
    assert Absorbs(safe, SpecPlace(driver, uid, q), specs[q]);
    ghost var before := volume.trace;
    ok := PublishArtifact(volume, SpecPlace(driver, uid, q), specs[q], safe);
    WithinJoin(origin, before, volume.trace, safe);
    if calm {
      if ok {
        SoFarNext(start, t, volume.tree, next, volume.nextStage, names, specs, places, i);
      } else {
        SoFarFails(start, t, next, names, specs, places, i);
      }
    }
    if ok {
      SpecsDoneStep(t, volume.tree, driver, uid, specs, Later(names, i), q);
    }
  }

  /** The specs in the order of their requests. */
  method PublishSpecs(volume: Volume, driver: string, uid: string, specs: map<string, string>, ghost safe: iset<Tree>) returns (ok: bool)
    requires volume.Valid() && volume.tree in safe && Subdomain(driver, 63) && Label(uid, 64) && RequestNames(specs)
    requires AbsorbsSpecs(safe, driver, uid, specs)
    modifies volume
    ensures volume.Valid() && Within(old(volume.trace), volume.trace, safe) && volume.tree in safe
    ensures ok ==> SpecsDone(volume.tree, driver, uid, specs, {})
    ensures SpecsDone(old(volume.tree), driver, uid, specs, {}) ==> volume.trace == old(volume.trace)
    ensures old(volume.outcomes) == [] ==> volume.outcomes == []
    ensures old(volume.outcomes) == [] ==>
      (ok <==> Publishes(old(Start(volume.tree, volume.pid, volume.nextStage)), specs, SpecPlaces(driver, uid, Ordered(specs.Keys))))
  {
    var names := SortedNames(specs.Keys);
    OrderedIs(names, specs.Keys);
    ghost var start, places := Start(volume.tree, volume.pid, volume.nextStage), SpecPlaces(driver, uid, names);
    ghost var idle := SpecsDone(volume.tree, driver, uid, specs, {});
    LaterAll(names, specs.Keys);
    SoFarNone(start, names, specs, places);
    for i := 0 to |names|
      invariant volume.Valid() && Within(old(volume.trace), volume.trace, safe) && volume.tree in safe
      invariant SpecsDone(volume.tree, driver, uid, specs, Later(names, i))
      invariant idle ==> volume.trace == old(volume.trace) && volume.tree == old(volume.tree)
      invariant volume.pid == start.pid
      invariant old(volume.outcomes) == [] ==> volume.outcomes == []
      invariant old(volume.outcomes) == [] ==> SoFar(start, volume.tree, volume.nextStage, names, specs, places, i)
    {
      assert names[i] in specs;
      ok := PublishNextSpec(volume, driver, uid, specs, names, i, start, old(volume.trace), old(volume.outcomes) == [], safe);
      if !ok {
        return;
      }
    }
    if old(volume.outcomes) == [] {
      SoFarAll(start, volume.tree, volume.nextStage, names, specs, places);
    }
    ok := true;
  }

  // ----- Why every state is safe -----

  /** A run on a recorded plan: as planned, and nothing but this claim touched since `base`. */
  ghost predicate Running(base: Tree, t: Tree, r: Runtime, j: Journal)
  {
    && Journaled(t, r, j) && OnlyClaim(base, t, r, j.claim.uid)
    && ClaimDir(r.root, j.claim.uid) in t.dirs && CdiRoot in t.dirs
  }

  ghost function RunningStates(base: Tree, r: Runtime, j: Journal): iset<Tree>
  {
    iset t: Tree | Running(base, t, r, j)
  }

  ghost predicate Ready(base: Tree, t: Tree, r: Runtime, j: Journal)
  {
    Running(base, t, r, j) && DocumentsDone(t, r.root, j.claim.uid, j.documents, {})
  }

  ghost function ReadyStates(base: Tree, r: Runtime, j: Journal): iset<Tree>
  {
    iset t: Tree | Ready(base, t, r, j)
  }

  lemma RunningPublish(base: Tree, t: Tree, u: Tree, r: Runtime, j: Journal, place: Place, content: string)
    requires Running(base, t, r, j) && OnlyPublishes(t, u, place, content)
    requires Owned(r, j.claim.uid, place) && Planned(r, j, place) == Some(content)
    requires place.SpecPlace? ==> AllDocuments(t, r, j)
    ensures Running(base, u, r, j)
  {
    JournaledPublish(t, u, r, j, place, content);
    PublishIsClaims(t, u, r, j.claim.uid, place, content);
    OnlyClaimThrough(base, t, u, r, j.claim.uid);
  }

  lemma RunningRemove(base: Tree, t: Tree, u: Tree, r: Runtime, j: Journal, place: Place)
    requires Running(base, t, r, j) && OnlyRemovesStages(t, u, place) && Owned(r, j.claim.uid, place)
    ensures Running(base, u, r, j)
  {
    JournaledRemove(t, u, r, j, place);
    RemoveIsClaims(t, u, r, j.claim.uid, place);
    OnlyClaimThrough(base, t, u, r, j.claim.uid);
  }

  lemma RunningFits(base: Tree, t: Tree, r: Runtime, j: Journal, place: Place, content: string)
    requires Running(base, t, r, j) && Owned(r, j.claim.uid, place) && Planned(r, j, place) == Some(content)
    ensures Main(place) in t.files ==> t.files[Main(place)] == Bytes(content)
  {
    if Main(place) in t.files {
      assert AsPlanned(t, r, j, Main(place));
    }
  }

  lemma RunningMake(base: Tree, t: Tree, u: Tree, r: Runtime, j: Journal, q: string)
    requires Running(base, t, r, j) && OnlyMakes(t, u, RequestDir(r.root, j.claim.uid, q)) && q in j.documents
    ensures Running(base, u, r, j)
  {
    MakeKeepsJournaled(t, u, r, j, RequestDir(r.root, j.claim.uid, q));
  }

  lemma RunningAbsorbs(base: Tree, r: Runtime, j: Journal, place: Place, content: string)
    requires Owned(r, j.claim.uid, place) && Planned(r, j, place) == Some(content) && !place.SpecPlace?
    ensures Absorbs(RunningStates(base, r, j), place, content)
  {
    forall t, u | Running(base, t, r, j) && OnlyPublishes(t, u, place, content)
      ensures Running(base, u, r, j)
    {
      RunningPublish(base, t, u, r, j, place, content);
    }
    forall t, u | Running(base, t, r, j) && OnlyRemovesStages(t, u, place)
      ensures Running(base, u, r, j)
    {
      RunningRemove(base, t, u, r, j, place);
    }
    forall t | Running(base, t, r, j) && Main(place) in t.files
      ensures t.files[Main(place)] == Bytes(content)
    {
      RunningFits(base, t, r, j, place, content);
    }
  }

  lemma RunningAbsorbsDocuments(base: Tree, r: Runtime, j: Journal)
    ensures AbsorbsDocuments(RunningStates(base, r, j), r.root, j.claim.uid, j.documents)
  {
    var safe := RunningStates(base, r, j);
    forall q | q in j.documents
      ensures Absorbs(safe, DocumentPlace(r.root, j.claim.uid, q), j.documents[q]) && AbsorbsDir(safe, RequestDir(r.root, j.claim.uid, q))
    {
      RunningAbsorbs(base, r, j, DocumentPlace(r.root, j.claim.uid, q), j.documents[q]);
      forall t, u | Running(base, t, r, j) && OnlyMakes(t, u, RequestDir(r.root, j.claim.uid, q))
        ensures Running(base, u, r, j)
      {
        RunningMake(base, t, u, r, j, q);
      }
    }
  }

  lemma ReadyHasDocuments(base: Tree, t: Tree, r: Runtime, j: Journal)
    requires Ready(base, t, r, j)
    ensures AllDocuments(t, r, j)
  {
    forall q | q in j.documents
      ensures Main(DocumentAt(r, j.claim.uid, q)) in t.files
    {
      assert Finished(t, DocumentPlace(r.root, j.claim.uid, q));
    }
  }

  lemma ReadyElsewhere(t: Tree, u: Tree, r: Runtime, j: Journal, place: Place, content: string)
    requires DocumentsDone(t, r.root, j.claim.uid, j.documents, {}) && !place.DocumentPlace?
    requires OnlyPublishes(t, u, place, content) || OnlyRemovesStages(t, u, place)
    ensures DocumentsDone(u, r.root, j.claim.uid, j.documents, {})
  {
    forall q | q in j.documents
      ensures Finished(u, DocumentPlace(r.root, j.claim.uid, q))
    {
      assert Finished(t, DocumentPlace(r.root, j.claim.uid, q));
    }
  }

  lemma ReadyAbsorbs(base: Tree, r: Runtime, j: Journal, q: string)
    requires q in j.specs
    ensures Absorbs(ReadyStates(base, r, j), SpecPlace(r.driver, j.claim.uid, q), j.specs[q])
  {
    var place, content := SpecPlace(r.driver, j.claim.uid, q), j.specs[q];
    forall t, u | Ready(base, t, r, j) && OnlyPublishes(t, u, place, content)
      ensures Ready(base, u, r, j)
    {
      ReadyHasDocuments(base, t, r, j);
      RunningPublish(base, t, u, r, j, place, content);
      ReadyElsewhere(t, u, r, j, place, content);
    }
    forall t, u | Ready(base, t, r, j) && OnlyRemovesStages(t, u, place)
      ensures Ready(base, u, r, j)
    {
      RunningRemove(base, t, u, r, j, place);
      ReadyElsewhere(t, u, r, j, place, content);
    }
    forall t | Ready(base, t, r, j) && Main(place) in t.files
      ensures t.files[Main(place)] == Bytes(content)
    {
      RunningFits(base, t, r, j, place, content);
    }
  }

  lemma ReadyAbsorbsSpecs(base: Tree, r: Runtime, j: Journal)
    ensures AbsorbsSpecs(ReadyStates(base, r, j), r.driver, j.claim.uid, j.specs)
  {
    forall q | q in j.specs
      ensures Absorbs(ReadyStates(base, r, j), SpecPlace(r.driver, j.claim.uid, q), j.specs[q])
    {
      ReadyAbsorbs(base, r, j, q);
    }
  }

  lemma WithinSubset(before: seq<Tree>, after: seq<Tree>, safe: iset<Tree>, allowed: iset<Tree>)
    requires Within(before, after, safe) && safe <= allowed
    ensures Within(before, after, allowed)
  {
  }

  lemma RunningIsAllowed(base: Tree, r: Runtime, j: Journal, allowed: iset<Tree>)
    requires WellFormed(r, j.claim.uid, j) && Allows(allowed, base, r, j.claim.uid)
    ensures RunningStates(base, r, j) <= allowed && ReadyStates(base, r, j) <= allowed
  {
    forall t | Running(base, t, r, j)
      ensures t in allowed
    {
      assert ClaimState(t, r, j.claim.uid);
    }
  }

  // ----- The publication -----

  /** Everything planned is there and nothing of it is in flight. */
  ghost predicate Published(t: Tree, r: Runtime, j: Journal)
  {
    && Journaled(t, r, j) && Finished(t, JournalAt(r, j.claim.uid))
    && DocumentsDone(t, r.root, j.claim.uid, j.documents, {}) && SpecsDone(t, r.driver, j.claim.uid, j.specs, {})
    && ClaimDir(r.root, j.claim.uid) in t.dirs && CdiRoot in t.dirs
  }

  /** A published claim owns exactly its planned files, with exactly the planned bytes. */
  lemma PublishedExactly(t: Tree, r: Runtime, j: Journal, f: File)
    requires WellFormed(r, j.claim.uid, j) && Published(t, r, j) && Owned(r, j.claim.uid, f.place)
    ensures f in t.files <==> f.stage.None? && Planned(r, j, f.place).Some?
    ensures f in t.files ==> t.files[f] == Bytes(Planned(r, j, f.place).value)
  {
    if f in t.files {
      assert AsPlanned(t, r, j, f);
      assert Finished(t, f.place);
    }
    if f.stage.None? && Planned(r, j, f.place).Some? {
      assert Finished(t, f.place) && f == Main(f.place);
    }
  }

  ghost function PlanDocuments(r: Runtime, j: Journal): seq<Place>
  {
    DocumentPlaces(r.root, j.claim.uid, Ordered(j.documents.Keys))
  }

  ghost function PlanSpecs(r: Runtime, j: Journal): seq<Place>
  {
    SpecPlaces(r.driver, j.claim.uid, Ordered(j.specs.Keys))
  }

  /** Everything a plan stages, in the order it is staged. */
  ghost function PlanPlaces(r: Runtime, j: Journal): seq<Place>
  {
    [JournalAt(r, j.claim.uid)] + (PlanDocuments(r, j) + PlanSpecs(r, j))
  }

  /** No content is too long, and every artifact can be staged when its turn comes. */
  ghost predicate Fits(start: Start, r: Runtime, j: Journal, places: seq<Place>)
  {
    WithinLimit(j.documents) && WithinLimit(j.specs) && AdmitsAll(start.tree, places, start.pid, start.next)
  }

  lemma FitsByParts(start: Start, t: Tree, next: nat, r: Runtime, j: Journal)
    requires OnlyDocuments(start.tree, t) && next == AfterAll(start.tree, PlanDocuments(r, j), start.pid, start.next)
    ensures Publishes(start, j.documents, PlanDocuments(r, j)) && Publishes(Start(t, start.pid, next), j.specs, PlanSpecs(r, j)) <==>
      Fits(start, r, j, PlanDocuments(r, j) + PlanSpecs(r, j))
  {
    AdmitsConcat(start.tree, PlanDocuments(r, j), PlanSpecs(r, j), start.pid, start.next);
    SameAdmitsAll(start.tree, t, PlanSpecs(r, j), start.pid, next);
  }

  lemma FitsNeedsDocuments(start: Start, r: Runtime, j: Journal)
    requires Fits(start, r, j, PlanDocuments(r, j) + PlanSpecs(r, j))
    ensures Publishes(start, j.documents, PlanDocuments(r, j))
  {
    AdmitsConcat(start.tree, PlanDocuments(r, j), PlanSpecs(r, j), start.pid, start.next);
  }

  lemma FitsAfterJournal(t: Tree, u: Tree, pid: nat, next: nat, after: nat, r: Runtime, j: Journal)
    requires forall f: File :: f.place != JournalAt(r, j.claim.uid) ==> (f in t.files <==> f in u.files)
    requires after == AfterStage(t, JournalAt(r, j.claim.uid), pid, next)
    ensures Admits(t, JournalAt(r, j.claim.uid), pid, next) && Fits(Start(u, pid, after), r, j, PlanDocuments(r, j) + PlanSpecs(r, j)) <==>
      Fits(Start(t, pid, next), r, j, PlanPlaces(r, j))
  {
    var journal, rest := [JournalAt(r, j.claim.uid)], PlanDocuments(r, j) + PlanSpecs(r, j);
    AdmitsConcat(t, journal, rest, pid, next);
    assert journal[..0] == [];
    SameAdmitsAll(t, u, rest, pid, after);
  }

  lemma FitsNeedsJournal(t: Tree, pid: nat, next: nat, r: Runtime, j: Journal)
    ensures Fits(Start(t, pid, next), r, j, PlanPlaces(r, j)) ==> Admits(t, JournalAt(r, j.claim.uid), pid, next)
  {
    var journal := [JournalAt(r, j.claim.uid)];
    AdmitsConcat(t, journal, PlanDocuments(r, j) + PlanSpecs(r, j), pid, next);
    assert journal[..0] == [];
  }

  /** Opening the directories changes nothing that decides success. */
  lemma FitsAfterOpen(t: Tree, u: Tree, pid: nat, next: nat, r: Runtime, j: Journal)
    requires Lawful(r) && OnlyOpens(t, u) && ClaimState(t, r, j.claim.uid) && ClaimState(u, r, j.claim.uid)
    ensures Recordable(t, r, j) <==> Recordable(u, r, j)
    ensures Fits(Start(t, pid, next), r, j, PlanPlaces(r, j)) <==> Fits(Start(u, pid, next), r, j, PlanPlaces(r, j))
  {
    RecordableMeans(t, r, j);
    RecordableMeans(u, r, j);
    SameAdmitsAll(t, u, PlanPlaces(r, j), pid, next);
  }

  method PublishAllDocuments(volume: Volume, r: Runtime, j: Journal, ghost base: Tree, ghost allowed: iset<Tree>) returns (ok: bool)
    requires volume.Valid() && WellFormed(r, j.claim.uid, j) && Running(base, volume.tree, r, j) && Allows(allowed, base, r, j.claim.uid)
    modifies volume
    ensures volume.Valid() && Within(old(volume.trace), volume.trace, allowed) && Running(base, volume.tree, r, j)
    ensures ok ==> Ready(base, volume.tree, r, j)
    ensures Ready(base, old(volume.tree), r, j) ==> volume.trace == old(volume.trace)
    ensures volume.pid == old(volume.pid) && OnlyDocuments(old(volume.tree), volume.tree)
    ensures old(volume.outcomes) == [] ==> volume.outcomes == []
    ensures old(volume.outcomes) == [] ==> (ok <==> Publishes(old(Start(volume.tree, volume.pid, volume.nextStage)), j.documents, PlanDocuments(r, j)))
    ensures old(volume.outcomes) == [] && ok ==> volume.nextStage == AfterAll(old(volume.tree), PlanDocuments(r, j), volume.pid, old(volume.nextStage))
  {
    ghost var safe := RunningStates(base, r, j);
    RunningAbsorbsDocuments(base, r, j);
    RunningIsAllowed(base, r, j, allowed);
    ok := PublishDocuments(volume, r.root, j.claim.uid, j.documents, safe);
    WithinSubset(old(volume.trace), volume.trace, safe, allowed);
  }

  /** The first CDI reference becomes visible only when every document is there. */
  method PublishAllSpecs(volume: Volume, r: Runtime, j: Journal, ghost base: Tree, ghost allowed: iset<Tree>) returns (ok: bool)
    requires volume.Valid() && Lawful(r) && WellFormed(r, j.claim.uid, j) && Ready(base, volume.tree, r, j) && Allows(allowed, base, r, j.claim.uid)
    modifies volume
    ensures volume.Valid() && Within(old(volume.trace), volume.trace, allowed) && Ready(base, volume.tree, r, j)
    ensures ok ==> SpecsDone(volume.tree, r.driver, j.claim.uid, j.specs, {})
    ensures SpecsDone(old(volume.tree), r.driver, j.claim.uid, j.specs, {}) ==> volume.trace == old(volume.trace)
    ensures old(volume.outcomes) == [] ==> volume.outcomes == []
    ensures old(volume.outcomes) == [] ==> (ok <==> Publishes(old(Start(volume.tree, volume.pid, volume.nextStage)), j.specs, PlanSpecs(r, j)))
  {
    ghost var safe := ReadyStates(base, r, j);
    ReadyAbsorbsSpecs(base, r, j);
    RunningIsAllowed(base, r, j, allowed);
    ok := PublishSpecs(volume, r.driver, j.claim.uid, j.specs, safe);
    WithinSubset(old(volume.trace), volume.trace, safe, allowed);
  }

  lemma SpecsElsewhere(t: Tree, u: Tree, r: Runtime, j: Journal)
    requires SpecsDone(t, r.driver, j.claim.uid, j.specs, {}) && OnlyRemovesStages(t, u, JournalAt(r, j.claim.uid))
    ensures SpecsDone(u, r.driver, j.claim.uid, j.specs, {})
  {
    forall q | q in j.specs
      ensures Finished(u, SpecPlace(r.driver, j.claim.uid, q))
    {
      assert Finished(t, SpecPlace(r.driver, j.claim.uid, q));
    }
  }

  lemma JournalStagesRemoved(before: seq<Tree>, after: seq<Tree>, base: Tree, t: Tree, u: Tree, r: Runtime, j: Journal, allowed: iset<Tree>)
    requires WellFormed(r, j.claim.uid, j) && Ready(base, t, r, j) && SpecsDone(t, r.driver, j.claim.uid, j.specs, {})
    requires Allows(allowed, base, r, j.claim.uid)
    requires RemoveSteps(before, after, t, JournalAt(r, j.claim.uid)) && OnlyRemovesStages(t, u, JournalAt(r, j.claim.uid))
    ensures Within(before, after, allowed) && Ready(base, u, r, j) && SpecsDone(u, r.driver, j.claim.uid, j.specs, {})
  {
    RunningIsAllowed(base, r, j, allowed);
    forall k | |before| <= k < |after|
      ensures after[k] in allowed
    {
      RunningRemove(base, t, after[k], r, j, JournalAt(r, j.claim.uid));
      assert after[k] in RunningStates(base, r, j);
    }
    RunningRemove(base, t, u, r, j, JournalAt(r, j.claim.uid));
    ReadyElsewhere(t, u, r, j, JournalAt(r, j.claim.uid), "");
    SpecsElsewhere(t, u, r, j);
  }

  /** The stages of an earlier attempt at the journal go last. */
  method FinishJournal(volume: Volume, r: Runtime, j: Journal, ghost base: Tree, ghost allowed: iset<Tree>) returns (ok: bool)
    requires volume.Valid() && WellFormed(r, j.claim.uid, j) && Ready(base, volume.tree, r, j) && Allows(allowed, base, r, j.claim.uid)
    requires SpecsDone(volume.tree, r.driver, j.claim.uid, j.specs, {})
    modifies volume`tree, volume`outcomes, volume`trace
    ensures volume.Valid() && Within(old(volume.trace), volume.trace, allowed) && Ready(base, volume.tree, r, j)
    ensures ok ==> Published(volume.tree, r, j)
    ensures Finished(old(volume.tree), JournalAt(r, j.claim.uid)) ==> volume.trace == old(volume.trace)
    ensures old(volume.outcomes) == [] ==> volume.outcomes == [] && ok
  {
    ghost var t := volume.tree;
    ok := RemoveStages(volume, JournalAt(r, j.claim.uid));
    JournalStagesRemoved(old(volume.trace), volume.trace, base, t, volume.tree, r, j, allowed);
  }

  /** Every document, then every spec. */
  method PublishArtifacts(volume: Volume, r: Runtime, j: Journal, ghost base: Tree, ghost allowed: iset<Tree>) returns (ok: bool)
    requires volume.Valid() && Lawful(r) && WellFormed(r, j.claim.uid, j) && Running(base, volume.tree, r, j) && Allows(allowed, base, r, j.claim.uid)
    modifies volume
    ensures volume.Valid() && Within(old(volume.trace), volume.trace, allowed) && Running(base, volume.tree, r, j)
    ensures ok ==> Ready(base, volume.tree, r, j) && SpecsDone(volume.tree, r.driver, j.claim.uid, j.specs, {})
    ensures Published(old(volume.tree), r, j) ==> volume.trace == old(volume.trace)
    ensures old(volume.outcomes) == [] ==> volume.outcomes == []
    ensures old(volume.outcomes) == [] ==>
      (ok <==> Fits(old(Start(volume.tree, volume.pid, volume.nextStage)), r, j, PlanDocuments(r, j) + PlanSpecs(r, j)))
  {
    ghost var idle, t, s0 := Published(volume.tree, r, j), volume.tree, volume.trace;
    ghost var start := Start(volume.tree, volume.pid, volume.nextStage);
    if Fits(start, r, j, PlanDocuments(r, j) + PlanSpecs(r, j)) {
      FitsNeedsDocuments(start, r, j);
    }
    ok := PublishAllDocuments(volume, r, j, base, allowed);
    assert idle ==> volume.trace == s0 && volume.tree == t;
    if !ok {
      return;
    }
    if old(volume.outcomes) == [] {
      FitsByParts(start, volume.tree, volume.nextStage, r, j);
    }
    ghost var s1 := volume.trace;
    ok := PublishAllSpecs(volume, r, j, base, allowed);
    WithinJoin(old(volume.trace), s1, volume.trace, allowed);
  }

  lemma RunningIsState(base: Tree, t: Tree, r: Runtime, j: Journal)
    requires WellFormed(r, j.claim.uid, j) && Running(base, t, r, j)
    ensures ClaimState(t, r, j.claim.uid) && OnlyClaim(base, t, r, j.claim.uid)
  {
  }

  method PublishData(volume: Volume, r: Runtime, j: Journal, ghost base: Tree, ghost allowed: iset<Tree>) returns (ok: bool)
    requires volume.Valid() && Lawful(r) && WellFormed(r, j.claim.uid, j) && Running(base, volume.tree, r, j) && Allows(allowed, base, r, j.claim.uid)
    modifies volume
    ensures volume.Valid() && Within(old(volume.trace), volume.trace, allowed)
    ensures ClaimState(volume.tree, r, j.claim.uid) && OnlyClaim(base, volume.tree, r, j.claim.uid)
    ensures ok ==> Published(volume.tree, r, j)
    ensures Published(old(volume.tree), r, j) ==> volume.trace == old(volume.trace)
    ensures old(volume.outcomes) == [] ==>
      (ok <==> Fits(old(Start(volume.tree, volume.pid, volume.nextStage)), r, j, PlanDocuments(r, j) + PlanSpecs(r, j)))
  {
    ghost var idle, t, s0 := Published(volume.tree, r, j), volume.tree, volume.trace;
    ok := PublishArtifacts(volume, r, j, base, allowed);
    assert idle ==> volume.trace == s0 && volume.tree == t;
    if !ok {
      RunningIsState(base, volume.tree, r, j);
      return;
    }
    ghost var s1 := volume.trace;
    ok := FinishJournal(volume, r, j, base, allowed);
    WithinJoin(old(volume.trace), s1, volume.trace, allowed);
    RunningIsState(base, volume.tree, r, j);
  }

  /** The journal, then what it records. */
  method RecordAndPublish(volume: Volume, r: Runtime, j: Journal, ghost base: Tree, ghost allowed: iset<Tree>) returns (ok: bool)
    requires volume.Valid() && Lawful(r) && WellFormed(r, j.claim.uid, j) && ClaimState(volume.tree, r, j.claim.uid)
    requires OnlyClaim(base, volume.tree, r, j.claim.uid) && Allows(allowed, base, r, j.claim.uid)
    requires ClaimDir(r.root, j.claim.uid) in volume.tree.dirs && CdiRoot in volume.tree.dirs
    modifies volume
    ensures volume.Valid() && Within(old(volume.trace), volume.trace, allowed)
    ensures ClaimState(volume.tree, r, j.claim.uid) && OnlyClaim(base, volume.tree, r, j.claim.uid)
    ensures ok ==> Published(volume.tree, r, j)
    ensures Published(old(volume.tree), r, j) ==> volume.trace == old(volume.trace)
    ensures old(volume.outcomes) == [] ==>
      (ok <==> Recordable(old(volume.tree), r, j) && Fits(old(Start(volume.tree, volume.pid, volume.nextStage)), r, j, PlanPlaces(r, j)))
  {
    ghost var idle, t, next, s0 := Published(volume.tree, r, j), volume.tree, volume.nextStage, volume.trace;
    FitsNeedsJournal(t, volume.pid, next, r, j);
    ok := PublishJournal(volume, r, j, base, allowed);
    assert idle ==> volume.trace == s0 && volume.tree == t;
    if !ok {
      return;
    }
    if old(volume.outcomes) == [] {
      FitsAfterJournal(t, volume.tree, volume.pid, next, volume.nextStage, r, j);
    }
    ghost var s1 := volume.trace;
    ok := PublishData(volume, r, j, base, allowed);
    WithinJoin(old(volume.trace), s1, volume.trace, allowed);
  }

  method PersistJournal(volume: Volume, r: Runtime, j: Journal, ghost base: Tree, ghost allowed: iset<Tree>) returns (ok: bool)
    requires volume.Valid() && Lawful(r) && WellFormed(r, j.claim.uid, j) && ClaimState(volume.tree, r, j.claim.uid)
    requires base == volume.tree && Allows(allowed, base, r, j.claim.uid)
    modifies volume
    ensures volume.Valid() && Within(old(volume.trace), volume.trace, allowed)
    ensures ClaimState(volume.tree, r, j.claim.uid) && OnlyClaim(base, volume.tree, r, j.claim.uid)
    ensures ok ==> Published(volume.tree, r, j)
    ensures Published(base, r, j) ==> volume.trace == old(volume.trace)
    ensures old(volume.outcomes) == [] ==>
      (ok <==> Recordable(base, r, j) && Fits(Start(base, old(volume.pid), old(volume.nextStage)), r, j, PlanPlaces(r, j)))
  {
    ghost var idle := Published(base, r, j);
    ok := OpenClaim(volume, r, j.claim.uid, base, allowed);
    assert idle ==> volume.trace == old(volume.trace) && volume.tree == base;
    FitsAfterOpen(base, volume.tree, volume.pid, volume.nextStage, r, j);
    if !ok {
      return;
    }
    ghost var s1 := volume.trace;
    ok := RecordAndPublish(volume, r, j, base, allowed);
    WithinJoin(old(volume.trace), s1, volume.trace, allowed);
  }

  ghost predicate Persistable(start: Start, r: Runtime, plan: Plan)
  {
    Recordable(start.tree, r, JournalOf(r, plan)) && Fits(start, r, JournalOf(r, plan), PlanPlaces(r, JournalOf(r, plan)))
  }

  /**
   * A claim's metadata is published whole: from any interrupted state, through
   * states that are all backed by a journal, touching this claim only. Success
   * leaves exactly the plan; publishing a published plan changes nothing.
   * Undisturbed, it succeeds exactly when no other plan is recorded for the
   * claim, nothing is too long, and each artifact not there yet finds one of
   * the sixteen staging names it will try free.
   */
  method PersistPlan(volume: Volume, r: Runtime, plan: Plan) returns (ok: bool)
    requires volume.Valid() && Lawful(r) && ValidPlan(plan) && ClaimState(volume.tree, r, plan.claim.uid)
    modifies volume
    ensures volume.Valid() && Within(old(volume.trace), volume.trace, Allowed(old(volume.tree), r, plan.claim.uid))
    ensures ClaimState(volume.tree, r, plan.claim.uid) && OnlyClaim(old(volume.tree), volume.tree, r, plan.claim.uid)
    ensures ok ==> Published(volume.tree, r, JournalOf(r, plan))
    ensures Published(old(volume.tree), r, JournalOf(r, plan)) ==> volume.trace == old(volume.trace)
    ensures old(volume.outcomes) == [] ==>
      (ok <==> Persistable(old(Start(volume.tree, volume.pid, volume.nextStage)), r, plan))
  {
    ok := PersistJournal(volume, r, JournalOf(r, plan), volume.tree, Allowed(volume.tree, r, plan.claim.uid));
  }

  /** Fewer than sixteen leftovers of this process's number for each artifact never stop a plan. */
  lemma FewLeftoversPersist(start: Start, r: Runtime, plan: Plan)
    requires Recordable(start.tree, r, JournalOf(r, plan)) && WithinLimit(plan.documents) && WithinLimit(plan.specs)
    requires forall place :: place in PlanPlaces(r, JournalOf(r, plan)) ==> |Leftovers(start.tree, place, start.pid)| < MAX_STAGE_ATTEMPTS
    ensures Persistable(start, r, plan)
  {
    FewLeftovers(start.tree, PlanPlaces(r, JournalOf(r, plan)), start.pid, start.next);
  }

  /** A claim that is not published, whose directory holds no journal stage of this process number. */
  ghost predicate Opened(t: Tree, r: Runtime, uid: string, pid: nat, crashes: nat)
  {
    && Clean(t, r, uid) && ClaimDir(r.root, uid) in t.dirs
    && forall k: nat :: Taken(t, JournalAt(r, uid), pid, k) <==> k < crashes
  }

  lemma OpenedNext(t: Tree, u: Tree, r: Runtime, j: Journal, pid: nat, crashes: nat)
    requires WellFormed(r, j.claim.uid, j) && Opened(t, r, j.claim.uid, pid, crashes)
    requires u == WithStage(t, JournalAt(r, j.claim.uid), Stage(pid, crashes)) && OnlyPublishes(t, u, JournalAt(r, j.claim.uid), r.encode(j))
    ensures Opened(u, r, j.claim.uid, pid, crashes + 1)
  {
    CleanPublish(t, u, r, j);
    JournalFits(t, r, j);
    forall k: nat
      ensures Taken(u, JournalAt(r, j.claim.uid), pid, k) <==> k < crashes + 1
    {
      assert Taken(t, JournalAt(r, j.claim.uid), pid, k) <==> k < crashes;
    }
  }

  /** One process dies just after making the journal's stage. */
  method CrashWhileStaging(volume: Volume, r: Runtime, j: Journal, pid: nat, ghost crashes: nat)
    requires volume.Valid() && WellFormed(r, j.claim.uid, j) && crashes < MAX_STAGE_ATTEMPTS && Opened(volume.tree, r, j.claim.uid, pid, crashes)
    modifies volume
    ensures volume.Valid() && Opened(volume.tree, r, j.claim.uid, pid, crashes + 1)
  {
    ghost var t := volume.tree;
    volume.Restart(pid, []);
    assert !Taken(t, JournalAt(r, j.claim.uid), pid, crashes);
    CollisionsAre(t, JournalAt(r, j.claim.uid), pid, 0, crashes);
    var stage := CreateFreshStage(volume, JournalAt(r, j.claim.uid), r.encode(j));
    OpenedNext(t, volume.tree, r, j, pid, crashes);
  }

  lemma SixteenLeftovers(t: Tree, r: Runtime, plan: Plan, pid: nat)
    requires ValidPlan(plan) && Opened(t, r, plan.claim.uid, pid, MAX_STAGE_ATTEMPTS)
    ensures !Persistable(Start(t, pid, 0), r, plan)
  {
    JournalFits(t, r, JournalOf(r, plan));
    if Fits(Start(t, pid, 0), r, JournalOf(r, plan), PlanPlaces(r, JournalOf(r, plan))) {
      FitsNeedsJournal(t, pid, 0, r, JournalOf(r, plan));
      assert false;
    }
  }

  /**
   * A process that always has the same number dies sixteen times just after
   * making the journal's stage. The next time it persists a plan for the
   * claim, undisturbed, it fails.
   */
  method SixteenCrashes(volume: Volume, r: Runtime, plan: Plan, pid: nat) returns (ok: bool)
    requires volume.Valid() && Lawful(r) && ValidPlan(plan) && Opened(volume.tree, r, plan.claim.uid, pid, 0)
    modifies volume
    ensures volume.Valid() && ClaimState(volume.tree, r, plan.claim.uid)
    ensures !ok
  {
    for i := 0 to MAX_STAGE_ATTEMPTS
      invariant volume.Valid() && Opened(volume.tree, r, plan.claim.uid, pid, i)
    {
      CrashWhileStaging(volume, r, JournalOf(r, plan), pid, i);
    }
    volume.Restart(pid, []);
    SixteenLeftovers(volume.tree, r, plan, pid);
    ok := PersistPlan(volume, r, plan);
  }
}
