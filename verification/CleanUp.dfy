/** Removing a claim's metadata: CDI references first, documents next, the journal last. */
module CleanUp {
  import opened Wrappers
  import opened Names
  import opened Artifacts
  import opened Disk
  import opened StoreFiles
  import opened ClaimFiles
  import opened Persist

  // ----- Single removals -----

  ghost predicate OnlyUnlinks(t: Tree, u: Tree, file: File)
  {
    u == t || u == t.(files := t.files - {file})
  }

  ghost predicate OnlyRemovesDir(t: Tree, u: Tree, dir: Dir)
  {
    u == t || u == t.(dirs := t.dirs - {dir})
  }

  /** A missing file is as good as a removed one. */
  method RemoveFile(volume: Volume, file: File) returns (ok: bool)
    requires volume.Valid()
    modifies volume`tree, volume`outcomes, volume`trace
    ensures volume.Valid() && OnlyUnlinks(old(volume.tree), volume.tree, file)
    ensures volume.trace == old(volume.trace) || volume.trace == old(volume.trace) + [volume.tree]
    ensures ok ==> file !in volume.tree.files
    ensures old(volume.outcomes) == [] ==> volume.outcomes == [] && ok
  {
    var reply := volume.Apply(Unlink(file));
    return reply.Okay? || reply.Missing?;
  }

  /** Only an empty directory can be removed. */
  method RemoveDirectory(volume: Volume, dir: Dir) returns (ok: bool)
    requires volume.Valid()
    modifies volume`tree, volume`outcomes, volume`trace
    ensures volume.Valid() && OnlyRemovesDir(old(volume.tree), volume.tree, dir)
    ensures volume.trace == old(volume.trace) || volume.trace == old(volume.trace) + [volume.tree]
    ensures ok ==> dir !in volume.tree.dirs
    ensures dir !in old(volume.tree).dirs ==> volume.trace == old(volume.trace)
    ensures old(volume.outcomes) == [] ==> volume.outcomes == [] && (Empty(old(volume.tree), dir) ==> ok)
  {
    var reply := volume.Apply(RemoveDir(dir));
    return reply.Okay? || reply.Missing?;
  }

  ghost predicate Vacant(t: Tree, place: Place)
  {
    forall f :: f in t.files ==> f.place != place
  }

  /** The safe states are closed under removing the place's file and stages, and show only that content there. */
  ghost predicate Releases(safe: iset<Tree>, place: Place)
  {
    && (forall t, u :: t in safe && OnlyUnlinks(t, u, Main(place)) ==> u in safe)
    && (forall t, u :: t in safe && OnlyRemovesStages(t, u, place) ==> u in safe)
  }

  predicate AsShown(t: Tree, place: Place, content: string)
  {
    Main(place) in t.files ==> t.files[Main(place)] == Bytes(content) && |content| <= LIMIT
  }

  ghost predicate Shows(safe: iset<Tree>, place: Place, content: string)
  {
    forall t :: t in safe ==> AsShown(t, place, content)
  }

  ghost predicate ReleasesDir(safe: iset<Tree>, dir: Dir)
  {
    forall t, u :: t in safe && OnlyRemovesDir(t, u, dir) ==> u in safe
  }

  /** Nothing appears anywhere, and nothing outside the place goes. */
  ghost predicate OnlyVacates(t: Tree, u: Tree, place: Place)
  {
    && t.dirs == u.dirs
    && (forall f :: f in u.files ==> f in t.files)
    && (forall f :: f in t.files && f.place != place ==> f in u.files)
  }

  lemma VacatesBoth(t: Tree, u: Tree, v: Tree, place: Place)
    requires OnlyUnlinks(t, u, Main(place)) && OnlyRemovesStages(u, v, place)
    ensures OnlyVacates(t, v, place)
    ensures Main(place) !in u.files && NoStages(v, place) ==> Vacant(v, place)
  {
    forall f | f in v.files && f.place == place && f.stage.None?
      ensures f == Main(place)
    {
    }
  }

  // ----- References -----

  /** The published name goes only if it still reads as planned, or is gone already. */
  method RemoveAsPlanned(volume: Volume, place: Place, content: string) returns (ok: bool)
    requires volume.Valid()
    modifies volume`tree, volume`outcomes, volume`trace
    ensures volume.Valid() && OnlyUnlinks(old(volume.tree), volume.tree, Main(place))
    ensures volume.trace == old(volume.trace) || volume.trace == old(volume.trace) + [volume.tree]
    ensures ok ==> Main(place) !in volume.tree.files
    ensures Main(place) in old(volume.tree).files && old(volume.tree).files[Main(place)] != Bytes(content) ==> !ok && volume.trace == old(volume.trace)
    ensures old(volume.outcomes) == [] ==> volume.outcomes == []
    ensures old(volume.outcomes) == [] && AsShown(old(volume.tree), place, content) ==> ok
  {
    var existing := volume.Read(Main(place));
    if existing.Err? {
      return false;
    }
    if existing.value.None? {
      return true;
    }
    if existing.value.value != content {
      return false;
    }
    ok := RemoveFile(volume, Main(place));
  }

  /** A spec is removed only if it still reads as planned. */
  method RemoveSpec(volume: Volume, place: Place, content: string, ghost safe: iset<Tree>) returns (ok: bool)
    requires volume.Valid() && Accepted(place) && volume.tree in safe && Releases(safe, place)
    modifies volume`tree, volume`outcomes, volume`trace
    ensures volume.Valid() && Within(old(volume.trace), volume.trace, safe) && volume.tree in safe
    ensures OnlyVacates(old(volume.tree), volume.tree, place)
    ensures ok ==> Vacant(volume.tree, place)
    ensures old(volume.outcomes) == [] ==> volume.outcomes == []
    ensures old(volume.outcomes) == [] && Shows(safe, place, content) ==> ok
  {
    ghost var t := volume.tree;
    ok := RemoveAsPlanned(volume, place, content);
    if !ok {
      return;
    }
    ghost var u, mid := volume.tree, volume.trace;
    ok := RemoveStages(volume, place);
    WithinJoin(old(volume.trace), mid, volume.trace, safe);
    VacatesBoth(t, u, volume.tree, place);
  }

  ghost predicate SpecsVacant(t: Tree, driver: string, uid: string, specs: map<string, string>, rest: set<string>)
  {
    forall q :: q in specs && q !in rest ==> Vacant(t, SpecPlace(driver, uid, q))
  }

  ghost predicate ReleasesSpecs(safe: iset<Tree>, driver: string, uid: string, specs: map<string, string>)
  {
    forall q {:trigger Releases(safe, SpecPlace(driver, uid, q))} ::
      q in specs ==> Releases(safe, SpecPlace(driver, uid, q)) && Shows(safe, SpecPlace(driver, uid, q), specs[q])
  }

  lemma SpecsVacantStep(t: Tree, u: Tree, driver: string, uid: string, specs: map<string, string>, rest: set<string>, q: string)
    requires SpecsVacant(t, driver, uid, specs, rest)
    requires OnlyVacates(t, u, SpecPlace(driver, uid, q)) && Vacant(u, SpecPlace(driver, uid, q))
    ensures SpecsVacant(u, driver, uid, specs, rest - {q})
  {
    forall p | p in specs && p !in rest - {q}
      ensures Vacant(u, SpecPlace(driver, uid, p))
    {
      if p != q {
        assert Vacant(t, SpecPlace(driver, uid, p));
      }
    }
  }

  method RemoveSpecs(volume: Volume, driver: string, uid: string, specs: map<string, string>, ghost safe: iset<Tree>) returns (ok: bool)
    requires volume.Valid() && volume.tree in safe && Subdomain(driver, 63) && Label(uid, 64) && RequestNames(specs)
    requires ReleasesSpecs(safe, driver, uid, specs)
    modifies volume`tree, volume`outcomes, volume`trace
    ensures volume.Valid() && Within(old(volume.trace), volume.trace, safe) && volume.tree in safe
    ensures ok ==> SpecsVacant(volume.tree, driver, uid, specs, {})
    ensures old(volume.outcomes) == [] ==> volume.outcomes == [] && ok
  {
    var rest := specs.Keys;
    while rest != {}
      invariant rest <= specs.Keys
      invariant volume.Valid() && Within(old(volume.trace), volume.trace, safe) && volume.tree in safe
      invariant SpecsVacant(volume.tree, driver, uid, specs, rest)
      invariant old(volume.outcomes) == [] ==> volume.outcomes == []
      decreases |rest|
    {
      var q :| q in rest;
      ghost var t, before := volume.tree, volume.trace;
      ok := RemoveSpec(volume, SpecPlace(driver, uid, q), specs[q], safe);
      WithinJoin(old(volume.trace), before, volume.trace, safe);
      if !ok {
        return;
      }
      SpecsVacantStep(t, volume.tree, driver, uid, specs, rest, q);
      rest := rest - {q};
    }
    ok := true;
  }

  // ----- Documents -----

  /** A document, its stages, and then its directory. */
  method RemoveDocument(volume: Volume, root: string, uid: string, q: string, ghost safe: iset<Tree>) returns (ok: bool)
    requires volume.Valid() && volume.tree in safe && Accepted(DocumentPlace(root, uid, q))
    requires Releases(safe, DocumentPlace(root, uid, q)) && ReleasesDir(safe, RequestDir(root, uid, q))
    modifies volume`tree, volume`outcomes, volume`trace
    ensures volume.Valid() && Within(old(volume.trace), volume.trace, safe) && volume.tree in safe
    ensures volume.tree.dirs <= old(volume.tree).dirs
    ensures ok ==> RequestDir(root, uid, q) !in volume.tree.dirs
    ensures old(volume.outcomes) == [] ==> volume.outcomes == [] && ok
  {
    var place, dir := DocumentPlace(root, uid, q), RequestDir(root, uid, q);
    ghost var t := volume.tree;
    var found := volume.Open(dir);
    if !found.Okay? {
      return found.Missing?;
    }
    ok := RemoveFile(volume, Main(place));
    if !ok {
      return;
    }
    ghost var u, mid := volume.tree, volume.trace;
    ok := RemoveStages(volume, place);
    VacatesBoth(t, u, volume.tree, place);
    WithinJoin(old(volume.trace), mid, volume.trace, safe);
    if !ok {
      return;
    }
    VacantIsEmpty(volume.tree, root, uid, q);
    ghost var late := volume.trace;
    ok := RemoveDirectory(volume, dir);
    WithinJoin(old(volume.trace), late, volume.trace, safe);
  }

  lemma VacantIsEmpty(t: Tree, root: string, uid: string, q: string)
    requires Vacant(t, DocumentPlace(root, uid, q))
    ensures Empty(t, RequestDir(root, uid, q))
  {
    forall f | f in t.files
      ensures DirOf(f.place) != RequestDir(root, uid, q)
    {
      assert f.place != DocumentPlace(root, uid, q);
    }
  }

  ghost predicate ReleasesDocuments(safe: iset<Tree>, root: string, uid: string, documents: map<string, string>)
  {
    forall q {:trigger Releases(safe, DocumentPlace(root, uid, q))} ::
      q in documents ==> Releases(safe, DocumentPlace(root, uid, q)) && ReleasesDir(safe, RequestDir(root, uid, q))
  }

  method RemoveDocuments(volume: Volume, root: string, uid: string, documents: map<string, string>, ghost safe: iset<Tree>) returns (ok: bool)
    requires volume.Valid() && volume.tree in safe && Label(uid, 64) && RequestNames(documents)
    requires ReleasesDocuments(safe, root, uid, documents)
    modifies volume`tree, volume`outcomes, volume`trace
    ensures volume.Valid() && Within(old(volume.trace), volume.trace, safe) && volume.tree in safe
    ensures ok ==> forall q :: q in documents ==> RequestDir(root, uid, q) !in volume.tree.dirs
    ensures old(volume.outcomes) == [] ==> volume.outcomes == [] && ok
  {
    var rest := documents.Keys;
    while rest != {}
      invariant rest <= documents.Keys
      invariant volume.Valid() && Within(old(volume.trace), volume.trace, safe) && volume.tree in safe
      invariant forall q :: q in documents && q !in rest ==> RequestDir(root, uid, q) !in volume.tree.dirs
      invariant old(volume.outcomes) == [] ==> volume.outcomes == []
      decreases |rest|
    {
      var q :| q in rest;
      ghost var before := volume.trace;
      ok := RemoveDocument(volume, root, uid, q, safe);
      WithinJoin(old(volume.trace), before, volume.trace, safe);
      if !ok {
        return;
      }
      rest := rest - {q};
    }
    ok := true;
  }

  // ----- Why every state is safe -----

  ghost predicate NoReferences(t: Tree, r: Runtime, uid: string)
  {
    forall f :: f in t.files ==> !(f.place.SpecPlace? && f.place.driver == r.driver && f.place.uid == uid)
  }

  ghost predicate NoRequests(t: Tree, r: Runtime, uid: string)
  {
    forall q :: RequestDir(r.root, uid, q) !in t.dirs
  }

  ghost predicate Recorded(base: Tree, t: Tree, r: Runtime, j: Journal)
  {
    Journaled(t, r, j) && OnlyClaim(base, t, r, j.claim.uid)
  }

  ghost predicate Unreferenced(base: Tree, t: Tree, r: Runtime, j: Journal)
  {
    Recorded(base, t, r, j) && NoReferences(t, r, j.claim.uid)
  }

  ghost function RecordedStates(base: Tree, r: Runtime, j: Journal): iset<Tree>
  {
    iset t: Tree | Recorded(base, t, r, j)
  }

  ghost function UnreferencedStates(base: Tree, r: Runtime, j: Journal): iset<Tree>
  {
    iset t: Tree | Unreferenced(base, t, r, j)
  }

  lemma RecordedUnlink(base: Tree, t: Tree, u: Tree, r: Runtime, j: Journal, file: File)
    requires Recorded(base, t, r, j) && OnlyUnlinks(t, u, file) && Owned(r, j.claim.uid, file.place) && !file.place.JournalPlace?
    requires file.place.DocumentPlace? ==> NoReferences(t, r, j.claim.uid)
    ensures Recorded(base, u, r, j)
  {
    forall f | f in u.files && Owned(r, j.claim.uid, f.place)
      ensures AsPlanned(u, r, j, f)
    {
      assert AsPlanned(t, r, j, f);
    }
    forall q | Main(SpecAt(r, j.claim.uid, q)) in u.files
      ensures AllDocuments(u, r, j)
    {
      assert AllDocuments(t, r, j);
    }
  }

  lemma RecordedRemove(base: Tree, t: Tree, u: Tree, r: Runtime, j: Journal, place: Place)
    requires Recorded(base, t, r, j) && OnlyRemovesStages(t, u, place) && Owned(r, j.claim.uid, place)
    ensures Recorded(base, u, r, j)
    ensures NoReferences(t, r, j.claim.uid) ==> NoReferences(u, r, j.claim.uid)
  {
    JournaledRemove(t, u, r, j, place);
    RemoveIsClaims(t, u, r, j.claim.uid, place);
    OnlyClaimThrough(base, t, u, r, j.claim.uid);
  }

  lemma RecordedShows(base: Tree, r: Runtime, j: Journal, q: string)
    requires q in j.specs
    ensures Shows(RecordedStates(base, r, j), SpecPlace(r.driver, j.claim.uid, q), j.specs[q])
  {
    forall t | Recorded(base, t, r, j) && Main(SpecPlace(r.driver, j.claim.uid, q)) in t.files
      ensures t.files[Main(SpecPlace(r.driver, j.claim.uid, q))] == Bytes(j.specs[q]) && |j.specs[q]| <= LIMIT
    {
      assert AsPlanned(t, r, j, Main(SpecPlace(r.driver, j.claim.uid, q)));
    }
  }

  lemma RecordedReleasesSpecs(base: Tree, r: Runtime, j: Journal)
    ensures ReleasesSpecs(RecordedStates(base, r, j), r.driver, j.claim.uid, j.specs)
  {
    forall q | q in j.specs
      ensures Releases(RecordedStates(base, r, j), SpecPlace(r.driver, j.claim.uid, q))
      ensures Shows(RecordedStates(base, r, j), SpecPlace(r.driver, j.claim.uid, q), j.specs[q])
    {
      var place := SpecPlace(r.driver, j.claim.uid, q);
      forall t, u | Recorded(base, t, r, j) && OnlyUnlinks(t, u, Main(place))
        ensures Recorded(base, u, r, j)
      {
        RecordedUnlink(base, t, u, r, j, Main(place));
      }
      forall t, u | Recorded(base, t, r, j) && OnlyRemovesStages(t, u, place)
        ensures Recorded(base, u, r, j)
      {
        RecordedRemove(base, t, u, r, j, place);
      }
      RecordedShows(base, r, j, q);
    }
  }

  lemma UnreferencedRemovesDir(base: Tree, t: Tree, u: Tree, r: Runtime, j: Journal, q: string)
    requires Unreferenced(base, t, r, j) && OnlyRemovesDir(t, u, RequestDir(r.root, j.claim.uid, q))
    ensures Unreferenced(base, u, r, j)
  {
    forall f | f in u.files && Owned(r, j.claim.uid, f.place)
      ensures AsPlanned(u, r, j, f)
    {
      assert AsPlanned(t, r, j, f);
    }
  }

  lemma UnreferencedReleasesDocuments(base: Tree, r: Runtime, j: Journal)
    ensures ReleasesDocuments(UnreferencedStates(base, r, j), r.root, j.claim.uid, j.documents)
  {
    forall q | q in j.documents
      ensures Releases(UnreferencedStates(base, r, j), DocumentPlace(r.root, j.claim.uid, q))
      ensures ReleasesDir(UnreferencedStates(base, r, j), RequestDir(r.root, j.claim.uid, q))
    {
      var place := DocumentPlace(r.root, j.claim.uid, q);
      forall t, u | Unreferenced(base, t, r, j) && OnlyUnlinks(t, u, Main(place))
        ensures Unreferenced(base, u, r, j)
      {
        RecordedUnlink(base, t, u, r, j, Main(place));
      }
      forall t, u | Unreferenced(base, t, r, j) && OnlyRemovesStages(t, u, place)
        ensures Unreferenced(base, u, r, j)
      {
        RecordedRemove(base, t, u, r, j, place);
      }
      forall t, u | Unreferenced(base, t, r, j) && OnlyRemovesDir(t, u, RequestDir(r.root, j.claim.uid, q))
        ensures Unreferenced(base, u, r, j)
      {
        UnreferencedRemovesDir(base, t, u, r, j, q);
      }
    }
  }

  lemma RecordedIsAllowed(base: Tree, r: Runtime, j: Journal, allowed: iset<Tree>)
    requires WellFormed(r, j.claim.uid, j) && Allows(allowed, base, r, j.claim.uid)
    ensures RecordedStates(base, r, j) <= allowed && UnreferencedStates(base, r, j) <= allowed
  {
    forall t | Recorded(base, t, r, j)
      ensures t in allowed
    {
      assert ClaimState(t, r, j.claim.uid);
    }
  }

  /** With every planned reference gone, or the CDI root itself missing, no reference of the claim is left. */
  lemma NoReferencesLeft(t: Tree, r: Runtime, j: Journal)
    requires WellPlaced(t) && WellFormed(r, j.claim.uid, j) && Journaled(t, r, j)
    requires CdiRoot !in t.dirs || SpecsVacant(t, r.driver, j.claim.uid, j.specs, {})
    ensures NoReferences(t, r, j.claim.uid)
  {
    forall q | q in j.specs
      ensures Vacant(t, SpecPlace(r.driver, j.claim.uid, q))
    {
      assert DirOf(SpecPlace(r.driver, j.claim.uid, q)) == CdiRoot;
    }
    forall f | f in t.files && f.place.SpecPlace? && f.place.driver == r.driver && f.place.uid == j.claim.uid
      ensures f.place == SpecPlace(r.driver, j.claim.uid, f.place.request) && f.place.request in j.specs
    {
      assert AsPlanned(t, r, j, f);
    }
  }

  // ----- The journal -----

  ghost predicate CleanRun(base: Tree, t: Tree, r: Runtime, uid: string)
  {
    Clean(t, r, uid) && OnlyClaim(base, t, r, uid)
  }

  lemma CleanRemove(base: Tree, t: Tree, u: Tree, r: Runtime, uid: string)
    requires CleanRun(base, t, r, uid) && OnlyRemovesStages(t, u, JournalAt(r, uid))
    ensures CleanRun(base, u, r, uid)
  {
    RemoveIsClaims(t, u, r, uid, JournalAt(r, uid));
    OnlyClaimThrough(base, t, u, r, uid);
  }

  lemma CleanRemoveDir(base: Tree, t: Tree, u: Tree, r: Runtime, uid: string)
    requires CleanRun(base, t, r, uid) && OnlyRemovesDir(t, u, ClaimDir(r.root, uid))
    ensures CleanRun(base, u, r, uid)
  {
  }

  lemma CleanIsEmpty(t: Tree, r: Runtime, uid: string)
    requires Clean(t, r, uid) && NoStages(t, JournalAt(r, uid))
    ensures Empty(t, ClaimDir(r.root, uid))
  {
    InClaimDir(r, uid);
  }

  /** A claim's directory holds its journal, and directories of its requests. */
  lemma InClaimDir(r: Runtime, uid: string)
    ensures forall place :: DirOf(place) == ClaimDir(r.root, uid) ==> place == JournalAt(r, uid)
    ensures forall d: Dir :: Parent(d) == Some(ClaimDir(r.root, uid)) ==> d.RequestDir? && d == RequestDir(r.root, uid, d.request)
    ensures forall d: Dir :: OwnedDir(r, uid, d) ==> d == ClaimDir(r.root, uid) || (d.RequestDir? && d == RequestDir(r.root, uid, d.request))
  {
  }

  /** Nothing of the claim is left. */
  ghost predicate Gone(t: Tree, r: Runtime, uid: string)
  {
    (forall f :: f in t.files ==> !Owned(r, uid, f.place)) && forall d :: d in t.dirs ==> !OwnedDir(r, uid, d)
  }

  lemma CleanWithoutDirIsGone(t: Tree, r: Runtime, uid: string)
    requires WellPlaced(t) && Clean(t, r, uid) && ClaimDir(r.root, uid) !in t.dirs
    ensures Gone(t, r, uid)
  {
    assert DirOf(JournalAt(r, uid)) == ClaimDir(r.root, uid);
    InClaimDir(r, uid);
  }

  /** Without its directory, or a directory above it, a claim has nothing. */
  lemma NoDirIsGone(t: Tree, r: Runtime, uid: string)
    requires WellPlaced(t) && ClaimState(t, r, uid)
    requires LocalRoot(r.root) !in t.dirs || MetadataRoot(r.root) !in t.dirs || ClaimDir(r.root, uid) !in t.dirs
    ensures Gone(t, r, uid)
  {
    assert Parent(ClaimDir(r.root, uid)) == Some(MetadataRoot(r.root)) && Parent(MetadataRoot(r.root)) == Some(LocalRoot(r.root));
    assert ClaimDir(r.root, uid) !in t.dirs;
    StateHasJournal(t, r, uid);
    assert DirOf(JournalAt(r, uid)) == ClaimDir(r.root, uid);
    CleanWithoutDirIsGone(t, r, uid);
  }

  /** A crash after the journal went can leave only an empty directory and stages of the journal. */
  method RemoveEmptyClaim(volume: Volume, r: Runtime, uid: string, ghost base: Tree, ghost allowed: iset<Tree>) returns (ok: bool)
    requires volume.Valid() && Label(uid, 64) && CleanRun(base, volume.tree, r, uid) && Allows(allowed, base, r, uid)
    modifies volume`tree, volume`outcomes, volume`trace
    ensures volume.Valid() && Within(old(volume.trace), volume.trace, allowed) && CleanRun(base, volume.tree, r, uid)
    ensures ok ==> Gone(volume.tree, r, uid)
    ensures old(volume.outcomes) == [] ==> volume.outcomes == [] && ok
  {
    ghost var t := volume.tree;
    ok := RemoveStages(volume, JournalAt(r, uid));
    ghost var mid := volume.trace;
    forall u | OnlyRemovesStages(t, u, JournalAt(r, uid))
      ensures CleanRun(base, u, r, uid)
    {
      CleanRemove(base, t, u, r, uid);
    }
    assert Within(old(volume.trace), mid, allowed);
    if !ok {
      return;
    }
    ok := RemoveClaimDir(volume, r, uid, base, allowed);
    WithinJoin(old(volume.trace), mid, volume.trace, allowed);
  }

  method RemoveClaimDir(volume: Volume, r: Runtime, uid: string, ghost base: Tree, ghost allowed: iset<Tree>) returns (ok: bool)
    requires volume.Valid() && CleanRun(base, volume.tree, r, uid) && Allows(allowed, base, r, uid) && NoStages(volume.tree, JournalAt(r, uid))
    modifies volume`tree, volume`outcomes, volume`trace
    ensures volume.Valid() && Within(old(volume.trace), volume.trace, allowed) && CleanRun(base, volume.tree, r, uid)
    ensures ok ==> Gone(volume.tree, r, uid)
    ensures old(volume.outcomes) == [] ==> volume.outcomes == [] && ok
  {
    ghost var t := volume.tree;
    CleanIsEmpty(t, r, uid);
    ok := RemoveDirectory(volume, ClaimDir(r.root, uid));
    CleanRemoveDir(base, t, volume.tree, r, uid);
    if ok {
      CleanWithoutDirIsGone(volume.tree, r, uid);
    }
  }

  lemma OwnedPlace(r: Runtime, uid: string, place: Place)
    requires Owned(r, uid, place)
    ensures place == JournalAt(r, uid) || (place.DocumentPlace? && place == DocumentAt(r, uid, place.request)) ||
      (place.SpecPlace? && place == SpecAt(r, uid, place.request))
  {
  }

  lemma JournalGoesLast(base: Tree, t: Tree, u: Tree, r: Runtime, j: Journal)
    requires Unreferenced(base, t, r, j) && NoRequests(t, r, j.claim.uid) && WellPlaced(t)
    requires NoStages(t, JournalAt(r, j.claim.uid)) && OnlyUnlinks(t, u, Main(JournalAt(r, j.claim.uid)))
    ensures OnlyClaim(base, u, r, j.claim.uid)
    ensures u != t ==> Clean(u, r, j.claim.uid) && NoStages(u, JournalAt(r, j.claim.uid))
  {
    var uid := j.claim.uid;
    assert forall q :: DirOf(DocumentAt(r, uid, q)) == RequestDir(r.root, uid, q);
    forall f | f in t.files && Owned(r, uid, f.place)
      ensures f == Main(JournalAt(r, uid))
    {
      OwnedPlace(r, uid, f.place);
    }
  }

  lemma StagesRemovedUnreferenced(before: seq<Tree>, after: seq<Tree>, base: Tree, t: Tree, u: Tree, r: Runtime, j: Journal, allowed: iset<Tree>)
    requires WellFormed(r, j.claim.uid, j) && Unreferenced(base, t, r, j) && Allows(allowed, base, r, j.claim.uid)
    requires RemoveSteps(before, after, t, JournalAt(r, j.claim.uid)) && OnlyRemovesStages(t, u, JournalAt(r, j.claim.uid))
    ensures Within(before, after, allowed) && Unreferenced(base, u, r, j) && ClaimState(u, r, j.claim.uid)
  {
    RecordedIsAllowed(base, r, j, allowed);
    forall v | OnlyRemovesStages(t, v, JournalAt(r, j.claim.uid))
      ensures Unreferenced(base, v, r, j) && v in allowed
    {
      RecordedRemove(base, t, v, r, j, JournalAt(r, j.claim.uid));
      assert v in UnreferencedStates(base, r, j);
    }
  }

  /** The journal is removed only once nothing but it is left in the claim's directory. */
  method RemoveJournal(volume: Volume, r: Runtime, j: Journal, ghost base: Tree, ghost allowed: iset<Tree>) returns (ok: bool)
    requires volume.Valid() && WellFormed(r, j.claim.uid, j) && Unreferenced(base, volume.tree, r, j) && NoRequests(volume.tree, r, j.claim.uid)
    requires Allows(allowed, base, r, j.claim.uid)
    modifies volume`tree, volume`outcomes, volume`trace
    ensures volume.Valid() && Within(old(volume.trace), volume.trace, allowed)
    ensures ClaimState(volume.tree, r, j.claim.uid) && OnlyClaim(base, volume.tree, r, j.claim.uid)
    ensures ok ==> Gone(volume.tree, r, j.claim.uid)
    ensures old(volume.outcomes) == [] ==> volume.outcomes == [] && ok
  {
    ghost var t := volume.tree;
    ok := RemoveStages(volume, JournalAt(r, j.claim.uid));
    ghost var mid := volume.trace;
    StagesRemovedUnreferenced(old(volume.trace), mid, base, t, volume.tree, r, j, allowed);
    if !ok {
      return;
    }
    ok := RemoveLoneJournal(volume, r, j, base, allowed);
    WithinJoin(old(volume.trace), mid, volume.trace, allowed);
  }

  method RemoveLoneJournal(volume: Volume, r: Runtime, j: Journal, ghost base: Tree, ghost allowed: iset<Tree>) returns (ok: bool)
    requires volume.Valid() && WellFormed(r, j.claim.uid, j) && Unreferenced(base, volume.tree, r, j) && NoRequests(volume.tree, r, j.claim.uid)
    requires NoStages(volume.tree, JournalAt(r, j.claim.uid)) && Allows(allowed, base, r, j.claim.uid)
    modifies volume`tree, volume`outcomes, volume`trace
    ensures volume.Valid() && Within(old(volume.trace), volume.trace, allowed)
    ensures ClaimState(volume.tree, r, j.claim.uid) && OnlyClaim(base, volume.tree, r, j.claim.uid)
    ensures ok ==> Gone(volume.tree, r, j.claim.uid)
    ensures old(volume.outcomes) == [] ==> volume.outcomes == [] && ok
  {
    var uid := j.claim.uid;
    ghost var u := volume.tree;
    var listing := volume.List(ClaimDir(r.root, uid));
    if listing.None? {
      return false;
    }
    NothingUnknown(u, r, j);
    if listing.value.dirs != {} || exists f :: f in listing.value.files && f != Main(JournalAt(r, uid)) {
      return false;
    }
    ok := RemoveFile(volume, Main(JournalAt(r, uid)));
    JournalGoesLast(base, u, volume.tree, r, j);
    ghost var late := volume.trace;
    if !ok {
      return;
    }
    ok := RemoveClaimDir(volume, r, uid, base, allowed);
    WithinJoin(old(volume.trace), late, volume.trace, allowed);
  }

  lemma NothingUnknown(t: Tree, r: Runtime, j: Journal)
    requires NoRequests(t, r, j.claim.uid) && NoStages(t, JournalAt(r, j.claim.uid))
    ensures forall d :: d in t.dirs ==> Parent(d) != Some(ClaimDir(r.root, j.claim.uid))
    ensures forall f :: f in t.files && DirOf(f.place) == ClaimDir(r.root, j.claim.uid) ==> f == Main(JournalAt(r, j.claim.uid))
  {
    InClaimDir(r, j.claim.uid);
    forall f | f in t.files && DirOf(f.place) == ClaimDir(r.root, j.claim.uid)
      ensures f == Main(JournalAt(r, j.claim.uid))
    {
      assert f.stage.None?;
    }
  }

  // ----- The clean-up -----

  /** A journal this store may act on: its own, of this claim, naming its requests consistently. */
  predicate Actionable(r: Runtime, identity: ClaimRef, j: Journal)
  {
    && j.version == 1 && j.driver == r.driver && j.claim == identity
    && |j.documents| == |j.specs| && forall q :: q in j.documents ==> Label(q, 63) && q in j.specs
  }

  lemma SubsetKeys(a: set<string>, b: set<string>)
    requires a <= b && |a| == |b|
    ensures a == b
  {
    assert b == a + (b - a);
  }

  lemma ActionableIsWellFormed(r: Runtime, identity: ClaimRef, j: Journal)
    requires Label(identity.uid, 64)
    ensures Actionable(r, identity, j) <==> WellFormed(r, identity.uid, j) && j.claim == identity
  {
    assert |j.documents| == |j.documents.Keys| && |j.specs| == |j.specs.Keys|;
    if Actionable(r, identity, j) {
      SubsetKeys(j.documents.Keys, j.specs.Keys);
    }
  }

  method RemoveRecorded(volume: Volume, r: Runtime, j: Journal, ghost base: Tree, ghost allowed: iset<Tree>) returns (ok: bool)
    requires volume.Valid() && Lawful(r) && WellFormed(r, j.claim.uid, j) && Recorded(base, volume.tree, r, j)
    requires Allows(allowed, base, r, j.claim.uid)
    modifies volume`tree, volume`outcomes, volume`trace
    ensures volume.Valid() && Within(old(volume.trace), volume.trace, allowed)
    ensures ClaimState(volume.tree, r, j.claim.uid) && OnlyClaim(base, volume.tree, r, j.claim.uid)
    ensures ok ==> Gone(volume.tree, r, j.claim.uid)
    ensures old(volume.outcomes) == [] ==> volume.outcomes == [] && ok
  {
    ok := RemoveReferences(volume, r, j, base, allowed);
    if !ok {
      return;
    }
    ghost var s1 := volume.trace;
    ok := RemoveAllDocuments(volume, r, j, base, allowed);
    WithinJoin(old(volume.trace), s1, volume.trace, allowed);
    if !ok {
      return;
    }
    ghost var s2 := volume.trace;
    ok := RemoveJournal(volume, r, j, base, allowed);
    WithinJoin(old(volume.trace), s2, volume.trace, allowed);
  }

  /** References first; there are none when the CDI root does not exist. */
  method RemoveReferences(volume: Volume, r: Runtime, j: Journal, ghost base: Tree, ghost allowed: iset<Tree>) returns (ok: bool)
    requires volume.Valid() && Lawful(r) && WellFormed(r, j.claim.uid, j) && Recorded(base, volume.tree, r, j)
    requires Allows(allowed, base, r, j.claim.uid)
    modifies volume`tree, volume`outcomes, volume`trace
    ensures volume.Valid() && Within(old(volume.trace), volume.trace, allowed) && Recorded(base, volume.tree, r, j)
    ensures ok ==> Unreferenced(base, volume.tree, r, j)
    ensures old(volume.outcomes) == [] ==> volume.outcomes == [] && ok
  {
    var cdi := volume.Open(CdiRoot);
    if cdi.Missing? {
      NoReferencesLeft(volume.tree, r, j);
      return true;
    }
    if !cdi.Okay? {
      return false;
    }
    ghost var safe := RecordedStates(base, r, j);
    RecordedReleasesSpecs(base, r, j);
    RecordedIsAllowed(base, r, j, allowed);
    ok := RemoveSpecs(volume, r.driver, j.claim.uid, j.specs, safe);
    WithinSubset(old(volume.trace), volume.trace, safe, allowed);
    if ok {
      NoReferencesLeft(volume.tree, r, j);
    }
  }

  method RemoveAllDocuments(volume: Volume, r: Runtime, j: Journal, ghost base: Tree, ghost allowed: iset<Tree>) returns (ok: bool)
    requires volume.Valid() && WellFormed(r, j.claim.uid, j) && Unreferenced(base, volume.tree, r, j)
    requires Allows(allowed, base, r, j.claim.uid)
    modifies volume`tree, volume`outcomes, volume`trace
    ensures volume.Valid() && Within(old(volume.trace), volume.trace, allowed) && Unreferenced(base, volume.tree, r, j)
    ensures ok ==> NoRequests(volume.tree, r, j.claim.uid)
    ensures old(volume.outcomes) == [] ==> volume.outcomes == [] && ok
  {
    ghost var safe := UnreferencedStates(base, r, j);
    UnreferencedReleasesDocuments(base, r, j);
    RecordedIsAllowed(base, r, j, allowed);
    ok := RemoveDocuments(volume, r.root, j.claim.uid, j.documents, safe);
    WithinSubset(old(volume.trace), volume.trace, safe, allowed);
  }

  /** Opening the directories down to the claim's, stopping at the first that is missing. */
  method FindClaim(volume: Volume, r: Runtime, uid: string) returns (reply: Reply)
    requires volume.Valid()
    modifies volume`outcomes
    ensures volume.Valid()
    ensures reply.Missing? && ClaimState(volume.tree, r, uid) ==> Gone(volume.tree, r, uid)
    ensures reply.Missing? ==> ClaimDir(r.root, uid) !in volume.tree.dirs
    ensures old(volume.outcomes) == [] ==> volume.outcomes == [] && (reply.Okay? || reply.Missing?)
    ensures reply.Okay? ==> ClaimDir(r.root, uid) in volume.tree.dirs
  {
    var dirs := [LocalRoot(r.root), MetadataRoot(r.root), ClaimDir(r.root, uid)];
    reply := Okay;
    for i := 0 to |dirs|
      invariant volume.Valid() && reply.Okay?
      invariant old(volume.outcomes) == [] ==> volume.outcomes == []
      invariant i == |dirs| ==> dirs[2] in volume.tree.dirs
    {
      reply := volume.Open(dirs[i]);
      if reply.Missing? {
        if ClaimDir(r.root, uid) in volume.tree.dirs {
          WithinItsParents(volume.tree, r, uid);
        }
        if ClaimState(volume.tree, r, uid) {
          NoDirIsGone(volume.tree, r, uid);
        }
        return;
      }
      if !reply.Okay? {
        return Failed;
      }
    }
  }

  lemma WithinItsParents(t: Tree, r: Runtime, uid: string)
    requires WellPlaced(t) && ClaimDir(r.root, uid) in t.dirs
    ensures MetadataRoot(r.root) in t.dirs && LocalRoot(r.root) in t.dirs
  {
    assert Parent(ClaimDir(r.root, uid)).value in t.dirs && Parent(MetadataRoot(r.root)).value in t.dirs;
  }

  /** The claim's journal is this identity's, or there is none. */
  ghost predicate Removable(t: Tree, r: Runtime, identity: ClaimRef)
  {
    Clean(t, r, identity.uid) || exists j :: WellFormed(r, identity.uid, j) && Journaled(t, r, j) && j.claim == identity
  }

  /** A journal to act on: this store's version and driver, this very claim, and one list of well-formed requests. */
  predicate Acts(r: Runtime, identity: ClaimRef, text: string)
  {
    && r.decode(text).Some?
    && var j := r.decode(text).value;
    && j.version == 1 && j.driver == r.driver && j.claim == identity
    && j.documents.Keys == j.specs.Keys && forall q :: q in j.documents ==> Label(q, 63)
  }

  /** The claim's journal is unreadable, or not one to act on. */
  predicate Barred(t: Tree, r: Runtime, identity: ClaimRef)
  {
    var f := File(JournalPlace(r.root, identity.uid), None);
    f in t.files && (t.files[f].Torn? || |t.files[f].text| > 16 * 1024 * 1024 || !Acts(r, identity, t.files[f].text))
  }

  lemma ActsIsActionable(r: Runtime, identity: ClaimRef, text: string)
    ensures Acts(r, identity, text) <==> r.decode(text).Some? && Actionable(r, identity, r.decode(text).value)
  {
    if r.decode(text).Some? {
      var j := r.decode(text).value;
      assert |j.documents| == |j.documents.Keys| && |j.specs| == |j.specs.Keys|;
      if Actionable(r, identity, j) {
        SubsetKeys(j.documents.Keys, j.specs.Keys);
      }
    }
  }

  lemma JournalRead(t: Tree, r: Runtime, identity: ClaimRef, text: string)
    requires Lawful(r) && ClaimState(t, r, identity.uid) && Label(identity.uid, 64)
    requires Holds(t, JournalAt(r, identity.uid), text)
    ensures r.decode(text).Some? && WellFormed(r, identity.uid, r.decode(text).value) && Journaled(t, r, r.decode(text).value)
    ensures Removable(t, r, identity) ==> Actionable(r, identity, r.decode(text).value)
  {
    StateHasJournal(t, r, identity.uid);
    var k :| WellFormed(r, identity.uid, k) && Journaled(t, r, k);
    assert AsPlanned(t, r, k, Main(JournalAt(r, identity.uid)));
    assert Decodes(r, k);
    if Removable(t, r, identity) {
      var j :| WellFormed(r, identity.uid, j) && Journaled(t, r, j) && j.claim == identity;
      assert AsPlanned(t, r, j, Main(JournalAt(r, identity.uid)));
      assert Decodes(r, j);
      ActionableIsWellFormed(r, identity, j);
    }
  }

  lemma JournalReadable(t: Tree, r: Runtime, uid: string)
    requires ClaimState(t, r, uid)
    ensures Main(JournalAt(r, uid)) in t.files ==> t.files[Main(JournalAt(r, uid))].Bytes? && |t.files[Main(JournalAt(r, uid))].text| <= LIMIT
  {
    StateHasJournal(t, r, uid);
    if !Clean(t, r, uid) {
      var k :| WellFormed(r, uid, k) && Journaled(t, r, k);
      assert AsPlanned(t, r, k, Main(JournalAt(r, uid)));
    }
  }

  /** The journal of another claim bars the clean-up; without one, or with its own, it can go ahead. */
  lemma RemovableOrBarred(t: Tree, r: Runtime, identity: ClaimRef)
    requires Lawful(r) && WellPlaced(t) && ClaimState(t, r, identity.uid)
    ensures Removable(t, r, identity) <==> !Barred(t, r, identity)
    ensures Gone(t, r, identity.uid) ==> Removable(t, r, identity)
  {
    StateHasJournal(t, r, identity.uid);
    if !Clean(t, r, identity.uid) {
      var j :| WellFormed(r, identity.uid, j) && Journaled(t, r, j);
      var f := Main(JournalAt(r, identity.uid));
      assert AsPlanned(t, r, j, f) && Decodes(r, j) && t.files[f] == Bytes(r.encode(j));
      if Removable(t, r, identity) {
        var k :| WellFormed(r, identity.uid, k) && Journaled(t, r, k) && k.claim == identity;
        assert AsPlanned(t, r, k, f) && Decodes(r, k) && t.files[f] == Bytes(r.encode(k));
      }
    }
  }

  method RemoveFound(volume: Volume, r: Runtime, identity: ClaimRef, ghost base: Tree, ghost allowed: iset<Tree>) returns (ok: bool)
    requires volume.Valid() && Lawful(r) && Label(identity.uid, 64)
    requires ClaimState(volume.tree, r, identity.uid) || Barred(volume.tree, r, identity)
    requires base == volume.tree && Allows(allowed, base, r, identity.uid)
    modifies volume`tree, volume`outcomes, volume`trace
    ensures volume.Valid() && Within(old(volume.trace), volume.trace, allowed) && OnlyClaim(base, volume.tree, r, identity.uid)
    ensures ClaimState(base, r, identity.uid) ==> ClaimState(volume.tree, r, identity.uid)
    ensures ok ==> Gone(volume.tree, r, identity.uid)
    ensures Barred(base, r, identity) ==> !ok && volume.trace == old(volume.trace)
    ensures old(volume.outcomes) == [] && ClaimState(base, r, identity.uid) && Removable(base, r, identity) ==> ok
  {
    if ClaimState(base, r, identity.uid) {
      JournalReadable(base, r, identity.uid);
      StateHasJournal(base, r, identity.uid);
    }
    var text := volume.Read(Main(JournalAt(r, identity.uid)));
    if text.Err? {
      return false;
    }
    if text.value.None? {
      ok := RemoveEmptyClaim(volume, r, identity.uid, base, allowed);
      return;
    }
    ok := RemoveRead(volume, r, identity, text.value.value, base, allowed);
  }

  /** What the journal on disk records, if this store may act on it. */
  method RemoveRead(volume: Volume, r: Runtime, identity: ClaimRef, text: string, ghost base: Tree, ghost allowed: iset<Tree>) returns (ok: bool)
    requires volume.Valid() && Lawful(r) && Holds(volume.tree, JournalAt(r, identity.uid), text) && |text| <= LIMIT
    requires ClaimState(volume.tree, r, identity.uid) || Barred(volume.tree, r, identity)
    requires base == volume.tree && Allows(allowed, base, r, identity.uid)
    modifies volume`tree, volume`outcomes, volume`trace
    ensures volume.Valid() && Within(old(volume.trace), volume.trace, allowed) && OnlyClaim(base, volume.tree, r, identity.uid)
    ensures ClaimState(base, r, identity.uid) ==> ClaimState(volume.tree, r, identity.uid)
    ensures ok ==> Gone(volume.tree, r, identity.uid)
    ensures Barred(base, r, identity) ==> !ok && volume.trace == old(volume.trace)
    ensures old(volume.outcomes) == [] && ClaimState(base, r, identity.uid) && Removable(base, r, identity) ==> ok
  {
    ActsIsActionable(r, identity, text);
    if ClaimState(base, r, identity.uid) {
      JournalRead(base, r, identity, text);
    }
    var journal := r.decode(text);
    if journal.None? || !Actionable(r, identity, journal.value) {
      return false;
    }
    ok := RemoveRecorded(volume, r, journal.value, base, allowed);
  }

  /**
   * A claim's metadata is removed in the reverse order of its publication:
   * from any interrupted state, through states all backed by a journal,
   * touching this claim only. Success leaves nothing of the claim; a journal
   * of another identity, driver or version stops it; removing what is gone
   * changes nothing.
   */
  method CleanUpClaim(volume: Volume, r: Runtime, identity: ClaimRef) returns (ok: bool)
    requires volume.Valid() && Lawful(r)
    requires ClaimState(volume.tree, r, identity.uid) || Barred(volume.tree, r, identity)
    modifies volume`tree, volume`outcomes, volume`trace
    ensures volume.Valid() && OnlyClaim(old(volume.tree), volume.tree, r, identity.uid)
    ensures Within(old(volume.trace), volume.trace, Allowed(old(volume.tree), r, identity.uid))
    ensures ClaimState(old(volume.tree), r, identity.uid) ==> ClaimState(volume.tree, r, identity.uid)
    ensures ok ==> Gone(volume.tree, r, identity.uid)
    ensures !Label(identity.uid, 64) || Barred(old(volume.tree), r, identity) ==> !ok && volume.trace == old(volume.trace)
    ensures Gone(old(volume.tree), r, identity.uid) ==> volume.trace == old(volume.trace)
    ensures old(volume.outcomes) == [] && ClaimState(old(volume.tree), r, identity.uid) && Label(identity.uid, 64) ==>
      (ok <==> Removable(old(volume.tree), r, identity))
  {
    if !Label(identity.uid, 64) {
      return false;
    }
    if ClaimState(volume.tree, r, identity.uid) {
      RemovableOrBarred(volume.tree, r, identity);
    }
    var found := FindClaim(volume, r, identity.uid);
    if !found.Okay? {
      return found.Missing?;
    }
    assert OwnedDir(r, identity.uid, ClaimDir(r.root, identity.uid));
    ok := RemoveFound(volume, r, identity, volume.tree, Allowed(volume.tree, r, identity.uid));
  }

  // ----- Any claims, any drivers, any crashes -----

  /** Drivers keep their plugin data apart. */
  ghost predicate Apart(fleet: seq<Runtime>)
  {
    forall a, b :: 0 <= a < b < |fleet| ==> fleet[a].driver != fleet[b].driver && fleet[a].root != fleet[b].root
  }

  ghost predicate FleetState(t: Tree, fleet: seq<Runtime>)
  {
    forall a, uid :: 0 <= a < |fleet| ==> ClaimState(t, fleet[a], uid)
  }

  ghost predicate FleetSteps(before: seq<Tree>, after: seq<Tree>, fleet: seq<Runtime>)
  {
    && |before| <= |after| && after[..|before|] == before
    && forall k :: |before| <= k < |after| ==> FleetState(after[k], fleet)
  }

  /** What is done to one claim is never seen by another claim or another driver. */
  lemma OtherClaimKept(base: Tree, t: Tree, r: Runtime, uid: string, other: Runtime, otherUid: string)
    requires OnlyClaim(base, t, r, uid) && ClaimState(base, other, otherUid)
    requires uid != otherUid || (r.driver != other.driver && r.root != other.root)
    ensures ClaimState(t, other, otherUid)
  {
    assert forall place :: !(Owned(r, uid, place) && Owned(other, otherUid, place));
    if Clean(base, other, otherUid) {
      forall q
        ensures RequestDir(other.root, otherUid, q) !in t.dirs
      {
        assert !OwnedDir(r, uid, RequestDir(other.root, otherUid, q));
      }
      assert Clean(t, other, otherUid);
    } else {
      var j :| WellFormed(other, otherUid, j) && Journaled(base, other, j);
      OtherJournalKept(base, t, r, uid, other, j);
    }
  }

  lemma OtherJournalKept(base: Tree, t: Tree, r: Runtime, uid: string, other: Runtime, j: Journal)
    requires OnlyClaim(base, t, r, uid) && Journaled(base, other, j)
    requires uid != j.claim.uid || (r.driver != other.driver && r.root != other.root)
    ensures Journaled(t, other, j)
  {
    var otherUid := j.claim.uid;
    assert Owned(other, otherUid, JournalAt(other, otherUid));
    forall f | f in t.files && Owned(other, otherUid, f.place)
      ensures AsPlanned(t, other, j, f)
    {
      assert AsPlanned(base, other, j, f);
    }
    forall q | Main(SpecAt(other, otherUid, q)) in t.files
      ensures AllDocuments(t, other, j)
    {
      assert Main(SpecAt(other, otherUid, q)) in base.files && AllDocuments(base, other, j);
      assert forall d :: Owned(other, otherUid, DocumentAt(other, otherUid, d));
    }
    forall q | RequestDir(other.root, otherUid, q) in t.dirs
      ensures q in j.documents
    {
      assert !OwnedDir(r, uid, RequestDir(other.root, otherUid, q));
    }
  }

  lemma FleetKept(base: Tree, t: Tree, fleet: seq<Runtime>, a: nat, uid: string)
    requires Apart(fleet) && a < |fleet| && FleetState(base, fleet)
    requires ClaimState(t, fleet[a], uid) && OnlyClaim(base, t, fleet[a], uid)
    ensures FleetState(t, fleet)
  {
    forall b, other | 0 <= b < |fleet|
      ensures ClaimState(t, fleet[b], other)
    {
      if b != a || other != uid {
        OtherClaimKept(base, t, fleet[a], uid, fleet[b], other);
      }
    }
  }

  lemma FleetWithin(before: seq<Tree>, after: seq<Tree>, base: Tree, fleet: seq<Runtime>, a: nat, uid: string)
    requires Apart(fleet) && a < |fleet| && FleetState(base, fleet)
    requires Within(before, after, Allowed(base, fleet[a], uid))
    ensures FleetSteps(before, after, fleet)
  {
    forall k | |before| <= k < |after|
      ensures FleetState(after[k], fleet)
    {
      assert after[k] in Allowed(base, fleet[a], uid);
      FleetKept(base, after[k], fleet, a, uid);
    }
  }

  lemma FleetJoin(before: seq<Tree>, mid: seq<Tree>, after: seq<Tree>, fleet: seq<Runtime>)
    requires FleetSteps(before, mid, fleet) && FleetSteps(mid, after, fleet)
    ensures FleetSteps(before, after, fleet)
  {
    assert after[..|before|] == mid[..|before|];
    forall k | |before| <= k < |after|
      ensures FleetState(after[k], fleet)
    {
      if k < |mid| {
        assert after[k] == mid[k];
      }
    }
  }

  datatype Work = PersistWork(plan: Plan) | CleanUpWork(identity: ClaimRef)

  /** One process's turn: which driver, on what, and where its calls fail or it dies. */
  datatype Job = Job(driver: nat, work: Work, pid: nat, outcomes: seq<Outcome>)

  predicate ValidJob(job: Job, fleet: seq<Runtime>)
  {
    job.driver < |fleet| && (job.work.PersistWork? ==> ValidPlan(job.work.plan))
  }

  method RunJob(volume: Volume, fleet: seq<Runtime>, job: Job) returns (ok: bool)
    requires volume.Valid() && Apart(fleet) && ValidJob(job, fleet) && Lawful(fleet[job.driver]) && FleetState(volume.tree, fleet)
    modifies volume
    ensures volume.Valid() && FleetState(volume.tree, fleet) && FleetSteps(old(volume.trace), volume.trace, fleet)
  {
    var r := fleet[job.driver];
    volume.Restart(job.pid, job.outcomes);
    ghost var base := volume.tree;
    match job.work
    case PersistWork(plan) =>
      ok := PersistPlan(volume, r, plan);
      FleetWithin(old(volume.trace), volume.trace, base, fleet, job.driver, plan.claim.uid);
      FleetKept(base, volume.tree, fleet, job.driver, plan.claim.uid);
    case CleanUpWork(identity) =>
      ok := CleanUpClaim(volume, r, identity);
      FleetWithin(old(volume.trace), volume.trace, base, fleet, job.driver, identity.uid);
      FleetKept(base, volume.tree, fleet, job.driver, identity.uid);
  }

  /**
   * Whatever claims and drivers take turns, and wherever each turn is cut
   * off, no state ever shows a reference without its journal and documents,
   * or a document without its journal.
   */
  method RunJobs(volume: Volume, fleet: seq<Runtime>, jobs: seq<Job>)
    requires volume.Valid() && Apart(fleet) && FleetState(volume.tree, fleet)
    requires forall job :: job in jobs ==> ValidJob(job, fleet) && Lawful(fleet[job.driver])
    modifies volume
    ensures volume.Valid() && FleetState(volume.tree, fleet) && FleetSteps(old(volume.trace), volume.trace, fleet)
    ensures forall k, a, uid :: |old(volume.trace)| <= k < |volume.trace| && 0 <= a < |fleet| ==> Backed(volume.trace[k], fleet[a], uid)
  {
    for i := 0 to |jobs|
      invariant volume.Valid() && FleetState(volume.tree, fleet) && FleetSteps(old(volume.trace), volume.trace, fleet)
    {
      ghost var before := volume.trace;
      var _ := RunJob(volume, fleet, jobs[i]);
      FleetJoin(old(volume.trace), before, volume.trace, fleet);
    }
    FleetIsBacked(old(volume.trace), volume.trace, fleet);
  }

  lemma FleetIsBacked(before: seq<Tree>, after: seq<Tree>, fleet: seq<Runtime>)
    requires FleetSteps(before, after, fleet)
    ensures forall k, a, uid :: |before| <= k < |after| && 0 <= a < |fleet| ==> Backed(after[k], fleet[a], uid)
  {
    forall k, a, uid | |before| <= k < |after| && 0 <= a < |fleet|
      ensures Backed(after[k], fleet[a], uid)
    {
      assert FleetState(after[k], fleet);
      StateIsBacked(after[k], fleet[a], uid);
    }
  }
}
