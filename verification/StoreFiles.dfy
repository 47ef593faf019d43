/** Publishing one immutable file by staging and hard link, and clearing its stages. */
module StoreFiles {
  import opened Wrappers
  import opened Artifacts
  import opened Disk
  import opened Sorting

  const MAX_STAGE_ATTEMPTS: nat := 16

  function Main(place: Place): File { File(place, None) }

  /**
   * Apart from the place's own stages, the only possible change is that the
   * file itself appears, complete.
   */
  ghost predicate OnlyPublishes(base: Tree, t: Tree, place: Place, content: string)
  {
    && t.dirs == base.dirs
    && (forall f: File :: f.place != place ==> (f in t.files <==> f in base.files))
    && (forall f :: f in base.files && f.place != place ==> t.files[f] == base.files[f])
    && (Main(place) in base.files ==> Main(place) in t.files && t.files[Main(place)] == base.files[Main(place)])
    && (Main(place) !in base.files && Main(place) in t.files ==> t.files[Main(place)] == Bytes(content) && |content| <= LIMIT)
  }

  /** Only stages of the place are gone. */
  ghost predicate OnlyRemovesStages(base: Tree, t: Tree, place: Place)
  {
    && t.dirs == base.dirs
    && (forall f :: f in t.files ==> f in base.files && t.files[f] == base.files[f])
    && (forall f :: f in base.files && f !in t.files ==> f.place == place && f.stage.Some?)
  }

  ghost predicate PublishSteps(before: seq<Tree>, after: seq<Tree>, base: Tree, place: Place, content: string)
  {
    && |before| <= |after| && after[..|before|] == before
    && forall k :: |before| <= k < |after| ==> OnlyPublishes(base, after[k], place, content)
  }

  ghost predicate RemoveSteps(before: seq<Tree>, after: seq<Tree>, base: Tree, place: Place)
  {
    && |before| <= |after| && after[..|before|] == before
    && forall k :: |before| <= k < |after| ==> OnlyRemovesStages(base, after[k], place)
  }

  /** No stage of this process carries a serial still to come. */
  ghost predicate FreshStages(t: Tree, pid: nat, next: nat)
  {
    forall f :: f in t.files && f.stage.Some? && f.stage.value.pid == pid ==> f.stage.value.serial < next
  }

  ghost predicate NoStages(t: Tree, place: Place)
  {
    forall f :: f in t.files ==> f.place != place || f.stage.None?
  }

  // ----- Which staging names are free -----

  /** An earlier process of this number left a stage under this serial. */
  predicate Taken(t: Tree, place: Place, pid: nat, serial: nat)
  {
    File(place, Some(Stage(pid, serial))) in t.files
  }

  /** How many of the next serials are taken before the first free one. */
  function Collisions(t: Tree, place: Place, pid: nat, next: nat, tries: nat): (n: nat)
    ensures n <= tries
    ensures forall k :: next <= k < next + n ==> Taken(t, place, pid, k)
    ensures n < tries ==> !Taken(t, place, pid, next + n)
    decreases tries
  {
    if tries == 0 || !Taken(t, place, pid, next) then 0 else 1 + Collisions(t, place, pid, next + 1, tries - 1)
  }

  /** One of the next sixteen serials is free at the place. */
  ghost predicate Stageable(t: Tree, place: Place, pid: nat, next: nat)
  {
    exists k :: next <= k < next + MAX_STAGE_ATTEMPTS && !Taken(t, place, pid, k)
  }

  /** The artifact is there already, or a stage can be made for it. */
  ghost predicate Admits(t: Tree, place: Place, pid: nat, next: nat)
  {
    Main(place) in t.files || Stageable(t, place, pid, next)
  }

  /** The next serial once the artifact has been published. */
  function AfterStage(t: Tree, place: Place, pid: nat, next: nat): nat
  {
    if Main(place) in t.files then next else next + Collisions(t, place, pid, next, MAX_STAGE_ATTEMPTS) + 1
  }

  lemma CollisionsAre(t: Tree, place: Place, pid: nat, next: nat, n: nat)
    requires n < MAX_STAGE_ATTEMPTS && !Taken(t, place, pid, next + n)
    requires forall k :: next <= k < next + n ==> Taken(t, place, pid, k)
    ensures Collisions(t, place, pid, next, MAX_STAGE_ATTEMPTS) == n && Stageable(t, place, pid, next)
  {
  }

  /** The same files at the place. */
  ghost predicate SameAt(t: Tree, u: Tree, place: Place)
  {
    forall f: File :: f.place == place ==> (f in t.files <==> f in u.files)
  }

  lemma {:induction false} SameCollisions(t: Tree, u: Tree, place: Place, pid: nat, next: nat, tries: nat)
    requires SameAt(t, u, place)
    ensures Collisions(t, place, pid, next, tries) == Collisions(u, place, pid, next, tries)
    decreases tries
  {
    assert Taken(t, place, pid, next) <==> Taken(u, place, pid, next);
    if tries > 0 {
      SameCollisions(t, u, place, pid, next + 1, tries - 1);
    }
  }

  lemma SameAdmits(t: Tree, u: Tree, place: Place, pid: nat, next: nat)
    requires SameAt(t, u, place)
    ensures Admits(t, place, pid, next) <==> Admits(u, place, pid, next)
    ensures AfterStage(t, place, pid, next) == AfterStage(u, place, pid, next)
  {
    SameCollisions(t, u, place, pid, next, MAX_STAGE_ATTEMPTS);
    forall k
      ensures Taken(t, place, pid, k) <==> Taken(u, place, pid, k)
    {
      assert File(place, Some(Stage(pid, k))).place == place;
    }
  }

  /** The next serial once all of these have been published, in this order. */
  function AfterAll(t: Tree, places: seq<Place>, pid: nat, next: nat): nat
  {
    if places == [] then next
    else AfterStage(t, places[|places| - 1], pid, AfterAll(t, places[..|places| - 1], pid, next))
  }

  /** Each of these can be staged when its turn comes. */
  ghost predicate AdmitsAll(t: Tree, places: seq<Place>, pid: nat, next: nat)
  {
    places == [] ||
    (AdmitsAll(t, places[..|places| - 1], pid, next)
     && Admits(t, places[|places| - 1], pid, AfterAll(t, places[..|places| - 1], pid, next)))
  }

  lemma AdmitsNext(t: Tree, places: seq<Place>, i: nat, pid: nat, next: nat)
    requires i < |places|
    ensures AfterAll(t, places[..i + 1], pid, next) == AfterStage(t, places[i], pid, AfterAll(t, places[..i], pid, next))
    ensures AdmitsAll(t, places[..i + 1], pid, next) <==>
      AdmitsAll(t, places[..i], pid, next) && Admits(t, places[i], pid, AfterAll(t, places[..i], pid, next))
  {
    assert places[..i + 1][..i] == places[..i];
  }

  lemma {:induction false} AdmitsPrefix(t: Tree, places: seq<Place>, i: nat, pid: nat, next: nat)
    requires i <= |places| && AdmitsAll(t, places, pid, next)
    ensures AdmitsAll(t, places[..i], pid, next)
    decreases |places|
  {
    if i == |places| {
      assert places[..i] == places;
    } else {
      AdmitsPrefix(t, places[..|places| - 1], i, pid, next);
      assert places[..|places| - 1][..i] == places[..i];
    }
  }

  lemma {:induction false} AdmitsConcat(t: Tree, a: seq<Place>, b: seq<Place>, pid: nat, next: nat)
    ensures AfterAll(t, a + b, pid, next) == AfterAll(t, b, pid, AfterAll(t, a, pid, next))
    ensures AdmitsAll(t, a + b, pid, next) <==> AdmitsAll(t, a, pid, next) && AdmitsAll(t, b, pid, AfterAll(t, a, pid, next))
    decreases |b|
  {
    if b == [] {
      assert a + b == a;
    } else {
      AdmitsConcat(t, a, b[..|b| - 1], pid, next);
      assert (a + b)[..|a + b| - 1] == a + b[..|b| - 1];
    }
  }

  lemma {:induction false} SameAdmitsAll(t: Tree, u: Tree, places: seq<Place>, pid: nat, next: nat)
    requires forall k :: 0 <= k < |places| ==> SameAt(t, u, places[k])
    ensures AfterAll(t, places, pid, next) == AfterAll(u, places, pid, next)
    ensures AdmitsAll(t, places, pid, next) <==> AdmitsAll(u, places, pid, next)
    decreases |places|
  {
    if places != [] {
      SameAdmitsAll(t, u, places[..|places| - 1], pid, next);
      SameAdmits(t, u, places[|places| - 1], pid, AfterAll(t, places[..|places| - 1], pid, next));
    }
  }

  /** The stages earlier processes of this number left at a place. */
  function Leftovers(t: Tree, place: Place, pid: nat): set<File>
  {
    set f | f in t.files && f.place == place && f.stage.Some? && f.stage.value.pid == pid
  }

  lemma FewLeftoversStageable(t: Tree, place: Place, pid: nat, next: nat)
    requires |Leftovers(t, place, pid)| < MAX_STAGE_ATTEMPTS
    ensures Stageable(t, place, pid, next)
  {
    var stageAt := (i: nat) => File(place, Some(Stage(pid, next + i)));
    CountImages(stageAt, MAX_STAGE_ATTEMPTS);
    var wanted := set i: nat | i < MAX_STAGE_ATTEMPTS :: stageAt(i);
    if wanted <= Leftovers(t, place, pid) {
      SubsetSize(wanted, Leftovers(t, place, pid));
    }
    var missing :| missing in wanted && missing !in Leftovers(t, place, pid);
    var i: nat :| i < MAX_STAGE_ATTEMPTS && stageAt(i) == missing;
    assert !Taken(t, place, pid, next + i);
  }

  /** Fewer than sixteen leftovers of this process's number at each place never stop a publication. */
  lemma {:induction false} FewLeftovers(t: Tree, places: seq<Place>, pid: nat, next: nat)
    requires forall place :: place in places ==> |Leftovers(t, place, pid)| < MAX_STAGE_ATTEMPTS
    ensures AdmitsAll(t, places, pid, next)
    decreases |places|
  {
    if places != [] {
      FewLeftovers(t, places[..|places| - 1], pid, next);
      FewLeftoversStageable(t, places[|places| - 1], pid, AfterAll(t, places[..|places| - 1], pid, next));
    }
  }

  /** Neither do leftovers whose serials this process has already passed. */
  lemma {:induction false} FreshAdmits(t: Tree, places: seq<Place>, pid: nat, next: nat)
    requires FreshStages(t, pid, next)
    ensures AdmitsAll(t, places, pid, next) && next <= AfterAll(t, places, pid, next)
    decreases |places|
  {
    if places != [] {
      FreshAdmits(t, places[..|places| - 1], pid, next);
      assert !Taken(t, places[|places| - 1], pid, AfterAll(t, places[..|places| - 1], pid, next));
    }
  }

  // ----- Steps -----

  lemma StageStep(base: Tree, t: Tree, u: Tree, place: Place, content: string, stage: Stage, op: Op)
    requires OnlyPublishes(base, t, place, content) && StepOf(t, op) == Next(u)
    requires op == CreateStage(File(place, Some(stage))) || op == Unlink(File(place, Some(stage))) || op == Write(File(place, Some(stage)), content)
    ensures OnlyPublishes(base, u, place, content)
  {
  }

  lemma LinkStep(base: Tree, t: Tree, u: Tree, place: Place, content: string, stage: Stage)
    requires OnlyPublishes(base, t, place, content) && StepOf(t, Link(File(place, Some(stage)), Main(place))) == Next(u)
    requires File(place, Some(stage)) in t.files && t.files[File(place, Some(stage))] == Bytes(content) && |content| <= LIMIT
    ensures OnlyPublishes(base, u, place, content)
  {
  }

  lemma PublishStepsExtend(before: seq<Tree>, mid: seq<Tree>, after: seq<Tree>, t: Tree, base: Tree, place: Place, content: string)
    requires PublishSteps(before, mid, base, place, content) && OnlyPublishes(base, t, place, content)
    requires after == mid || after == mid + [t]
    ensures PublishSteps(before, after, base, place, content)
  {
  }

  lemma PublishStepsJoin(before: seq<Tree>, mid: seq<Tree>, after: seq<Tree>, base: Tree, place: Place, content: string)
    requires PublishSteps(before, mid, base, place, content) && PublishSteps(mid, after, base, place, content)
    ensures PublishSteps(before, after, base, place, content)
  {
    assert after[..|before|] == mid[..|before|];
    forall k | |before| <= k < |after|
      ensures OnlyPublishes(base, after[k], place, content)
    {
      if k < |mid| {
        assert after[k] == mid[k];
      }
    }
  }

  lemma RemoveStepsExtend(before: seq<Tree>, mid: seq<Tree>, after: seq<Tree>, t: Tree, base: Tree, place: Place)
    requires RemoveSteps(before, mid, base, place) && OnlyRemovesStages(base, t, place)
    requires after == mid || after == mid + [t]
    ensures RemoveSteps(before, after, base, place)
  {
  }

  function WithStage(t: Tree, place: Place, stage: Stage): Tree
  {
    t.(files := t.files[File(place, Some(stage)) := Torn])
  }

  lemma StageMade(before: seq<Tree>, t: Tree, u: Tree, place: Place, content: string, stage: Stage)
    requires StepOf(t, CreateStage(File(place, Some(stage)))) == Next(u)
    ensures u == WithStage(t, place, stage) && PublishSteps(before, before + [u], t, place, content) && OnlyPublishes(t, u, place, content)
    ensures Main(place) in u.files <==> Main(place) in t.files
  {
    StageStep(t, t, u, place, content, stage, CreateStage(File(place, Some(stage))));
  }

  /**
   * A new staging file, after at most fifteen names already taken. Undisturbed,
   * it is made exactly when the directory is there and one of the next sixteen
   * serials is free.
   */
  method CreateFreshStage(volume: Volume, place: Place, ghost content: string) returns (stage: Option<Stage>)
    requires volume.Valid() && Accepted(place)
    modifies volume
    ensures volume.Valid() && volume.pid == old(volume.pid)
    ensures PublishSteps(old(volume.trace), volume.trace, old(volume.tree), place, content)
    ensures OnlyPublishes(old(volume.tree), volume.tree, place, content)
    ensures Main(place) in volume.tree.files <==> Main(place) in old(volume.tree).files
    ensures stage.Some? ==> File(place, stage) in volume.tree.files
    ensures stage.Some? ==> volume.nextStage == stage.value.serial + 1 && stage.value.pid == volume.pid && volume.tree == WithStage(old(volume.tree), place, stage.value)
    ensures old(volume.outcomes) == [] ==> volume.outcomes == []
    ensures old(volume.outcomes) == [] ==> (stage.Some? <==> DirOf(place) in old(volume.tree).dirs && Stageable(old(volume.tree), place, volume.pid, old(volume.nextStage)))
    ensures old(volume.outcomes) == [] && stage.Some? ==>
      stage.value.serial == old(volume.nextStage) + Collisions(old(volume.tree), place, volume.pid, old(volume.nextStage), MAX_STAGE_ATTEMPTS)
  {
    var attempts := 0;
    while true
      invariant attempts <= MAX_STAGE_ATTEMPTS
      invariant volume.Valid() && volume.pid == old(volume.pid) && volume.nextStage == old(volume.nextStage) + attempts
      invariant volume.tree == old(volume.tree) && volume.trace == old(volume.trace)
      invariant old(volume.outcomes) == [] ==> volume.outcomes == []
      invariant old(volume.outcomes) == [] ==> forall k :: old(volume.nextStage) <= k < volume.nextStage ==> Taken(old(volume.tree), place, volume.pid, k)
      decreases MAX_STAGE_ATTEMPTS - attempts
    {
      attempts := attempts + 1;
      if attempts > MAX_STAGE_ATTEMPTS {
        return None;
      }
      var candidate := volume.Serial();
      var reply := volume.Apply(CreateStage(File(place, Some(candidate))));
      if volume.trace != old(volume.trace) {
        StageMade(old(volume.trace), old(volume.tree), volume.tree, place, content, candidate);
      }
      if reply.Okay? {
        if old(volume.outcomes) == [] {
          CollisionsAre(old(volume.tree), place, volume.pid, old(volume.nextStage), attempts - 1);
        }
        return Some(candidate);
      }
      if !reply.Exists? {
        return None;
      }
    }
  }

  /** The stage is filled, then linked under the final name. */
  method PublishStage(volume: Volume, place: Place, stage: Stage, content: string, ghost base: Tree) returns (ok: bool)
    requires volume.Valid() && Accepted(place) && OnlyPublishes(base, volume.tree, place, content)
    requires File(place, Some(stage)) in volume.tree.files && |content| <= LIMIT
    modifies volume`tree, volume`outcomes, volume`trace
    ensures volume.Valid() && PublishSteps(old(volume.trace), volume.trace, base, place, content)
    ensures OnlyPublishes(base, volume.tree, place, content)
    ensures volume.tree.files.Keys <= old(volume.tree).files.Keys + {Main(place)} && old(volume.tree).files.Keys <= volume.tree.files.Keys
    ensures ok ==> Main(place) in volume.tree.files && volume.tree.files[Main(place)] == Bytes(content)
    ensures old(volume.outcomes) == [] ==> volume.outcomes == []
    ensures old(volume.outcomes) == [] && Main(place) !in old(volume.tree).files && DirOf(place) in volume.tree.dirs ==> ok
  {
    var staged := File(place, Some(stage));
    ghost var t := volume.tree;
    var written := volume.Apply(Write(staged, content));
    if volume.tree != t {
      StageStep(base, t, volume.tree, place, content, stage, Write(staged, content));
    }
    if !written.Okay? {
      return false;
    }
    ghost var u := volume.tree;
    var linked := volume.Apply(Link(staged, Main(place)));
    if volume.tree != u {
      LinkStep(base, u, volume.tree, place, content, stage);
    }
    if linked.Exists? {
      var existing := volume.Read(Main(place));
      return existing == Ok(Some(content));
    }
    return linked.Okay?;
  }

  /** Short enough, and either there already with this content or stageable. */
  ghost predicate Publishable(t: Tree, place: Place, content: string, pid: nat, next: nat)
  {
    && |content| <= LIMIT && DirOf(place) in t.dirs && Admits(t, place, pid, next)
    && (Main(place) in t.files ==> t.files[Main(place)] == Bytes(content))
  }

  /**
   * An immutable file is published under its name at most once, complete;
   * every state on the way shows either nothing or the whole content there.
   * Undisturbed, it succeeds exactly when the content is publishable.
   */
  method EnsureFile(volume: Volume, place: Place, content: string) returns (ok: bool)
    requires volume.Valid() && Accepted(place)
    modifies volume
    ensures volume.Valid() && volume.pid == old(volume.pid)
    ensures PublishSteps(old(volume.trace), volume.trace, old(volume.tree), place, content)
    ensures OnlyPublishes(old(volume.tree), volume.tree, place, content)
    ensures ok ==> |content| <= LIMIT && Main(place) in volume.tree.files && volume.tree.files[Main(place)] == Bytes(content)
    ensures Main(place) in old(volume.tree).files ==> volume.trace == old(volume.trace)
    ensures old(volume.outcomes) == [] ==> volume.outcomes == []
    ensures old(volume.outcomes) == [] ==> (ok <==> Publishable(old(volume.tree), place, content, volume.pid, old(volume.nextStage)))
    ensures old(volume.outcomes) == [] && ok ==> volume.nextStage == AfterStage(old(volume.tree), place, volume.pid, old(volume.nextStage))
  {
    if |content| > LIMIT {
      return false;
    }
    var existing := volume.Read(Main(place));
    if existing.Err? {
      return false;
    }
    if existing.value.Some? {
      return existing.value.value == content;
    }
    var stage := CreateFreshStage(volume, place, content);
    if stage.None? {
      return false;
    }
    ghost var created := volume.trace;
    ok := PublishAndUnstage(volume, place, stage.value, content, old(volume.tree));
    PublishStepsJoin(old(volume.trace), created, volume.trace, old(volume.tree), place, content);
  }

  /** The stage is linked under its name, and unlinked whether or not that worked. */
  method PublishAndUnstage(volume: Volume, place: Place, stage: Stage, content: string, ghost base: Tree) returns (ok: bool)
    requires volume.Valid() && Accepted(place) && OnlyPublishes(base, volume.tree, place, content)
    requires File(place, Some(stage)) in volume.tree.files && |content| <= LIMIT
    modifies volume`tree, volume`outcomes, volume`trace
    ensures volume.Valid() && PublishSteps(old(volume.trace), volume.trace, base, place, content)
    ensures OnlyPublishes(base, volume.tree, place, content)
    ensures volume.tree.files.Keys <= old(volume.tree).files.Keys + {Main(place)}
    ensures ok ==> Main(place) in volume.tree.files && volume.tree.files[Main(place)] == Bytes(content)
    ensures old(volume.outcomes) == [] ==> volume.outcomes == []
    ensures old(volume.outcomes) == [] && Main(place) !in old(volume.tree).files && DirOf(place) in old(volume.tree).dirs ==> ok
  {
    ok := PublishStage(volume, place, stage, content, base);
    ghost var t, published := volume.tree, volume.trace;
    var removed := volume.Apply(Unlink(File(place, Some(stage))));
    if volume.tree != t {
      StageStep(base, t, volume.tree, place, content, stage, Unlink(File(place, Some(stage))));
    }
    PublishStepsExtend(old(volume.trace), published, volume.trace, volume.tree, base, place, content);
    ok := ok && removed.Okay?;
  }

  /** One listed file is removed when its name starts with the place's staging prefix. */
  method RemoveIfStage(volume: Volume, place: Place, file: File) returns (ok: bool)
    requires volume.Valid() && Accepted(place) && Accepted(file.place) && DirOf(place) == DirOf(file.place)
    modifies volume`tree, volume`outcomes, volume`trace
    ensures volume.Valid()
    ensures volume.trace == old(volume.trace) || volume.trace == old(volume.trace) + [volume.tree]
    ensures volume.tree == old(volume.tree) ||
      (file.place == place && file.stage.Some? && volume.tree == old(volume.tree).(files := old(volume.tree).files - {file}))
    ensures ok && file.place == place && file.stage.Some? ==> file !in volume.tree.files
    ensures file !in old(volume.tree).files || file.place != place || file.stage.None? ==> volume.trace == old(volume.trace)
    ensures old(volume.outcomes) == [] ==> volume.outcomes == [] && ok
  {
    PrefixSelects(place, file);
    if HasPrefix(Name(file), StagePrefix(place)) {
      var reply := volume.Apply(Unlink(file));
      return reply.Okay? || reply.Missing?;
    }
    return true;
  }

  /** Every stage of the place is removed, and nothing else. */
  method RemoveStages(volume: Volume, place: Place) returns (ok: bool)
    requires volume.Valid() && Accepted(place)
    modifies volume`tree, volume`outcomes, volume`trace
    ensures volume.Valid() && RemoveSteps(old(volume.trace), volume.trace, old(volume.tree), place)
    ensures OnlyRemovesStages(old(volume.tree), volume.tree, place)
    ensures ok ==> NoStages(volume.tree, place)
    ensures NoStages(old(volume.tree), place) ==> volume.trace == old(volume.trace)
    ensures old(volume.outcomes) == [] ==> volume.outcomes == [] && ok
  {
    var listing := volume.List(DirOf(place));
    if listing.None? {
      return false;
    }
    var rest := listing.value.files;
    while rest != {}
      invariant volume.Valid() && RemoveSteps(old(volume.trace), volume.trace, old(volume.tree), place)
      invariant OnlyRemovesStages(old(volume.tree), volume.tree, place)
      invariant forall f :: f in rest ==> f in old(volume.tree).files && DirOf(f.place) == DirOf(place) && Accepted(f.place)
      invariant forall f :: f in volume.tree.files && f.place == place && f.stage.Some? ==> f in rest
      invariant NoStages(old(volume.tree), place) ==> volume.trace == old(volume.trace)
      invariant old(volume.outcomes) == [] ==> volume.outcomes == []
      decreases |rest|
    {
      var f :| f in rest;
      ghost var before := volume.trace;
      ok := RemoveIfStage(volume, place, f);
      RemoveStepsExtend(old(volume.trace), before, volume.trace, volume.tree, old(volume.tree), place);
      if !ok {
        return;
      }
      rest := rest - {f};
    }
    return true;
  }
}
