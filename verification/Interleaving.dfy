/**
 * Jobs on different claims at the same time, call by call: each sees the
 * directory as if it were alone, so what is shown of a job on its own holds
 * among others.
 */
module Interleaving {
  import opened Wrappers
  import opened Artifacts
  import opened Disk
  import opened StoreFiles
  import opened ClaimFiles

  /** Who works on which claim. */
  datatype Worker = Worker(runtime: Runtime, uid: string)

  predicate Apart(a: Worker, b: Worker)
  {
    a.uid != b.uid || (a.runtime.driver != b.runtime.driver && a.runtime.root != b.runtime.root)
  }

  predicate AllApart(workers: seq<Worker>)
  {
    forall i, j :: 0 <= i < j < |workers| ==> Apart(workers[i], workers[j])
  }

  predicate Mine(w: Worker, place: Place) { Owned(w.runtime, w.uid, place) }

  predicate MyDir(w: Worker, dir: Dir) { OwnedDir(w.runtime, w.uid, dir) }

  /** A call on the worker's own files and directories; the roots are open by then. */
  predicate OwnOp(w: Worker, op: Op)
  {
    match op
    case MakeDir(dir) => MyDir(w, dir)
    case RemoveDir(dir) => MyDir(w, dir)
    case CreateStage(file) => Mine(w, file.place)
    case Write(file, _) => Mine(w, file.place)
    case Link(source, target) => Mine(w, source.place) && Mine(w, target.place)
    case Unlink(file) => Mine(w, file.place)
  }

  /** The shared roots, which no call removes. */
  predicate Rooted(t: Tree, w: Worker)
  {
    MetadataRoot(w.runtime.root) in t.dirs && CdiRoot in t.dirs
  }

  /** The two trees agree on everything of the worker's claim. */
  ghost predicate SameView(t: Tree, u: Tree, w: Worker)
  {
    && (forall f: File :: Mine(w, f.place) ==> (f in t.files <==> f in u.files))
    && (forall f :: f in t.files && Mine(w, f.place) ==> t.files[f] == u.files[f])
    && (forall d :: MyDir(w, d) ==> (d in t.dirs <==> d in u.dirs))
  }

  /** A claim's state is decided by its own files and directories. */
  lemma ViewDecides(t: Tree, u: Tree, w: Worker)
    requires SameView(t, u, w) && ClaimState(t, w.runtime, w.uid)
    ensures ClaimState(u, w.runtime, w.uid)
  {
    var r := w.runtime;
    if Clean(t, r, w.uid) {
      forall q
        ensures RequestDir(r.root, w.uid, q) !in u.dirs
      {
        assert MyDir(w, RequestDir(r.root, w.uid, q));
      }
      assert Clean(u, r, w.uid);
    } else {
      var j :| WellFormed(r, w.uid, j) && Journaled(t, r, j);
      JournaledView(t, u, w, j);
    }
  }

  lemma JournaledView(t: Tree, u: Tree, w: Worker, j: Journal)
    requires SameView(t, u, w) && WellFormed(w.runtime, w.uid, j) && Journaled(t, w.runtime, j)
    ensures Journaled(u, w.runtime, j)
  {
    var r := w.runtime;
    assert Mine(w, JournalAt(r, w.uid));
    forall f | f in u.files && Mine(w, f.place)
      ensures AsPlanned(u, r, j, f)
    {
      assert AsPlanned(t, r, j, f);
    }
    forall q | Main(SpecAt(r, w.uid, q)) in u.files
      ensures AllDocuments(u, r, j)
    {
      assert Main(SpecAt(r, w.uid, q)) in t.files && AllDocuments(t, r, j);
      assert forall d :: Mine(w, DocumentAt(r, w.uid, d));
    }
    forall q | RequestDir(r.root, w.uid, q) in u.dirs
      ensures q in j.documents
    {
      assert MyDir(w, RequestDir(r.root, w.uid, q));
    }
  }

  // ----- One call -----

  lemma EmptyView(t: Tree, u: Tree, w: Worker, dir: Dir)
    requires SameView(t, u, w) && MyDir(w, dir)
    ensures Empty(t, dir) ==> Empty(u, dir)
  {
    assert forall f: File :: DirOf(f.place) == dir ==> Mine(w, f.place);
    assert forall d: Dir :: Parent(d) == Some(dir) ==> MyDir(w, d);
  }

  lemma SameViewTurned(t: Tree, u: Tree, w: Worker)
    requires SameView(t, u, w)
    ensures SameView(u, t, w)
  {
  }

  /** A call is answered, and changes the claim, as on any tree that agrees on the claim. */
  lemma StepIsLocal(t: Tree, u: Tree, w: Worker, op: Op)
    requires SameView(t, u, w) && Rooted(t, w) && Rooted(u, w) && OwnOp(w, op)
    ensures ReplyTo(StepOf(t, op)) == ReplyTo(StepOf(u, op))
    ensures StepOf(t, op).Next? ==> StepOf(u, op).Next? && SameView(StepOf(t, op).tree, StepOf(u, op).tree, w)
  {
    match op
    case RemoveDir(dir) =>
      EmptyView(t, u, w, dir);
      SameViewTurned(t, u, w);
      EmptyView(u, t, w, dir);
    case _ =>
  }

  /** A call leaves everybody else's claim, and the roots, as they were. */
  lemma StepIsUnseen(t: Tree, w: Worker, op: Op, other: Worker)
    requires OwnOp(w, op) && Apart(w, other) && StepOf(t, op).Next?
    ensures SameView(t, StepOf(t, op).tree, other)
    ensures Rooted(t, other) ==> Rooted(StepOf(t, op).tree, other)
  {
  }

  // ----- Any interleaving -----

  /** The tree all workers share, and for each the tree it would have on its own. */
  datatype Scene = Scene(shared: Tree, alone: seq<Tree>)

  /** One worker's call takes effect, on the shared tree and on its own. */
  ghost predicate Act(s: Scene, t: Scene, workers: seq<Worker>, i: nat, op: Op)
    requires i < |workers| == |s.alone|
  {
    && OwnOp(workers[i], op) && StepOf(s.shared, op) == Next(t.shared)
    && StepOf(s.alone[i], op).Next? && t.alone == s.alone[i := StepOf(s.alone[i], op).tree]
  }

  ghost predicate Acts(s: Scene, t: Scene, workers: seq<Worker>)
  {
    |s.alone| == |workers| && exists i: nat, op :: i < |workers| && Act(s, t, workers, i, op)
  }

  /** Every worker's claim is on the shared tree as on its own. */
  ghost predicate AsAlone(s: Scene, workers: seq<Worker>)
  {
    && |s.alone| == |workers|
    && forall i {:trigger workers[i]} :: 0 <= i < |workers| ==>
         Rooted(s.shared, workers[i]) && Rooted(s.alone[i], workers[i]) && SameView(s.shared, s.alone[i], workers[i])
  }

  lemma SameViewThrough(t: Tree, u: Tree, v: Tree, w: Worker)
    requires SameView(t, u, w) && SameView(u, v, w)
    ensures SameView(t, v, w)
  {
  }

  lemma StaysRooted(t: Tree, w: Worker, op: Op)
    requires OwnOp(w, op) && Rooted(t, w) && StepOf(t, op).Next?
    ensures Rooted(StepOf(t, op).tree, w)
  {
  }

  lemma ActKeeps(s: Scene, t: Scene, workers: seq<Worker>, i: nat, op: Op)
    requires AllApart(workers) && AsAlone(s, workers) && i < |workers| && Act(s, t, workers, i, op)
    ensures AsAlone(t, workers)
  {
    forall j | 0 <= j < |workers|
      ensures Rooted(t.shared, workers[j]) && Rooted(t.alone[j], workers[j]) && SameView(t.shared, t.alone[j], workers[j])
    {
      if j == i {
        StepIsLocal(s.shared, s.alone[i], workers[i], op);
        StaysRooted(s.shared, workers[i], op);
        StaysRooted(s.alone[i], workers[i], op);
      } else {
        assert if i < j then Apart(workers[i], workers[j]) else Apart(workers[j], workers[i]);
        StepIsUnseen(s.shared, workers[i], op, workers[j]);
        SameViewTurned(s.shared, t.shared, workers[j]);
        SameViewThrough(t.shared, s.shared, s.alone[j], workers[j]);
      }
    }
  }

  ghost predicate Run(scenes: seq<Scene>, workers: seq<Worker>)
  {
    && scenes != [] && AsAlone(scenes[0], workers)
    && forall k {:trigger scenes[k]} :: 0 <= k < |scenes| && k > 0 ==> Acts(scenes[k - 1], scenes[k], workers)
  }

  /** However the calls of several workers interleave, each finds its claim as if it were alone. */
  lemma {:induction false} EachIsAlone(scenes: seq<Scene>, workers: seq<Worker>, k: nat)
    requires AllApart(workers) && Run(scenes, workers) && k < |scenes|
    ensures AsAlone(scenes[k], workers)
  {
    if k > 0 {
      EachIsAlone(scenes, workers, k - 1);
      assert Acts(scenes[k - 1], scenes[k], workers);
      var i: nat, op :| i < |workers| && Act(scenes[k - 1], scenes[k], workers, i, op);
      ActKeeps(scenes[k - 1], scenes[k], workers, i, op);
    }
  }

  /** So the next call of each is answered as if it were alone. */
  lemma AnsweredAsAlone(scenes: seq<Scene>, workers: seq<Worker>, k: nat, i: nat, op: Op)
    requires AllApart(workers) && Run(scenes, workers) && k < |scenes| && i < |workers| && OwnOp(workers[i], op)
    ensures |scenes[k].alone| == |workers|
    ensures ReplyTo(StepOf(scenes[k].shared, op)) == ReplyTo(StepOf(scenes[k].alone[i], op))
  {
    EachIsAlone(scenes, workers, k);
    StepIsLocal(scenes[k].shared, scenes[k].alone[i], workers[i], op);
  }

  /**
   * As long as each worker on its own would keep its claim in a state an
   * interrupted run may leave, the shared tree never shows a reference or a
   * document of any of the claims that is not backed.
   */
  lemma InterleavingIsBacked(scenes: seq<Scene>, workers: seq<Worker>, k: nat, i: nat)
    requires AllApart(workers) && Run(scenes, workers) && k < |scenes| && i < |workers|
    requires i < |scenes[k].alone| && ClaimState(scenes[k].alone[i], workers[i].runtime, workers[i].uid)
    ensures Backed(scenes[k].shared, workers[i].runtime, workers[i].uid)
  {
    EachIsAlone(scenes, workers, k);
    SameViewTurned(scenes[k].shared, scenes[k].alone[i], workers[i]);
    ViewDecides(scenes[k].alone[i], scenes[k].shared, workers[i]);
    StateIsBacked(scenes[k].shared, workers[i].runtime, workers[i].uid);
  }
}
