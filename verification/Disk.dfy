/** A filesystem changed one call at a time, each of which may fail or lose its response. */
module Disk {
  import opened Wrappers
  import opened Artifacts

  /** What a file holds: an unfinished write, or complete bytes. */
  datatype Content = Torn | Bytes(text: string)

  datatype Tree = Tree(dirs: set<Dir>, files: map<File, Content>)

  datatype Op =
    | MakeDir(dir: Dir) | RemoveDir(dir: Dir)
    | CreateStage(file: File) | Write(file: File, text: string) | Link(source: File, target: File) | Unlink(file: File)

  datatype Reply = Okay | Exists | Missing | Failed

  datatype Step = Next(tree: Tree) | Refused(reply: Reply)

  /** One call fails without effect, succeeds, or takes effect and then fails. */
  datatype Outcome = Fails | Succeeds | SucceedsUnheard

  predicate Empty(t: Tree, dir: Dir)
  {
    (forall f :: f in t.files ==> DirOf(f.place) != dir) && forall d :: d in t.dirs ==> Parent(d) != Some(dir)
  }

  /** The effect of one call on the tree. */
  function StepOf(t: Tree, op: Op): Step
  {
    match op
    case MakeDir(dir) =>
      if dir in t.dirs then Refused(Exists)
      else if Parent(dir).Some? && Parent(dir).value !in t.dirs then Refused(Missing)
      else Next(t.(dirs := t.dirs + {dir}))
    case RemoveDir(dir) =>
      if dir !in t.dirs then Refused(Missing)
      else if !Empty(t, dir) then Refused(Failed)
      else Next(t.(dirs := t.dirs - {dir}))
    case CreateStage(file) =>
      if DirOf(file.place) !in t.dirs then Refused(Missing)
      else if file in t.files then Refused(Exists)
      else Next(t.(files := t.files[file := Torn]))
    case Write(file, text) =>
      if file !in t.files then Refused(Missing) else Next(t.(files := t.files[file := Bytes(text)]))
    case Link(source, target) =>
      if source !in t.files || DirOf(target.place) !in t.dirs then Refused(Missing)
      else if target in t.files then Refused(Exists)
      else Next(t.(files := t.files[target := t.files[source]]))
    case Unlink(file) =>
      if file !in t.files then Refused(Missing) else Next(t.(files := t.files - {file}))
  }

  /** Files lie in existing directories, directories in their parents, and every name is an accepted one. */
  predicate WellPlaced(t: Tree)
  {
    && (forall f :: f in t.files ==> DirOf(f.place) in t.dirs && Accepted(f.place))
    && forall d :: d in t.dirs && Parent(d).Some? ==> Parent(d).value in t.dirs
  }

  predicate AcceptedOp(op: Op)
  {
    match op
    case CreateStage(file) => Accepted(file.place)
    case Link(_, target) => Accepted(target.place)
    case _ => true
  }

  lemma StepKeepsPlaces(t: Tree, op: Op)
    requires WellPlaced(t) && AcceptedOp(op) && StepOf(t, op).Next?
    ensures WellPlaced(StepOf(t, op).tree)
  {
    var u := StepOf(t, op).tree;
    forall d | d in u.dirs && Parent(d).Some?
      ensures Parent(d).value in u.dirs
    {
      assert d in t.dirs ==> Parent(d).value in t.dirs;
    }
  }

  function ReplyTo(step: Step): Reply
  {
    if step.Next? then Okay else step.reply
  }

  datatype Listing = Listing(files: set<File>, dirs: set<Dir>)

  const LIMIT: nat := 16 * 1024 * 1024

  class Volume {
    var tree: Tree
    var outcomes: seq<Outcome>
    /** The process writing to the volume, and its next staging serial number. */
    var pid: nat
    var nextStage: nat
    /** Every state the tree has been in, oldest first. */
    ghost var trace: seq<Tree>

    ghost predicate Valid()
      reads this
    {
      trace != [] && trace[|trace| - 1] == tree && WellPlaced(tree)
    }

    constructor (initial: Tree, outcomes: seq<Outcome>, pid: nat)
      requires WellPlaced(initial)
      ensures Valid() && tree == initial && trace == [initial]
    {
      tree := initial;
      this.outcomes := outcomes;
      this.pid := pid;
      nextStage := 0;
      trace := [initial];
    }

    method NextOutcome() returns (o: Outcome)
      modifies `outcomes
      ensures old(outcomes) == [] ==> outcomes == [] && o.Succeeds?
    {
      if outcomes == [] {
        return Succeeds;
      }
      o := outcomes[0];
      outcomes := outcomes[1..];
    }

    method Apply(op: Op) returns (reply: Reply)
      requires Valid() && AcceptedOp(op)
      modifies `tree, `outcomes, `trace
      ensures Valid()
      ensures (tree == old(tree) && trace == old(trace) && !reply.Okay?) ||
        (StepOf(old(tree), op) == Next(tree) && trace == old(trace) + [tree] && (reply.Okay? || reply.Failed?))
      ensures reply.Exists? || reply.Missing? ==> StepOf(old(tree), op) == Refused(reply)
      ensures old(outcomes) == [] ==> outcomes == [] && reply == ReplyTo(StepOf(old(tree), op))
    {
      var outcome := NextOutcome();
      match StepOf(tree, op)
      case Refused(r) =>
        return if outcome.Fails? then Failed else r;
      case Next(after) =>
        if outcome.Fails? {
          return Failed;
        }
        StepKeepsPlaces(tree, op);
        tree := after;
        trace := trace + [after];
        return if outcome.Succeeds? then Okay else Failed;
    }

    /** A read may fail; an unfinished or oversized file does not read as anything. */
    method Read(file: File) returns (r: Result<Option<string>, Reply>)
      modifies `outcomes
      ensures r == Ok(None) ==> file !in tree.files
      ensures forall text :: r == Ok(Some(text)) ==> file in tree.files && tree.files[file] == Bytes(text) && |text| <= LIMIT
      ensures old(outcomes) == [] ==> outcomes == []
      ensures old(outcomes) == [] && file !in tree.files ==> r == Ok(None)
      ensures old(outcomes) == [] && file in tree.files && tree.files[file].Bytes? && |tree.files[file].text| <= LIMIT ==>
        r == Ok(Some(tree.files[file].text))
    {
      var outcome := NextOutcome();
      if !outcome.Succeeds? {
        return Err(Failed);
      }
      if file !in tree.files {
        return Ok(None);
      }
      match tree.files[file]
      case Torn => return Err(Failed);
      case Bytes(text) =>
        return if |text| <= LIMIT then Ok(Some(text)) else Err(Failed);
    }

    /** Opening a directory tells a missing one from a failure. */
    method Open(dir: Dir) returns (reply: Reply)
      modifies `outcomes
      ensures reply.Okay? ==> dir in tree.dirs
      ensures reply.Missing? ==> dir !in tree.dirs
      ensures old(outcomes) == [] ==> outcomes == [] && reply == if dir in tree.dirs then Okay else Missing
    {
      var outcome := NextOutcome();
      if !outcome.Succeeds? {
        return Failed;
      }
      return if dir in tree.dirs then Okay else Missing;
    }

    /** The files and sub-directories of a directory. */
    method List(dir: Dir) returns (listing: Option<Listing>)
      modifies `outcomes
      ensures listing.Some? ==> listing.value.files == set f | f in tree.files && DirOf(f.place) == dir
      ensures listing.Some? ==> listing.value.dirs == set d | d in tree.dirs && Parent(d) == Some(dir)
      ensures old(outcomes) == [] ==> outcomes == [] && listing.Some?
    {
      var outcome := NextOutcome();
      if !outcome.Succeeds? {
        return None;
      }
      return Some(Listing(set f | f in tree.files && DirOf(f.place) == dir, set d | d in tree.dirs && Parent(d) == Some(dir)));
    }

    method Serial() returns (stage: Stage)
      modifies `nextStage
      ensures stage == Stage(pid, old(nextStage)) && nextStage == old(nextStage) + 1
    {
      stage := Stage(pid, nextStage);
      nextStage := nextStage + 1;
    }

    /** A new process takes over: whatever was in flight is simply left behind. */
    method Restart(newPid: nat, newOutcomes: seq<Outcome>)
      modifies `pid, `nextStage, `outcomes
      ensures pid == newPid && nextStage == 0 && outcomes == newOutcomes
    {
      pid, nextStage, outcomes := newPid, 0, newOutcomes;
    }
  }
}
