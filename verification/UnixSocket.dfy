/** Startup on a shared Unix-socket path by any number of processes, each of which may die at any step. */
module UnixSocket {
  import opened Wrappers

  datatype SocketState = Bound | Listening | Closed

  /** Where a process is in its startup; from `Locked` to `Ready` it holds the startup lock. */
  datatype Phase =
    | Idle | Waiting
    | Locked | Probing | Unlinking | Rebinding | Binding(socket: nat) | Ready(socket: nat)
    | Serving(socket: nat) | Refused | Dead

  /** The path names at most one socket, which may outlive its process. */
  datatype State = State(path: Option<nat>, sockets: seq<SocketState>, lock: Option<nat>, phases: seq<Phase>)

  datatype Action = Open | Acquire | Bind | Probe | Unlink | Rebind | Listen | Return | Fault | Die | Close | Sweep

  predicate HoldsLock(phase: Phase)
  {
    phase.Locked? || phase.Probing? || phase.Unlinking? || phase.Rebinding? || phase.Binding? || phase.Ready?
  }

  predicate Owns(phase: Phase, socket: nat)
  {
    (phase.Binding? || phase.Ready? || phase.Serving?) && phase.socket == socket
  }

  predicate Live(s: State, socket: nat)
  {
    socket < |s.sockets| && s.sockets[socket].Listening?
  }

  function Moved(s: State, p: nat, phase: Phase): State
    requires p < |s.phases|
  {
    s.(phases := s.phases[p := phase])
  }

  /** A new socket is created under the path. */
  function Created(s: State, p: nat): State
    requires p < |s.phases|
  {
    Moved(s, p, Binding(|s.sockets|)).(path := Some(|s.sockets|), sockets := s.sockets + [Bound])
  }

  /** The process lets go of the lock and of its socket, if it has one; the path stays. */
  function Released(s: State, p: nat, phase: Phase): State
    requires p < |s.phases|
  {
    var was := s.phases[p];
    var closed := if (was.Binding? || was.Ready? || was.Serving?) && was.socket < |s.sockets| then s.sockets[was.socket := Closed] else s.sockets;
    Moved(s, p, phase).(sockets := closed, lock := if s.lock == Some(p) then None else s.lock)
  }

  /** What an action of process `p` does, when it can be taken. */
  function StepOf(s: State, p: nat, a: Action): Option<State>
    requires p < |s.phases|
  {
    var phase := s.phases[p];
    match a
    case Open => if phase.Idle? then Some(Moved(s, p, Waiting)) else None
    case Acquire => if phase.Waiting? && s.lock.None? then Some(Moved(s, p, Locked).(lock := Some(p))) else None
    case Bind =>
      if !phase.Locked? then None
      else if s.path.None? then Some(Created(s, p))
      else Some(Moved(s, p, Probing))
    case Probe =>
      if !phase.Probing? then None
      else if s.path.None? then Some(Moved(s, p, Rebinding))
      else if Live(s, s.path.value) then Some(Released(s, p, Refused))
      else Some(Moved(s, p, Unlinking))
    case Unlink =>
      if !phase.Unlinking? then None
      else if s.path.None? then Some(Released(s, p, Refused))
      else Some(Moved(s, p, Rebinding).(path := None))
    case Rebind =>
      if !phase.Rebinding? then None
      else if s.path.None? then Some(Created(s, p))
      else Some(Released(s, p, Refused))
    case Listen =>
      if !phase.Binding? || phase.socket >= |s.sockets| then None
      else Some(Moved(s, p, Ready(phase.socket)).(sockets := s.sockets[phase.socket := Listening]))
    case Return =>
      if !phase.Ready? then None
      else Some(Moved(s, p, Serving(phase.socket)).(lock := if s.lock == Some(p) then None else s.lock))
    case Fault => if HoldsLock(phase) || phase.Waiting? then Some(Released(s, p, Refused)) else None
    case Die => if phase.Dead? then None else Some(Released(s, p, Dead))
    case Close => if phase.Serving? then Some(Released(s, p, Idle)) else None
    // Someone tidies away a path that nobody has open.
    case Sweep => if s.path.Some? && s.path.value < |s.sockets| && s.sockets[s.path.value].Closed? then Some(s.(path := None)) else None
  }

  /** Every open socket is the one under the path; only the lock's holder is between checking and replacing it. */
  ghost predicate Inv(s: State)
  {
    && (forall p :: 0 <= p < |s.phases| ==> (HoldsLock(s.phases[p]) <==> s.lock == Some(p)))
    && (forall p :: 0 <= p < |s.phases| ==> PhaseFine(s, s.phases[p]))
    && (forall p, q, k :: 0 <= p < |s.phases| && 0 <= q < |s.phases| && Owns(s.phases[p], k) && Owns(s.phases[q], k) ==> p == q)
    && (s.path.Some? ==> s.path.value < |s.sockets|)
    && (forall k :: 0 <= k < |s.sockets| && !s.sockets[k].Closed? ==> s.path == Some(k) && exists p :: 0 <= p < |s.phases| && Owns(s.phases[p], k))
  }

  predicate PhaseFine(s: State, phase: Phase)
  {
    && (phase.Binding? ==> phase.socket < |s.sockets| && s.sockets[phase.socket].Bound? && s.path == Some(phase.socket))
    && (phase.Ready? || phase.Serving? ==> phase.socket < |s.sockets| && s.sockets[phase.socket].Listening? && s.path == Some(phase.socket))
    && (phase.Unlinking? ==> s.path.Some? ==> s.path.value < |s.sockets| && s.sockets[s.path.value].Closed?)
    && (phase.Rebinding? ==> s.path.None?)
  }

  /** An open socket of another process, seen by the lock's holder, is a listening one. */
  lemma OpenIsServed(s: State, p: nat, k: nat)
    requires Inv(s) && p < |s.phases| && HoldsLock(s.phases[p]) && !s.phases[p].Binding?
    requires k < |s.sockets| && !s.sockets[k].Closed?
    ensures s.sockets[k].Listening? && s.path == Some(k)
  {
    var q :| 0 <= q < |s.phases| && Owns(s.phases[q], k);
    assert PhaseFine(s, s.phases[q]);
  }

  lemma MoveKeeps(s: State, p: nat, phase: Phase)
    requires Inv(s) && p < |s.phases| && PhaseFine(s, phase) && HoldsLock(phase) == HoldsLock(s.phases[p])
    requires forall k :: Owns(phase, k) <==> Owns(s.phases[p], k)
    ensures Inv(Moved(s, p, phase))
  {
    var t := Moved(s, p, phase);
    forall k | 0 <= k < |t.sockets| && !t.sockets[k].Closed?
      ensures exists q :: 0 <= q < |t.phases| && Owns(t.phases[q], k)
    {
      var q :| 0 <= q < |s.phases| && Owns(s.phases[q], k);
      assert Owns(t.phases[q], k);
    }
  }

  lemma CreateKeeps(s: State, p: nat)
    requires Inv(s) && p < |s.phases| && HoldsLock(s.phases[p]) && s.path.None?
    ensures Inv(Created(s, p))
  {
    var t := Created(s, p);
    forall q | 0 <= q < |t.phases| && q != p
      ensures PhaseFine(t, t.phases[q]) && !Owns(t.phases[q], |s.sockets|)
    {
      assert PhaseFine(s, s.phases[q]);
    }
    assert Owns(t.phases[p], |s.sockets|);
    forall k | 0 <= k < |s.sockets|
      ensures s.sockets[k].Closed?
    {
      assert !s.sockets[k].Closed? ==> s.path == Some(k);
    }
  }

  lemma ReleaseKeeps(s: State, p: nat, phase: Phase)
    requires Inv(s) && p < |s.phases| && (phase.Refused? || phase.Dead? || phase.Idle?)
    ensures Inv(Released(s, p, phase))
  {
    var t := Released(s, p, phase);
    forall q | 0 <= q < |t.phases|
      ensures PhaseFine(t, t.phases[q])
    {
      assert PhaseFine(s, s.phases[q]) && PhaseFine(s, s.phases[p]);
      assert q != p && (s.phases[q].Binding? || s.phases[q].Ready? || s.phases[q].Serving?) ==> Owns(s.phases[q], s.phases[q].socket);
      assert (s.phases[p].Binding? || s.phases[p].Ready? || s.phases[p].Serving?) ==> Owns(s.phases[p], s.phases[p].socket);
    }
    forall k | 0 <= k < |t.sockets| && !t.sockets[k].Closed?
      ensures t.path == Some(k) && exists q :: 0 <= q < |t.phases| && Owns(t.phases[q], k)
    {
      assert !s.sockets[k].Closed?;
      var q :| 0 <= q < |s.phases| && Owns(s.phases[q], k);
      assert q != p;
      assert Owns(t.phases[q], k);
    }
  }

  lemma AcquireKeeps(s: State, p: nat)
    requires Inv(s) && p < |s.phases| && s.phases[p].Waiting? && s.lock.None?
    ensures Inv(Moved(s, p, Locked).(lock := Some(p)))
  {
    var t := Moved(s, p, Locked).(lock := Some(p));
    forall q | 0 <= q < |t.phases|
      ensures PhaseFine(t, t.phases[q])
    {
      assert PhaseFine(s, s.phases[q]);
    }
    forall k | 0 <= k < |t.sockets| && !t.sockets[k].Closed?
      ensures exists q :: 0 <= q < |t.phases| && Owns(t.phases[q], k)
    {
      var q :| 0 <= q < |s.phases| && Owns(s.phases[q], k);
      assert Owns(t.phases[q], k);
    }
  }

  /** A closed socket's path may go. */
  lemma ClearKeeps(s: State)
    requires Inv(s) && s.path.Some? && s.sockets[s.path.value].Closed?
    ensures Inv(s.(path := None))
  {
    var t := s.(path := None);
    forall q | 0 <= q < |t.phases|
      ensures PhaseFine(t, t.phases[q])
    {
      assert PhaseFine(s, s.phases[q]);
    }
    forall k | 0 <= k < |t.sockets|
      ensures t.sockets[k].Closed?
    {
      assert !s.sockets[k].Closed? ==> s.path == Some(k);
    }
  }

  lemma ListenKeeps(s: State, p: nat)
    requires Inv(s) && p < |s.phases| && s.phases[p].Binding?
    ensures StepOf(s, p, Listen).Some? && Inv(StepOf(s, p, Listen).value)
  {
    var k := s.phases[p].socket;
    assert PhaseFine(s, s.phases[p]) && Owns(s.phases[p], k);
    var t := StepOf(s, p, Listen).value;
    forall q | 0 <= q < |t.phases|
      ensures PhaseFine(t, t.phases[q])
    {
      assert PhaseFine(s, s.phases[q]);
    }
    assert Owns(t.phases[p], k);
  }

  lemma ReturnKeeps(s: State, p: nat)
    requires Inv(s) && p < |s.phases| && s.phases[p].Ready?
    ensures Inv(StepOf(s, p, Return).value)
  {
    var k := s.phases[p].socket;
    var t := StepOf(s, p, Return).value;
    forall q | 0 <= q < |t.phases|
      ensures PhaseFine(t, t.phases[q])
    {
      assert PhaseFine(s, s.phases[q]);
    }
    forall n | 0 <= n < |t.sockets| && !t.sockets[n].Closed?
      ensures exists q :: 0 <= q < |t.phases| && Owns(t.phases[q], n)
    {
      var q :| 0 <= q < |s.phases| && Owns(s.phases[q], n);
      assert Owns(t.phases[q], n);
    }
  }

  lemma StepKeeps(s: State, p: nat, a: Action)
    requires Inv(s) && p < |s.phases| && StepOf(s, p, a).Some?
    ensures Inv(StepOf(s, p, a).value)
  {
    var phase := s.phases[p];
    assert PhaseFine(s, phase);
    match a
    case Open => MoveKeeps(s, p, Waiting);
    case Acquire => AcquireKeeps(s, p);
    case Bind =>
      if s.path.None? { CreateKeeps(s, p); } else { MoveKeeps(s, p, Probing); }
    case Probe =>
      if s.path.None? {
        MoveKeeps(s, p, Rebinding);
      } else if Live(s, s.path.value) {
        ReleaseKeeps(s, p, Refused);
      } else {
        if !s.sockets[s.path.value].Closed? {
          OpenIsServed(s, p, s.path.value);
        }
        MoveKeeps(s, p, Unlinking);
      }
    case Unlink =>
      if s.path.None? {
        ReleaseKeeps(s, p, Refused);
      } else {
        ClearKeeps(s);
        MoveKeeps(s.(path := None), p, Rebinding);
      }
    case Rebind =>
      if s.path.None? { CreateKeeps(s, p); } else { ReleaseKeeps(s, p, Refused); }
    case Listen => ListenKeeps(s, p);
    case Return => ReturnKeeps(s, p);
    case Fault => ReleaseKeeps(s, p, Refused);
    case Die => ReleaseKeeps(s, p, Dead);
    case Close => ReleaseKeeps(s, p, Idle);
    case Sweep => ClearKeeps(s);
  }

  // ----- What it means -----

  /** At most one process listens, and the path is its. */
  lemma AtMostOneOwner(s: State, j: nat, k: nat)
    requires Inv(s) && Live(s, j) && Live(s, k)
    ensures j == k && s.path == Some(j)
  {
    assert !s.sockets[j].Closed? && !s.sockets[k].Closed?;
  }

  /** No step of anyone unlinks or replaces the path of a live listener. */
  lemma LivePathStays(s: State, p: nat, a: Action, k: nat)
    requires Inv(s) && p < |s.phases| && StepOf(s, p, a).Some? && Live(s, k)
    ensures StepOf(s, p, a).value.path == Some(k)
  {
    assert !s.sockets[k].Closed?;
    assert PhaseFine(s, s.phases[p]);
  }

  ghost predicate OneStep(s: State, t: State)
  {
    exists p: nat, a :: p < |s.phases| && StepOf(s, p, a) == Some(t)
  }

  /** Before anyone starts: a path, if there is one, left behind by nobody alive. */
  predicate Fresh(s: State)
  {
    && s.lock.None? && (forall p :: 0 <= p < |s.phases| ==> s.phases[p].Idle?)
    && (forall k :: 0 <= k < |s.sockets| ==> s.sockets[k].Closed?) && (s.path.Some? ==> s.path.value < |s.sockets|)
  }

  /** A run of the processes, in any interleaving. */
  ghost predicate Run(states: seq<State>)
  {
    states != [] && Fresh(states[0]) && forall i :: 0 < i < |states| ==> OneStep(states[i - 1], states[i])
  }

  lemma {:induction false} RunKeeps(states: seq<State>, i: nat)
    requires Run(states) && i < |states|
    ensures Inv(states[i])
  {
    if i > 0 {
      RunKeeps(states, i - 1);
      assert OneStep(states[i - 1], states[i]);
      var p: nat, a :| p < |states[i - 1].phases| && StepOf(states[i - 1], p, a) == Some(states[i]);
      StepKeeps(states[i - 1], p, a);
    }
  }

  /**
   * In every run the path of a live listener stays its own for as long as it
   * lives, and there is no other live listener; not even the step that ends
   * its life takes the path away.
   */
  lemma OwnerKeepsPath(states: seq<State>, i: nat, k: nat)
    requires Run(states) && i < |states| && Live(states[i], k)
    ensures states[i].path == Some(k) && forall other :: Live(states[i], other) ==> other == k
    ensures i + 1 < |states| ==> states[i + 1].path == Some(k)
  {
    RunKeeps(states, i);
    AtMostOneOwner(states[i], k, k);
    forall other | Live(states[i], other)
      ensures other == k
    {
      AtMostOneOwner(states[i], other, k);
    }
    if i + 1 < |states| {
      assert OneStep(states[i + 1 - 1], states[i + 1]);
      var p: nat, a :| p < |states[i].phases| && StepOf(states[i], p, a) == Some(states[i + 1]);
      LivePathStays(states[i], p, a, k);
    }
  }

  // ----- The startup routine -----

  datatype Move = Move(process: nat, action: Action)

  /** Each further state is one step of somebody's from the one before. */
  ghost predicate Steps(before: seq<State>, after: seq<State>)
  {
    && |before| <= |after| && after[..|before|] == before
    && forall i :: |before| <= i < |after| && i > 0 ==> OneStep(after[i - 1], after[i])
  }

  /** The trace of a world is a run. */
  lemma StepsAreRun(before: seq<State>, after: seq<State>)
    requires Run(before) && Steps(before, after)
    ensures Run(after)
  {
    forall i | 0 < i < |after|
      ensures OneStep(after[i - 1], after[i])
    {
      if i < |before| {
        assert after[i] == before[i] && after[i - 1] == before[i - 1];
      }
    }
  }

  lemma StepsJoin(before: seq<State>, mid: seq<State>, after: seq<State>)
    requires Steps(before, mid) && Steps(mid, after)
    ensures Steps(before, after)
  {
    assert after[..|before|] == mid[..|before|];
    forall i | |before| <= i < |after| && i > 0
      ensures OneStep(after[i - 1], after[i])
    {
      if i < |mid| {
        assert after[i] == mid[i] && after[i - 1] == mid[i - 1];
      }
    }
  }

  lemma StepMovesOne(s: State, p: nat, a: Action, q: nat)
    requires p < |s.phases| && q < |s.phases| && StepOf(s, p, a).Some?
    ensures |StepOf(s, p, a).value.phases| == |s.phases|
    ensures q != p ==> StepOf(s, p, a).value.phases[q] == s.phases[q]
  {
  }

  /** The shared path and lock, with everybody else's moves in between, and where this process's calls fail. */
  class World {
    var state: State
    var bursts: seq<seq<Move>>
    var faults: seq<bool>
    ghost var trace: seq<State>

    ghost predicate Valid()
      reads this
    {
      trace != [] && trace[|trace| - 1] == state && Inv(state)
    }

    constructor (initial: State, bursts: seq<seq<Move>>, faults: seq<bool>)
      requires Fresh(initial)
      ensures Valid() && state == initial && trace == [initial]
    {
      state := initial;
      this.bursts := bursts;
      this.faults := faults;
      trace := [initial];
    }

    method Take(p: nat, action: Action)
      requires Valid() && p < |state.phases| && StepOf(state, p, action).Some?
      modifies `state, `trace
      ensures Valid() && StepOf(old(state), p, action) == Some(state) && Steps(old(trace), trace)
      ensures trace == old(trace) + [state] && |state.phases| == |old(state).phases|
      ensures forall q :: 0 <= q < |state.phases| && q != p ==> state.phases[q] == old(state).phases[q]
    {
      StepKeeps(state, p, action);
      forall q | 0 <= q < |state.phases|
        ensures |StepOf(state, p, action).value.phases| == |state.phases|
        ensures q != p ==> StepOf(state, p, action).value.phases[q] == state.phases[q]
      {
        StepMovesOne(state, p, action, q);
      }
      state := StepOf(state, p, action).value;
      trace := trace + [state];
    }

    /** A burst of other processes' moves, as far as they can be taken. */
    method Others(me: nat)
      requires Valid() && me < |state.phases|
      modifies `state, `bursts, `trace
      ensures Valid() && Steps(old(trace), trace) && |state.phases| == |old(state).phases| && state.phases[me] == old(state).phases[me]
      ensures old(bursts) == [] ==> bursts == [] && state == old(state)
      ensures old(bursts) != [] ==> |bursts| < |old(bursts)|
    {
      if bursts == [] {
        return;
      }
      var moves := bursts[0];
      bursts := bursts[1..];
      for i := 0 to |moves|
        invariant Valid() && Steps(old(trace), trace) && |state.phases| == |old(state).phases| && state.phases[me] == old(state).phases[me]
        invariant |bursts| < |old(bursts)|
      {
        var move := moves[i];
        if move.process < |state.phases| && move.process != me && StepOf(state, move.process, move.action).Some? {
          ghost var mid := trace;
          Take(move.process, move.action);
          StepsJoin(old(trace), mid, trace);
        }
      }
    }

    method CallFails() returns (fails: bool)
      modifies `faults
      ensures old(faults) == [] ==> faults == [] && !fails
    {
      if faults == [] {
        return false;
      }
      fails := faults[0];
      faults := faults[1..];
    }

    /** One of this process's own calls, which may fail. */
    method Try(me: nat, action: Action) returns (ok: bool)
      requires Valid() && me < |state.phases| && Enabled(state.phases[me], action)
      modifies `state, `faults, `trace
      ensures Valid() && trace == old(trace) + [state] && Steps(old(trace), trace) && |state.phases| == |old(state).phases|
      ensures ok ==> StepOf(old(state), me, action) == Some(state)
      ensures !ok ==> state.phases[me] == Refused && state.lock != Some(me)
      ensures old(faults) == [] ==> ok && faults == []
    {
      EnabledCanStep(state, me, action);
      var fails := CallFails();
      Take(me, if fails then Fault else action);
      return !fails;
    }

    /** The same, after whatever the others did meanwhile. */
    method Call(me: nat, action: Action) returns (ok: bool, ghost before: State)
      requires Valid() && me < |state.phases| && Enabled(state.phases[me], action)
      modifies this
      ensures Valid() && Steps(old(trace), trace) && |state.phases| == |old(state).phases|
      ensures ok ==> Called(old(state).phases[me], me, action, before, state) && |trace| > |old(trace)| && trace[|trace| - 2] == before
      ensures !ok ==> state.phases[me] == Refused && state.lock != Some(me)
      ensures old(bursts) == [] && old(faults) == [] ==> ok && bursts == [] && faults == [] && before == old(state)
    {
      Others(me);
      ghost var mid := trace;
      before := state;
      ok := Try(me, action);
      StepsJoin(old(trace), mid, trace);
    }
  }

  /** The calls a process makes in each phase. */
  predicate Enabled(phase: Phase, action: Action)
  {
    match action
    case Bind => phase.Locked?
    case Probe => phase.Probing?
    case Unlink => phase.Unlinking?
    case Rebind => phase.Rebinding?
    case Listen => phase.Binding?
    case Return => phase.Ready?
    case _ => false
  }

  lemma EnabledCanStep(s: State, me: nat, action: Action)
    requires Inv(s) && me < |s.phases| && Enabled(s.phases[me], action)
    ensures StepOf(s, me, action).Some? && StepOf(s, me, Fault).Some? && StepOf(s, me, Fault).value.lock != Some(me)
  {
    assert PhaseFine(s, s.phases[me]);
  }

  ghost predicate Called(phase: Phase, me: nat, action: Action, before: State, after: State)
  {
    me < |before.phases| && before.phases[me] == phase && StepOf(before, me, action) == Some(after)
  }

  datatype Startup = Started(socket: nat) | ActivePeer | Failed | NeverLocked

  /** What a finished startup leaves behind for its process. */
  ghost predicate Finished(s: State, me: nat, r: Startup)
    requires me < |s.phases|
  {
    match r
    case Started(k) => s.phases[me] == Serving(k) && s.lock != Some(me)
    case ActivePeer => s.phases[me] == Refused && s.lock != Some(me)
    case Failed => s.phases[me] == Refused && s.lock != Some(me)
    case NeverLocked => s.phases[me] == Waiting
  }

  predicate PathIsLive(s: State)
  {
    s.path.Some? && Live(s, s.path.value)
  }

  ghost predicate SawPeer(trace: seq<State>, from: nat)
  {
    exists i :: from <= i < |trace| && PathIsLive(trace[i])
  }

  /** Creating the socket is not yet serving: it must listen before the lock is released. */
  method Serve(world: World, me: nat) returns (r: Startup)
    requires world.Valid() && me < |world.state.phases| && world.state.phases[me].Binding?
    modifies world
    ensures world.Valid() && Steps(old(world.trace), world.trace) && |world.state.phases| == |old(world.state).phases|
    ensures (r.Started? || r.Failed?) && Finished(world.state, me, r)
    ensures old(world.bursts) == [] && old(world.faults) == [] ==> r.Started?
  {
    ghost var before;
    ghost var start := world.trace;
    var ok;
    ok, before := world.Call(me, Listen);
    if !ok {
      return Failed;
    }
    ghost var mid := world.trace;
    var socket := world.state.phases[me].socket;
    ok, before := world.Call(me, Return);
    StepsJoin(start, mid, world.trace);
    return if ok then Started(socket) else Failed;
  }

  /** The path is taken: a peer that answers is left alone; a refused connection proves the path stale. */
  method RecoverOrRefuse(world: World, me: nat) returns (r: Startup)
    requires world.Valid() && me < |world.state.phases| && world.state.phases[me].Probing?
    modifies world
    ensures world.Valid() && Steps(old(world.trace), world.trace) && |world.state.phases| == |old(world.state).phases|
    ensures !r.NeverLocked? && Finished(world.state, me, r)
    ensures r.ActivePeer? ==> SawPeer(world.trace, |old(world.trace)| - 1)
    ensures old(world.bursts) == [] && old(world.faults) == [] ==> if PathIsLive(old(world.state)) then r.ActivePeer? else r.Started?
  {
    ghost var start := world.trace;
    ghost var before;
    var ok;
    ok, before := world.Call(me, Probe);
    if !ok {
      return Failed;
    }
    if world.state.phases[me].Refused? {
      assert world.trace[|world.trace| - 2] == before && PathIsLive(before);
      return ActivePeer;
    }
    ghost var probed := world.trace;
    r := ReplaceStale(world, me);
    StepsJoin(start, probed, world.trace);
  }

  /** A stale path is unlinked; then, or if it was gone already, the path is bound again. */
  method ReplaceStale(world: World, me: nat) returns (r: Startup)
    requires world.Valid() && me < |world.state.phases| && (world.state.phases[me].Unlinking? || world.state.phases[me].Rebinding?)
    modifies world
    ensures world.Valid() && Steps(old(world.trace), world.trace) && |world.state.phases| == |old(world.state).phases|
    ensures (r.Started? || r.Failed?) && Finished(world.state, me, r)
    ensures old(world.bursts) == [] && old(world.faults) == [] && (old(world.state).phases[me].Unlinking? ==> old(world.state).path.Some?) ==> r.Started?
  {
    ghost var start := world.trace;
    ghost var before;
    var ok;
    assert PhaseFine(world.state, world.state.phases[me]);
    if world.state.phases[me].Unlinking? {
      ok, before := world.Call(me, Unlink);
      if !ok || world.state.phases[me].Refused? {
        return Failed;
      }
    }
    ghost var cleared := world.trace;
    ok, before := world.Call(me, Rebind);
    StepsJoin(start, cleared, world.trace);
    if !ok || world.state.phases[me].Refused? {
      return Failed;
    }
    ghost var bound := world.trace;
    r := Serve(world, me);
    StepsJoin(start, bound, world.trace);
  }

  /**
   * The whole startup, one call at a time among everybody else's: it serves
   * on the path, or gives way to a peer seen alive there; it never ends
   * holding the lock. Undisturbed, it starts exactly when no live listener
   * has the path.
   */
  method BindUnixListener(world: World, me: nat) returns (r: Startup)
    requires world.Valid() && me < |world.state.phases| && world.state.phases[me].Idle?
    modifies world
    ensures world.Valid() && Steps(old(world.trace), world.trace) && |world.state.phases| == |old(world.state).phases|
    ensures Finished(world.state, me, r)
    ensures r.Started? ==> Live(world.state, r.socket) && world.state.path == Some(r.socket)
    ensures r.ActivePeer? ==> SawPeer(world.trace, |old(world.trace)| - 1)
    ensures old(world.bursts) == [] && old(world.faults) == [] && old(world.state).lock.None? ==>
      if PathIsLive(old(world.state)) then r.ActivePeer? else r.Started?
  {
    ghost var start := world.trace;
    world.Take(me, Open);
    while world.state.lock.Some?
      invariant world.Valid() && Steps(start, world.trace) && |world.state.phases| == |old(world.state).phases| && world.state.phases[me].Waiting?
      invariant |start| <= |world.trace| && world.faults == old(world.faults)
      invariant old(world.bursts) == [] ==> world.bursts == [] && world.state.path == old(world.state).path
      invariant old(world.bursts) == [] ==> world.state.sockets == old(world.state).sockets && world.state.lock == old(world.state).lock
      decreases |world.bursts|
    {
      if world.bursts == [] {
        return NeverLocked;
      }
      ghost var mid := world.trace;
      world.Others(me);
      StepsJoin(start, mid, world.trace);
    }
    ghost var free := world.trace;
    world.Take(me, Acquire);
    StepsJoin(start, free, world.trace);
    r := BindLocked(world, me, start);
    if r.Started? {
      assert PhaseFine(world.state, world.state.phases[me]);
    }
  }

  method BindLocked(world: World, me: nat, ghost start: seq<State>) returns (r: Startup)
    requires world.Valid() && me < |world.state.phases| && world.state.phases[me].Locked? && Steps(start, world.trace) && |start| > 0
    modifies world
    ensures world.Valid() && Steps(start, world.trace) && |world.state.phases| == |old(world.state).phases|
    ensures !r.NeverLocked? && Finished(world.state, me, r)
    ensures r.ActivePeer? ==> SawPeer(world.trace, |start| - 1)
    ensures old(world.bursts) == [] && old(world.faults) == [] ==> if PathIsLive(old(world.state)) then r.ActivePeer? else r.Started?
  {
    ghost var locked := world.trace;
    ghost var before;
    var ok;
    ok, before := world.Call(me, Bind);
    StepsJoin(start, locked, world.trace);
    if !ok {
      return Failed;
    }
    ghost var tried := world.trace;
    if world.state.phases[me].Probing? {
      r := RecoverOrRefuse(world, me);
    } else {
      r := Serve(world, me);
    }
    StepsJoin(start, tried, world.trace);
  }
}
