/** Per-claim locks held through a registry of weak references, taken by any number of batches. */
module ClaimLocks {
  import opened Wrappers
  import opened Sorting

  /**
   * One task locking a batch: the sorted claim UIDs, the mutexes held for the
   * first of them, and the one it waits for next. A mutex lives as long as
   * some task holds it or waits for it.
   */
  datatype Task = Idle | Locking(batch: seq<string>, held: seq<nat>, waiting: Option<nat>)

  datatype State = State(registry: map<string, nat>, next: nat, tasks: seq<Task>)

  datatype Action = Begin(batch: seq<string>) | Look | Take | Release

  predicate Refers(task: Task, mutex: nat)
  {
    task.Locking? && (mutex in task.held || task.waiting == Some(mutex))
  }

  /** The strong references to a mutex. */
  predicate Alive(s: State, mutex: nat)
  {
    exists t :: t in s.tasks && Refers(t, mutex)
  }

  predicate Held(s: State, mutex: nat)
  {
    exists t :: t in s.tasks && t.Locking? && mutex in t.held
  }

  /** Entries whose mutex is gone are dropped before every lookup. */
  function Retained(s: State): map<string, nat>
  {
    map id | id in s.registry && Alive(s, s.registry[id]) :: s.registry[id]
  }

  predicate Increasing(batch: seq<string>)
  {
    Sorted(batch, TextKey) && DistinctKeys(batch, TextKey)
  }

  function With(s: State, p: nat, t: Task): State
    requires p < |s.tasks|
  {
    s.(tasks := s.tasks[p := t])
  }

  /** What a task's action does, when it can be taken. */
  function StepOf(s: State, p: nat, a: Action): Option<State>
    requires p < |s.tasks|
  {
    var t := s.tasks[p];
    match a
    case Begin(batch) => if t.Idle? && Increasing(batch) then Some(With(s, p, Locking(batch, [], None))) else None
    // The registry section: drop dead entries, then share a live mutex or make a new one.
    case Look =>
      if !(t.Locking? && t.waiting.None? && |t.held| < |t.batch|) then None
      else
        var id, kept := t.batch[|t.held|], Retained(s);
        if id in kept then Some(With(s, p, t.(waiting := Some(kept[id]))).(registry := kept))
        else Some(With(s, p, t.(waiting := Some(s.next))).(registry := kept[id := s.next], next := s.next + 1))
    case Take =>
      if t.Locking? && t.waiting.Some? && !Held(s, t.waiting.value)
      then Some(With(s, p, t.(held := t.held + [t.waiting.value], waiting := None))) else None
    // The guards are dropped: work done, or cancelled at any point.
    case Release => if t.Locking? then Some(With(s, p, Idle)) else None
  }

  /** The mutex a task refers to for its `k`-th claim. */
  function MutexFor(t: Task, k: nat): Option<nat>
  {
    if t.Idle? then None else if k < |t.held| then Some(t.held[k]) else if k == |t.held| then t.waiting else None
  }

  /** What is referred to is registered under its claim. */
  predicate Registered(s: State, t: Task)
  {
    t.Locking? ==>
      && Increasing(t.batch) && |t.held| <= |t.batch| && (t.waiting.Some? ==> |t.held| < |t.batch|)
      && forall k :: 0 <= k <= |t.held| && MutexFor(t, k).Some? ==> t.batch[k] in s.registry && s.registry[t.batch[k]] == MutexFor(t, k).value
  }

  ghost predicate Inv(s: State)
  {
    && (forall p :: 0 <= p < |s.tasks| ==> Registered(s, s.tasks[p]))
    && (forall id :: id in s.registry ==> s.registry[id] < s.next)
    && (forall a, b :: a in s.registry && b in s.registry && s.registry[a] == s.registry[b] ==> a == b)
    && (forall p, q, mutex :: 0 <= p < |s.tasks| && 0 <= q < |s.tasks| && HoldsMutex(s.tasks[p], mutex) && HoldsMutex(s.tasks[q], mutex) ==> p == q)
  }

  predicate HoldsMutex(t: Task, mutex: nat)
  {
    t.Locking? && mutex in t.held
  }

  // ----- Every step keeps it -----

  lemma IndexOf(held: seq<nat>, mutex: nat) returns (k: nat)
    requires mutex in held
    ensures k < |held| && held[k] == mutex
  {
    k :| 0 <= k < |held| && held[k] == mutex;
  }

  /** Dropping dead entries keeps every entry a task relies on. */
  lemma RetainedKeeps(s: State, t: Task)
    requires Registered(s, t) && t in s.tasks
    ensures Registered(s.(registry := Retained(s)), t)
  {
    if t.Locking? {
      forall k | 0 <= k <= |t.held| && MutexFor(t, k).Some?
        ensures t.batch[k] in Retained(s) && Retained(s)[t.batch[k]] == MutexFor(t, k).value
      {
        assert Refers(t, MutexFor(t, k).value);
      }
    }
  }

  lemma SimpleStepKeeps(s: State, p: nat, t: Task)
    requires Inv(s) && p < |s.tasks| && Registered(s, t)
    requires forall mutex :: HoldsMutex(t, mutex) ==> HoldsMutex(s.tasks[p], mutex)
    ensures Inv(With(s, p, t))
  {
    var u := With(s, p, t);
    forall q | 0 <= q < |u.tasks|
      ensures Registered(u, u.tasks[q])
    {
      assert q != p ==> Registered(s, s.tasks[q]);
    }
  }

  lemma LookKeeps(s: State, p: nat)
    requires Inv(s) && p < |s.tasks| && StepOf(s, p, Look).Some?
    ensures Inv(StepOf(s, p, Look).value)
  {
    var t := s.tasks[p];
    var u := StepOf(s, p, Look).value;
    var id, kept := t.batch[|t.held|], Retained(s);
    assert Registered(s, t);
    forall q | 0 <= q < |u.tasks|
      ensures Registered(u, u.tasks[q])
    {
      assert Registered(s, s.tasks[q]) && s.tasks[q] in s.tasks;
      RetainedKeeps(s, s.tasks[q]);
      RetainedKeeps(s, s.tasks[p]);
      LookRegistered(s, u, p, q);
    }
    forall q, r, mutex | 0 <= q < |u.tasks| && 0 <= r < |u.tasks| && HoldsMutex(u.tasks[q], mutex) && HoldsMutex(u.tasks[r], mutex)
      ensures q == r
    {
      assert HoldsMutex(s.tasks[q], mutex) && HoldsMutex(s.tasks[r], mutex);
    }
  }

  lemma LookRegistered(s: State, u: State, p: nat, q: nat)
    requires Inv(s) && p < |s.tasks| && q < |s.tasks| && StepOf(s, p, Look) == Some(u)
    requires Registered(s.(registry := Retained(s)), s.tasks[q]) && Registered(s.(registry := Retained(s)), s.tasks[p])
    ensures Registered(u, u.tasks[q])
  {
    var t := u.tasks[q];
    if t.Locking? {
      forall k | 0 <= k <= |t.held| && MutexFor(t, k).Some?
        ensures t.batch[k] in u.registry && u.registry[t.batch[k]] == MutexFor(t, k).value
      {
        assert q != p || k < |t.held| ==> MutexFor(s.tasks[q], k) == MutexFor(t, k);
      }
    }
  }

  lemma TakeKeeps(s: State, p: nat)
    requires Inv(s) && p < |s.tasks| && StepOf(s, p, Take).Some?
    ensures Inv(StepOf(s, p, Take).value)
  {
    var t := s.tasks[p];
    var u := StepOf(s, p, Take).value;
    forall q | 0 <= q < |u.tasks|
      ensures Registered(u, u.tasks[q])
    {
      assert Registered(s, s.tasks[q]) && Registered(s, t);
      assert q == p ==> forall k :: 0 <= k <= |t.held| ==> MutexFor(u.tasks[q], k) == MutexFor(t, k);
    }
    forall q, r, mutex | 0 <= q < |u.tasks| && 0 <= r < |u.tasks| && HoldsMutex(u.tasks[q], mutex) && HoldsMutex(u.tasks[r], mutex)
      ensures q == r
    {
      assert q != p ==> s.tasks[q] in s.tasks;
      assert r != p ==> s.tasks[r] in s.tasks;
      assert mutex != t.waiting.value ==> HoldsMutex(s.tasks[q], mutex) && HoldsMutex(s.tasks[r], mutex);
    }
  }

  lemma StepKeeps(s: State, p: nat, a: Action)
    requires Inv(s) && p < |s.tasks| && StepOf(s, p, a).Some?
    ensures Inv(StepOf(s, p, a).value)
  {
    match a
    case Begin(batch) => SimpleStepKeeps(s, p, Locking(batch, [], None));
    case Look => LookKeeps(s, p);
    case Take => TakeKeeps(s, p);
    case Release => SimpleStepKeeps(s, p, Idle);
  }

  ghost predicate OneStep(s: State, t: State)
  {
    exists p: nat, a :: p < |s.tasks| && StepOf(s, p, a) == Some(t)
  }

  ghost predicate Run(states: seq<State>)
  {
    && states != [] && states[0].registry == map[] && (forall p :: 0 <= p < |states[0].tasks| ==> states[0].tasks[p].Idle?)
    && forall i :: 0 < i < |states| ==> OneStep(states[i - 1], states[i])
  }

  lemma {:induction false} RunKeeps(states: seq<State>, i: nat)
    requires Run(states) && i < |states|
    ensures Inv(states[i])
  {
    if i > 0 {
      RunKeeps(states, i - 1);
      assert OneStep(states[i - 1], states[i]);
      var p: nat, a :| p < |states[i - 1].tasks| && StepOf(states[i - 1], p, a) == Some(states[i]);
      StepKeeps(states[i - 1], p, a);
    }
  }

  // ----- One mutex per claim -----

  /** Two tasks never refer to distinct mutexes for one claim, and never both hold it. */
  lemma OneMutexPerClaim(states: seq<State>, i: nat, p: nat, q: nat, k: nat, l: nat)
    requires Run(states) && i < |states| && p < |states[i].tasks| && q < |states[i].tasks|
    requires MutexFor(states[i].tasks[p], k).Some? && MutexFor(states[i].tasks[q], l).Some?
    requires states[i].tasks[p].Locking? && states[i].tasks[q].Locking? && k < |states[i].tasks[p].batch| && l < |states[i].tasks[q].batch|
    requires states[i].tasks[p].batch[k] == states[i].tasks[q].batch[l]
    ensures MutexFor(states[i].tasks[p], k) == MutexFor(states[i].tasks[q], l)
    ensures k < |states[i].tasks[p].held| && l < |states[i].tasks[q].held| ==> p == q
  {
    RunKeeps(states, i);
    var s := states[i];
    assert Registered(s, s.tasks[p]) && Registered(s, s.tasks[q]);
    if k < |s.tasks[p].held| && l < |s.tasks[q].held| {
      assert HoldsMutex(s.tasks[p], s.tasks[p].held[k]) && HoldsMutex(s.tasks[q], s.tasks[q].held[l]);
    }
  }

  // ----- No deadlock -----

  predicate Complete(t: Task)
  {
    t.Locking? && |t.held| == |t.batch|
  }

  predicate Waits(t: Task)
  {
    t.Locking? && t.waiting.Some? && |t.held| < |t.batch|
  }

  function Wanted(t: Task): string
    requires Waits(t)
  {
    t.batch[|t.held|]
  }

  predicate NotAfter(a: string, b: string)
  {
    KeyLeq(TextKey(a), TextKey(b))
  }

  predicate CanMove(s: State, p: nat)
    requires p < |s.tasks|
  {
    StepOf(s, p, Look).Some? || StepOf(s, p, Take).Some? || Complete(s.tasks[p])
  }

  /** Later claims of a batch come strictly after earlier ones. */
  lemma BatchOrder(batch: seq<string>, k: nat, l: nat)
    requires Increasing(batch) && k < l < |batch|
    ensures !NotAfter(batch[l], batch[k])
  {
    assert TextKey(batch[k]) != TextKey(batch[l]);
    if NotAfter(batch[l], batch[k]) {
      KeyLeqAntisymmetric(TextKey(batch[k]), TextKey(batch[l]));
    }
  }

  predicate WaitsLater(s: State, q: nat, p: nat)
    requires p < |s.tasks| && q < |s.tasks| && Waits(s.tasks[p])
  {
    Waits(s.tasks[q]) && !NotAfter(Wanted(s.tasks[q]), Wanted(s.tasks[p]))
  }

  /** Whoever holds what a task waits for can move, or waits for a strictly later claim. */
  lemma HolderMoves(s: State, p: nat, q: nat)
    requires Inv(s) && p < |s.tasks| && q < |s.tasks| && Waits(s.tasks[p])
    requires HoldsMutex(s.tasks[q], s.tasks[p].waiting.value)
    ensures if Waits(s.tasks[q]) then WaitsLater(s, q, p) else CanMove(s, q)
  {
    var mutex := s.tasks[p].waiting.value;
    assert Registered(s, s.tasks[p]) && Registered(s, s.tasks[q]);
    assert MutexFor(s.tasks[p], |s.tasks[p].held|) == Some(mutex);
    var k := IndexOf(s.tasks[q].held, mutex);
    assert MutexFor(s.tasks[q], k) == Some(mutex);
    assert s.tasks[q].batch[k] == Wanted(s.tasks[p]);
    if Waits(s.tasks[q]) {
      BatchOrder(s.tasks[q].batch, k, |s.tasks[q].held|);
    }
  }

  lemma LaterThrough(s: State, a: nat, b: nat, c: nat)
    requires a < |s.tasks| && b < |s.tasks| && c < |s.tasks| && Waits(s.tasks[a])
    requires WaitsLater(s, b, a) && WaitsLater(s, c, b)
    ensures WaitsLater(s, c, a)
  {
    var x, y, z := TextKey(Wanted(s.tasks[a])), TextKey(Wanted(s.tasks[b])), TextKey(Wanted(s.tasks[c]));
    KeyLeqTotal(x, y);
    if KeyLeq(z, x) {
      KeyLeqTransitive(z, x, y);
    }
  }

  predicate WaitsFor(s: State, p: nat, q: nat)
  {
    p < |s.tasks| && q < |s.tasks| && Waits(s.tasks[p]) && HoldsMutex(s.tasks[q], s.tasks[p].waiting.value)
  }

  /**
   * Each task waits for a mutex that the next one holds, no task comes twice,
   * and the last one can move.
   */
  predicate WaitChain(s: State, chain: seq<nat>)
  {
    && chain != [] && chain[0] < |s.tasks| && chain[0] !in chain[1..]
    && if |chain| == 1 then CanMove(s, chain[0]) else WaitsFor(s, chain[0], chain[1]) && WaitChain(s, chain[1..])
  }

  ghost function LaterWaiters(s: State, p: nat): set<nat>
    requires p < |s.tasks| && Waits(s.tasks[p])
  {
    set q: nat | q < |s.tasks| && WaitsLater(s, q, p)
  }

  lemma FewerLaterWaiters(s: State, p: nat, q: nat)
    requires p < |s.tasks| && q < |s.tasks| && Waits(s.tasks[p]) && WaitsLater(s, q, p)
    ensures LaterWaiters(s, q) < LaterWaiters(s, p)
  {
    forall r | r in LaterWaiters(s, q)
      ensures r in LaterWaiters(s, p)
    {
      LaterThrough(s, p, q, r);
    }
    KeyLeqReflexive(TextKey(Wanted(s.tasks[q])));
    assert q in LaterWaiters(s, p) && q !in LaterWaiters(s, q);
  }

  /** Everybody there who waits, waits for a strictly later claim. */
  ghost predicate AllLater(s: State, tasks: seq<nat>, p: nat)
    requires p < |s.tasks| && Waits(s.tasks[p])
  {
    forall q :: q in tasks && q < |s.tasks| && Waits(s.tasks[q]) ==> WaitsLater(s, q, p)
  }

  /** From a waiting task, the chain of holders ends in a task that can move. */
  lemma {:induction false} WaitEnds(s: State, p: nat) returns (chain: seq<nat>)
    requires Inv(s) && p < |s.tasks| && Waits(s.tasks[p])
    ensures chain != [] && chain[0] == p && WaitChain(s, chain) && AllLater(s, chain[1..], p)
    decreases LaterWaiters(s, p)
  {
    var mutex := s.tasks[p].waiting.value;
    if Held(s, mutex) {
      var t :| t in s.tasks && t.Locking? && mutex in t.held;
      var q: nat :| q < |s.tasks| && s.tasks[q] == t;
      HolderMoves(s, p, q);
      var rest := [q];
      if Waits(s.tasks[q]) {
        FewerLaterWaiters(s, p, q);
        rest := WaitEnds(s, q);
        forall r | r in rest && r < |s.tasks| && Waits(s.tasks[r])
          ensures WaitsLater(s, r, p)
        {
          if r != q {
            assert r in rest[1..];
            LaterThrough(s, p, q, r);
          }
        }
      }
      chain := [p] + rest;
      KeyLeqReflexive(TextKey(Wanted(s.tasks[p])));
      assert chain[1..] == rest;
      assert AllLater(s, rest, p);
      assert WaitsFor(s, p, q);
      assert !WaitsLater(s, p, p);
    } else {
      chain := [p];
    }
  }

  /**
   * No wait is ever circular: in every reachable state, whoever waits is at
   * the head of a chain of holders, none occurring twice, that ends in a task
   * that can take its next step or has all it asked for.
   */
  lemma EveryWaitEnds(states: seq<State>, i: nat, p: nat) returns (chain: seq<nat>)
    requires Run(states) && i < |states| && p < |states[i].tasks| && Waits(states[i].tasks[p])
    ensures chain != [] && chain[0] == p && WaitChain(states[i], chain)
  {
    RunKeeps(states, i);
    chain := WaitEnds(states[i], p);
  }

  lemma {:induction false} ChainMoves(s: State, chain: seq<nat>)
    requires WaitChain(s, chain)
    ensures exists p :: 0 <= p < |s.tasks| && CanMove(s, p)
  {
    if |chain| == 1 {
      assert CanMove(s, chain[0]);
    } else {
      ChainMoves(s, chain[1..]);
    }
  }

  /** As long as any task is locking, some task can take its next step or has all it asked for. */
  lemma NeverDeadlocked(states: seq<State>, i: nat)
    requires Run(states) && i < |states|
    requires exists p :: 0 <= p < |states[i].tasks| && states[i].tasks[p].Locking?
    ensures exists p :: 0 <= p < |states[i].tasks| && CanMove(states[i], p)
  {
    RunKeeps(states, i);
    var s := states[i];
    var some: nat :| some < |s.tasks| && s.tasks[some].Locking?;
    assert Registered(s, s.tasks[some]);
    if Waits(s.tasks[some]) {
      var chain := WaitEnds(s, some);
      ChainMoves(s, chain);
    } else {
      assert CanMove(s, some);
    }
  }

  // ----- Locking a batch -----

  datatype Move = Move(task: nat, action: Action)

  ghost predicate Steps(before: seq<State>, after: seq<State>)
  {
    && |before| <= |after| && after[..|before|] == before
    && forall i :: |before| <= i < |after| && i > 0 ==> OneStep(after[i - 1], after[i])
  }

  lemma StepsJoin(before: seq<State>, mid: seq<State>, after: seq<State>)
    requires Steps(before, mid) && Steps(mid, after)
    ensures Steps(before, after)
  {
    assert after[..|before|] == mid[..|before|];
    forall i | |before| <= i < |after| && i > 0
      ensures OneStep(after[i - 1], after[i])
    {
      if i < |mid| {
        assert after[i] == mid[i] && after[i - 1] == mid[i - 1];
      }
    }
  }

  lemma StepMovesOne(s: State, p: nat, a: Action, q: nat)
    requires p < |s.tasks| && q < |s.tasks| && StepOf(s, p, a).Some?
    ensures |StepOf(s, p, a).value.tasks| == |s.tasks|
    ensures q != p ==> StepOf(s, p, a).value.tasks[q] == s.tasks[q]
  {
  }

  /** The registry, with everybody else's moves between one task's own. */
  class Registry {
    var state: State
    var bursts: seq<seq<Move>>
    ghost var trace: seq<State>

    ghost predicate Valid()
      reads this
    {
      trace != [] && trace[|trace| - 1] == state && Inv(state)
    }

    constructor (tasks: nat, bursts: seq<seq<Move>>)
      ensures Valid() && Run(trace) && |state.tasks| == tasks
    {
      state := State(map[], 0, seq(tasks, _ => Idle));
      this.bursts := bursts;
      trace := [State(map[], 0, seq(tasks, _ => Idle))];
    }

    method Do(p: nat, action: Action)
      requires Valid() && p < |state.tasks| && StepOf(state, p, action).Some?
      modifies `state, `trace
      ensures Valid() && StepOf(old(state), p, action) == Some(state) && Steps(old(trace), trace)
      ensures |state.tasks| == |old(state).tasks|
      ensures forall q :: 0 <= q < |state.tasks| && q != p ==> state.tasks[q] == old(state).tasks[q]
    {
      StepKeeps(state, p, action);
      forall q | 0 <= q < |state.tasks|
        ensures |StepOf(state, p, action).value.tasks| == |state.tasks|
        ensures q != p ==> StepOf(state, p, action).value.tasks[q] == state.tasks[q]
      {
        StepMovesOne(state, p, action, q);
      }
      state := StepOf(state, p, action).value;
      trace := trace + [state];
    }

    /** A burst of other tasks' moves, as far as they can be taken. */
    method Others(me: nat)
      requires Valid() && me < |state.tasks|
      modifies `state, `bursts, `trace
      ensures Valid() && Steps(old(trace), trace) && |state.tasks| == |old(state).tasks| && state.tasks[me] == old(state).tasks[me]
      ensures old(bursts) == [] ==> bursts == [] && state == old(state)
      ensures old(bursts) != [] ==> |bursts| < |old(bursts)|
    {
      if bursts == [] {
        return;
      }
      var moves := bursts[0];
      bursts := bursts[1..];
      for i := 0 to |moves|
        invariant Valid() && Steps(old(trace), trace) && |state.tasks| == |old(state).tasks| && state.tasks[me] == old(state).tasks[me]
        invariant |bursts| < |old(bursts)|
      {
        var move := moves[i];
        if move.task < |state.tasks| && move.task != me && StepOf(state, move.task, move.action).Some? {
          ghost var mid := trace;
          Do(move.task, move.action);
          StepsJoin(old(trace), mid, trace);
        }
      }
    }

    /** The next claim's lock: look its mutex up, then wait until it is free. */
    method LockNext(me: nat) returns (ok: bool)
      requires Valid() && me < |state.tasks| && StepOf(state, me, Look).Some?
      modifies this
      ensures Valid() && Steps(old(trace), trace) && |state.tasks| == |old(state).tasks|
      ensures state.tasks[me].Locking? && state.tasks[me].batch == old(state).tasks[me].batch
      ensures ok ==> |state.tasks[me].held| == |old(state).tasks[me].held| + 1 && state.tasks[me].waiting.None?
      ensures |bursts| <= |old(bursts)|
    {
      Do(me, Look);
      while Held(state, state.tasks[me].waiting.value)
        invariant Valid() && Steps(old(trace), trace) && |state.tasks| == |old(state).tasks|
        invariant state.tasks[me].Locking? && state.tasks[me].batch == old(state).tasks[me].batch
        invariant state.tasks[me].held == old(state).tasks[me].held && state.tasks[me].waiting.Some? && |bursts| <= |old(bursts)|
        decreases |bursts|
      {
        if bursts == [] {
          return false;
        }
        ghost var mid := trace;
        Others(me);
        StepsJoin(old(trace), mid, trace);
      }
      ghost var free := trace;
      Do(me, Take);
      StepsJoin(old(trace), free, trace);
      return true;
    }

    /**
     * All claims of a batch, each once, in increasing order of their UIDs.
     * `false` means still waiting when the others stopped moving.
     */
    method LockClaims(me: nat, uids: seq<string>) returns (ok: bool)
      requires Valid() && me < |state.tasks| && state.tasks[me].Idle?
      modifies this
      ensures Valid() && Steps(old(trace), trace) && |state.tasks| == |old(state).tasks|
      ensures state.tasks[me].Locking? && Increasing(state.tasks[me].batch) && forall uid :: uid in state.tasks[me].batch <==> uid in uids
      ensures ok ==> Complete(state.tasks[me]) && state.tasks[me].waiting.None?
    {
      var batch := SortedNames(set uid | uid in uids);
      Do(me, Begin(batch));
      for i := 0 to |batch|
        invariant Valid() && Steps(old(trace), trace) && |state.tasks| == |old(state).tasks|
        invariant state.tasks[me].Locking? && state.tasks[me].batch == batch && |state.tasks[me].held| == i && state.tasks[me].waiting.None?
      {
        ghost var mid := trace;
        ok := LockNext(me);
        StepsJoin(old(trace), mid, trace);
        if !ok {
          return;
        }
        mid := trace;
        Others(me);
        StepsJoin(old(trace), mid, trace);
      }
      ok := true;
    }
  }
}
