/**
 * Preparing a batch of claims: each is resolved on its own, the driver's
 * preparer is asked once, and every requested claim gets its own answer,
 * whatever its siblings and the preparer did.
 */
module ClaimBatch {
  import opened Wrappers
  import opened ClaimFiles
  import Sorting

  // ----- Resolving one claim -----

  datatype Read = Found(claim: StoredClaim) | Failed(transient: bool)

  datatype StoredAllocation = StoredAllocation(driver: string, pool: string, device: string, request: string, share: Option<string>)

  /** A claim as read; `results` is absent until the scheduler has allocated it. */
  datatype StoredClaim = StoredClaim(uid: string, results: Option<seq<StoredAllocation>>)

  datatype Device = Device(pool: string, device: string, request: Option<string>)

  datatype Resolved = Resolved(claim: ClaimRef, devices: seq<Device>)

  datatype Context = Context(resolved: Resolved, stored: StoredClaim)

  datatype Failure = Unreadable | UidMismatch | NotAllocated(claim: ClaimRef) | SharedDevice | Hook(text: string)

  function NoResult(): Failure { Hook("claim preparer returned no result for this claim") }

  /** The allocations of one driver, in order. */
  function Local(driver: string, results: seq<StoredAllocation>): (r: seq<StoredAllocation>)
    ensures forall a :: a in r <==> a in results && a.driver == driver
  {
    if results == [] then []
    else
      assert forall a :: a in results <==> a == results[0] || a in results[1..];
      (if results[0].driver == driver then [results[0]] else []) + Local(driver, results[1..])
  }

  function DeviceOf(a: StoredAllocation): Device
  {
    Device(a.pool, a.device, if a.request == "" then None else Some(a.request))
  }

  predicate Shared(local: seq<StoredAllocation>)
  {
    exists a :: a in local && a.share.Some?
  }

  /** What one successful read resolves to. */
  function Project(driver: string, ref: ClaimRef, claim: StoredClaim): Result<Context, Failure>
  {
    if claim.uid != ref.uid then Err(UidMismatch)
    else if claim.results.None? then Err(NotAllocated(ref))
    else
      var local := Local(driver, claim.results.value);
      if Shared(local) then Err(SharedDevice)
      else Ok(Context(Resolved(ref, seq(|local|, i requires 0 <= i < |local| => DeviceOf(local[i]))), claim))
  }

  function Outcome(driver: string, ref: ClaimRef, read: Read): Result<Context, Failure>
  {
    if read.Failed? then Err(Unreadable) else Project(driver, ref, read.claim)
  }

  /** Whether an attempt's read may be tried again. */
  predicate Retries(read: Read)
  {
    read.Failed? && read.transient
  }

  /** Transient failures are read again, at most `limit` reads in all; the last read decides. */
  method ResolveContext(driver: string, ref: ClaimRef, gets: nat -> Read, limit: nat)
    returns (r: Result<Context, Failure>, attempts: nat)
    requires limit >= 1
    ensures 1 <= attempts <= limit
    ensures forall k :: 0 <= k < attempts - 1 ==> gets(k).Failed? && gets(k).transient
    ensures attempts < limit ==> gets(attempts - 1).Found? || !gets(attempts - 1).transient
    ensures r == Outcome(driver, ref, gets(attempts - 1))
    ensures gets(attempts - 1).Failed? ==> r == Err(Unreadable)
    ensures r.Ok? <==> Resolvable(driver, ref, gets(attempts - 1))
    ensures r.Ok? ==> ResolvedFrom(driver, ref, gets(attempts - 1).claim, r.value)
  {
    attempts := 1;
    var read := gets(0);
    while attempts < limit && Retries(read)
      invariant 1 <= attempts <= limit && read == gets(attempts - 1)
      invariant forall k :: 0 <= k < attempts - 1 ==> Retries(gets(k))
      decreases limit - attempts
    {
      read := gets(attempts);
      attempts := attempts + 1;
    }
    match read {
      case Failed(_) => r := Err(Unreadable);
      case Found(claim) => r := Project(driver, ref, claim);
    }
    ResolvedIsAllocated(driver, ref, read);
  }

  /** How many of the first `n` allocations are this driver's. */
  ghost function Earlier(driver: string, results: seq<StoredAllocation>, n: nat): nat
    requires n <= |results|
  {
    if n == 0 then 0 else Earlier(driver, results, n - 1) + if results[n - 1].driver == driver then 1 else 0
  }

  /** From the front: the first allocation counts for all later ones. */
  lemma {:induction false} EarlierShift(driver: string, results: seq<StoredAllocation>, n: nat)
    requires n < |results|
    ensures Earlier(driver, results, n + 1) == (if results[0].driver == driver then 1 else 0) + Earlier(driver, results[1..], n)
  {
    if n > 0 {
      EarlierShift(driver, results, n - 1);
    }
  }

  lemma {:induction false} LocalPosition(driver: string, results: seq<StoredAllocation>, i: nat)
    requires i < |results| && results[i].driver == driver
    ensures Earlier(driver, results, i) < |Local(driver, results)| && Local(driver, results)[Earlier(driver, results, i)] == results[i]
  {
    if i > 0 {
      LocalPosition(driver, results[1..], i - 1);
      EarlierShift(driver, results, i - 1);
    }
  }

  lemma {:induction false} LocalCount(driver: string, results: seq<StoredAllocation>)
    ensures |Local(driver, results)| == Earlier(driver, results, |results|)
  {
    if results != [] {
      LocalCount(driver, results[1..]);
      EarlierShift(driver, results, |results| - 1);
    }
  }

  /** An allocation as the preparer sees it; an empty request name is none. */
  predicate Lists(device: Device, a: StoredAllocation)
  {
    && device.pool == a.pool && device.device == a.device
    && (a.request == "" ==> device.request.None?) && (a.request != "" ==> device.request == Some(a.request))
  }

  /** The claim is the one asked for, allocated, and nothing of this driver's in it is shared. */
  predicate Resolvable(driver: string, ref: ClaimRef, read: Read)
  {
    && read.Found? && read.claim.uid == ref.uid && read.claim.results.Some?
    && forall i :: 0 <= i < |read.claim.results.value| && read.claim.results.value[i].driver == driver ==> read.claim.results.value[i].share.None?
  }

  /** What a claim resolves to: itself, and this driver's allocations in order, none missing and none added. */
  ghost predicate ResolvedFrom(driver: string, ref: ClaimRef, claim: StoredClaim, context: Context)
    requires claim.results.Some?
  {
    && context.resolved.claim == ref && context.stored == claim
    && |context.resolved.devices| == Earlier(driver, claim.results.value, |claim.results.value|)
    && forall i :: 0 <= i < |claim.results.value| && claim.results.value[i].driver == driver ==>
         && Earlier(driver, claim.results.value, i) < |context.resolved.devices|
         && Lists(context.resolved.devices[Earlier(driver, claim.results.value, i)], claim.results.value[i])
  }

  /** A claim resolves exactly when it can, to exactly this driver's unshared allocations in order; otherwise the first obstacle is named. */
  lemma ResolvedIsAllocated(driver: string, ref: ClaimRef, read: Read)
    ensures Outcome(driver, ref, read).Ok? <==> Resolvable(driver, ref, read)
    ensures Outcome(driver, ref, read).Ok? ==> ResolvedFrom(driver, ref, read.claim, Outcome(driver, ref, read).value)
    ensures Outcome(driver, ref, read) == Err(Unreadable) <==> read.Failed?
    ensures Outcome(driver, ref, read) == Err(UidMismatch) <==> read.Found? && read.claim.uid != ref.uid
    ensures Outcome(driver, ref, read) == Err(NotAllocated(ref)) <==> read.Found? && read.claim.uid == ref.uid && read.claim.results.None?
  {
    if read.Found? && read.claim.uid == ref.uid && read.claim.results.Some? {
      var results := read.claim.results.value;
      LocalCount(driver, results);
      forall i | 0 <= i < |results| && results[i].driver == driver
        ensures Earlier(driver, results, i) < |Local(driver, results)| && Local(driver, results)[Earlier(driver, results, i)] == results[i]
      {
        LocalPosition(driver, results, i);
      }
      SharedIs(driver, results);
    }
  }

  lemma SharedIs(driver: string, results: seq<StoredAllocation>)
    ensures Shared(Local(driver, results)) <==> exists i :: 0 <= i < |results| && results[i].driver == driver && results[i].share.Some?
  {
    forall i | 0 <= i < |results| && results[i].driver == driver
      ensures results[i] in Local(driver, results)
    {
      assert results[i] in results;
    }
  }

  // ----- Resolving a batch: any completion order, request order out -----

  datatype Completed<R> = Completed(index: nat, claim: ClaimRef, result: R)

  /** The reads as the requests list them. */
  function Enumerated<R>(refs: seq<ClaimRef>, results: seq<R>): (r: seq<Completed<R>>)
    requires |refs| == |results|
  {
    seq(|refs|, i requires 0 <= i < |refs| => Completed(i, refs[i], results[i]))
  }

  predicate Ordered<R>(xs: seq<Completed<R>>)
  {
    forall i, j :: 0 <= i < j < |xs| ==> xs[i].index <= xs[j].index
  }

  function InsertAt<R>(x: Completed<R>, xs: seq<Completed<R>>): (r: seq<Completed<R>>)
    ensures multiset(r) == multiset{x} + multiset(xs)
  {
    if xs == [] || x.index <= xs[0].index then
      assert [x] + xs == [x] + xs[..];
      [x] + xs
    else
      assert xs == [xs[0]] + xs[1..];
      [xs[0]] + InsertAt(x, xs[1..])
  }

  function SortByIndex<R>(xs: seq<Completed<R>>): (r: seq<Completed<R>>)
    ensures multiset(r) == multiset(xs)
  {
    if xs == [] then []
    else
      assert xs == [xs[0]] + xs[1..];
      InsertAt(xs[0], SortByIndex(xs[1..]))
  }

  lemma {:induction false} InsertOrdered<R>(x: Completed<R>, xs: seq<Completed<R>>)
    requires Ordered(xs)
    ensures Ordered(InsertAt(x, xs))
  {
    if xs != [] && x.index > xs[0].index {
      InsertOrdered(x, xs[1..]);
      var rest := InsertAt(x, xs[1..]);
      forall y | y in rest
        ensures xs[0].index <= y.index
      {
        assert y in multiset(rest);
        assert y == x || y in xs[1..];
      }
      assert forall i :: 0 <= i < |rest| ==> rest[i] in rest;
    }
  }

  lemma {:induction false} SortOrdered<R>(xs: seq<Completed<R>>)
    ensures Ordered(SortByIndex(xs))
  {
    if xs != [] {
      SortOrdered(xs[1..]);
      InsertOrdered(xs[0], SortByIndex(xs[1..]));
    }
  }

  predicate Increasing<R>(xs: seq<Completed<R>>)
  {
    forall i, j :: 0 <= i < j < |xs| ==> xs[i].index < xs[j].index
  }

  lemma SameFirst<R>(a: seq<Completed<R>>, b: seq<Completed<R>>)
    requires multiset(a) == multiset(b) && Ordered(b) && Increasing(a) && a != [] && b != []
    ensures a[0] == b[0]
  {
    Sorting.InMultiset(a[0], a);
    Sorting.InMultiset(a[0], b);
    Sorting.InMultiset(b[0], a);
    Sorting.InMultiset(b[0], b);
    var i :| 0 <= i < |a| && a[i] == b[0];
    var j :| 0 <= j < |b| && b[j] == a[0];
    assert a[0].index <= a[i].index && b[0].index <= b[j].index;
  }

  /** Strictly indexed lists with the same elements agree. */
  lemma {:induction false} OrderedUnique<R>(a: seq<Completed<R>>, b: seq<Completed<R>>)
    requires multiset(a) == multiset(b) && Ordered(b) && Increasing(a)
    ensures a == b
  {
    assert |a| == |multiset(a)| == |multiset(b)| == |b|;
    if a != [] {
      SameFirst(a, b);
      Sorting.TailMultiset(a, b);
      OrderedUnique(a[1..], b[1..]);
      assert a == [a[0]] + a[1..] && b == [b[0]] + b[1..];
    }
  }

  /** Whatever order the reads finish in, the batch comes out in request order. */
  lemma CompletionOrderIsNotSeen<R>(refs: seq<ClaimRef>, results: seq<R>, completed: seq<Completed<R>>)
    requires |refs| == |results| && multiset(completed) == multiset(Enumerated(refs, results))
    ensures SortByIndex(completed) == Enumerated(refs, results)
  {
    SortOrdered(completed);
    OrderedUnique(Enumerated(refs, results), SortByIndex(completed));
  }

  // ----- Answering a batch -----

  type Answer<D> = Result<D, Failure>

  /** The last resolve error of each claim. */
  function ErrorsOf<R>(refs: seq<ClaimRef>, results: seq<Result<R, Failure>>): map<ClaimRef, Failure>
    requires |refs| == |results|
  {
    if refs == [] then map[]
    else
      var n := |refs| - 1;
      var earlier := ErrorsOf(refs[..n], results[..n]);
      if results[n].Err? then earlier[refs[n] := results[n].error] else earlier
  }

  /** What did resolve, in request order. */
  function Successes<R>(results: seq<Result<R, Failure>>): seq<R>
  {
    if results == [] then []
    else
      var n := |results| - 1;
      Successes(results[..n]) + if results[n].Ok? then [results[n].value] else []
  }

  /** How many of the first `n` claims resolved. */
  ghost function ResolvedBefore<R>(results: seq<Result<R, Failure>>, n: nat): nat
    requires n <= |results|
  {
    if n == 0 then 0 else ResolvedBefore(results, n - 1) + if results[n - 1].Ok? then 1 else 0
  }

  lemma {:induction false} ResolvedBeforePrefix<R>(results: seq<Result<R, Failure>>, n: nat, m: nat)
    requires m <= n <= |results|
    ensures ResolvedBefore(results, m) == ResolvedBefore(results[..n], m)
  {
    if m > 0 {
      ResolvedBeforePrefix(results, n, m - 1);
    }
  }

  /** The preparer is handed every value that resolved, once and in request order, and nothing else. */
  ghost predicate HandsOver<R>(results: seq<Result<R, Failure>>, handed: seq<R>)
  {
    && |handed| == ResolvedBefore(results, |results|)
    && forall i :: 0 <= i < |results| && results[i].Ok? ==>
         ResolvedBefore(results, i) < |handed| && handed[ResolvedBefore(results, i)] == results[i].value
  }

  lemma {:induction false} SuccessPosition<R>(results: seq<Result<R, Failure>>, i: nat)
    requires i < |results| && results[i].Ok?
    ensures ResolvedBefore(results, i) < |Successes(results)| && Successes(results)[ResolvedBefore(results, i)] == results[i].value
    decreases |results|
  {
    var n := |results| - 1;
    ResolvedBeforePrefix(results, n, i);
    if i < n {
      assert results[..n][i] == results[i];
      SuccessPosition(results[..n], i);
    } else {
      SuccessCount(results[..n]);
    }
  }

  lemma {:induction false} SuccessCount<R>(results: seq<Result<R, Failure>>)
    ensures |Successes(results)| == ResolvedBefore(results, |results|)
  {
    if results != [] {
      var n := |results| - 1;
      SuccessCount(results[..n]);
      ResolvedBeforePrefix(results, n, n);
    }
  }

  lemma SuccessesHandOver<R>(results: seq<Result<R, Failure>>)
    ensures HandsOver(results, Successes(results))
  {
    SuccessCount(results);
    forall i | 0 <= i < |results| && results[i].Ok?
      ensures ResolvedBefore(results, i) < |Successes(results)| && Successes(results)[ResolvedBefore(results, i)] == results[i].value
    {
      SuccessPosition(results, i);
    }
  }

  lemma {:induction false} SuccessOfSome<R>(results: seq<Result<R, Failure>>, value: R) returns (i: nat)
    requires value in Successes(results)
    ensures i < |results| && results[i] == Ok(value)
  {
    var n := |results| - 1;
    if results[n] == Ok(value) {
      i := n;
    } else {
      i := SuccessOfSome(results[..n], value);
    }
  }

  /**
   * The answer to a claim named `earlier` times before in the same batch: its
   * error and its prepared result are each handed out once, in that order.
   */
  function Turn<D>(errors: map<ClaimRef, Failure>, prepared: map<ClaimRef, Answer<D>>, ref: ClaimRef, earlier: nat): Answer<D>
  {
    if ref in errors && earlier == 0 then Err(errors[ref])
    else if ref in prepared && earlier == (if ref in errors then 1 else 0) then prepared[ref]
    else Err(NoResult())
  }

  /** The response: one answer for each UID, a later request of the same UID replacing an earlier one. */
  function Answers<D>(refs: seq<ClaimRef>, errors: map<ClaimRef, Failure>, prepared: map<ClaimRef, Answer<D>>): map<string, Answer<D>>
  {
    if refs == [] then map[]
    else
      var n := |refs| - 1;
      Answers(refs[..n], errors, prepared)[refs[n].uid := Turn(errors, prepared, refs[n], multiset(refs[..n])[refs[n]])]
  }

  ghost predicate LeftFor<D>(count: nat, errors: map<ClaimRef, Failure>, prepared: map<ClaimRef, Answer<D>>,
                       errorsLeft: map<ClaimRef, Failure>, preparedLeft: map<ClaimRef, Answer<D>>, ref: ClaimRef)
  {
    && (ref in errorsLeft <==> ref in errors && count == 0)
    && (ref in errorsLeft ==> errorsLeft[ref] == errors[ref])
    && (ref in preparedLeft <==> ref in prepared && count <= if ref in errors then 1 else 0)
    && (ref in preparedLeft ==> preparedLeft[ref] == prepared[ref])
  }

  /** What is still to hand out after these requests. */
  ghost predicate Left<D>(refs: seq<ClaimRef>, errors: map<ClaimRef, Failure>, prepared: map<ClaimRef, Answer<D>>,
                          errorsLeft: map<ClaimRef, Failure>, preparedLeft: map<ClaimRef, Answer<D>>)
  {
    forall ref {:trigger LeftFor(multiset(refs)[ref], errors, prepared, errorsLeft, preparedLeft, ref)} ::
      LeftFor(multiset(refs)[ref], errors, prepared, errorsLeft, preparedLeft, ref)
  }

  lemma CountNext(refs: seq<ClaimRef>, i: nat, ref: ClaimRef)
    requires i < |refs|
    ensures multiset(refs[..i + 1])[ref] == multiset(refs[..i])[ref] + if ref == refs[i] then 1 else 0
  {
    assert refs[..i + 1] == refs[..i] + [refs[i]];
  }

  lemma LeftNext<D>(refs: seq<ClaimRef>, i: nat, errors: map<ClaimRef, Failure>, prepared: map<ClaimRef, Answer<D>>,
                    errorsLeft: map<ClaimRef, Failure>, preparedLeft: map<ClaimRef, Answer<D>>)
    requires i < |refs| && Left(refs[..i], errors, prepared, errorsLeft, preparedLeft)
    ensures Left(refs[..i + 1], errors, prepared, errorsLeft - {refs[i]}, PreparedAfter(errorsLeft, preparedLeft, refs[i]))
  {
    var after, errorsAfter, preparedAfter := refs[..i + 1], errorsLeft - {refs[i]}, PreparedAfter(errorsLeft, preparedLeft, refs[i]);
    forall x
      ensures LeftFor(multiset(after)[x], errors, prepared, errorsAfter, preparedAfter, x)
    {
      CountNext(refs, i, x);
      assert LeftFor(multiset(refs[..i])[x], errors, prepared, errorsLeft, preparedLeft, x);
    }
  }

  function PreparedAfter<D>(errorsLeft: map<ClaimRef, Failure>, preparedLeft: map<ClaimRef, Answer<D>>, ref: ClaimRef): map<ClaimRef, Answer<D>>
  {
    if ref in errorsLeft then preparedLeft else preparedLeft - {ref}
  }

  /** The claim's error if one is left, else its prepared result if that is left, else the fallback. */
  method Take<D>(errorsLeft: map<ClaimRef, Failure>, preparedLeft: map<ClaimRef, Answer<D>>, ref: ClaimRef, ghost count: nat,
                 ghost errors: map<ClaimRef, Failure>, ghost prepared: map<ClaimRef, Answer<D>>)
    returns (answer: Answer<D>, errorsAfter: map<ClaimRef, Failure>, preparedAfter: map<ClaimRef, Answer<D>>)
    requires LeftFor(count, errors, prepared, errorsLeft, preparedLeft, ref)
    ensures answer == Turn(errors, prepared, ref, count)
    ensures errorsAfter == errorsLeft - {ref} && preparedAfter == PreparedAfter(errorsLeft, preparedLeft, ref)
  {
    errorsAfter, preparedAfter := errorsLeft - {ref}, preparedLeft;
    if ref in errorsLeft {
      return Err(errorsLeft[ref]), errorsAfter, preparedAfter;
    }
    preparedAfter := preparedLeft - {ref};
    answer := if ref in preparedLeft then preparedLeft[ref] else Err(NoResult());
  }

  lemma AnswersNext<D>(refs: seq<ClaimRef>, i: nat, errors: map<ClaimRef, Failure>, prepared: map<ClaimRef, Answer<D>>)
    requires i < |refs|
    ensures Answers(refs[..i + 1], errors, prepared)
         == Answers(refs[..i], errors, prepared)[refs[i].uid := Turn(errors, prepared, refs[i], multiset(refs[..i])[refs[i]])]
  {
    assert refs[..i + 1][..i] == refs[..i];
  }

  method Respond<D>(refs: seq<ClaimRef>, errors: map<ClaimRef, Failure>, prepared: map<ClaimRef, Answer<D>>)
    returns (claims: map<string, Answer<D>>)
    ensures claims == Answers(refs, errors, prepared)
  {
    var errorsLeft, preparedLeft := errors, prepared;
    claims := map[];
    for i := 0 to |refs|
      invariant claims == Answers(refs[..i], errors, prepared)
      invariant Left(refs[..i], errors, prepared, errorsLeft, preparedLeft)
    {
      var ref := refs[i];
      ghost var count := multiset(refs[..i])[ref];
      assert LeftFor(count, errors, prepared, errorsLeft, preparedLeft, ref);
      LeftNext(refs, i, errors, prepared, errorsLeft, preparedLeft);
      var answer;
      answer, errorsLeft, preparedLeft := Take(errorsLeft, preparedLeft, ref, count, errors, prepared);
      AnswersNext(refs, i, errors, prepared);
      claims := claims[ref.uid := answer];
    }
    assert refs[..|refs|] == refs;
  }

  /** A preparer that answers each claim it is handed from that claim's own value. */
  ghost predicate AnswersEach<R(!new), D(!new)>(prepare: seq<R> -> map<ClaimRef, Answer<D>>, claimOf: R -> ClaimRef, answer: R -> Answer<D>)
  {
    forall handed: seq<R>, x: R :: Alone(handed, claimOf, x) ==> AnswersOne(prepare(handed), claimOf(x), answer(x))
  }

  /** The value is handed over, and no other one for its claim. */
  ghost predicate Alone<R>(handed: seq<R>, claimOf: R -> ClaimRef, x: R)
  {
    x in handed && forall y :: y in handed && claimOf(y) == claimOf(x) ==> y == x
  }

  predicate AnswersOne<D(==)>(prepared: map<ClaimRef, Answer<D>>, ref: ClaimRef, answer: Answer<D>)
  {
    ref in prepared && prepared[ref] == answer
  }

  /** Each request that resolved, resolved to its own claim. */
  predicate Labelled<R>(refs: seq<ClaimRef>, results: seq<Result<R, Failure>>, claimOf: R -> ClaimRef)
    requires |refs| == |results|
  {
    forall i :: 0 <= i < |refs| && results[i].Ok? ==> claimOf(results[i].value) == refs[i]
  }

  /** Each resolved request has the preparer's answer to its own value, each other one its own error. */
  ghost predicate AnsweredOwn<R, D>(refs: seq<ClaimRef>, results: seq<Result<R, Failure>>, answer: R -> Answer<D>, claims: map<string, Answer<D>>)
    requires |refs| == |results|
  {
    forall i :: 0 <= i < |refs| ==>
      && refs[i].uid in claims
      && (results[i].Ok? ==> claims[refs[i].uid] == answer(results[i].value))
      && (results[i].Err? ==> claims[refs[i].uid] == Err(results[i].error))
  }

  lemma HandedInFull<R>(results: seq<Result<R, Failure>>, handed: seq<R>, i: nat)
    requires HandsOver(results, handed) && i < |results| && results[i].Ok?
    ensures results[i].value in handed
  {
    assert handed[ResolvedBefore(results, i)] in handed;
  }

  lemma SameUidSameRequest(refs: seq<ClaimRef>, k: nat, i: nat)
    requires DistinctUids(refs) && k < |refs| && i < |refs| && refs[k].uid == refs[i].uid
    ensures k == i
  {
  }

  lemma PreparedFromOwn<R(!new), D(!new)>(refs: seq<ClaimRef>, results: seq<Result<R, Failure>>, prepare: seq<R> -> map<ClaimRef, Answer<D>>,
                                          claimOf: R -> ClaimRef, answer: R -> Answer<D>, i: nat)
    requires |refs| == |results| && DistinctUids(refs) && Labelled(refs, results, claimOf) && AnswersEach(prepare, claimOf, answer)
    requires i < |refs| && results[i].Ok?
    ensures refs[i] in prepare(Successes(results)) && prepare(Successes(results))[refs[i]] == answer(results[i].value)
  {
    var handed, x := Successes(results), results[i].value;
    SuccessesHandOver(results);
    HandedInFull(results, handed, i);
    forall y | y in handed && claimOf(y) == claimOf(x)
      ensures y == x
    {
      var k := SuccessOfSome(results, y);
      assert results[k].Ok? && results[k].value == y;
      assert claimOf(results[k].value) == refs[k] && claimOf(results[i].value) == refs[i];
      SameUidSameRequest(refs, k, i);
    }
    assert Alone(handed, claimOf, x);
    assert AnswersOne(prepare(handed), claimOf(x), answer(x));
  }

  lemma EachFromOwn<R(!new), D(!new)>(refs: seq<ClaimRef>, results: seq<Result<R, Failure>>, prepare: seq<R> -> map<ClaimRef, Answer<D>>,
                                      claimOf: R -> ClaimRef, answer: R -> Answer<D>)
    requires |refs| == |results| && DistinctUids(refs) && Labelled(refs, results, claimOf) && AnswersEach(prepare, claimOf, answer)
    ensures AnsweredOwn(refs, results, answer, Answers(refs, ErrorsOf(refs, results), prepare(Successes(results))))
  {
    forall i | 0 <= i < |refs|
      ensures var claims := Answers(refs, ErrorsOf(refs, results), prepare(Successes(results)));
              && refs[i].uid in claims
              && (results[i].Ok? ==> claims[refs[i].uid] == answer(results[i].value))
              && (results[i].Err? ==> claims[refs[i].uid] == Err(results[i].error))
    {
      EachClaimIsAnsweredAlone(refs, results, prepare(Successes(results)), i);
      if results[i].Ok? {
        PreparedFromOwn(refs, results, prepare, claimOf, answer, i);
      }
    }
  }

  method Collect<R>(refs: seq<ClaimRef>, results: seq<Result<R, Failure>>)
    returns (errors: map<ClaimRef, Failure>, resolved: seq<R>)
    requires |refs| == |results|
    ensures errors == ErrorsOf(refs, results) && resolved == Successes(results) && HandsOver(results, resolved)
  {
    errors, resolved := map[], [];
    for i := 0 to |refs|
      invariant errors == ErrorsOf(refs[..i], results[..i]) && resolved == Successes(results[..i])
    {
      assert refs[..i + 1][..i] == refs[..i] && results[..i + 1][..i] == results[..i];
      match results[i] {
        case Ok(value) => resolved := resolved + [value];
        case Err(error) => errors := errors[refs[i] := error];
      }
    }
    assert refs[..|refs|] == refs && results[..|refs|] == results;
    SuccessesHandOver(results);
  }

  function ResultsOf<R>(completed: seq<Completed<R>>): seq<R>
  {
    seq(|completed|, i requires 0 <= i < |completed| => completed[i].result)
  }

  /**
   * The whole batch, for any order in which its reads complete and whatever
   * map the preparer returns. An empty batch reaches no preparer. A preparer
   * that answers each claim from its own value gives each request its own answer.
   */
  method NodePrepareResources<R(!new), D(!new)>(refs: seq<ClaimRef>, completed: seq<Completed<Result<R, Failure>>>,
                                                prepare: seq<R> -> map<ClaimRef, Answer<D>>,
                                                ghost results: seq<Result<R, Failure>>, ghost claimOf: R -> ClaimRef, ghost answer: R -> Answer<D>)
    returns (claims: map<string, Answer<D>>)
    requires |refs| == |results| && multiset(completed) == multiset(Enumerated(refs, results))
    ensures refs == [] ==> claims == map[]
    ensures claims == Answers(refs, ErrorsOf(refs, results), prepare(Successes(results)))
    ensures DistinctUids(refs) && Labelled(refs, results, claimOf) && AnswersEach(prepare, claimOf, answer) ==>
      AnsweredOwn(refs, results, answer, claims)
  {
    if DistinctUids(refs) && Labelled(refs, results, claimOf) && AnswersEach(prepare, claimOf, answer) {
      EachFromOwn(refs, results, prepare, claimOf, answer);
    }
    if refs == [] {
      return map[];
    }
    CompletionOrderIsNotSeen(refs, results, completed);
    var inOrder := ResultsOf(SortByIndex(completed));
    assert inOrder == results;
    var errors, resolved := Collect(refs, inOrder);
    claims := Respond(refs, errors, prepare(resolved));
  }

  // ----- With container metadata -----

  type Publisher<!P, !D> = (ClaimRef, StoredClaim, P) -> Answer<D>

  /** The preparer's result once its metadata is published; without a resolved object there is nothing to publish. */
  function Stage<P, D>(result: Result<P, Failure>, objects: map<ClaimRef, StoredClaim>, publish: Publisher<P, D>, ref: ClaimRef): Answer<D>
  {
    match result
    case Err(error) => Err(error)
    case Ok(devices) => if ref in objects then publish(ref, objects[ref], devices) else Err(NoResult())
  }

  function Staged<P, D>(prepared: map<ClaimRef, Result<P, Failure>>, objects: map<ClaimRef, StoredClaim>, publish: Publisher<P, D>)
    : map<ClaimRef, Answer<D>>
  {
    map ref | ref in prepared :: Stage(prepared[ref], objects, publish, ref)
  }

  /** The objects of the claims that resolved; the last read of a claim counts. */
  function ObjectsOf(refs: seq<ClaimRef>, results: seq<Result<Context, Failure>>): map<ClaimRef, StoredClaim>
    requires |refs| == |results|
  {
    if refs == [] then map[]
    else
      var n := |refs| - 1;
      var earlier := ObjectsOf(refs[..n], results[..n]);
      if results[n].Ok? then earlier[refs[n] := results[n].value.stored] else earlier
  }

  function ResolvedOf(contexts: seq<Context>): seq<Resolved>
  {
    seq(|contexts|, i requires 0 <= i < |contexts| => contexts[i].resolved)
  }

  method CollectObjects(refs: seq<ClaimRef>, results: seq<Result<Context, Failure>>) returns (objects: map<ClaimRef, StoredClaim>)
    requires |refs| == |results|
    ensures objects == ObjectsOf(refs, results)
  {
    objects := map[];
    for i := 0 to |refs|
      invariant objects == ObjectsOf(refs[..i], results[..i])
    {
      assert refs[..i + 1][..i] == refs[..i] && results[..i + 1][..i] == results[..i];
      if results[i].Ok? {
        objects := objects[refs[i] := results[i].value.stored];
      }
    }
    assert refs[..|refs|] == refs && results[..|refs|] == results;
  }

  lemma StagedAfter<P, D>(prepared: map<ClaimRef, Result<P, Failure>>, objects: map<ClaimRef, StoredClaim>, publish: Publisher<P, D>, ref: ClaimRef)
    ensures Staged(prepared, objects, publish) - {ref} == Staged(prepared - {ref}, objects - {ref}, publish)
  {
  }

  /** One claim's turn: its files are published if it resolved and its preparation succeeded. */
  method TakePublishing<P, D>(errorsLeft: map<ClaimRef, Failure>, preparedLeft: map<ClaimRef, Result<P, Failure>>,
                              objectsLeft: map<ClaimRef, StoredClaim>, publish: Publisher<P, D>, ref: ClaimRef,
                              ghost count: nat, ghost errors: map<ClaimRef, Failure>, ghost staged: map<ClaimRef, Answer<D>>)
    returns (answer: Answer<D>, errorsAfter: map<ClaimRef, Failure>, preparedAfter: map<ClaimRef, Result<P, Failure>>,
             objectsAfter: map<ClaimRef, StoredClaim>)
    requires LeftFor(count, errors, staged, errorsLeft, Staged(preparedLeft, objectsLeft, publish), ref)
    ensures answer == Turn(errors, staged, ref, count) && errorsAfter == errorsLeft - {ref}
    ensures Staged(preparedAfter, objectsAfter, publish) == PreparedAfter(errorsLeft, Staged(preparedLeft, objectsLeft, publish), ref)
  {
    errorsAfter, preparedAfter, objectsAfter := errorsLeft - {ref}, preparedLeft, objectsLeft;
    if ref in errorsLeft {
      answer := Err(errorsLeft[ref]);
      return;
    }
    StagedAfter(preparedLeft, objectsLeft, publish, ref);
    preparedAfter, objectsAfter := preparedLeft - {ref}, objectsLeft - {ref};
    answer := if ref in preparedLeft then Stage(preparedLeft[ref], objectsLeft, publish, ref) else Err(NoResult());
  }

  /** Answers with metadata: a claim's files are published as its turn comes, once. */
  method RespondPublishing<P, D>(refs: seq<ClaimRef>, errors: map<ClaimRef, Failure>, prepared: map<ClaimRef, Result<P, Failure>>,
                                 objects: map<ClaimRef, StoredClaim>, publish: Publisher<P, D>)
    returns (claims: map<string, Answer<D>>)
    ensures claims == Answers(refs, errors, Staged(prepared, objects, publish))
  {
    ghost var staged := Staged(prepared, objects, publish);
    var errorsLeft, preparedLeft, objectsLeft := errors, prepared, objects;
    ghost var stagedLeft := staged;
    claims := map[];
    for i := 0 to |refs|
      invariant claims == Answers(refs[..i], errors, staged)
      invariant stagedLeft == Staged(preparedLeft, objectsLeft, publish)
      invariant Left(refs[..i], errors, staged, errorsLeft, stagedLeft)
    {
      var ref := refs[i];
      ghost var count := multiset(refs[..i])[ref];
      assert LeftFor(count, errors, staged, errorsLeft, stagedLeft, ref);
      LeftNext(refs, i, errors, staged, errorsLeft, stagedLeft);
      stagedLeft := PreparedAfter(errorsLeft, stagedLeft, ref);
      var answer;
      answer, errorsLeft, preparedLeft, objectsLeft := TakePublishing(errorsLeft, preparedLeft, objectsLeft, publish, ref, count, errors, staged);
      AnswersNext(refs, i, errors, staged);
      claims := claims[ref.uid := answer];
    }
    assert refs[..|refs|] == refs;
  }

  /** What a request comes to whose devices are published once prepared. */
  function OwnPublished<P, D>(result: Result<Context, Failure>, answer: Resolved -> Result<P, Failure>, publish: Publisher<P, D>, ref: ClaimRef): Answer<D>
  {
    if result.Err? then Err(result.error)
    else
      match answer(result.value.resolved)
      case Err(error) => Err(error)
      case Ok(devices) => publish(ref, result.value.stored, devices)
  }

  ghost predicate PublishedOwn<P, D>(refs: seq<ClaimRef>, results: seq<Result<Context, Failure>>, answer: Resolved -> Result<P, Failure>,
                                     publish: Publisher<P, D>, claims: map<string, Answer<D>>)
    requires |refs| == |results|
  {
    forall i :: 0 <= i < |refs| ==> refs[i].uid in claims && claims[refs[i].uid] == OwnPublished(results[i], answer, publish, refs[i])
  }

  /** Each request's own context, by what was resolved in it. */
  ghost predicate ResolvedOwn(refs: seq<ClaimRef>, results: seq<Result<Context, Failure>>)
    requires |refs| == |results|
  {
    forall i :: 0 <= i < |refs| && results[i].Ok? ==> results[i].value.resolved.claim == refs[i]
  }

  lemma EachPublishedFromOwn<P(!new), D>(refs: seq<ClaimRef>, results: seq<Result<Context, Failure>>,
                                         prepare: seq<Resolved> -> map<ClaimRef, Result<P, Failure>>, answer: Resolved -> Result<P, Failure>,
                                         publish: Publisher<P, D>)
    requires |refs| == |results| && DistinctUids(refs) && ResolvedOwn(refs, results)
    requires AnswersEach(prepare, (r: Resolved) => r.claim, answer)
    ensures PublishedOwn(refs, results, answer, publish,
                         Answers(refs, ErrorsOf(refs, results), Staged(prepare(ResolvedOf(Successes(results))), ObjectsOf(refs, results), publish)))
  {
    var claimOf := (r: Resolved) => r.claim;
    var bare := seq(|results|, i requires 0 <= i < |results| => if results[i].Ok? then Ok(results[i].value.resolved) else Err(results[i].error));
    BareSuccesses(results, bare);
    forall i | 0 <= i < |refs|
      ensures var claims := Answers(refs, ErrorsOf(refs, results), Staged(prepare(ResolvedOf(Successes(results))), ObjectsOf(refs, results), publish));
              refs[i].uid in claims && claims[refs[i].uid] == OwnPublished(results[i], answer, publish, refs[i])
    {
      EachClaimIsPublishedAlone(refs, results, prepare(ResolvedOf(Successes(results))), publish, i);
      if results[i].Ok? {
        PreparedFromOwn(refs, bare, prepare, claimOf, answer, i);
      }
    }
  }

  /** The same list, whether the contexts are stripped before or after collecting. */
  lemma {:induction false} BareSuccesses(results: seq<Result<Context, Failure>>, bare: seq<Result<Resolved, Failure>>)
    requires |bare| == |results|
    requires forall i :: 0 <= i < |results| ==> bare[i] == if results[i].Ok? then Ok(results[i].value.resolved) else Err(results[i].error)
    ensures Successes(bare) == ResolvedOf(Successes(results))
  {
    if results != [] {
      BareSuccesses(results[..|results| - 1], bare[..|results| - 1]);
    }
  }

  /**
   * The whole batch with container metadata, for any completion order,
   * preparer and publishing outcomes. A preparer that answers each claim from
   * what it resolved to gives each request its own answer, published from the
   * claim's own object.
   */
  method PrepareMetadata<P(!new), D>(refs: seq<ClaimRef>, completed: seq<Completed<Result<Context, Failure>>>,
                                     prepare: seq<Resolved> -> map<ClaimRef, Result<P, Failure>>, publish: Publisher<P, D>,
                                     ghost results: seq<Result<Context, Failure>>, ghost answer: Resolved -> Result<P, Failure>)
    returns (claims: map<string, Answer<D>>)
    requires |refs| == |results| && multiset(completed) == multiset(Enumerated(refs, results))
    ensures claims == Answers(refs, ErrorsOf(refs, results), Staged(prepare(ResolvedOf(Successes(results))), ObjectsOf(refs, results), publish))
    ensures DistinctUids(refs) && ResolvedOwn(refs, results) && AnswersEach(prepare, (r: Resolved) => r.claim, answer) ==>
      PublishedOwn(refs, results, answer, publish, claims)
  {
    if DistinctUids(refs) && ResolvedOwn(refs, results) && AnswersEach(prepare, (r: Resolved) => r.claim, answer) {
      EachPublishedFromOwn(refs, results, prepare, answer, publish);
    }
    CompletionOrderIsNotSeen(refs, results, completed);
    var inOrder := ResultsOf(SortByIndex(completed));
    assert inOrder == results;
    var errors, contexts := Collect(refs, inOrder);
    var objects := CollectObjects(refs, inOrder);
    claims := RespondPublishing(refs, errors, prepare(ResolvedOf(contexts)), objects, publish);
  }

  // ----- What each claim gets -----

  predicate DistinctUids(refs: seq<ClaimRef>)
  {
    forall i, j :: 0 <= i < j < |refs| ==> refs[i].uid != refs[j].uid
  }

  /** A claim's own answer: its resolve error, else its prepared result, else the fallback. */
  function Own<R, D>(result: Result<R, Failure>, prepared: map<ClaimRef, Answer<D>>, ref: ClaimRef): Answer<D>
  {
    if result.Err? then Err(result.error)
    else if ref in prepared then prepared[ref]
    else Err(NoResult())
  }

  /** Every requested UID is answered, and no other. */
  lemma {:induction false} EveryRequestIsAnswered<D>(refs: seq<ClaimRef>, errors: map<ClaimRef, Failure>, prepared: map<ClaimRef, Answer<D>>, uid: string)
    ensures uid in Answers(refs, errors, prepared) <==> exists i :: 0 <= i < |refs| && refs[i].uid == uid
  {
    if refs != [] {
      var n := |refs| - 1;
      EveryRequestIsAnswered(refs[..n], errors, prepared, uid);
      assert forall i :: 0 <= i < n ==> refs[..n][i] == refs[i];
    }
  }

  /** A UID's answer is that of its last request. */
  lemma {:induction false} LastRequestAnswers<D>(refs: seq<ClaimRef>, errors: map<ClaimRef, Failure>, prepared: map<ClaimRef, Answer<D>>, i: nat)
    requires i < |refs| && forall j :: i < j < |refs| ==> refs[j].uid != refs[i].uid
    ensures refs[i].uid in Answers(refs, errors, prepared)
    ensures Answers(refs, errors, prepared)[refs[i].uid] == Turn(errors, prepared, refs[i], multiset(refs[..i])[refs[i]])
  {
    var n := |refs| - 1;
    if i < n {
      assert refs[..n][i] == refs[i] && refs[..n][..i] == refs[..i];
      LastRequestAnswers(refs[..n], errors, prepared, i);
    }
  }

  lemma {:induction false} ErrorsAreOwn<R>(refs: seq<ClaimRef>, results: seq<Result<R, Failure>>, i: nat)
    requires |refs| == |results| && i < |refs| && forall j :: 0 <= j < |refs| && j != i ==> refs[j] != refs[i]
    ensures refs[i] in ErrorsOf(refs, results) <==> results[i].Err?
    ensures results[i].Err? ==> ErrorsOf(refs, results)[refs[i]] == results[i].error
    decreases |refs|
  {
    var n := |refs| - 1;
    if i < n {
      ErrorsAreOwn(refs[..n], results[..n], i);
    } else {
      NoErrorElsewhere(refs[..n], results[..n], refs[n]);
    }
  }

  lemma {:induction false} NoErrorElsewhere<R>(refs: seq<ClaimRef>, results: seq<Result<R, Failure>>, ref: ClaimRef)
    requires |refs| == |results| && ref !in refs
    ensures ref !in ErrorsOf(refs, results)
  {
    if refs != [] {
      NoErrorElsewhere(refs[..|refs| - 1], results[..|refs| - 1], ref);
    }
  }

  /** With distinct UIDs every claim gets its own answer, untouched by its siblings. */
  lemma EachClaimIsAnsweredAlone<R, D>(refs: seq<ClaimRef>, results: seq<Result<R, Failure>>, prepared: map<ClaimRef, Answer<D>>, i: nat)
    requires |refs| == |results| && DistinctUids(refs) && i < |refs|
    ensures refs[i].uid in Answers(refs, ErrorsOf(refs, results), prepared)
    ensures Answers(refs, ErrorsOf(refs, results), prepared)[refs[i].uid] == Own(results[i], prepared, refs[i])
  {
    LastRequestAnswers(refs, ErrorsOf(refs, results), prepared, i);
    forall j | 0 <= j < |refs| && j != i
      ensures refs[j].uid != refs[i].uid
    {
      assert if j < i then refs[j].uid != refs[i].uid else refs[i].uid != refs[j].uid;
    }
    ErrorsAreOwn(refs, results, i);
    Sorting.InMultiset(refs[i], refs[..i]);
  }

  lemma {:induction false} NoObjectElsewhere(refs: seq<ClaimRef>, results: seq<Result<Context, Failure>>, ref: ClaimRef)
    requires |refs| == |results| && ref !in refs
    ensures ref !in ObjectsOf(refs, results)
  {
    if refs != [] {
      NoObjectElsewhere(refs[..|refs| - 1], results[..|refs| - 1], ref);
    }
  }

  lemma {:induction false} ObjectsAreOwn(refs: seq<ClaimRef>, results: seq<Result<Context, Failure>>, i: nat)
    requires |refs| == |results| && i < |refs| && forall j :: 0 <= j < |refs| && j != i ==> refs[j] != refs[i]
    ensures refs[i] in ObjectsOf(refs, results) <==> results[i].Ok?
    ensures results[i].Ok? ==> ObjectsOf(refs, results)[refs[i]] == results[i].value.stored
    decreases |refs|
  {
    var n := |refs| - 1;
    if i < n {
      ObjectsAreOwn(refs[..n], results[..n], i);
    } else {
      NoObjectElsewhere(refs[..n], results[..n], refs[n]);
    }
  }

  /** The same with metadata: a resolved and prepared claim is answered by publishing its own object with its own devices. */
  lemma EachClaimIsPublishedAlone<P, D>(refs: seq<ClaimRef>, results: seq<Result<Context, Failure>>, prepared: map<ClaimRef, Result<P, Failure>>,
                                        publish: Publisher<P, D>, i: nat)
    requires |refs| == |results| && DistinctUids(refs) && i < |refs|
    ensures var claims := Answers(refs, ErrorsOf(refs, results), Staged(prepared, ObjectsOf(refs, results), publish));
            refs[i].uid in claims && claims[refs[i].uid] ==
                                     if results[i].Err? then Err(results[i].error)
                                     else if refs[i] !in prepared then Err(NoResult())
                                     else if prepared[refs[i]].Err? then Err(prepared[refs[i]].error)
                                     else publish(refs[i], results[i].value.stored, prepared[refs[i]].value)
  {
    var staged := Staged(prepared, ObjectsOf(refs, results), publish);
    EachClaimIsAnsweredAlone(refs, results, staged, i);
    forall j | 0 <= j < |refs| && j != i
      ensures refs[j].uid != refs[i].uid
    {
      assert if j < i then refs[j].uid != refs[i].uid else refs[i].uid != refs[j].uid;
    }
    ObjectsAreOwn(refs, results, i);
  }

  /** Every request is answered with its own result. */
  ghost predicate AnsweredAlone<R, D>(refs: seq<ClaimRef>, results: seq<Result<R, Failure>>, prepared: map<ClaimRef, Answer<D>>)
    requires |refs| == |results|
  {
    forall i :: 0 <= i < |refs| ==>
      var claims := Answers(refs, ErrorsOf(refs, results), prepared);
      refs[i].uid in claims && claims[refs[i].uid] == Own(results[i], prepared, refs[i])
  }

  lemma LastRequest(refs: seq<ClaimRef>, i: nat) returns (last: nat)
    requires i < |refs|
    ensures i <= last < |refs| && refs[last].uid == refs[i].uid && forall k :: last < k < |refs| ==> refs[k].uid != refs[i].uid
  {
    last := |refs| - 1;
    while refs[last].uid != refs[i].uid
      invariant i <= last < |refs| && forall k :: last < k < |refs| ==> refs[k].uid != refs[i].uid
      decreases last
    {
      last := last - 1;
    }
  }

  lemma {:induction false} ErrorHasCause<R>(refs: seq<ClaimRef>, results: seq<Result<R, Failure>>, ref: ClaimRef) returns (k: nat)
    requires |refs| == |results| && ref in ErrorsOf(refs, results)
    ensures k < |refs| && refs[k] == ref && results[k].Err?
  {
    var n := |refs| - 1;
    if results[n].Err? && refs[n] == ref {
      k := n;
    } else {
      k := ErrorHasCause(refs[..n], results[..n], ref);
    }
  }

  /**
   * Two requests of one UID come to the same answer whatever the preparer
   * does: both fail to resolve, with the same error, and the UID's last
   * request is not a repetition of the other.
   */
  predicate SharesSafely<R>(refs: seq<ClaimRef>, results: seq<Result<R, Failure>>, i: nat, j: nat)
    requires |refs| == |results| && i < |refs| && j < |refs|
  {
    && results[i].Err? && results[j].Err? && results[i].error == results[j].error
    && ((forall k :: j < k < |refs| ==> refs[k].uid != refs[j].uid) ==> refs[i] != refs[j])
  }

  predicate AllShareSafely<R>(refs: seq<ClaimRef>, results: seq<Result<R, Failure>>)
    requires |refs| == |results|
  {
    forall i, j :: 0 <= i < j < |refs| && refs[i].uid == refs[j].uid ==> SharesSafely(refs, results, i, j)
  }

  /** Resolving never reports what the preparer or the fallback would. */
  predicate NoHooks<R>(results: seq<Result<R, Failure>>)
  {
    forall k :: 0 <= k < |results| && results[k].Err? ==> !results[k].error.Hook?
  }

  lemma ResolvingIsNoHook(driver: string, ref: ClaimRef, read: Read)
    ensures Outcome(driver, ref, read).Err? ==> !Outcome(driver, ref, read).error.Hook?
  {
  }

  lemma LastIsItsOwn<R, D>(refs: seq<ClaimRef>, results: seq<Result<R, Failure>>, prepared: map<ClaimRef, Answer<D>>, last: nat)
    requires |refs| == |results| && AllShareSafely(refs, results)
    requires last < |refs| && forall k :: last < k < |refs| ==> refs[k].uid != refs[last].uid
    ensures refs[last].uid in Answers(refs, ErrorsOf(refs, results), prepared)
    ensures Answers(refs, ErrorsOf(refs, results), prepared)[refs[last].uid] == Own(results[last], prepared, refs[last])
  {
    LastRequestAnswers(refs, ErrorsOf(refs, results), prepared, last);
    forall k | 0 <= k < |refs| && k != last
      ensures refs[k] != refs[last]
    {
      if k < last && refs[k].uid == refs[last].uid {
        assert SharesSafely(refs, results, k, last);
      }
    }
    ErrorsAreOwn(refs, results, last);
    Sorting.InMultiset(refs[last], refs[..last]);
  }

  lemma SafeSharingIsEnough<R, D>(refs: seq<ClaimRef>, results: seq<Result<R, Failure>>, prepared: map<ClaimRef, Answer<D>>)
    requires |refs| == |results| && AllShareSafely(refs, results)
    ensures AnsweredAlone(refs, results, prepared)
  {
    forall i | 0 <= i < |refs|
      ensures refs[i].uid in Answers(refs, ErrorsOf(refs, results), prepared)
      ensures Answers(refs, ErrorsOf(refs, results), prepared)[refs[i].uid] == Own(results[i], prepared, refs[i])
    {
      var last := LastRequest(refs, i);
      LastIsItsOwn(refs, results, prepared, last);
      if i < last {
        assert SharesSafely(refs, results, i, last);
      }
    }
  }

  /** Two resolved requests of one UID: the preparer's result for the earlier one can be lost. */
  lemma ResolvedTwiceLosesAnAnswer<R, D>(refs: seq<ClaimRef>, results: seq<Result<R, Failure>>, i: nat, j: nat, d: D)
    requires |refs| == |results| && i < j < |refs| && refs[i].uid == refs[j].uid && results[i].Ok? && results[j].Ok?
    ensures !AnsweredAlone(refs, results, map[refs[i] := Ok(d)])
  {
    var prepared: map<ClaimRef, Answer<D>> := map[refs[i] := Ok(d)];
    var errors := ErrorsOf(refs, results);
    if AnsweredAlone(refs, results, prepared) {
      var last := LastRequest(refs, i);
      LastRequestAnswers(refs, errors, prepared, last);
      assert Own(results[i], prepared, refs[i]) == Ok(d);
      var earlier := multiset(refs[..last])[refs[last]];
      assert Turn(errors, prepared, refs[last], earlier) == Ok(d);
      assert refs[last] == refs[i] && i < last;
      assert refs[..last][i] == refs[last];
      Sorting.InMultiset(refs[last], refs[..last]);
      var k := ErrorHasCause(refs, results, refs[last]);
    }
  }

  /** A repeated request loses its resolve error to the preparer's result or the fallback. */
  lemma RepeatedErrorIsLost<R, D>(refs: seq<ClaimRef>, results: seq<Result<R, Failure>>, i: nat, j: nat, d: D)
    requires |refs| == |results| && i < j < |refs| && refs[i] == refs[j] && results[j].Err? && !results[j].error.Hook?
    requires forall k :: j < k < |refs| ==> refs[k].uid != refs[j].uid
    ensures !AnsweredAlone(refs, results, map[refs[j] := Ok(d)])
  {
    var prepared: map<ClaimRef, Answer<D>> := map[refs[j] := Ok(d)];
    LastRequestAnswers(refs, ErrorsOf(refs, results), prepared, j);
    assert refs[..j][i] == refs[j];
    Sorting.InMultiset(refs[j], refs[..j]);
    assert Own(results[j], prepared, refs[j]) == Err(results[j].error);
  }

  lemma UnsafeSharingLosesAnAnswer<R, D>(refs: seq<ClaimRef>, results: seq<Result<R, Failure>>, i: nat, j: nat, d: D) returns (ref: ClaimRef)
    requires |refs| == |results| && NoHooks(results)
    requires i < j < |refs| && refs[i].uid == refs[j].uid && !SharesSafely(refs, results, i, j)
    ensures !AnsweredAlone(refs, results, map[ref := Ok(d)])
  {
    ref := if results[i].Ok? then refs[i] else refs[j];
    var prepared: map<ClaimRef, Answer<D>> := map[ref := Ok(d)];
    if results[i].Ok? && results[j].Ok? {
      ResolvedTwiceLosesAnAnswer(refs, results, i, j, d);
    } else if results[i].Err? && results[j].Err? && results[i].error == results[j].error {
      RepeatedErrorIsLost(refs, results, i, j, d);
    } else {
      assert Own(results[i], prepared, refs[i]) != Own(results[j], prepared, refs[j]);
    }
  }

  /**
   * Every request is sure of its own answer, whatever the preparer returns,
   * exactly when requests of one UID share it safely.
   */
  lemma AnsweredAloneExactlyWhen<R, D(!new)>(refs: seq<ClaimRef>, results: seq<Result<R, Failure>>, d: D)
    requires |refs| == |results| && NoHooks(results)
    ensures AllShareSafely(refs, results) <==> forall prepared: map<ClaimRef, Answer<D>> :: AnsweredAlone(refs, results, prepared)
  {
    if AllShareSafely(refs, results) {
      forall prepared: map<ClaimRef, Answer<D>>
        ensures AnsweredAlone(refs, results, prepared)
      {
        SafeSharingIsEnough(refs, results, prepared);
      }
    } else {
      var i, j :| 0 <= i < j < |refs| && refs[i].uid == refs[j].uid && !SharesSafely(refs, results, i, j);
      var ref := UnsafeSharingLosesAnAnswer(refs, results, i, j, d);
    }
  }

  /** For claims that resolve, that is when no two requests share a UID. */
  lemma ResolvedAnsweredAloneExactlyWhen<R, D(!new)>(refs: seq<ClaimRef>, results: seq<Result<R, Failure>>, d: D)
    requires |refs| == |results| && forall k :: 0 <= k < |results| ==> results[k].Ok?
    ensures DistinctUids(refs) <==> forall prepared: map<ClaimRef, Answer<D>> :: AnsweredAlone(refs, results, prepared)
  {
    AnsweredAloneExactlyWhen(refs, results, d);
    if AllShareSafely(refs, results) {
      forall i, j | 0 <= i < j < |refs|
        ensures refs[i].uid != refs[j].uid
      {
        assert !SharesSafely(refs, results, i, j);
      }
    }
  }
}
