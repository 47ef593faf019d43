/** A complete publication: every pool of a snapshot, then the leftovers. */
module PublishOnce {
  import opened Wrappers
  import opened Sorting
  import opened Slices
  import opened Canonical
  import opened Inventory
  import opened Identities
  import opened Desired
  import opened Coherence
  import opened Publication
  import opened Publisher
  import opened Reconcile
  import opened ApiServer
  import Advertised

  type Snapshot = map<string, PoolInventory>

  /** Between pools: the pools done are in place, and every other slice of this publisher is still listed. */
  ghost predicate Publishing(base: Store, s: Store, rest: Store, id: Identity, owner: string, snapshot: Snapshot, done: set<string>,
                             log: Log)
    requires done <= snapshot.Keys
  {
    && Coherent(s, id, log) && OnlyOwn(base, s, id) && Mirrored(s, rest, id)
    && (forall pool {:trigger Placed(s, id, owner, pool, snapshot[pool], rest.Keys)} ::
          pool in done ==> Placed(s, id, owner, pool, snapshot[pool], rest.Keys))
    && forall name :: name in s && Owns(id, s[name]) ==> name in rest || s[name].spec.pool.name in done
  }

  lemma OnlyOwnThrough(base: Store, s: Store, t: Store, id: Identity, pool: string)
    requires OnlyOwn(base, s, id) && OnlyPool(s, t, id, pool)
    ensures OnlyOwn(base, t, id)
  {
  }

  lemma PoolDone(base: Store, s: Store, t: Store, rest: Store, left: Store, id: Identity, owner: string, snapshot: Snapshot,
                 done: set<string>, pool: string, log: Log, begun: Log)
    requires done <= snapshot.Keys && Lawful(id) && Publishing(base, s, rest, id, owner, snapshot, done, log)
    requires pool in snapshot && pool !in done
    requires Coherent(t, id, begun) && OnlyPool(s, t, id, pool) && Mirrored(t, left, id) && TakenFrom(rest, left, pool)
    requires Placed(t, id, owner, pool, snapshot[pool], left.Keys)
    ensures Publishing(base, t, left, id, owner, snapshot, done + {pool}, begun)
  {
    OnlyOwnThrough(base, s, t, id, pool);
    forall p | p in done
      ensures Placed(t, id, owner, p, snapshot[p], left.Keys)
    {
      PlacedElsewhere(s, t, id, owner, p, snapshot[p], rest.Keys, left.Keys, pool);
    }
  }

  lemma SafeStepsGrow(before: seq<Store>, after: seq<Store>, base: Store, id: Identity, log: Log, more: Log)
    requires SafeSteps(before, after, base, id, log) && log <= more
    ensures SafeSteps(before, after, base, id, more)
  {
    forall k | |before| <= k < |after|
      ensures Coherent(after[k], id, more)
    {
      CoherentGrows(after[k], id, log, more);
    }
  }

  lemma SafeStepsThrough(start: seq<Store>, before: seq<Store>, after: seq<Store>, base: Store, s: Store, id: Identity, pool: string,
                         log: Log, begun: Log)
    requires SafeSteps(start, before, base, id, log) && log <= begun
    requires PoolSteps(before, after, s, id, pool, begun) && OnlyOwn(base, s, id)
    ensures SafeSteps(start, after, base, id, begun)
  {
    SafeStepsGrow(start, before, base, id, log, begun);
    assert after[..|start|] == before[..|start|];
    forall k | |start| <= k < |after|
      ensures Coherent(after[k], id, begun) && OnlyOwn(base, after[k], id)
    {
      if k < |before| {
        assert after[k] == before[k];
      } else {
        OnlyOwnThrough(base, s, after[k], id, pool);
      }
    }
  }

  lemma LeftoverDeleted(base: Store, s: Store, rest: Store, id: Identity, owner: string, snapshot: Snapshot, name: string,
                        log: Log)
    requires Publishing(base, s, rest, id, owner, snapshot, snapshot.Keys, log) && name in rest
    ensures Publishing(base, s - {name}, rest - {name}, id, owner, snapshot, snapshot.Keys, log)
  {
    var t := s - {name};
    CoherentSubset(s, t, id, log);
    assert (rest - {name}).Keys == rest.Keys - {name};
    forall pool | pool in snapshot.Keys
      ensures Placed(t, id, owner, pool, snapshot[pool], (rest - {name}).Keys)
    {
      PlacedWithout(s, id, owner, pool, snapshot[pool], rest.Keys, name);
    }
  }

  /** A deletion that went through, or did not, leaves a coherent state. */
  lemma LeftoverStep(base: Store, s: Store, t: Store, rest: Store, id: Identity, owner: string, snapshot: Snapshot, name: string, log: Log)
    requires Publishing(base, s, rest, id, owner, snapshot, snapshot.Keys, log) && name in rest
    requires t == s || t == s - {name}
    ensures Coherent(t, id, log) && OnlyOwn(base, t, id)
    ensures name !in t ==> Publishing(base, t, rest - {name}, id, owner, snapshot, snapshot.Keys, log)
  {
    LeftoverDeleted(base, s, rest, id, owner, snapshot, name, log);
  }

  lemma RestShrinks(names: seq<string>, i: nat, rest: Store)
    requires DistinctKeys(names, TextKey) && i < |names|
    requires forall name :: name in rest <==> name in names[i..]
    ensures names[i] in rest
    ensures forall name :: name in rest - {names[i]} <==> name in names[i + 1..]
  {
    assert names[i..] == [names[i]] + names[i + 1..];
    forall k | i < k < |names|
      ensures names[k] != names[i]
    {
      assert TextKey(names[i]) != TextKey(names[k]);
    }
  }

  lemma SafeStepsExtend(start: seq<Store>, before: seq<Store>, after: seq<Store>, t: Store, base: Store, id: Identity, log: Log)
    requires SafeSteps(start, before, base, id, log) && Coherent(t, id, log) && OnlyOwn(base, t, id)
    requires after == before || after == before + [t]
    ensures SafeSteps(start, after, base, id, log)
  {
  }

  // ----- Nothing to do -----

  ghost predicate Idle(s: Store, rest: Store, id: Identity, done: set<string>)
  {
    forall name :: name in rest ==> name in s && Owns(id, s[name]) && rest[name] == s[name] && s[name].spec.pool.name !in done
  }

  lemma IdleStep(s: Store, rest: Store, left: Store, id: Identity, done: set<string>, pool: string)
    requires Idle(s, rest, id, done) && TakenFrom(rest, left, pool) && NoneOf(left, pool)
    ensures Idle(s, left, id, done + {pool})
  {
  }

  /** A pool not yet visited is still listed exactly as the server has it. */
  lemma SettledPoolIdle(s: Store, rest: Store, id: Identity, owner: string, snapshot: Snapshot, done: set<string>, pool: string)
    requires Settled(s, id, owner, snapshot) && Mirrored(s, rest, id) && pool in snapshot && pool !in done
    requires forall name :: name in s && Owns(id, s[name]) ==> name in rest || s[name].spec.pool.name in done
    ensures NothingToDo(id, owner, pool, snapshot[pool], rest)
  {
    forall entries | IsEntries(entries, rest, pool)
      ensures SettledPool(id, owner, pool, snapshot[pool], entries)
    {
      assert IsEntries(entries, OwnSlices(s, id), pool);
    }
  }

  // ----- What is begun -----

  /** Only slices of the pools done have been taken off the listing. */
  ghost predicate Taken(listed: Store, rest: Store, done: set<string>)
  {
    && (forall name :: name in rest ==> name in listed && rest[name] == listed[name])
    && forall name :: name in listed && listed[name].spec.pool.name !in done ==> name in rest
  }

  /** Whatever this publication began, it began for the snapshot's own inventory, from its own listing. */
  ghost predicate Explains(log: Log, begun: Log, snapshot: Snapshot, listed: Store)
  {
    && log <= begun
    && forall b :: b in begun && b !in log ==> b.pool in snapshot && BeginsOne(b, b.pool, snapshot[b.pool], listed)
  }

  lemma TakenStep(listed: Store, rest: Store, left: Store, done: set<string>, pool: string)
    requires Taken(listed, rest, done) && TakenFrom(rest, left, pool)
    ensures Taken(listed, left, done + {pool})
  {
  }

  lemma BeginsFromListed(log: Log, begun: Log, more: Log, snapshot: Snapshot, listed: Store, rest: Store, done: set<string>, pool: string)
    requires Explains(log, begun, snapshot, listed) && Taken(listed, rest, done)
    requires pool in snapshot && pool !in done && Begins(begun, more, pool, snapshot[pool], rest)
    ensures Explains(log, more, snapshot, listed)
  {
    forall b | b in more && b !in log
      ensures b.pool in snapshot && BeginsOne(b, b.pool, snapshot[b.pool], listed)
    {
      if b !in begun {
        assert BeginsOne(b, pool, snapshot[pool], rest);
      }
    }
  }

  // ----- What success takes -----

  /** Every inventory can be published, every name is free for its pool, and every slice can be identified for deletion. */
  ghost predicate Healthy(s: Store, id: Identity, snapshot: Snapshot)
  {
    && (forall pool {:trigger Publishable(id, pool, snapshot[pool])} :: pool in snapshot ==> Publishable(id, pool, snapshot[pool]))
    && (forall p, q {:trigger Apart(id, p, q)} :: p in snapshot && q in snapshot && p != q ==> Apart(id, p, q))
    && Awaiting(s, id, snapshot, {})
    && Identified(OwnSlices(s, id))
  }

  ghost predicate Identified(slices: Store)
  {
    forall name :: name in slices ==> slices[name].uid.Some? && slices[name].version.Some?
  }

  /** The pools still to come find their names free and a generation left. */
  ghost predicate Awaiting(s: Store, id: Identity, snapshot: Snapshot, done: set<string>)
  {
    forall pool {:trigger Clear(s, id, pool)} :: pool in snapshot && pool !in done ==> Clear(s, id, pool) && Unexhausted(s, id, pool)
  }

  lemma AwaitingStep(base: Store, s: Store, t: Store, id: Identity, snapshot: Snapshot, done: set<string>, pool: string)
    requires Healthy(base, id, snapshot) && Awaiting(s, id, snapshot, done) && pool in snapshot
    requires OnlyPool(s, t, id, pool)
    requires NewNames(s, t, id, pool)
    ensures Awaiting(t, id, snapshot, done + {pool})
  {
    forall p | p in snapshot && p !in done + {pool}
      ensures Clear(t, id, p) && Unexhausted(t, id, p)
    {
      assert Apart(id, p, pool);
      StaysClear(s, t, id, pool, p);
      UnexhaustedElsewhere(s, t, id, p, pool);
    }
  }

  // ----- The publication -----

  method DeleteLeftover(server: Server, name: string, slice: Stored) returns (fault: Option<Fault>)
    requires server.Valid()
    modifies server
    ensures server.Valid()
    ensures fault.None? ==> name !in server.slices
    ensures server.slices == old(server.slices) || server.slices == old(server.slices) - {name}
    ensures server.trace == old(server.trace) || server.trace == old(server.trace) + [server.slices]
    ensures Willing(old(server.answers), server.answers,
      name in old(server.slices) && old(server.slices)[name] == slice && slice.uid.Some? && slice.version.Some? ==> fault.None?)
    ensures slice.uid.None? || slice.version.None? ==> fault.Some? && server.trace == old(server.trace)
  {
    if slice.uid.None? {
      return Some(MissingUid);
    }
    if slice.version.None? {
      return Some(MissingVersion);
    }
    var deletion := server.Delete(name, slice.uid.value, slice.version.value);
    return if deletion.Failed? then Some(ApiRefused) else None;
  }

  method DeleteLeftovers(server: Server, id: Identity, owner: string, snapshot: Snapshot, leftovers: Store, ghost base: Store,
                         ghost log: Log)
    returns (fault: Option<Fault>)
    requires server.Valid() && Publishing(base, server.slices, leftovers, id, owner, snapshot, snapshot.Keys, log)
    modifies server
    ensures server.Valid() && SafeSteps(old(server.trace), server.trace, base, id, log)
    ensures Coherent(server.slices, id, log) && OnlyOwn(base, server.slices, id)
    ensures fault.None? ==> Publishing(base, server.slices, map[], id, owner, snapshot, snapshot.Keys, log)
    ensures leftovers == map[] ==> fault.None? && server.trace == old(server.trace)
    ensures Willing(old(server.answers), server.answers, Identified(leftovers) ==> fault.None?)
  {
    var rest := leftovers;
    var names := SortedNames(leftovers.Keys);
    assert names != [] ==> names[0] in leftovers;
    for i := 0 to |names|
      invariant server.Valid() && SafeSteps(old(server.trace), server.trace, base, id, log)
      invariant Publishing(base, server.slices, rest, id, owner, snapshot, snapshot.Keys, log)
      invariant forall name :: name in rest <==> name in names[i..]
      invariant i == 0 ==> server.trace == old(server.trace)
      invariant Willing(old(server.answers), server.answers, true)
      invariant forall name :: name in rest ==> name in leftovers && rest[name] == leftovers[name]
    {
      var name := names[i];
      RestShrinks(names, i, rest);
      ghost var s, before := server.slices, server.trace;
      fault := DeleteLeftover(server, name, rest[name]);
      LeftoverStep(base, s, server.slices, rest, id, owner, snapshot, name, log);
      SafeStepsExtend(old(server.trace), before, server.trace, server.slices, base, id, log);
      if fault.Some? {
        return;
      }
      rest := rest - {name};
    }
    assert rest == map[];
    fault := None;
  }

  /** Before the first pool everything of this publisher is listed, as the server has it. */
  lemma PublicationStarts(s: Store, listed: Store, id: Identity, owner: string, snapshot: Snapshot, log: Log)
    requires Coherent(s, id, log) && listed == OwnSlices(s, id)
    ensures Publishing(s, s, listed, id, owner, snapshot, {}, log) && Idle(s, listed, id, {})
    ensures Taken(listed, listed, {}) && Explains(log, log, snapshot, listed)
  {
  }

  lemma NothingLeftOver(s: Store, rest: Store, id: Identity, owner: string, snapshot: Snapshot)
    requires Settled(s, id, owner, snapshot) && Idle(s, rest, id, snapshot.Keys)
    ensures rest == map[]
  {
    assert forall name :: name !in rest;
  }

  /** The pools done are the first `i` of the list. */
  ghost predicate Visited(names: seq<string>, i: nat, done: set<string>)
    requires i <= |names|
  {
    forall name :: name in done <==> name in names[..i]
  }

  lemma VisitNext(names: seq<string>, i: nat, done: set<string>, all: set<string>)
    requires DistinctKeys(names, TextKey) && i < |names| && Visited(names, i, done) && forall name :: name in names <==> name in all
    ensures names[i] in all && names[i] !in done && Visited(names, i + 1, done + {names[i]})
  {
    assert names[i] in names;
    assert names[..i + 1] == names[..i] + [names[i]];
    forall k | 0 <= k < i
      ensures names[k] != names[i]
    {
      assert TextKey(names[k]) != TextKey(names[i]);
    }
  }

  lemma AllVisited(names: seq<string>, done: set<string>, all: set<string>)
    requires Visited(names, |names|, done) && forall name :: name in names <==> name in all
    ensures done == all
  {
    assert names[..|names|] == names;
  }

  // ----- Pool after pool -----

  /** What a publication started from, and what is known of it: nothing to do, or nothing in its way. */
  datatype Setting = Setting(
    id: Identity, owner: string, snapshot: Snapshot, listed: Store, log: Log, base: Store, start: seq<Store>, idle: bool, healthy: bool)

  /** The moment after some pools. */
  datatype Moment = Moment(slices: Store, rest: Store, done: set<string>, begun: Log, trace: seq<Store>)

  predicate EndsIn(trace: seq<Store>, s: Store)
  {
    trace != [] && trace[|trace| - 1] == s
  }

  lemma SameEnd(trace: seq<Store>, s: Store, t: Store)
    requires EndsIn(trace, s) && EndsIn(trace, t)
    ensures s == t
  {
  }

  /** Wherever the publication stops, every state so far is explained. */
  ghost predicate Explained(w: Setting, m: Moment)
  {
    && Explains(w.log, m.begun, w.snapshot, w.listed)
    && SafeSteps(w.start, m.trace, w.base, w.id, m.begun)
    && Coherent(m.slices, w.id, m.begun) && OnlyOwn(w.base, m.slices, w.id)
  }

  ghost predicate Between(w: Setting, m: Moment)
  {
    && Lawful(w.id) && m.done <= w.snapshot.Keys && EndsIn(m.trace, m.slices)
    && Explains(w.log, m.begun, w.snapshot, w.listed) && Taken(w.listed, m.rest, m.done)
    && SafeSteps(w.start, m.trace, w.base, w.id, m.begun)
    && Publishing(w.base, m.slices, m.rest, w.id, w.owner, w.snapshot, m.done, m.begun)
    && (w.idle ==> m.trace == w.start && m.slices == w.base && Idle(m.slices, m.rest, w.id, m.done) && Settled(w.base, w.id, w.owner, w.snapshot))
    && (w.healthy ==> Healthy(w.base, w.id, w.snapshot) && Awaiting(m.slices, w.id, w.snapshot, m.done) && Identified(m.rest))
  }

  /** These sets are the moments between pools, and those at which the publication may stop. */
  ghost predicate Means(w: Setting, between: iset<Moment>, halts: iset<Moment>)
  {
    && (forall m {:trigger Between(w, m)} :: m in between <==> Between(w, m))
    && (forall m {:trigger Explained(w, m)} :: m in halts <==> Explained(w, m))
  }

  lemma PoolBegun(w: Setting, m: Moment, pool: string, s: Store, trace: seq<Store>, begun: Log)
    requires Between(w, m) && pool in w.snapshot && pool !in m.done
    requires Begins(m.begun, begun, pool, w.snapshot[pool], m.rest) && PoolSteps(m.trace, trace, m.slices, w.id, pool, begun)
    requires Coherent(s, w.id, begun) && OnlyPool(m.slices, s, w.id, pool)
    ensures Explained(w, Moment(s, m.rest, m.done, begun, trace))
  {
    BeginsFromListed(w.log, m.begun, begun, w.snapshot, w.listed, m.rest, m.done, pool);
    SafeStepsThrough(w.start, m.trace, trace, w.base, m.slices, w.id, pool, m.begun, begun);
    OnlyOwnThrough(w.base, m.slices, s, w.id, pool);
  }

  lemma PoolPublished(w: Setting, m: Moment, pool: string, s: Store, rest: Store, trace: seq<Store>, begun: Log)
    requires Between(w, m) && pool in w.snapshot && pool !in m.done
    requires Explained(w, Moment(s, m.rest, m.done, begun, trace)) && OnlyPool(m.slices, s, w.id, pool)
    requires EndsIn(trace, s) && Mirrored(s, rest, w.id) && TakenFrom(m.rest, rest, pool) && Placed(s, w.id, w.owner, pool, w.snapshot[pool], rest.Keys)
    requires w.idle ==> trace == m.trace && NoneOf(rest, pool)
    requires NewNames(m.slices, s, w.id, pool)
    ensures Between(w, Moment(s, rest, m.done + {pool}, begun, trace))
  {
    PoolDone(w.base, m.slices, s, m.rest, rest, w.id, w.owner, w.snapshot, m.done, pool, m.begun, begun);
    TakenStep(w.listed, m.rest, rest, m.done, pool);
    if w.idle {
      SameEnd(trace, s, m.slices);
      IdleStep(s, m.rest, rest, w.id, m.done, pool);
    }
    if w.healthy {
      AwaitingStep(w.base, m.slices, s, w.id, w.snapshot, m.done, pool);
      StillIdentified(m.rest, rest, pool);
    }
  }

  lemma StillIdentified(rest: Store, left: Store, pool: string)
    requires Identified(rest) && TakenFrom(rest, left, pool)
    ensures Identified(left)
  {
  }

  /** Between pools, the next one can be reconciled; and what is known of the setting is known of it. */
  lemma PoolAllowed(w: Setting, between: iset<Moment>, halts: iset<Moment>, m: Moment, pool: string)
    requires Means(w, between, halts) && m in between && pool in w.snapshot && pool !in m.done
    ensures Lawful(w.id) && Coherent(m.slices, w.id, m.begun) && Mirrored(m.slices, m.rest, w.id)
    ensures forall name :: name in m.slices && InPool(w.id, pool, m.slices[name]) ==> name in m.rest
    ensures w.idle ==> NothingToDo(w.id, w.owner, pool, w.snapshot[pool], m.rest)
    ensures w.healthy ==> Publishable(w.id, pool, w.snapshot[pool]) && Clear(m.slices, w.id, pool) && Unexhausted(m.slices, w.id, pool)
  {
    assert Between(w, m);
    if w.idle {
      SettledPoolIdle(m.slices, m.rest, w.id, w.owner, w.snapshot, m.done, pool);
    }
  }

  /** What one pool's reconcile leaves behind, from the moment before it. */
  ghost predicate PoolOutcome(w: Setting, m: Moment, pool: string, success: bool, s: Store, rest: Store, trace: seq<Store>, begun: Log)
    requires pool in w.snapshot
  {
    && Begins(m.begun, begun, pool, w.snapshot[pool], m.rest) && PoolSteps(m.trace, trace, m.slices, w.id, pool, begun)
    && Coherent(s, w.id, begun) && OnlyPool(m.slices, s, w.id, pool) && NewNames(m.slices, s, w.id, pool)
    && (success ==> Mirrored(s, rest, w.id) && TakenFrom(m.rest, rest, pool))
    && (success ==> Placed(s, w.id, w.owner, pool, w.snapshot[pool], rest.Keys))
    && EndsIn(trace, s) && (w.idle ==> success && trace == m.trace && NoneOf(rest, pool))
  }

  /** Every way a reconcile can end. */
  lemma PoolReconciled(w: Setting, between: iset<Moment>, halts: iset<Moment>, m: Moment, pool: string, success: bool,
                       s: Store, rest: Store, trace: seq<Store>, begun: Log)
    requires Means(w, between, halts) && m in between && pool in w.snapshot && pool !in m.done
    requires PoolOutcome(w, m, pool, success, s, rest, trace, begun)
    ensures Moment(s, m.rest, m.done, begun, trace) in halts
    ensures success ==> Moment(s, rest, m.done + {pool}, begun, trace) in between
  {
    assert Between(w, m);
    PoolBegun(w, m, pool, s, trace, begun);
    if success {
      PoolPublished(w, m, pool, s, rest, trace, begun);
      assert Between(w, Moment(s, rest, m.done + {pool}, begun, trace));
    }
  }

  method ReconcileNext(server: Server, id: Identity, owner: string, inventory: PoolInventory, listed: Store, pool: string,
                       ghost w: Setting, ghost between: iset<Moment>, ghost halts: iset<Moment>, ghost m: Moment)
    returns (fault: Option<Fault>, rest: Store, ghost begun: Log)
    requires server.Valid() && Means(w, between, halts) && m in between
    requires m.slices == server.slices && m.rest == listed && m.trace == server.trace
    requires id == w.id && owner == w.owner && pool in w.snapshot && inventory == w.snapshot[pool] && pool !in m.done
    requires w.healthy ==> server.answers == []
    modifies server
    ensures server.Valid() && PoolOutcome(w, m, pool, fault.None?, server.slices, rest, server.trace, begun)
    ensures w.idle || w.healthy ==> fault.None?
    ensures old(server.answers) == [] ==> server.answers == []
  {
    PoolAllowed(w, between, halts, m, pool);
    fault, rest, begun := ReconcilePool(server, id, owner, listed, pool, inventory, m.begun);
  }

  /** One pool of the snapshot, after those already done. */
  method PublishPool(server: Server, id: Identity, owner: string, snapshot: Snapshot, listed: Store, pool: string,
                     ghost w: Setting, ghost between: iset<Moment>, ghost halts: iset<Moment>, ghost done: set<string>, ghost log: Log)
    returns (fault: Option<Fault>, rest: Store, ghost begun: Log)
    requires server.Valid() && Means(w, between, halts) && Moment(server.slices, listed, done, log, server.trace) in between
    requires id == w.id && owner == w.owner && snapshot == w.snapshot && pool in snapshot && pool !in done
    requires w.healthy ==> server.answers == []
    modifies server
    ensures server.Valid() && Moment(server.slices, listed, done, begun, server.trace) in halts
    ensures fault.None? ==> Moment(server.slices, rest, done + {pool}, begun, server.trace) in between
    ensures w.idle || w.healthy ==> fault.None?
    ensures old(server.answers) == [] ==> server.answers == []
  {
    ghost var m := Moment(server.slices, listed, done, log, server.trace);
    fault, rest, begun := ReconcileNext(server, id, owner, snapshot[pool], listed, pool, w, between, halts, m);
    PoolReconciled(w, between, halts, m, pool, fault.None?, server.slices, rest, server.trace, begun);
  }

  method PublishEach(server: Server, id: Identity, owner: string, snapshot: Snapshot, listed: Store,
                     ghost w: Setting, ghost between: iset<Moment>, ghost halts: iset<Moment>, ghost log: Log)
    returns (fault: Option<Fault>, rest: Store, ghost done: set<string>, ghost begun: Log)
    requires server.Valid() && Means(w, between, halts) && Moment(server.slices, listed, {}, log, server.trace) in between
    requires id == w.id && owner == w.owner && snapshot == w.snapshot
    requires w.healthy ==> server.answers == []
    modifies server
    ensures server.Valid()
    ensures fault.Some? ==> exists m :: m in halts && m.slices == server.slices && m.trace == server.trace && m.begun == begun
    ensures fault.None? ==> done == snapshot.Keys && Moment(server.slices, rest, done, begun, server.trace) in between
    ensures w.idle || w.healthy ==> fault.None?
    ensures old(server.answers) == [] ==> server.answers == []
  {
    rest, begun, done := listed, log, {};
    var names := SortedNames(snapshot.Keys);
    for i := 0 to |names|
      invariant server.Valid() && Visited(names, i, done)
      invariant Moment(server.slices, rest, done, begun, server.trace) in between
      invariant w.healthy ==> server.answers == []
      invariant old(server.answers) == [] ==> server.answers == []
    {
      var pool := names[i];
      VisitNext(names, i, done, snapshot.Keys);
      ghost var left := rest;
      fault, rest, begun := PublishPool(server, id, owner, snapshot, rest, pool, w, between, halts, done, begun);
      if fault.Some? {
        assert Moment(server.slices, left, done, begun, server.trace) in halts;
        return;
      }
      done := done + {pool};
    }
    AllVisited(names, done, snapshot.Keys);
    fault := None;
  }

  lemma FirstMoment(w: Setting) returns (between: iset<Moment>, halts: iset<Moment>)
    requires Lawful(w.id) && Coherent(w.base, w.id, w.log) && w.listed == OwnSlices(w.base, w.id) && EndsIn(w.start, w.base)
    requires w.idle ==> Settled(w.base, w.id, w.owner, w.snapshot)
    requires w.healthy ==> Healthy(w.base, w.id, w.snapshot)
    ensures Means(w, between, halts) && Moment(w.base, w.listed, {}, w.log, w.start) in between
  {
    between, halts := iset m: Moment | Between(w, m), iset m: Moment | Explained(w, m);
    PublicationStarts(w.base, w.listed, w.id, w.owner, w.snapshot, w.log);
    assert Between(w, Moment(w.base, w.listed, {}, w.log, w.start));
  }

  lemma LastMoment(w: Setting, between: iset<Moment>, halts: iset<Moment>, m: Moment)
    requires Means(w, between, halts) && m in between && m.done == w.snapshot.Keys
    ensures Explains(w.log, m.begun, w.snapshot, w.listed) && SafeSteps(w.start, m.trace, w.base, w.id, m.begun)
    ensures Publishing(w.base, m.slices, m.rest, w.id, w.owner, w.snapshot, w.snapshot.Keys, m.begun)
    ensures w.idle ==> m.trace == w.start && m.rest == map[]
    ensures w.healthy ==> Identified(m.rest)
  {
    assert Between(w, m);
    if w.idle {
      NothingLeftOver(m.slices, m.rest, w.id, w.owner, w.snapshot);
    }
  }

  lemma LastHalt(w: Setting, halts: iset<Moment>, between: iset<Moment>, slices: Store, trace: seq<Store>, begun: Log)
    requires Means(w, between, halts) && exists m :: m in halts && m.slices == slices && m.trace == trace && m.begun == begun
    ensures Explains(w.log, begun, w.snapshot, w.listed) && SafeSteps(w.start, trace, w.base, w.id, begun)
    ensures Coherent(slices, w.id, begun) && OnlyOwn(w.base, slices, w.id)
  {
    var m :| m in halts && m.slices == slices && m.trace == trace && m.begun == begun;
    assert Explained(w, m);
  }

  /** All pools of the snapshot, in order. */
  method PublishPools(server: Server, id: Identity, owner: string, snapshot: Snapshot, listed: Store, ghost log: Log)
    returns (fault: Option<Fault>, rest: Store, ghost begun: Log)
    requires server.Valid() && Lawful(id) && Coherent(server.slices, id, log) && listed == OwnSlices(server.slices, id)
    modifies server
    ensures Explains(log, begun, snapshot, listed)
    ensures server.Valid() && SafeSteps(old(server.trace), server.trace, old(server.slices), id, begun)
    ensures Coherent(server.slices, id, begun) && OnlyOwn(old(server.slices), server.slices, id)
    ensures fault.None? ==> Publishing(old(server.slices), server.slices, rest, id, owner, snapshot, snapshot.Keys, begun)
    ensures Settled(old(server.slices), id, owner, snapshot) ==> fault.None? && server.trace == old(server.trace) && rest == map[]
    ensures Willing(old(server.answers), server.answers, Healthy(old(server.slices), id, snapshot) ==> fault.None? && Identified(rest))
  {
    ghost var base := server.slices;
    ghost var idle, healthy := Settled(base, id, owner, snapshot), server.answers == [] && Healthy(base, id, snapshot);
    ghost var w := Setting(id, owner, snapshot, listed, log, base, server.trace, idle, healthy);
    ghost var between, halts := FirstMoment(w);
    ghost var done;
    fault, rest, done, begun := PublishEach(server, id, owner, snapshot, listed, w, between, halts, log);
    if fault.Some? {
      LastHalt(w, halts, between, server.slices, server.trace, begun);
      return;
    }
    LastMoment(w, between, halts, Moment(server.slices, rest, done, begun, server.trace));
  }

  /**
   * One publication. The node's owner reference may not be readable; the
   * server may refuse, or lose the response of, any call. Every state on the
   * way is explained by reconciles begun, the only new ones being of this
   * snapshot, and leaves foreign slices alone; success means published; from
   * a settled state nothing is written at all.
   */
  method Publish(server: Server, id: Identity, owner: Option<string>, snapshot: Snapshot, ghost log: Log)
    returns (fault: Option<Fault>, ghost begun: Log)
    requires server.Valid() && Lawful(id) && Coherent(server.slices, id, log)
    modifies server
    ensures Explains(log, begun, snapshot, OwnSlices(old(server.slices), id))
    ensures server.Valid() && SafeSteps(old(server.trace), server.trace, old(server.slices), id, begun)
    ensures Coherent(server.slices, id, begun) && OnlyOwn(old(server.slices), server.slices, id)
    ensures fault.None? ==> owner.Some? && Published(server.slices, id, owner.value, snapshot)
    ensures fault.None? && ComparesCanonically(id) ==> Advertised.AllTold(server.slices, id, snapshot)
    ensures owner.Some? && Settled(old(server.slices), id, owner.value, snapshot) ==> server.trace == old(server.trace)
    ensures owner.Some? && Healthy(old(server.slices), id, snapshot) && old(server.answers) == [] ==> fault.None?
  {
    begun := log;
    if owner.None? {
      return Some(ApiRefused), begun;
    }
    var listed := server.List(id);
    if listed.None? {
      return Some(ApiRefused), begun;
    }
    assert listed.value == OwnSlices(server.slices, id);
    var rest;
    fault, rest, begun := PublishPools(server, id, owner.value, snapshot, listed.value, log);
    if fault.Some? {
      return;
    }
    ghost var before := server.trace;
    fault := DeleteLeftovers(server, id, owner.value, snapshot, rest, old(server.slices), begun);
    SafeStepsJoin(old(server.trace), before, server.trace, old(server.slices), id, begun);
    if fault.None? {
      PublishingIsPublished(old(server.slices), server.slices, id, owner.value, snapshot, begun);
      Advertised.PublishedIsTold(server.slices, id, owner.value, snapshot);
    }
  }

  lemma PublishingIsPublished(base: Store, s: Store, id: Identity, owner: string, snapshot: Snapshot, log: Log)
    requires Publishing(base, s, map[], id, owner, snapshot, snapshot.Keys, log)
    ensures Published(s, id, owner, snapshot)
  {
    var none: Store := map[];
    assert none.Keys == {};
    forall pool | pool in snapshot
      ensures Placed(s, id, owner, pool, snapshot[pool], {})
    {
      assert pool in snapshot.Keys;
    }
  }

  lemma SafeStepsJoin(start: seq<Store>, before: seq<Store>, after: seq<Store>, base: Store, id: Identity, log: Log)
    requires SafeSteps(start, before, base, id, log) && SafeSteps(before, after, base, id, log)
    ensures SafeSteps(start, after, base, id, log)
  {
    assert after[..|start|] == before[..|start|];
    forall k | |start| <= k < |after|
      ensures Coherent(after[k], id, log) && OnlyOwn(base, after[k], id)
    {
      if k < |before| {
        assert after[k] == before[k];
      }
    }
  }

  // ----- Whole runs -----

  /** The snapshot and owner reference one round of the publishing loop finds. */
  datatype Round = Round(owner: Option<string>, snapshot: Snapshot)

  /** What had been begun before a round and when it ended, and how long the trace was then. */
  datatype Mark = Mark(log: Log, length: nat)

  /** Every reconcile of `begun` beyond `log` was of a pool in this round's snapshot, with the inventory the snapshot gave it. */
  ghost predicate BegunIn(log: Log, begun: Log, round: Round)
  {
    && log <= begun
    && forall b :: b in begun && b !in log ==> b.pool in round.snapshot && b.inventory == round.snapshot[b.pool]
  }

  /** The states of one round are explained by what was begun by its end. */
  ghost predicate RoundExplained(trace: seq<Store>, id: Identity, from: Mark, to: Mark)
  {
    && from.length <= to.length <= |trace|
    && forall k :: from.length <= k < to.length ==> Coherent(trace[k], id, to.log)
  }

  /** Round by round: `marks[i]` stands before round `i`. */
  ghost predicate RoundsExplained(trace: seq<Store>, id: Identity, rounds: seq<Round>, marks: seq<Mark>)
  {
    && |marks| == |rounds| + 1
    && forall i {:trigger rounds[i]} :: 0 <= i < |rounds| ==>
         BegunIn(marks[i].log, marks[i + 1].log, rounds[i]) && RoundExplained(trace, id, marks[i], marks[i + 1])
  }

  lemma RoundExplainedStill(trace: seq<Store>, longer: seq<Store>, id: Identity, from: Mark, to: Mark)
    requires RoundExplained(trace, id, from, to) && |trace| <= |longer| && longer[..|trace|] == trace
    ensures RoundExplained(longer, id, from, to)
  {
    forall k | from.length <= k < to.length
      ensures Coherent(longer[k], id, to.log)
    {
      assert longer[k] == trace[k];
    }
  }

  lemma OneMoreRound(trace: seq<Store>, longer: seq<Store>, id: Identity, rounds: seq<Round>, i: nat, marks: seq<Mark>, mark: Mark)
    requires i < |rounds| && RoundsExplained(trace, id, rounds[..i], marks)
    requires |trace| <= |longer| && longer[..|trace|] == trace
    requires BegunIn(marks[i].log, mark.log, rounds[i]) && RoundExplained(longer, id, marks[i], mark)
    ensures RoundsExplained(longer, id, rounds[..i + 1], marks + [mark])
  {
    var more := marks + [mark];
    forall j | 0 <= j < i + 1
      ensures BegunIn(more[j].log, more[j + 1].log, rounds[..i + 1][j]) && RoundExplained(longer, id, more[j], more[j + 1])
    {
      if j < i {
        assert rounds[..i][j] == rounds[..i + 1][j];
        RoundExplainedStill(trace, longer, id, marks[j], marks[j + 1]);
      }
    }
  }

  /**
   * Publication after publication, each cut off wherever the server stops
   * answering. Whatever state a round passes through, each generation of a
   * pool is covered by one reconcile begun by then: one of this or an earlier
   * round, of an inventory that round's own snapshot gave it, or one that the
   * initial state already needed. No two inventories ever mix.
   */
  method PublishRounds(server: Server, id: Identity, rounds: seq<Round>, ghost log: Log)
    returns (faults: seq<Option<Fault>>, ghost marks: seq<Mark>)
    requires server.Valid() && Lawful(id) && Coherent(server.slices, id, log)
    modifies server
    ensures server.Valid() && |faults| == |rounds|
    ensures |old(server.trace)| <= |server.trace| && server.trace[..|old(server.trace)|] == old(server.trace)
    ensures RoundsExplained(server.trace, id, rounds, marks)
    ensures marks[0] == Mark(log, |old(server.trace)|) && marks[|rounds|].length == |server.trace|
    ensures Coherent(server.slices, id, marks[|rounds|].log)
    ensures forall k :: |old(server.trace)| <= k < |server.trace| ==> OnlyOwn(old(server.slices), server.trace[k], id)
    ensures rounds != [] && faults[|rounds| - 1].None? ==>
      var last := rounds[|rounds| - 1]; last.owner.Some? && Published(server.slices, id, last.owner.value, last.snapshot)
    ensures rounds != [] && faults[|rounds| - 1].None? && ComparesCanonically(id) ==> Advertised.AllTold(server.slices, id, rounds[|rounds| - 1].snapshot)
  {
    faults, marks := [], [Mark(log, |server.trace|)];
    ghost var begun := log;
    for i := 0 to |rounds|
      invariant server.Valid() && |faults| == i
      invariant |old(server.trace)| <= |server.trace| && server.trace[..|old(server.trace)|] == old(server.trace)
      invariant RoundsExplained(server.trace, id, rounds[..i], marks)
      invariant marks[0] == Mark(log, |old(server.trace)|) && marks[i] == Mark(begun, |server.trace|)
      invariant Coherent(server.slices, id, begun) && OnlyOwn(old(server.slices), server.slices, id)
      invariant OwnSince(|old(server.trace)|, server.trace, old(server.slices), id)
      invariant i > 0 && faults[i - 1].None? ==>
        rounds[i - 1].owner.Some? && Published(server.slices, id, rounds[i - 1].owner.value, rounds[i - 1].snapshot)
    {
      ghost var before, s := server.trace, server.slices;
      var fault;
      fault, begun := Publish(server, id, rounds[i].owner, rounds[i].snapshot, begun);
      ghost var mark := Mark(begun, |server.trace|);
      OneMoreRound(before, server.trace, id, rounds, i, marks, mark);
      OwnSoFar(|old(server.trace)|, before, server.trace, old(server.slices), s, server.slices, id, begun);
      faults, marks := faults + [fault], marks + [mark];
    }
    assert rounds[..|rounds|] == rounds;
    if rounds != [] && faults[|rounds| - 1].None? {
      var last := rounds[|rounds| - 1];
      Advertised.PublishedIsTold(server.slices, id, last.owner.value, last.snapshot);
    }
  }

  /** No state from `start` on touched foreign slices. */
  ghost predicate OwnSince(start: nat, trace: seq<Store>, base: Store, id: Identity)
  {
    forall k :: start <= k < |trace| ==> OnlyOwn(base, trace[k], id)
  }

  lemma OwnSoFar(start: nat, before: seq<Store>, after: seq<Store>, base: Store, s: Store, now: Store, id: Identity, log: Log)
    requires start <= |before| && OnlyOwn(base, s, id) && SafeSteps(before, after, s, id, log) && OnlyOwn(s, now, id)
    requires OwnSince(start, before, base, id)
    ensures OwnSince(start, after, base, id) && OnlyOwn(base, now, id)
  {
    forall k | start <= k < |after|
      ensures OnlyOwn(base, after[k], id)
    {
      if k < |before| {
        assert after[k] == before[k];
      }
    }
  }
}
