/** The read, merge and patch loop against a claim that others are changing too. */
module StatusPublisher {
  import opened Wrappers
  import opened DeviceStatus
  import opened StatusProtocol

  /** A change of the claim, by this publisher's patch or by anyone else. */
  datatype Change = Patched(before: Claim, after: Claim) | ByOthers(before: Claim, after: Claim)

  /** What happens around one call: others may change the claim first, and the call may fail or lose its response. */
  datatype Event = Event(others: Option<Claim>, outcome: Outcome)

  datatype Outcome = Served | Refused | ServedUnheard | VersionHidden

  datatype PatchReply = Applied | Conflict | Failed

  class ClaimApi {
    var claim: Claim
    var events: seq<Event>
    var clock: nat
    ghost var history: seq<Change>
    /** Patches sent, whatever became of them. */
    ghost var sent: nat
    ghost var known: set<Claim>

    /** Versions are never reused, so a version names one state of the claim. */
    ghost predicate Valid()
      reads this
    {
      && claim.version.Some? && claim.version.value + 1 == clock
      && (forall c :: c in known && c.version.Some? ==> c.version.value < clock)
      && (forall c :: c in known && c.version.Some? && c.version == claim.version ==> c == claim)
      && UniqueKeys(Entries(claim))
      && (forall c :: c in known ==> UniqueKeys(Entries(c)))
    }

    constructor (initial: Claim, events: seq<Event>)
      requires UniqueKeys(Entries(initial))
      ensures Valid() && claim == initial.(version := Some(0)) && history == [] && sent == 0
    {
      claim := initial.(version := Some(0));
      this.events := events;
      clock := 1;
      history := [];
      sent := 0;
      known := {};
    }

    method NextEvent() returns (outcome: Outcome)
      requires Valid()
      modifies `claim, `events, `clock, `history
      ensures Valid() && OthersOnly(old(history), history)
      ensures Moved(old(claim), old(clock), claim, clock)
      ensures old(events) == [] ==> events == [] && outcome.Served? && claim == old(claim)
    {
      if events == [] {
        return Served;
      }
      var event := events[0];
      events := events[1..];
      if event.others.Some? && UniqueKeys(Entries(event.others.value)) {
        var next := event.others.value.(version := Some(clock));
        history := history + [ByOthers(claim, next)];
        claim := next;
        clock := clock + 1;
      }
      return event.outcome;
    }

    /** The claim as it is now, if the call succeeds; an intermediary may drop its version. */
    method Get() returns (read: Option<Claim>)
      requires Valid()
      modifies `claim, `events, `clock, `history, `known
      ensures Valid() && OthersOnly(old(history), history)
      ensures Moved(old(claim), old(clock), claim, clock)
      ensures read.Some? ==> read.value in known
      ensures read.Some? ==> read.value == claim || read.value == claim.(version := None)
      ensures old(events) == [] ==> events == [] && read == Some(claim) && claim == old(claim)
    {
      var outcome := NextEvent();
      if outcome.Refused? || outcome.ServedUnheard? {
        return None;
      }
      var seen := if outcome.VersionHidden? then claim.(version := None) else claim;
      known := known + {seen};
      return Some(seen);
    }

    /** A merge patch of the whole device list, conditional on identity and version. */
    method Patch(uid: string, version: nat, devices: seq<Status>) returns (reply: PatchReply, ghost met: Claim, ghost at: nat)
      requires Valid() && UniqueKeys(devices)
      modifies `claim, `events, `clock, `history, `sent
      ensures Valid() && sent == old(sent) + 1
      ensures PatchOutcome(old(history), history, known, uid, version, devices, reply)
      ensures Moved(old(claim), old(clock), met, at) && MeetsPatch(met, at, uid, version, devices, claim, clock, reply)
      ensures old(events) == [] && old(claim).uid == uid && old(claim).version == Some(version) ==> reply.Applied?
    {
      sent := sent + 1;
      var outcome := NextEvent();
      met, at := claim, clock;
      if outcome.Refused? {
        return Failed, met, at;
      }
      if claim.uid != uid || claim.version != Some(version) {
        return Conflict, met, at;
      }
      var next := claim.(devices := Some(devices), version := Some(clock));
      history := history + [Patched(claim, next)];
      claim := next;
      clock := clock + 1;
      return if outcome.ServedUnheard? then Failed else Applied, met, at;
    }
  }

  /** Others may have given the claim one new version before a call. */
  predicate Moved(before: Claim, clock: nat, after: Claim, next: nat)
  {
    (after == before && next == clock) || (next == clock + 1 && after.version == Some(clock) && UniqueKeys(Entries(after)))
  }

  /** What the patch did to the claim it met: applied whole, or nothing. */
  predicate MeetsPatch(met: Claim, at: nat, uid: string, version: nat, devices: seq<Status>, after: Claim, next: nat, reply: PatchReply)
  {
    if after == met && next == at then !reply.Applied? && (reply.Conflict? ==> met.uid != uid || met.version != Some(version))
    else
      && !reply.Conflict? && met.uid == uid && met.version == Some(version)
      && after == met.(devices := Some(devices), version := Some(at)) && next == at + 1
  }

  ghost predicate OthersOnly(before: seq<Change>, after: seq<Change>)
  {
    && |before| <= |after| && after[..|before|] == before
    && forall i :: |before| <= i < |after| ==> after[i].ByOthers?
  }

  /** At most one change of ours, the last, from exactly the state that was read. */
  ghost predicate PatchOutcome(before: seq<Change>, after: seq<Change>, known: set<Claim>, uid: string, version: nat,
                               devices: seq<Status>, reply: PatchReply)
  {
    && |before| <= |after| && after[..|before|] == before
    && (reply.Applied? ==> |before| < |after| && after[|after| - 1].Patched?)
    && (reply.Conflict? ==> OthersOnly(before, after))
    && (forall i :: |before| <= i < |after| && after[i].Patched? ==>
         && i == |after| - 1
         && after[i].before.uid == uid && after[i].before.version == Some(version)
         && (forall c :: c in known && c.version == Some(version) ==> c == after[i].before)
         && after[i].after == after[i].before.(devices := Some(devices), version := after[i].after.version))
  }

  // ----- The publisher -----

  datatype ClaimRef = ClaimRef(namespace: string, name: string, uid: string)

  /** A patch this publisher may send: checked, conditional, and nothing but its own upsert. */
  ghost predicate Permitted(driver: string, uid: string, fieldwise: bool, desired: Desired, change: Change)
  {
    change.Patched? ==>
      && change.before.uid == uid && MayPublish(driver, change.before, desired)
      && change.after.uid == uid && change.after.allocations == change.before.allocations
      && Upserted(driver, Entries(change.before), Wanted(driver, fieldwise, change.before, desired), Entries(change.after))
  }

  function AskedFor(all: Desired, fieldwise: bool): Desired
  {
    if fieldwise then Retained(all) else all
  }

  /** The reports to publish: all of them, or those that name a field. */
  ghost predicate Asked(driver: string, fieldwise: bool, reports: seq<Report>, desired: Desired)
  {
    exists all: Desired :: Gathered(driver, reports, all) && Keyed(driver, all) && desired == AskedFor(all, fieldwise)
  }

  ghost predicate Faithful(driver: string, uid: string, fieldwise: bool, desired: Desired, before: seq<Change>, after: seq<Change>)
  {
    && |before| <= |after| && after[..|before|] == before
    && forall i :: |before| <= i < |after| ==> Permitted(driver, uid, fieldwise, desired, after[i])
  }

  ghost predicate NoPatch(before: seq<Change>, after: seq<Change>)
  {
    forall i :: |before| <= i < |after| ==> after[i].ByOthers?
  }

  lemma MergeKeyed(driver: string, fieldwise: bool, read: Claim, desired: Desired)
    requires Keyed(driver, desired)
    ensures Keyed(driver, Wanted(driver, fieldwise, read, desired))
  {
  }

  /** The claim is this one, may be published to, and already says everything wanted. */
  ghost predicate UpToDate(driver: string, uid: string, fieldwise: bool, desired: Desired, claim: Claim)
  {
    claim.uid == uid && MayPublish(driver, claim, desired) && Current(driver, Entries(claim), Wanted(driver, fieldwise, claim, desired))
  }

  /** What becomes of a publication when nobody interferes and no call fails. */
  ghost predicate Undisturbed(driver: string, uid: string, fieldwise: bool, desired: Desired, claim: Claim, r: Result<bool, Error>)
  {
    if claim.uid != uid then r == Err(ClaimIdentityMismatch)
    else if !MayPublish(driver, claim, desired) then r == Err(DriverNotAllocated) || r == Err(DeviceNotAllocated)
    else r == Ok(!Current(driver, Entries(claim), Wanted(driver, fieldwise, claim, desired)))
  }

  /** The claim holds what was wanted over some earlier reading of it. */
  ghost predicate HasWanted(driver: string, fieldwise: bool, desired: Desired, claim: Claim)
  {
    exists read: Claim :: Upserted(driver, Entries(read), Wanted(driver, fieldwise, read, desired), Entries(claim))
  }

  /** Each desired entry is there, as far as it was asked for. */
  predicate Holds(driver: string, fieldwise: bool, desired: Desired, entries: seq<Status>, k: Key)
    requires k in desired
  {
    var found := Find(entries, driver, k);
    && found.Some?
    && (desired[k].data.Some? || !fieldwise ==> found.value.data == desired[k].data)
    && (desired[k].network.Some? || !fieldwise ==> found.value.network == desired[k].network)
    && (desired[k].conditions.Some? || !fieldwise ==> Conditions(found.value) == Conditions(desired[k]))
  }

  lemma WantedHolds(driver: string, fieldwise: bool, desired: Desired, claim: Claim, k: Key)
    requires Keyed(driver, desired) && k in desired && HasWanted(driver, fieldwise, desired, claim)
    ensures Holds(driver, fieldwise, desired, Entries(claim), k)
  {
    var read: Claim :| Upserted(driver, Entries(read), Wanted(driver, fieldwise, read, desired), Entries(claim));
    var wanted := Wanted(driver, fieldwise, read, desired);
    assert Find(Entries(claim), driver, k) == if driver == driver && k in wanted then Some(wanted[k]) else Find(Entries(read), driver, k);
  }

  lemma UpToDateHolds(driver: string, uid: string, fieldwise: bool, desired: Desired, claim: Claim, k: Key)
    requires k in desired && UpToDate(driver, uid, fieldwise, desired, claim)
    ensures Holds(driver, fieldwise, desired, Entries(claim), k)
  {
    var wanted := Wanted(driver, fieldwise, claim, desired);
    assert SaysSame(Find(Entries(claim), driver, k).value, wanted[k]);
  }

  lemma OnlyEntry(entries: seq<Status>, driver: string, key: Key, s: Status)
    requires UniqueKeys(entries) && s in entries && s.driver == driver && s.key == key
    ensures Find(entries, driver, key) == Some(s)
  {
    var i :| 0 <= i < |entries| && entries[i] == s;
    FindUnique(entries, i);
  }

  lemma HoldsStands(driver: string, fieldwise: bool, reports: seq<Report>, all: Desired, desired: Desired, entries: seq<Status>, r: Report)
    requires Gathered(driver, reports, all) && desired == AskedFor(all, fieldwise) && r in reports && UniqueKeys(entries)
    requires r.key in desired ==> Holds(driver, fieldwise, desired, entries, r.key)
    ensures Stands(r, driver, fieldwise, entries)
  {
    assert all[r.key] == ToStatus(driver, r);
    if r.key in desired {
      var found := Find(entries, driver, r.key).value;
      forall s | s in entries && s.driver == driver && s.key == r.key
        ensures ShowsReport(r, s, fieldwise)
      {
        OnlyEntry(entries, driver, r.key, s);
      }
      assert found in entries;
    }
  }

  lemma AllHoldStand(driver: string, fieldwise: bool, reports: seq<Report>, all: Desired, desired: Desired, entries: seq<Status>)
    requires Gathered(driver, reports, all) && desired == AskedFor(all, fieldwise) && UniqueKeys(entries)
    requires forall k :: k in desired ==> Holds(driver, fieldwise, desired, entries, k)
    ensures AllStand(reports, driver, fieldwise, entries)
  {
    forall r | r in reports
      ensures Stands(r, driver, fieldwise, entries)
    {
      HoldsStands(driver, fieldwise, reports, all, desired, entries, r);
    }
  }

  lemma StandsHolds(driver: string, fieldwise: bool, reports: seq<Report>, all: Desired, desired: Desired, entries: seq<Status>, r: Report)
    requires Gathered(driver, reports, all) && desired == AskedFor(all, fieldwise) && r in reports && r.key in desired
    requires UniqueKeys(entries) && Stands(r, driver, fieldwise, entries)
    ensures Holds(driver, fieldwise, desired, entries, r.key)
  {
    assert all[r.key] == ToStatus(driver, r);
    var s :| s in entries && s.driver == driver && s.key == r.key;
    OnlyEntry(entries, driver, r.key, s);
  }

  lemma HoldsIsCurrent(driver: string, fieldwise: bool, desired: Desired, claim: Claim, k: Key)
    requires Keyed(driver, desired) && k in desired
    ensures Holds(driver, fieldwise, desired, Entries(claim), k) <==>
      Find(Entries(claim), driver, k).Some? && SaysSame(Find(Entries(claim), driver, k).value, Wanted(driver, fieldwise, claim, desired)[k])
  {
  }

  /** There is nothing to patch exactly when every report already stands. */
  lemma CurrentWhenAllStand(driver: string, fieldwise: bool, reports: seq<Report>, all: Desired, claim: Claim)
    requires Gathered(driver, reports, all) && Keyed(driver, all) && UniqueKeys(Entries(claim))
    ensures Current(driver, Entries(claim), Wanted(driver, fieldwise, claim, AskedFor(all, fieldwise))) <==>
      AllStand(reports, driver, fieldwise, Entries(claim))
  {
    var desired := AskedFor(all, fieldwise);
    forall k | k in desired
      ensures Holds(driver, fieldwise, desired, Entries(claim), k) <==>
        Find(Entries(claim), driver, k).Some? && SaysSame(Find(Entries(claim), driver, k).value, Wanted(driver, fieldwise, claim, desired)[k])
    {
      HoldsIsCurrent(driver, fieldwise, desired, claim, k);
    }
    if AllStand(reports, driver, fieldwise, Entries(claim)) {
      forall k | k in desired
        ensures Holds(driver, fieldwise, desired, Entries(claim), k)
      {
        var r :| r in reports && r.key == k;
        assert Stands(r, driver, fieldwise, Entries(claim));
        StandsHolds(driver, fieldwise, reports, all, desired, Entries(claim), r);
      }
    }
    if Current(driver, Entries(claim), Wanted(driver, fieldwise, claim, desired)) {
      AllHoldStand(driver, fieldwise, reports, all, desired, Entries(claim));
    }
  }

  /** Every report is asked for, by its key; field-wise, those that name a field. */
  lemma AskedKeys(driver: string, fieldwise: bool, reports: seq<Report>, all: Desired)
    requires Gathered(driver, reports, all)
    ensures forall k :: k in AskedFor(all, fieldwise) <==> IsAsked(reports, fieldwise, k)
  {
    forall k
      ensures k in AskedFor(all, fieldwise) <==> IsAsked(reports, fieldwise, k)
    {
      if k in all {
        var r :| r in reports && r.key == k;
        assert all[k] == ToStatus(driver, r);
      }
    }
  }

  predicate IsAsked(reports: seq<Report>, fieldwise: bool, k: Key)
  {
    exists r :: r in reports && r.key == k && !(fieldwise && NamesNothing(r))
  }

  /** A successful publication leaves every report standing. */
  lemma PublishedStands(driver: string, uid: string, fieldwise: bool, reports: seq<Report>, all: Desired, desired: Desired, claim: Claim)
    requires Gathered(driver, reports, all) && Keyed(driver, all) && desired == AskedFor(all, fieldwise)
    requires UniqueKeys(Entries(claim))
    requires desired == map[] || HasWanted(driver, fieldwise, desired, claim) || UpToDate(driver, uid, fieldwise, desired, claim)
    ensures AllStand(reports, driver, fieldwise, Entries(claim))
  {
    forall k | k in desired
      ensures Holds(driver, fieldwise, desired, Entries(claim), k)
    {
      if UpToDate(driver, uid, fieldwise, desired, claim) {
        UpToDateHolds(driver, uid, fieldwise, desired, claim, k);
      } else {
        WantedHolds(driver, fieldwise, desired, claim, k);
      }
    }
    AllHoldStand(driver, fieldwise, reports, all, desired, Entries(claim));
  }

  ghost predicate EndsPatched(before: seq<Change>, after: seq<Change>)
  {
    |before| < |after| && after[|after| - 1].Patched?
  }

  /** How an attempt leaves its publication: concluded, to be tried again, or given up. */
  predicate Leaves(w: Writer, after: Writer, r: Result<bool, Error>, conflict: bool)
  {
    && after == w.(phase := after.phase, patches := after.patches)
    && (r.Ok? ==> after.phase.Succeeded?) && (r.Err? && !conflict ==> after.phase.Stopped?)
    && (conflict ==> after.patches == w.patches + 1 && after.phase == if w.patches + 1 < MAX_PATCH_ATTEMPTS then Reading else Stopped)
  }

  predicate Publishes(w: Writer, driver: string, claim: ClaimRef, desired: Desired, fieldwise: bool)
  {
    w.driver == driver && w.uid == claim.uid && w.desired == desired && w.fieldwise == fieldwise && w.patches < MAX_PATCH_ATTEMPTS
  }

  /**
   * One attempt: read, check, merge, and patch if anything differs. Its story
   * is made of the publisher's own protocol steps and of others' changes, from
   * the first to the last state of the claim.
   */
  method Attempt(api: ClaimApi, driver: string, claim: ClaimRef, desired: Desired, fieldwise: bool, ghost w: Writer)
    returns (r: Result<bool, Error>, conflict: bool, ghost story: Story)
    requires api.Valid() && Keyed(driver, desired) && w.phase.Reading? && Publishes(w, driver, claim, desired, fieldwise)
    modifies api
    ensures api.Valid() && api.sent <= old(api.sent) + 1
    ensures Faithful(driver, claim.uid, fieldwise, desired, old(api.history), api.history)
    ensures r == Ok(true) ==> EndsPatched(old(api.history), api.history) && HasWanted(driver, fieldwise, desired, api.claim)
    ensures r == Ok(false) ==> NoPatch(old(api.history), api.history) && UpToDate(driver, claim.uid, fieldwise, desired, api.claim)
    ensures conflict ==> r == Err(Kubernetes) && NoPatch(old(api.history), api.history)
    ensures old(api.events) == [] ==> !conflict && Undisturbed(driver, claim.uid, fieldwise, desired, old(api.claim), r)
    ensures Protocol(story) && First(story) == old(Moment(api.claim, api.clock - 1, w))
    ensures story.now == Moment(api.claim, api.clock - 1, story.now.writer) && Leaves(w, story.now.writer, r, conflict)
  {
    ghost var first := Moment(api.claim, api.clock - 1, w);
    var read := api.Get();
    OthersAreFaithful(old(api.history), api.history, driver, claim.uid, fieldwise, desired);
    ghost var now := Moment(api.claim, api.clock - 1, w);
    ghost var served := Then(Begin(first), now);
    if read.None? {
      story := Then(served, now.(writer := w.(phase := Stopped)));
      return Err(Kubernetes), false, story;
    }
    served := Then(served, now.(writer := w.(phase := Holding(api.claim))));
    r, conflict, story := Decide(api, driver, claim, desired, fieldwise, read.value, old(api.history), served, w);
  }

  /** Still the claim meant, and still allocated to this driver. */
  method Check(driver: string, claim: ClaimRef, latest: Claim, desired: Desired) returns (error: Option<Error>)
    ensures error.None? <==> latest.uid == claim.uid && MayPublish(driver, latest, desired)
    ensures error.Some? ==> if latest.uid != claim.uid then error.value.ClaimIdentityMismatch?
                            else error.value.DriverNotAllocated? || error.value.DeviceNotAllocated?
  {
    if latest.uid != claim.uid {
      return Some(ClaimIdentityMismatch);
    }
    error := ValidateAllocations(driver, latest, desired);
  }

  lemma StopIsTold(served: Story, w: Writer) returns (story: Story)
    requires Protocol(served) && served.now.writer.phase.Holding? && served.now.writer == w.(phase := served.now.writer.phase)
    ensures Protocol(story) && First(story) == First(served) && story.now == served.now.(writer := w.(phase := Stopped))
  {
    story := Then(served, served.now.(writer := w.(phase := Stopped)));
  }

  lemma ConclusionIsTold(served: Story, w: Writer) returns (story: Story)
    requires Protocol(served) && served.now.writer == w.(phase := Holding(served.now.claim))
    requires served.now.claim.uid == w.uid && MayPublish(w.driver, served.now.claim, w.desired)
    requires Current(w.driver, Entries(served.now.claim), Wanted(w.driver, w.fieldwise, served.now.claim, w.desired))
    ensures Protocol(story) && First(story) == First(served) && story.now == served.now.(writer := w.(phase := Succeeded))
  {
    story := Then(served, served.now.(writer := w.(phase := Succeeded)));
  }

  /** What was read is checked and merged, and patched if it differs. */
  method Decide(api: ClaimApi, driver: string, claim: ClaimRef, desired: Desired, fieldwise: bool, latest: Claim,
                ghost start: seq<Change>, ghost served: Story, ghost w: Writer)
    returns (r: Result<bool, Error>, conflict: bool, ghost story: Story)
    requires api.Valid() && Keyed(driver, desired) && Publishes(w, driver, claim, desired, fieldwise) && OthersOnly(start, api.history)
    requires latest in api.known && (latest == api.claim || latest == api.claim.(version := None))
    requires Protocol(served) && served.now == Moment(api.claim, api.clock - 1, w.(phase := Holding(api.claim)))
    modifies api
    ensures api.Valid() && api.sent <= old(api.sent) + 1
    ensures Faithful(driver, claim.uid, fieldwise, desired, start, api.history)
    ensures r == Ok(true) ==> EndsPatched(start, api.history) && HasWanted(driver, fieldwise, desired, api.claim)
    ensures r == Ok(false) ==> NoPatch(start, api.history) && UpToDate(driver, claim.uid, fieldwise, desired, api.claim)
    ensures conflict ==> r == Err(Kubernetes) && NoPatch(start, api.history)
    ensures old(api.events) == [] && latest == old(api.claim) ==> !conflict && Undisturbed(driver, claim.uid, fieldwise, desired, old(api.claim), r)
    ensures Protocol(story) && First(story) == First(served)
    ensures story.now == Moment(api.claim, api.clock - 1, story.now.writer) && Leaves(w, story.now.writer, r, conflict)
  {
    conflict := false;
    OthersAreFaithful(start, api.history, driver, claim.uid, fieldwise, desired);
    story := StopIsTold(served, w);
    var error := Check(driver, claim, latest, desired);
    if error.Some? {
      return Err(error.value), false, story;
    }
    r, conflict, story := DecideAllowed(api, driver, claim, desired, fieldwise, latest, start, served, w);
  }

  /** A claim that may be published to is patched where it does not already say what is wanted. */
  method DecideAllowed(api: ClaimApi, driver: string, claim: ClaimRef, desired: Desired, fieldwise: bool, latest: Claim,
                       ghost start: seq<Change>, ghost served: Story, ghost w: Writer)
    returns (r: Result<bool, Error>, conflict: bool, ghost story: Story)
    requires api.Valid() && Keyed(driver, desired) && Publishes(w, driver, claim, desired, fieldwise) && OthersOnly(start, api.history)
    requires latest in api.known && (latest == api.claim || latest == api.claim.(version := None))
    requires Protocol(served) && served.now == Moment(api.claim, api.clock - 1, w.(phase := Holding(api.claim)))
    requires latest.uid == claim.uid && MayPublish(driver, latest, desired)
    modifies api
    ensures api.Valid() && api.sent <= old(api.sent) + 1
    ensures Faithful(driver, claim.uid, fieldwise, desired, start, api.history)
    ensures r == Ok(true) ==> EndsPatched(start, api.history) && HasWanted(driver, fieldwise, desired, api.claim)
    ensures r == Ok(false) ==> NoPatch(start, api.history) && UpToDate(driver, claim.uid, fieldwise, desired, api.claim)
    ensures conflict ==> r == Err(Kubernetes) && NoPatch(start, api.history)
    ensures old(api.events) == [] && latest == old(api.claim) ==> !conflict && Undisturbed(driver, claim.uid, fieldwise, desired, old(api.claim), r)
    ensures Protocol(story) && First(story) == First(served)
    ensures story.now == Moment(api.claim, api.clock - 1, story.now.writer) && Leaves(w, story.now.writer, r, conflict)
  {
    conflict := false;
    OthersAreFaithful(start, api.history, driver, claim.uid, fieldwise, desired);
    story := StopIsTold(served, w);
    var wanted := WantedEntries(driver, fieldwise, latest, desired);
    var current := StatusesAreCurrent(driver, Entries(latest), wanted);
    if current {
      story := ConclusionIsTold(served, w);
      return Ok(false), false, story;
    }
    if latest.version.None? {
      return Err(MissingResourceVersion), false, story;
    }
    r, conflict, story := SendPatch(api, driver, claim, desired, fieldwise, latest, wanted, start, served, w);
  }

  /** The publisher after a patch that changed nothing. */
  function Replied(w: Writer, r: PatchReply): Writer
  {
    match r
    case Conflict => w.(phase := if w.patches + 1 < MAX_PATCH_ATTEMPTS then Reading else Stopped, patches := w.patches + 1)
    case _ => w.(phase := Stopped)
  }

  lemma PatchIsOwnStep(w: Writer, met: Claim, at: nat, devices: seq<Status>, after: Claim, next: nat, reply: PatchReply) returns (end: Moment)
    requires Patches(w) && w.phase.read.version.Some? && at >= 1
    requires MeetsPatch(met, at, w.uid, w.phase.read.version.value, devices, after, next, reply)
    requires Upserted(w.driver, Entries(w.phase.read), Wanted(w.driver, w.fieldwise, w.phase.read, w.desired), devices)
    ensures next >= 1 && OwnStep(Moment(met, at - 1, w), end) && end == Moment(after, next - 1, end.writer)
    ensures Leaves(w, end.writer, if reply.Applied? then Ok(true) else Err(Kubernetes), reply.Conflict?)
  {
    var a := Moment(met, at - 1, w);
    if after == met && next == at {
      end := Moment(after, next - 1, Replied(w, reply));
      assert reply.Failed? ==> StopStep(a, end);
      assert reply.Conflict? ==> RefuseStep(a, end);
    } else {
      end := Moment(after, next - 1, w.(phase := if reply.Applied? then Succeeded else Stopped, patches := w.patches + 1));
      assert ApplyStep(a, end);
    }
  }

  lemma PatchIsTold(earlier: Story, w: Writer, met: Claim, at: nat, devices: seq<Status>, after: Claim, next: nat, reply: PatchReply)
    returns (story: Story)
    requires Protocol(earlier) && earlier.now.writer == w && Moved(earlier.now.claim, earlier.now.clock + 1, met, at)
    requires Patches(w) && w.phase.read.version.Some?
    requires MeetsPatch(met, at, w.uid, w.phase.read.version.value, devices, after, next, reply)
    requires Upserted(w.driver, Entries(w.phase.read), Wanted(w.driver, w.fieldwise, w.phase.read, w.desired), devices)
    ensures next >= 1 && Protocol(story) && First(story) == First(earlier) && story.now == Moment(after, next - 1, story.now.writer)
    ensures Leaves(w, story.now.writer, if reply.Applied? then Ok(true) else Err(Kubernetes), reply.Conflict?)
  {
    var end := PatchIsOwnStep(w, met, at, devices, after, next, reply);
    story := Then(earlier, Moment(met, at - 1, w));
    story := Then(story, end);
  }

  /** The merged list, patched over exactly the version it was built from. */
  method SendPatch(api: ClaimApi, driver: string, claim: ClaimRef, desired: Desired, fieldwise: bool, latest: Claim, wanted: Desired,
                   ghost start: seq<Change>, ghost earlier: Story, ghost w: Writer)
    returns (r: Result<bool, Error>, conflict: bool, ghost story: Story)
    requires api.Valid() && latest in api.known && latest.version.Some? && Keyed(driver, wanted) && OthersOnly(start, api.history)
    requires wanted == Wanted(driver, fieldwise, latest, desired) && MayPublish(driver, latest, desired)
    requires Protocol(earlier) && earlier.now == Moment(api.claim, api.clock - 1, w.(phase := Holding(latest)))
    requires Publishes(w, driver, claim, desired, fieldwise) && Patches(w.(phase := Holding(latest)))
    modifies api
    ensures api.Valid() && api.sent == old(api.sent) + 1 && Faithful(driver, claim.uid, fieldwise, desired, start, api.history)
    ensures r == Ok(true) || r == Err(Kubernetes)
    ensures r == Ok(true) ==> !conflict && EndsPatched(start, api.history) && HasWanted(driver, fieldwise, desired, api.claim)
    ensures conflict ==> NoPatch(start, api.history)
    ensures old(api.events) == [] && latest == old(api.claim) && latest.uid == claim.uid ==> r == Ok(true)
    ensures Protocol(story) && First(story) == First(earlier)
    ensures story.now == Moment(api.claim, api.clock - 1, story.now.writer) && Leaves(w, story.now.writer, r, conflict)
  {
    ghost var holding := w.(phase := Holding(latest));
    var devices := Upsert(driver, Entries(latest), wanted);
    ghost var mid := api.history;
    var reply;
    ghost var met, at;
    reply, met, at := api.Patch(claim.uid, latest.version.value, devices);
    PatchIsFaithful(start, mid, api.history, api.known, driver, claim.uid, fieldwise, desired, latest, devices, reply);
    story := PatchIsTold(earlier, holding, met, at, devices, api.claim, api.clock, reply);
    if reply.Applied? {
      return Ok(true), false, story;
    }
    return Err(Kubernetes), reply.Conflict?, story;
  }

  method WantedEntries(driver: string, fieldwise: bool, read: Claim, desired: Desired) returns (wanted: Desired)
    requires UniqueKeys(Entries(read)) && Keyed(driver, desired)
    ensures wanted == Wanted(driver, fieldwise, read, desired) && Keyed(driver, wanted)
  {
    MergeKeyed(driver, fieldwise, read, desired);
    wanted := desired;
    if fieldwise {
      wanted := MergeExistingFields(driver, Entries(read), desired);
    }
  }

  lemma OthersAreFaithful(before: seq<Change>, after: seq<Change>, driver: string, uid: string, fieldwise: bool, desired: Desired)
    requires OthersOnly(before, after)
    ensures Faithful(driver, uid, fieldwise, desired, before, after) && NoPatch(before, after)
  {
  }

  lemma PatchIsFaithful(start: seq<Change>, mid: seq<Change>, after: seq<Change>, known: set<Claim>, driver: string, uid: string, fieldwise: bool,
                        desired: Desired, read: Claim, devices: seq<Status>, reply: PatchReply)
    requires OthersOnly(start, mid) && read.version.Some? && PatchOutcome(mid, after, known, uid, read.version.value, devices, reply)
    requires read in known && MayPublish(driver, read, desired)
    requires Upserted(driver, Entries(read), Wanted(driver, fieldwise, read, desired), devices)
    ensures Faithful(driver, uid, fieldwise, desired, start, after)
    ensures reply.Conflict? ==> NoPatch(start, after)
  {
    assert after[..|start|] == mid[..|start|];
    forall i | |start| <= i < |after|
      ensures Permitted(driver, uid, fieldwise, desired, after[i])
    {
      if i < |mid| {
        assert after[i] == mid[i];
      } else if after[i].Patched? {
        assert after[i].before == read;
      }
    }
    forall i | |start| <= i < |after| && reply.Conflict?
      ensures after[i].ByOthers?
    {
      if i < |mid| {
        assert after[i] == mid[i];
      }
    }
  }

  /**
   * Conflicts are read again and checked again, at most three times in all.
   * The stories of all attempts together are one run of the protocol.
   */
  method PublishDesired(api: ClaimApi, driver: string, claim: ClaimRef, desired: Desired, fieldwise: bool)
    returns (r: Result<bool, Error>, ghost story: Story)
    requires api.Valid() && Keyed(driver, desired)
    modifies api
    ensures api.Valid() && api.sent <= old(api.sent) + MAX_PATCH_ATTEMPTS
    ensures Faithful(driver, claim.uid, fieldwise, desired, old(api.history), api.history)
    ensures r == Ok(true) ==> EndsPatched(old(api.history), api.history) && HasWanted(driver, fieldwise, desired, api.claim)
    ensures r == Ok(false) ==> NoPatch(old(api.history), api.history) && UpToDate(driver, claim.uid, fieldwise, desired, api.claim)
    ensures old(api.events) == [] ==> Undisturbed(driver, claim.uid, fieldwise, desired, old(api.claim), r)
    ensures IsPublication(story, driver, claim.uid, fieldwise, desired, r)
    ensures First(story).claim == old(api.claim) && story.now.claim == api.claim
  {
    var attempt := 0;
    ghost var w := Writer(driver, claim.uid, fieldwise, desired, Reading, 0);
    ghost var first := Moment(api.claim, api.clock - 1, w);
    assert Begins(first, w);
    story := Begin(first);
    while true
      invariant attempt < MAX_PATCH_ATTEMPTS
      invariant api.Valid() && api.sent <= old(api.sent) + attempt
      invariant Faithful(driver, claim.uid, fieldwise, desired, old(api.history), api.history)
      invariant NoPatch(old(api.history), api.history)
      invariant old(api.events) == [] ==> attempt == 0 && api.events == [] && api.claim == old(api.claim)
      invariant Protocol(story) && First(story) == first
      invariant w == Writer(driver, claim.uid, fieldwise, desired, Reading, attempt) && story.now == Moment(api.claim, api.clock - 1, w)
      decreases MAX_PATCH_ATTEMPTS - attempt
    {
      attempt := attempt + 1;
      ghost var before := api.history;
      var conflict;
      ghost var more;
      r, conflict, more := Attempt(api, driver, claim, desired, fieldwise, w);
      FaithfulJoin(old(api.history), before, api.history, driver, claim.uid, fieldwise, desired);
      story := Joined(story, more);
      w := more.now.writer;
      if !(conflict && attempt < MAX_PATCH_ATTEMPTS) {
        return;
      }
    }
  }

  predicate Begins(m: Moment, w: Writer)
  {
    m.writer == w && UniqueKeys(Entries(m.claim)) && m.claim.version == Some(m.clock)
  }

  /** A run of the protocol from its beginning to its end. */
  ghost predicate IsPublication(story: Story, driver: string, uid: string, fieldwise: bool, desired: Desired, r: Result<bool, Error>)
  {
    && Protocol(story) && Begins(First(story), Writer(driver, uid, fieldwise, desired, Reading, 0))
    && (if r.Ok? then story.now.writer.phase.Succeeded? else story.now.writer.phase.Stopped?)
  }

  predicate AllAcceptable(reports: seq<Report>)
  {
    && (forall r :: r in reports && r.conditions.Some? ==> |r.conditions.value| <= 8)
    && (forall r :: r in reports && r.data.Some? ==> |r.data.value| <= 10240)
    && forall i, j :: 0 <= i < j < |reports| ==> reports[i].key != reports[j].key
  }

  /**
   * A publication sends at most three patches, each built from the claim it
   * last read, after that read passed the identity and allocation checks, and
   * each applied only if the claim has not changed since. `true` means the
   * last change of the claim is this publication's; `false` means the claim
   * as last read needed none.
   */
  method PublishInner(api: ClaimApi, driver: string, claim: ClaimRef, reports: seq<Report>, fieldwise: bool)
    returns (r: Result<bool, Error>, ghost desired: Desired, ghost story: Story)
    requires api.Valid()
    modifies api
    ensures api.Valid() && api.sent <= old(api.sent) + MAX_PATCH_ATTEMPTS
    ensures !AllAcceptable(reports) ==> r.Err? && api.history == old(api.history)
    ensures AllAcceptable(reports) ==> Asked(driver, fieldwise, reports, desired)
    ensures AllAcceptable(reports) ==> forall k :: k in desired <==> IsAsked(reports, fieldwise, k)
    ensures Faithful(driver, claim.uid, fieldwise, desired, old(api.history), api.history)
    ensures r == Ok(true) ==> EndsPatched(old(api.history), api.history) && HasWanted(driver, fieldwise, desired, api.claim)
    ensures r == Ok(false) ==> NoPatch(old(api.history), api.history) && (desired == map[] || UpToDate(driver, claim.uid, fieldwise, desired, api.claim))
    ensures AllAcceptable(reports) && old(api.events) == [] && desired != map[] ==> Undisturbed(driver, claim.uid, fieldwise, desired, old(api.claim), r)
    ensures AllAcceptable(reports) && desired == map[] ==> r == Ok(false)
    ensures AllAcceptable(reports) && old(api.events) == [] && old(api.claim).uid == claim.uid && MayPublish(driver, old(api.claim), desired) ==>
      r == Ok(!AllStand(reports, driver, fieldwise, Entries(old(api.claim))))
    ensures r.Ok? ==> AllStand(reports, driver, fieldwise, Entries(api.claim))
    ensures desired != map[] ==> IsPublication(story, driver, claim.uid, fieldwise, desired, r) && story.now.claim == api.claim
  {
    desired, story := map[], Begin(Moment(api.claim, api.clock - 1, Writer(driver, claim.uid, fieldwise, map[], Resting, 0)));
    var gathered := DesiredStatuses(driver, reports);
    if gathered.Err? {
      return Err(gathered.error), map[], story;
    }
    desired := AskedFor(gathered.value, fieldwise);
    AskedKeys(driver, fieldwise, reports, gathered.value);
    r, story := PublishAsked(api, driver, claim, reports, gathered.value, fieldwise);
    assert Asked(driver, fieldwise, reports, desired);
  }

  /** The gathered reports, or those that name a field; where none is left nothing is read. */
  method PublishAsked(api: ClaimApi, driver: string, claim: ClaimRef, ghost reports: seq<Report>, all: Desired, fieldwise: bool)
    returns (r: Result<bool, Error>, ghost story: Story)
    requires api.Valid() && Gathered(driver, reports, all) && Keyed(driver, all)
    modifies api
    ensures api.Valid() && api.sent <= old(api.sent) + MAX_PATCH_ATTEMPTS
    ensures Faithful(driver, claim.uid, fieldwise, AskedFor(all, fieldwise), old(api.history), api.history)
    ensures r == Ok(true) ==>
      EndsPatched(old(api.history), api.history) && HasWanted(driver, fieldwise, AskedFor(all, fieldwise), api.claim)
    ensures r == Ok(false) ==>
      NoPatch(old(api.history), api.history) &&
      (AskedFor(all, fieldwise) == map[] || UpToDate(driver, claim.uid, fieldwise, AskedFor(all, fieldwise), api.claim))
    ensures old(api.events) == [] && AskedFor(all, fieldwise) != map[] ==>
      Undisturbed(driver, claim.uid, fieldwise, AskedFor(all, fieldwise), old(api.claim), r)
    ensures AskedFor(all, fieldwise) == map[] ==> r == Ok(false)
    ensures old(api.events) == [] && old(api.claim).uid == claim.uid && MayPublish(driver, old(api.claim), AskedFor(all, fieldwise)) ==>
      r == Ok(!AllStand(reports, driver, fieldwise, Entries(old(api.claim))))
    ensures r.Ok? ==> AllStand(reports, driver, fieldwise, Entries(api.claim))
    ensures AskedFor(all, fieldwise) != map[] ==>
      IsPublication(story, driver, claim.uid, fieldwise, AskedFor(all, fieldwise), r) && story.now.claim == api.claim
  {
    var entries := AskedFor(all, fieldwise);
    story := Begin(Moment(api.claim, api.clock - 1, Writer(driver, claim.uid, fieldwise, map[], Resting, 0)));
    r := Ok(false);
    CurrentWhenAllStand(driver, fieldwise, reports, all, api.claim);
    if entries != map[] {
      r, story := PublishDesired(api, driver, claim, entries, fieldwise);
      if r.Ok? {
        assert if r.value then r == Ok(true) else r == Ok(false);
      }
    }
    if r.Ok? {
      PublishedStands(driver, claim.uid, fieldwise, reports, all, entries, api.claim);
    }
  }

  lemma FaithfulJoin(start: seq<Change>, mid: seq<Change>, after: seq<Change>, driver: string, uid: string, fieldwise: bool, desired: Desired)
    requires Faithful(driver, uid, fieldwise, desired, start, mid) && Faithful(driver, uid, fieldwise, desired, mid, after)
    ensures Faithful(driver, uid, fieldwise, desired, start, after)
    ensures NoPatch(start, mid) && NoPatch(mid, after) ==> NoPatch(start, after)
  {
    assert after[..|start|] == mid[..|start|];
    forall i | |start| <= i < |after|
      ensures Permitted(driver, uid, fieldwise, desired, after[i])
      ensures NoPatch(start, mid) && NoPatch(mid, after) ==> after[i].ByOthers?
    {
      if i < |mid| {
        assert after[i] == mid[i];
      }
    }
  }
}
