/** One publication of device status, step by step, as the claim sees it. */
module StatusProtocol {
  import opened Wrappers
  import opened DeviceStatus

  /** The entries to write over what was read: as reported, or with unspecified fields kept. */
  function Wanted(driver: string, fieldwise: bool, read: Claim, desired: Desired): (wanted: Desired)
    ensures wanted.Keys == desired.Keys
  {
    if fieldwise then MergeFields(driver, Entries(read), desired) else desired
  }

  datatype Phase = Resting | Reading | Holding(read: Claim) | Succeeded | Stopped

  datatype Writer = Writer(driver: string, uid: string, fieldwise: bool, desired: Desired, phase: Phase, patches: nat)

  predicate Checked(w: Writer, read: Claim)
  {
    read.uid == w.uid && MayPublish(w.driver, read, w.desired)
  }

  predicate NothingToPatch(w: Writer, read: Claim)
  {
    Current(w.driver, Entries(read), Wanted(w.driver, w.fieldwise, read, w.desired))
  }

  /** The claim, the version last given out, and where the publisher stands. */
  datatype Moment = Moment(claim: Claim, clock: nat, writer: Writer)

  predicate ReadStep(a: Moment, b: Moment)
  {
    a.writer.phase.Reading? && b == a.(writer := a.writer.(phase := Holding(a.claim)))
  }

  /** A failed check, or a failed call, ends the publication. */
  predicate StopStep(a: Moment, b: Moment)
  {
    (a.writer.phase.Reading? || a.writer.phase.Holding?) && b == a.(writer := a.writer.(phase := Stopped))
  }

  /** The claim as read needs no patch: success, for the claim as read. */
  predicate ConcludeStep(a: Moment, b: Moment)
  {
    var w := a.writer;
    w.phase.Holding? && Checked(w, w.phase.read) && NothingToPatch(w, w.phase.read) && b == a.(writer := w.(phase := Succeeded))
  }

  /** A checked patch is sent. */
  predicate Patches(w: Writer)
  {
    w.phase.Holding? && Checked(w, w.phase.read) && !NothingToPatch(w, w.phase.read) && w.patches < MAX_PATCH_ATTEMPTS
  }

  predicate StillAsRead(w: Writer, claim: Claim)
    requires w.phase.Holding?
  {
    claim.uid == w.uid && claim.version == w.phase.read.version
  }

  /** The server applies the patch: the version still matches. The response may be lost. */
  ghost predicate ApplyStep(a: Moment, b: Moment)
  {
    var w := a.writer;
    && Patches(w) && StillAsRead(w, a.claim) && b.clock == a.clock + 1
    && b.claim == a.claim.(devices := b.claim.devices, version := Some(b.clock))
    && Upserted(w.driver, Entries(w.phase.read), Wanted(w.driver, w.fieldwise, w.phase.read, w.desired), Entries(b.claim))
    && (b.writer.phase.Succeeded? || b.writer.phase.Stopped?) && b.writer == w.(phase := b.writer.phase, patches := w.patches + 1)
  }

  /** The server refuses the patch: the claim has changed. Two such refusals are retried. */
  predicate RefuseStep(a: Moment, b: Moment)
  {
    var w := a.writer;
    && Patches(w) && !StillAsRead(w, a.claim)
    && b == a.(writer := w.(phase := if w.patches + 1 < MAX_PATCH_ATTEMPTS then Reading else Stopped, patches := w.patches + 1))
  }

  ghost predicate OwnStep(a: Moment, b: Moment)
  {
    ReadStep(a, b) || StopStep(a, b) || ConcludeStep(a, b) || ApplyStep(a, b) || RefuseStep(a, b)
  }

  /** Anyone else gives the claim a new version, or nothing happens. */
  predicate OthersStep(a: Moment, b: Moment)
  {
    a == b || (b.writer == a.writer && b.clock == a.clock + 1 && b.claim.version == Some(b.clock) && UniqueKeys(Entries(b.claim)))
  }

  /** A first moment and what followed it. */
  datatype Story = Begin(now: Moment) | Next(before: Story, now: Moment)

  function First(story: Story): Moment
  {
    if story.Begin? then story.now else First(story.before)
  }

  /** Every moment follows the one before by a step of the publisher's or of others. */
  ghost predicate Protocol(story: Story)
  {
    story.Next? ==> Protocol(story.before) && (OwnStep(story.before.now, story.now) || OthersStep(story.before.now, story.now))
  }

  /** One more step. */
  lemma Then(before: Story, now: Moment) returns (story: Story)
    requires Protocol(before) && (OwnStep(before.now, now) || OthersStep(before.now, now))
    ensures Protocol(story) && First(story) == First(before) && story.now == now
  {
    story := Next(before, now);
  }

  function After(a: Story, b: Story): Story
  {
    if b.Begin? then a else Next(After(a, b.before), b.now)
  }

  /** One attempt after another. */
  lemma {:induction false} Joined(a: Story, b: Story) returns (all: Story)
    requires Protocol(a) && Protocol(b) && First(b) == a.now
    ensures all == After(a, b) && Protocol(all) && First(all) == First(a) && all.now == b.now
  {
    all := a;
    if b.Next? {
      var earlier := Joined(a, b.before);
      all := Next(earlier, b.now);
    }
  }
}
