/** Any number of publishers racing on one claim: nobody's update is lost. */
module StatusRace {
  import opened Wrappers
  import opened DeviceStatus
  import opened StatusProtocol

  // ----- What an entry says, field by field -----

  datatype Field = ConditionsField | DataField | NetworkField

  datatype Cell = Cell(driver: string, key: Key, field: Field)

  datatype Value = ConditionsValue(conditions: seq<Condition>) | TextValue(text: Option<string>)

  function FieldOf(s: Status, field: Field): Value
  {
    match field
    case ConditionsField => ConditionsValue(Conditions(s))
    case DataField => TextValue(s.data)
    case NetworkField => TextValue(s.network)
  }

  function Nothing(field: Field): Value
  {
    if field.ConditionsField? then ConditionsValue([]) else TextValue(None)
  }

  /** What the stored list says of a cell; a missing entry says nothing. */
  function View(entries: seq<Status>, cell: Cell): Value
  {
    var found := Find(entries, cell.driver, cell.key);
    if found.Some? then FieldOf(found.value, cell.field) else Nothing(cell.field)
  }

  predicate Names(s: Status, field: Field)
  {
    match field
    case ConditionsField => s.conditions.Some?
    case DataField => s.data.Some?
    case NetworkField => s.network.Some?
  }

  /** The cells a publication writes: every field of its keys, or only the fields it names. */
  predicate Writes(driver: string, fieldwise: bool, desired: Desired, cell: Cell)
  {
    cell.driver == driver && cell.key in desired && (fieldwise ==> Names(desired[cell.key], cell.field))
  }

  lemma MergedView(driver: string, fieldwise: bool, read: Claim, desired: Desired, cell: Cell)
    requires Keyed(driver, desired) && cell.driver == driver && cell.key in desired
    ensures FieldOf(Wanted(driver, fieldwise, read, desired)[cell.key], cell.field) ==
      if Writes(driver, fieldwise, desired, cell) then FieldOf(desired[cell.key], cell.field) else View(Entries(read), cell)
  {
  }

  /** A patch changes exactly the cells it writes, and leaves every other entry as it was. */
  lemma PatchView(driver: string, fieldwise: bool, before: Claim, desired: Desired, after: seq<Status>, cell: Cell)
    requires Keyed(driver, desired) && Upserted(driver, Entries(before), Wanted(driver, fieldwise, before, desired), after)
    ensures View(after, cell) ==
      if Writes(driver, fieldwise, desired, cell) then FieldOf(desired[cell.key], cell.field) else View(Entries(before), cell)
    ensures cell.driver != driver || cell.key !in desired ==> Find(after, cell.driver, cell.key) == Find(Entries(before), cell.driver, cell.key)
  {
    var wanted := Wanted(driver, fieldwise, before, desired);
    assert Find(after, cell.driver, cell.key) ==
      if cell.driver == driver && cell.key in wanted then Some(wanted[cell.key]) else Find(Entries(before), cell.driver, cell.key);
    if cell.driver == driver && cell.key in desired {
      MergedView(driver, fieldwise, before, desired, cell);
    }
  }

  lemma CurrentView(driver: string, fieldwise: bool, read: Claim, desired: Desired, cell: Cell)
    requires Keyed(driver, desired) && Current(driver, Entries(read), Wanted(driver, fieldwise, read, desired))
    requires Writes(driver, fieldwise, desired, cell)
    ensures View(Entries(read), cell) == FieldOf(desired[cell.key], cell.field)
  {
    MergedView(driver, fieldwise, read, desired, cell);
    var wanted := Wanted(driver, fieldwise, read, desired);
    assert SaysSame(Find(Entries(read), driver, cell.key).value, wanted[cell.key]);
  }

  // ----- The machine -----

  /** `latest` records, for every cell, the value last applied to the claim as it now exists. */
  datatype State = State(claim: Claim, clock: nat, uids: set<string>, writers: seq<Writer>, latest: map<Cell, Value>)

  /** The cells each writer may write; no cell has two owners. */
  type Ownership = seq<iset<Cell>>

  ghost predicate Disjoint(own: Ownership)
  {
    forall i, j, cell :: 0 <= i < j < |own| ==> !(cell in own[i] && cell in own[j])
  }

  predicate WritesCell(w: Writer, cell: Cell)
  {
    Writes(w.driver, w.fieldwise, w.desired, cell)
  }

  ghost predicate KeepsToOwn(w: Writer, own: iset<Cell>)
  {
    Keyed(w.driver, w.desired) && forall cell :: WritesCell(w, cell) ==> cell in own
  }

  function With(s: State, i: nat, w: Writer): State
    requires i < |s.writers|
  {
    s.(writers := s.writers[i := w])
  }

  /** A new publication of the writer's, on its own cells. */
  ghost predicate Begin(s: State, t: State, own: Ownership, i: nat, w: Writer)
    requires |own| == |s.writers| && i < |own|
  {
    && !s.writers[i].phase.Reading? && !s.writers[i].phase.Holding?
    && w.phase.Reading? && w.patches == 0 && w.driver == s.writers[i].driver && w.uid == s.writers[i].uid
    && KeepsToOwn(w, own[i]) && t == With(s, i, w)
  }

  /** The claim and one writer of it. */
  function MomentOf(s: State, i: nat): Moment
    requires i < |s.writers|
  {
    Moment(s.claim, s.clock, s.writers[i])
  }

  /** The state once that writer has taken a step. */
  function Taken(s: State, i: nat, m: Moment, latest: map<Cell, Value>): State
    requires i < |s.writers|
  {
    State(m.claim, m.clock, s.uids, s.writers[i := m.writer], latest)
  }

  ghost predicate RecordsApplied(s: State, t: State, w: Writer)
  {
    && (forall cell :: cell in t.latest ==> cell in s.latest || WritesCell(w, cell))
    && (forall cell :: cell in s.latest && !WritesCell(w, cell) ==> cell in t.latest && t.latest[cell] == s.latest[cell])
    && (forall cell :: WritesCell(w, cell) ==> cell in t.latest && t.latest[cell] == FieldOf(w.desired[cell.key], cell.field))
  }

  ghost predicate Read(s: State, t: State, i: nat, m: Moment)
    requires i < |s.writers|
  {
    ReadStep(MomentOf(s, i), m) && t == Taken(s, i, m, s.latest)
  }

  ghost predicate Stop(s: State, t: State, i: nat, m: Moment)
    requires i < |s.writers|
  {
    StopStep(MomentOf(s, i), m) && t == Taken(s, i, m, s.latest)
  }

  ghost predicate Conclude(s: State, t: State, i: nat, m: Moment)
    requires i < |s.writers|
  {
    var w := s.writers[i];
    && ConcludeStep(MomentOf(s, i), m) && t == Taken(s, i, m, t.latest)
    && if w.phase.read.uid == s.claim.uid then RecordsApplied(s, t, w) else t.latest == s.latest
  }

  ghost predicate Apply(s: State, t: State, i: nat, m: Moment)
    requires i < |s.writers|
  {
    ApplyStep(MomentOf(s, i), m) && t == Taken(s, i, m, t.latest) && RecordsApplied(s, t, s.writers[i])
  }

  ghost predicate Refuse(s: State, t: State, i: nat, m: Moment)
    requires i < |s.writers|
  {
    RefuseStep(MomentOf(s, i), m) && t == Taken(s, i, m, s.latest)
  }

  /** Anyone else changes the claim, but no owned cell; or the claim is replaced by a new one of its name. */
  ghost predicate Others(s: State, t: State, own: Ownership)
  {
    && t.writers == s.writers && t.clock == s.clock + 1 && t.claim.version == Some(t.clock) && UniqueKeys(Entries(t.claim))
    && t.uids == s.uids + {t.claim.uid}
    && if t.claim.uid == s.claim.uid
       then t.latest == s.latest && forall j, cell :: 0 <= j < |own| && cell in own[j] ==> View(Entries(t.claim), cell) == View(Entries(s.claim), cell)
       else t.claim.uid !in s.uids && t.latest == map[]
  }

  ghost predicate Step(s: State, t: State, own: Ownership)
    requires |own| == |s.writers|
  {
    || Others(s, t, own)
    || exists i: nat :: i < |own| && WriterStep(s, t, own, i)
  }

  /** One step of the publisher's protocol. */
  ghost predicate Publishes(s: State, t: State, i: nat, m: Moment)
    requires i < |s.writers|
  {
    Read(s, t, i, m) || Stop(s, t, i, m) || Conclude(s, t, i, m) || Apply(s, t, i, m) || Refuse(s, t, i, m)
  }

  ghost predicate WriterStep(s: State, t: State, own: Ownership, i: nat)
    requires |own| == |s.writers| && i < |own|
  {
    || (exists w :: Begin(s, t, own, i, w))
    || (|t.writers| == |s.writers| && Publishes(s, t, i, MomentOf(t, i)))
  }

  // ----- The invariant -----

  /** What a writer still holds is the claim itself as long as its version stands, and agrees on the writer's cells. */
  ghost predicate HoldsTrue(s: State, own: iset<Cell>, read: Claim)
  {
    && UniqueKeys(Entries(read)) && read.uid in s.uids
    && read.version.Some? && read.version.value <= s.clock && (read.version == s.claim.version ==> read == s.claim)
    && (read.uid == s.claim.uid ==> forall cell :: cell in own ==> View(Entries(read), cell) == View(Entries(s.claim), cell))
  }

  ghost predicate WriterFine(s: State, own: iset<Cell>, w: Writer)
  {
    && KeepsToOwn(w, own) && w.patches <= MAX_PATCH_ATTEMPTS
    && (w.phase.Holding? ==> HoldsTrue(s, own, w.phase.read))
    && (w.phase.Succeeded? && w.uid == s.claim.uid ==>
         forall cell :: WritesCell(w, cell) ==> cell in s.latest && s.latest[cell] == FieldOf(w.desired[cell.key], cell.field))
  }

  ghost predicate Inv(s: State, own: Ownership)
  {
    && |own| == |s.writers| && Disjoint(own)
    && UniqueKeys(Entries(s.claim)) && s.claim.version == Some(s.clock) && s.claim.uid in s.uids
    && (forall cell :: cell in s.latest ==> View(Entries(s.claim), cell) == s.latest[cell])
    && (forall cell :: cell in s.latest ==> exists j :: 0 <= j < |own| && cell in own[j])
    && (forall j :: 0 <= j < |own| ==> WriterFine(s, own[j], s.writers[j]))
    && (forall j :: 0 <= j < |own| ==> s.writers[j].uid in s.uids)
  }

  // ----- Every step keeps it -----

  /** The claim stands still, or gets a new version that leaves these cells alone, or is replaced under a new identity. */
  ghost predicate Spares(s: State, t: State, own: iset<Cell>)
  {
    && s.uids <= t.uids
    && (t.claim == s.claim ==> t.clock == s.clock)
    && (t.claim != s.claim ==> t.clock == s.clock + 1 && t.claim.version == Some(t.clock))
    && (t.claim.uid != s.claim.uid ==> t.claim.uid !in s.uids)
    && (t.claim.uid == s.claim.uid ==> forall cell :: cell in own ==>
         && View(Entries(t.claim), cell) == View(Entries(s.claim), cell)
         && (cell in s.latest ==> cell in t.latest && t.latest[cell] == s.latest[cell]))
  }

  lemma Bystander(s: State, t: State, own: iset<Cell>, w: Writer)
    requires WriterFine(s, own, w) && Spares(s, t, own) && w.uid in s.uids && s.claim.version == Some(s.clock)
    ensures WriterFine(t, own, w)
  {
    if w.phase.Holding? && t.claim != s.claim {
      assert HoldsTrue(s, own, w.phase.read);
      assert HoldsTrue(t, own, w.phase.read);
    }
    if w.phase.Succeeded? && w.uid == t.claim.uid {
      assert w.uid == s.claim.uid;
      forall cell | WritesCell(w, cell)
        ensures cell in t.latest && t.latest[cell] == FieldOf(w.desired[cell.key], cell.field)
      {
        assert cell in own;
      }
    }
  }

  /** A writer's step, taken apart: what it does to the claim, to the other writers and to itself. */
  lemma Assemble(s: State, t: State, own: Ownership, i: nat)
    requires Inv(s, own) && i < |own| && |t.writers| == |s.writers|
    requires forall j :: 0 <= j < |own| && j != i ==> t.writers[j] == s.writers[j] && Spares(s, t, own[j])
    requires WriterFine(t, own[i], t.writers[i]) && t.writers[i].uid == s.writers[i].uid && t.uids == s.uids && t.claim.uid == s.claim.uid
    requires UniqueKeys(Entries(t.claim)) && t.claim.version == Some(t.clock)
    requires forall cell :: cell in t.latest ==> View(Entries(t.claim), cell) == t.latest[cell]
    requires forall cell :: cell in t.latest ==> cell in s.latest || cell in own[i]
    ensures Inv(t, own)
  {
    forall j | 0 <= j < |own|
      ensures WriterFine(t, own[j], t.writers[j])
    {
      if j != i {
        Bystander(s, t, own[j], s.writers[j]);
      }
    }
  }

  lemma OthersKeep(s: State, t: State, own: Ownership)
    requires Inv(s, own) && Others(s, t, own)
    ensures Inv(t, own)
  {
    forall j | 0 <= j < |own|
      ensures WriterFine(t, own[j], t.writers[j])
    {
      Bystander(s, t, own[j], s.writers[j]);
    }
    forall cell | cell in t.latest
      ensures View(Entries(t.claim), cell) == t.latest[cell]
    {
      var j :| 0 <= j < |own| && cell in own[j];
    }
  }

  /** Steps that leave the claim and the record alone. */
  lemma QuietKeeps(s: State, t: State, own: Ownership, i: nat, w: Writer)
    requires Inv(s, own) && i < |own| && t == With(s, i, w) && WriterFine(s, own[i], w) && w.uid == s.writers[i].uid
    ensures Inv(t, own)
  {
    if w.phase.Holding? {
      assert HoldsTrue(s, own[i], w.phase.read);
      assert HoldsTrue(t, own[i], w.phase.read);
    }
    assert WriterFine(t, own[i], w);
    Assemble(s, t, own, i);
  }

  lemma ConcludeKeeps(s: State, t: State, own: Ownership, i: nat, m: Moment)
    requires Inv(s, own) && i < |own| && Conclude(s, t, i, m)
    ensures Inv(t, own)
  {
    var w := s.writers[i];
    var read := w.phase.read;
    assert WriterFine(s, own[i], w) && HoldsTrue(s, own[i], read);
    forall cell | cell in t.latest
      ensures View(Entries(t.claim), cell) == t.latest[cell] && (cell in s.latest || cell in own[i])
    {
      if read.uid == s.claim.uid && WritesCell(w, cell) {
        assert cell in own[i];
        CurrentView(w.driver, w.fieldwise, read, w.desired, cell);
      }
    }
    forall j | 0 <= j < |own| && j != i
      ensures Spares(s, t, own[j])
    {
      OthersCells(s, t, own, i, j, w);
    }
    Assemble(s, t, own, i);
  }

  lemma OthersCells(s: State, t: State, own: Ownership, i: nat, j: nat, w: Writer)
    requires |own| == |s.writers| && Disjoint(own) && i < |own| && j < |own| && i != j && KeepsToOwn(w, own[i])
    requires t.claim == s.claim && t.clock == s.clock && t.uids == s.uids
    requires RecordsApplied(s, t, w) || t.latest == s.latest
    ensures Spares(s, t, own[j])
  {
    forall cell | cell in own[j]
      ensures cell in s.latest ==> cell in t.latest && t.latest[cell] == s.latest[cell]
    {
      assert cell !in own[i];
      assert !WritesCell(w, cell);
    }
  }

  lemma AppliedView(s: State, t: State, own: Ownership, i: nat, m: Moment, cell: Cell)
    requires Inv(s, own) && i < |own| && Apply(s, t, i, m)
    ensures View(Entries(t.claim), cell) ==
      if WritesCell(s.writers[i], cell) then FieldOf(s.writers[i].desired[cell.key], cell.field) else View(Entries(s.claim), cell)
  {
    var w := s.writers[i];
    assert WriterFine(s, own[i], w) && HoldsTrue(s, own[i], w.phase.read);
    PatchView(w.driver, w.fieldwise, w.phase.read, w.desired, Entries(t.claim), cell);
  }

  lemma ApplySpares(s: State, t: State, own: Ownership, i: nat, m: Moment, j: nat)
    requires Inv(s, own) && i < |own| && j < |own| && i != j && Apply(s, t, i, m)
    ensures Spares(s, t, own[j])
  {
    var w := s.writers[i];
    assert WriterFine(s, own[i], w);
    forall cell | cell in own[j]
      ensures View(Entries(t.claim), cell) == View(Entries(s.claim), cell)
      ensures cell in s.latest ==> cell in t.latest && t.latest[cell] == s.latest[cell]
    {
      assert cell !in own[i];
      assert !WritesCell(w, cell);
      AppliedView(s, t, own, i, m, cell);
    }
  }

  lemma ApplyKeeps(s: State, t: State, own: Ownership, i: nat, m: Moment)
    requires Inv(s, own) && i < |own| && Apply(s, t, i, m)
    ensures Inv(t, own)
  {
    var w := s.writers[i];
    assert WriterFine(s, own[i], w);
    forall cell | cell in t.latest
      ensures View(Entries(t.claim), cell) == t.latest[cell] && (cell in s.latest || cell in own[i])
    {
      AppliedView(s, t, own, i, m, cell);
      assert WritesCell(w, cell) ==> cell in own[i];
    }
    forall j | 0 <= j < |own| && j != i
      ensures Spares(s, t, own[j])
    {
      ApplySpares(s, t, own, i, m, j);
    }
    Assemble(s, t, own, i);
  }

  lemma WriterStepKeeps(s: State, t: State, own: Ownership, i: nat)
    requires Inv(s, own) && i < |own| && WriterStep(s, t, own, i)
    ensures Inv(t, own)
  {
    var w := s.writers[i];
    assert WriterFine(s, own[i], w);
    if v :| Begin(s, t, own, i, v) {
      QuietKeeps(s, t, own, i, v);
    } else {
      var m := MomentOf(t, i);
      if Conclude(s, t, i, m) {
        ConcludeKeeps(s, t, own, i, m);
      } else if Apply(s, t, i, m) {
        ApplyKeeps(s, t, own, i, m);
      } else {
        assert t == With(s, i, m.writer);
        QuietKeeps(s, t, own, i, m.writer);
      }
    }
  }

  lemma StepKeeps(s: State, t: State, own: Ownership)
    requires Inv(s, own) && Step(s, t, own)
    ensures Inv(t, own)
  {
    if Others(s, t, own) {
      OthersKeep(s, t, own);
    } else {
      var i: nat :| i < |own| && WriterStep(s, t, own, i);
      WriterStepKeeps(s, t, own, i);
    }
  }

  // ----- Whole runs -----

  /** Nobody has published yet. */
  ghost predicate Start(s: State, own: Ownership)
  {
    && |own| == |s.writers| && Disjoint(own) && UniqueKeys(Entries(s.claim)) && s.claim.version == Some(s.clock) && s.claim.uid in s.uids
    && s.latest == map[]
    && forall j :: 0 <= j < |own| ==> s.writers[j].phase.Resting? && s.writers[j].patches == 0 && KeepsToOwn(s.writers[j], own[j]) && s.writers[j].uid in s.uids
  }

  ghost predicate Run(states: seq<State>, own: Ownership)
  {
    && states != [] && Start(states[0], own)
    && forall k :: 0 <= k < |states| - 1 ==> |own| == |states[k].writers| && Step(states[k], states[k + 1], own)
  }

  lemma {:induction false} RunKeeps(states: seq<State>, own: Ownership, k: nat)
    requires Run(states, own) && k < |states|
    ensures Inv(states[k], own)
  {
    if k == 0 {
      var s := states[0];
      forall j | 0 <= j < |own|
        ensures WriterFine(s, own[j], s.writers[j])
      {
      }
    } else {
      RunKeeps(states, own, k - 1);
      StepKeeps(states[k - 1], states[k - 1 + 1], own);
    }
  }

  /**
   * No lost update: after any interleaving, every publisher that has returned
   * success finds its values in the claim (as long as the claim is still the
   * one it published to), every value applied earlier still stands, keys are
   * still unique, and nobody has sent more than three patches.
   */
  lemma NoLostUpdate(states: seq<State>, own: Ownership, i: nat, cell: Cell)
    requires Run(states, own) && i < |own|
    ensures var s := states[|states| - 1];
      && |own| == |s.writers| && UniqueKeys(Entries(s.claim)) && s.writers[i].patches <= MAX_PATCH_ATTEMPTS
      && (s.writers[i].phase.Succeeded? && s.writers[i].uid == s.claim.uid && WritesCell(s.writers[i], cell) ==>
           View(Entries(s.claim), cell) == FieldOf(s.writers[i].desired[cell.key], cell.field))
      && (cell in s.latest ==> View(Entries(s.claim), cell) == s.latest[cell])
  {
    RunKeeps(states, own, |states| - 1);
    var s := states[|states| - 1];
    assert WriterFine(s, own[i], s.writers[i]);
  }

  /** No publisher's step changes an entry it was not asked about, whoever it belongs to. */
  lemma UntouchedEntries(s: State, t: State, own: Ownership, i: nat, driver: string, key: Key)
    requires Inv(s, own) && i < |own| && WriterStep(s, t, own, i)
    requires driver != s.writers[i].driver || key !in s.writers[i].desired
    ensures Find(Entries(t.claim), driver, key) == Find(Entries(s.claim), driver, key)
  {
    var w := s.writers[i];
    assert WriterFine(s, own[i], w);
    if |t.writers| == |s.writers| && Apply(s, t, i, MomentOf(t, i)) {
      assert HoldsTrue(s, own[i], w.phase.read);
      PatchView(w.driver, w.fieldwise, w.phase.read, w.desired, Entries(t.claim), Cell(driver, key, DataField));
    }
  }

  /** A patch reaches the claim only when the claim it lands on passes the publisher's own checks. */
  lemma PatchesAreChecked(s: State, t: State, own: Ownership, i: nat)
    requires Inv(s, own) && i < |own| && WriterStep(s, t, own, i) && t.claim != s.claim
    ensures s.claim.uid == s.writers[i].uid && MayPublish(s.writers[i].driver, s.claim, s.writers[i].desired)
  {
    var w := s.writers[i];
    assert WriterFine(s, own[i], w);
    assert Apply(s, t, i, MomentOf(t, i));
    assert HoldsTrue(s, own[i], w.phase.read);
  }

  // ----- A publication's own story is a run of the machine -----

  function Written(w: Writer): set<Cell>
  {
    set k, f | k in w.desired.Keys && f in {ConditionsField, DataField, NetworkField} && WritesCell(w, Cell(w.driver, k, f)) :: Cell(w.driver, k, f)
  }

  lemma WrittenMeaning(w: Writer, cell: Cell)
    ensures cell in Written(w) <==> WritesCell(w, cell)
  {
    if WritesCell(w, cell) {
      assert cell.field == ConditionsField || cell.field == DataField || cell.field == NetworkField;
      assert cell == Cell(w.driver, cell.key, cell.field);
    }
  }

  ghost function Recorded(latest: map<Cell, Value>, w: Writer): map<Cell, Value>
  {
    map cell | cell in latest.Keys + Written(w) :: if cell in Written(w) then FieldOf(w.desired[cell.key], cell.field) else latest[cell]
  }

  lemma RecordedApplies(s: State, t: State, w: Writer)
    requires t.latest == Recorded(s.latest, w)
    ensures RecordsApplied(s, t, w)
  {
    forall cell
      ensures cell in Written(w) <==> WritesCell(w, cell)
    {
      WrittenMeaning(w, cell);
    }
  }

  /** From any state of the machine that shows the publisher's claim, each of its protocol steps can be taken. */
  lemma OwnStepIsStep(s: State, own: Ownership, i: nat, m: Moment) returns (t: State)
    requires |own| == |s.writers| && i < |own| && OwnStep(MomentOf(s, i), m)
    ensures Step(s, t, own) && t == Taken(s, i, m, t.latest)
  {
    var a, w := MomentOf(s, i), s.writers[i];
    var records := ApplyStep(a, m) || (ConcludeStep(a, m) && w.phase.read.uid == s.claim.uid);
    t := Taken(s, i, m, if records then Recorded(s.latest, w) else s.latest);
    if records {
      RecordedApplies(s, t, w);
    }
    assert MomentOf(t, i) == m;
    assert WriterStep(s, t, own, i);
  }

  ghost function SeenUids(story: Story, uids: set<string>): set<string>
  {
    (if story.Begin? then uids else SeenUids(story.before, uids)) + {story.now.claim.uid}
  }

  /** Others leave these cells alone, and a claim that takes this one's place has an identity never seen before. */
  ghost predicate Allowed(a: Moment, b: Moment, own: iset<Cell>, uids: set<string>)
  {
    if b.claim.uid == a.claim.uid then forall cell :: cell in own ==> View(Entries(b.claim), cell) == View(Entries(a.claim), cell)
    else b.claim.uid !in uids
  }

  ghost predicate Undisputed(story: Story, own: iset<Cell>, uids: set<string>)
  {
    story.Next? ==>
      Undisputed(story.before, own, uids) &&
      (OwnStep(story.before.now, story.now) || Allowed(story.before.now, story.now, own, SeenUids(story.before, uids)))
  }

  ghost predicate Fresh(m: Moment, own: iset<Cell>, uids: set<string>)
  {
    && m.writer.phase.Reading? && m.writer.patches == 0 && KeepsToOwn(m.writer, own)
    && UniqueKeys(Entries(m.claim)) && m.claim.version == Some(m.clock) && m.claim.uid in uids && m.writer.uid in uids
  }

  lemma RunNext(states: seq<State>, own: Ownership, t: State)
    requires Run(states, own) && |own| == |states[|states| - 1].writers| && Step(states[|states| - 1], t, own)
    ensures Run(states + [t], own)
  {
    var all := states + [t];
    forall k | 0 <= k < |all| - 1
      ensures |own| == |all[k].writers| && Step(all[k], all[k + 1], own)
    {
      if k < |states| - 1 {
        assert all[k] == states[k] && all[k + 1] == states[k + 1];
      }
    }
  }

  /** What a publication does, with whatever others do meanwhile, is a run of the machine. */
  lemma {:induction false} StoryIsRun(story: Story, own: iset<Cell>, uids: set<string>) returns (states: seq<State>)
    requires Protocol(story) && Undisputed(story, own, uids) && Fresh(First(story), own, uids)
    ensures Run(states, [own])
    ensures var s := states[|states| - 1]; |s.writers| == 1 && MomentOf(s, 0) == story.now && s.uids == SeenUids(story, uids)
  {
    if story.Begin? {
      var m := story.now;
      var rest := State(m.claim, m.clock, uids, [m.writer.(phase := Resting)], map[]);
      assert Begin(rest, With(rest, 0, m.writer), [own], 0, m.writer);
      assert WriterStep(rest, With(rest, 0, m.writer), [own], 0);
      states := [rest];
      RunNext(states, [own], With(rest, 0, m.writer));
      states := states + [With(rest, 0, m.writer)];
    } else {
      states := StoryIsRun(story.before, own, uids);
      var s := states[|states| - 1];
      var m := story.now;
      if OwnStep(story.before.now, m) {
        var t := OwnStepIsStep(s, [own], 0, m);
        RunNext(states, [own], t);
        states := states + [t];
      } else if m != story.before.now {
        var t := State(m.claim, m.clock, s.uids + {m.claim.uid}, s.writers, if m.claim.uid == s.claim.uid then s.latest else map[]);
        assert Others(s, t, [own]);
        RunNext(states, [own], t);
        states := states + [t];
      }
    }
  }

  /** A publication that ends in success leaves its values in the claim, if others leave its cells alone. */
  lemma PublishedStands(story: Story, own: iset<Cell>, uids: set<string>, cell: Cell)
    requires Protocol(story) && Undisputed(story, own, uids) && Fresh(First(story), own, uids)
    requires story.now.writer.phase.Succeeded? && story.now.claim.uid == story.now.writer.uid && WritesCell(story.now.writer, cell)
    ensures View(Entries(story.now.claim), cell) == FieldOf(story.now.writer.desired[cell.key], cell.field)
  {
    var states := StoryIsRun(story, own, uids);
    NoLostUpdate(states, [own], 0, cell);
  }
}
