/**
 * The resource-health watch: a reporter, a forwarder and a client joined by
 * two bounded channels, in any interleaving.
 */
module HealthStream {
  import opened Wrappers

  const CAPACITY: nat := 16

  type Report = string

  datatype Message = Forwarded(report: Report) | Unavailable

  /** The reporter's task: running, returned (or panicked), or aborted by the forwarder. */
  datatype Task = Running | Ended | Aborted

  /** Where the forwarder's task is. */
  datatype Phase =
    | Selecting
    | Sending(report: Report)        // a received report waits for room in the response channel
    | AwaitingEnd                    // every sender is gone; the reporter is still running
    | Draining                       // the reporter ended; buffered reports are moved on
    | DrainSending(report: Report)
    | Completing                     // the final status waits for room
    | Finished                       // the final status was sent
    | Abandoned                      // the client left

  datatype State = State(
    task: Task,
    own: bool,                       // the reporter still holds its sender
    leaked: bool,                    // a clone of it lives on elsewhere
    reports: seq<Report>,            // the report channel
    phase: Phase,
    responses: seq<Message>,         // the response channel
    watching: bool,                  // the client still holds its stream
    sent: seq<Report>,               // every report accepted by the channel
    late: bool,                      // some report was accepted after the reporter ended
    delivered: seq<Message>)         // what the client has received

  function Start(): State
  {
    State(Running, true, false, [], Selecting, [], true, [], false, [])
  }

  datatype Event =
    | Send(report: Report) | DropSender | Leak | LeakedSend(report: Report) | LeakedDrop | End
    | ForwardClosed | ForwardReceive | ForwardEnd | ForwardSend
    | Receive | Leave

  /** Reports are taken while the forwarder lives; its end closes their channel. */
  predicate Listening(s: State)
  {
    !s.phase.Finished? && !s.phase.Abandoned?
  }

  predicate Senders(s: State) { s.own || s.leaked }

  function Accept(s: State, report: Report): State
  {
    s.(reports := s.reports + [report], sent := s.sent + [report], late := s.late || !s.task.Running?)
  }

  predicate CanAccept(s: State)
  {
    Listening(s) && |s.reports| < CAPACITY
  }

  /** The reporter's task and whoever holds a clone of its sender. */
  function ReporterStep(s: State, e: Event): Option<State>
  {
    match e
    case Send(report) => if s.task.Running? && s.own && CanAccept(s) then Some(Accept(s, report)) else None
    case DropSender => if s.task.Running? && s.own then Some(s.(own := false)) else None
    case Leak => if s.task.Running? && s.own then Some(s.(leaked := true)) else None
    case LeakedSend(report) => if s.leaked && CanAccept(s) then Some(Accept(s, report)) else None
    case LeakedDrop => if s.leaked then Some(s.(leaked := false)) else None
    case End => if s.task.Running? then Some(s.(task := Ended, own := false)) else None
    case _ => None
  }

  /** The forwarder gives up: the reporter is aborted if it still runs, and the report channel goes with it. */
  function Abandon(s: State): State
  {
    s.(phase := Abandoned, task := if s.task.Running? then Aborted else s.task, own := false, reports := [])
  }

  function Respond(s: State, message: Message, after: Phase): Option<State>
  {
    if !s.watching then Some(Abandon(s))
    else if |s.responses| < CAPACITY then Some(s.(responses := s.responses + [message], phase := after))
    else None
  }

  /** Returning drops the report channel with whatever arrived too late. */
  function Complete(after: Option<State>): Option<State>
  {
    if after.Some? then Some(after.value.(reports := [])) else None
  }

  /** One step of the forwarding loop; where several are enabled, any may be taken. */
  function ForwarderStep(s: State, e: Event): Option<State>
  {
    match (s.phase, e)
    case (Selecting, ForwardClosed) => if !s.watching then Some(Abandon(s)) else None
    case (Selecting, ForwardReceive) =>
      if s.reports != [] then Some(s.(phase := Sending(s.reports[0]), reports := s.reports[1..]))
      else if !Senders(s) then Some(s.(phase := AwaitingEnd))
      else None
    case (Selecting, ForwardEnd) => if !s.task.Running? then Some(s.(phase := Draining)) else None
    case (Sending(report), ForwardSend) => Respond(s, Forwarded(report), Selecting)
    case (AwaitingEnd, ForwardClosed) => if !s.watching then Some(Abandon(s)) else None
    case (AwaitingEnd, ForwardEnd) => if !s.task.Running? then Some(s.(phase := Completing)) else None
    case (Draining, ForwardReceive) =>
      if s.reports != [] then Some(s.(phase := DrainSending(s.reports[0]), reports := s.reports[1..]))
      else Some(s.(phase := Completing))
    case (DrainSending(report), ForwardSend) => Respond(s, Forwarded(report), Draining)
    case (Completing, ForwardSend) => Complete(Respond(s, Unavailable, Finished))
    case _ => None
  }

  function ClientStep(s: State, e: Event): Option<State>
  {
    match e
    case Receive => if s.watching && s.responses != [] then Some(s.(delivered := s.delivered + [s.responses[0]], responses := s.responses[1..])) else None
    case Leave => if s.watching then Some(s.(watching := false, responses := [])) else None
    case _ => None
  }

  predicate Forwards(e: Event)
  {
    e.ForwardClosed? || e.ForwardReceive? || e.ForwardEnd? || e.ForwardSend?
  }

  function Step(s: State, e: Event): Option<State>
  {
    if Forwards(e) then ForwarderStep(s, e)
    else if e.Receive? || e.Leave? then ClientStep(s, e)
    else ReporterStep(s, e)
  }

  /** A schedule: events that are not enabled pass by. */
  function Run(s: State, events: seq<Event>): State
  {
    if events == [] then s
    else
      var n := |events| - 1;
      var before := Run(s, events[..n]);
      match Step(before, events[n])
      case None => before
      case Some(after) => after
  }

  // ----- What always holds -----

  function Messages(reports: seq<Report>): seq<Message>
  {
    seq(|reports|, i requires 0 <= i < |reports| => Forwarded(reports[i]))
  }

  /** The report the forwarder is holding. */
  function InHand(s: State): seq<Report>
  {
    match s.phase
    case Sending(report) => [report]
    case DrainSending(report) => [report]
    case _ => []
  }

  function Flow(s: State): seq<Message>
  {
    s.delivered + s.responses
  }

  /** The first `count` sent reports were forwarded; the rest are in hand or in the channel, in order. */
  ghost predicate InOrderAt(s: State, count: nat)
  {
    count <= |s.sent| && Flow(s) == Messages(s.sent[..count]) && s.sent[count..] == InHand(s) + s.reports
  }

  /** Nothing the forwarder took or the channel holds is lost or reordered. */
  ghost predicate InOrder(s: State)
  {
    exists count: nat :: InOrderAt(s, count)
  }

  /** The first `count` sent reports were forwarded, then the final status; all of them unless some came late. */
  ghost predicate CompletedAt(s: State, count: nat)
  {
    count <= |s.sent| && Flow(s) == Messages(s.sent[..count]) + [Unavailable] && (!s.late ==> count == |s.sent|)
  }

  ghost predicate Completed(s: State)
  {
    exists count: nat :: CompletedAt(s, count)
  }

  /** These messages are the first `count` reports, with or without the final status after them. */
  ghost predicate IsPrefix(messages: seq<Message>, sent: seq<Report>, count: nat)
  {
    count <= |sent| && (messages == Messages(sent[..count]) || messages == Messages(sent[..count]) + [Unavailable])
  }

  ghost predicate DeliversPrefix(s: State)
  {
    exists count: nat :: IsPrefix(s.delivered, s.sent, count)
  }

  ghost predicate Inv(s: State)
  {
    && |s.reports| <= CAPACITY && |s.responses| <= CAPACITY
    && (s.own ==> s.task.Running?)
    && (s.late ==> !s.task.Running?)
    && DeliversPrefix(s)
    && (!s.watching ==> s.responses == [])
    && (s.watching ==> !s.phase.Abandoned? && if s.phase.Finished? then Completed(s) else InOrder(s))
    && (s.phase.AwaitingEnd? ==> !Senders(s) && s.reports == [])
    && ((s.phase.Draining? || s.phase.DrainSending? || s.phase.Completing? || s.phase.Finished? || s.phase.Abandoned?) ==> !s.task.Running?)
    && (s.phase.Completing? && !s.late ==> s.reports == [])
  }

  lemma MessagesExtend(reports: seq<Report>, count: nat)
    requires count < |reports|
    ensures Messages(reports[..count + 1]) == Messages(reports[..count]) + [Forwarded(reports[count])]
  {
  }

  /** What was delivered is the first part of what was forwarded. */
  lemma PartOfFlow(sent: seq<Report>, count: nat, flow: seq<Message>, part: nat)
    requires IsPrefix(flow, sent, count) && part <= |flow|
    ensures exists k: nat :: IsPrefix(flow[..part], sent, k)
  {
    if part <= count {
      assert flow[..part] == Messages(sent[..part]);
      assert IsPrefix(flow[..part], sent, part);
    } else {
      assert flow[..part] == flow;
    }
  }

  lemma InvStart()
    ensures Inv(Start())
  {
    var s := Start();
    assert InOrderAt(s, 0);
    assert IsPrefix(s.delivered, s.sent, 0);
  }

  lemma AcceptPrefix(messages: seq<Message>, sent: seq<Report>, count: nat, report: Report)
    requires IsPrefix(messages, sent, count)
    ensures IsPrefix(messages, sent + [report], count)
  {
    assert (sent + [report])[..count] == sent[..count];
  }

  lemma AcceptInOrder(s: State, report: Report, count: nat)
    requires InOrderAt(s, count)
    ensures InOrderAt(Accept(s, report), count)
  {
    var t := Accept(s, report);
    assert t.sent[..count] == s.sent[..count];
    assert t.sent[count..] == s.sent[count..] + [report];
    assert InHand(t) + t.reports == (InHand(s) + s.reports) + [report];
  }

  lemma AcceptKeeps(s: State, report: Report)
    requires Inv(s) && CanAccept(s) && (s.task.Running? || s.leaked) && Senders(s)
    ensures Inv(Accept(s, report))
  {
    var k: nat :| IsPrefix(s.delivered, s.sent, k);
    AcceptPrefix(s.delivered, s.sent, k, report);
    if s.watching {
      var count: nat :| InOrderAt(s, count);
      AcceptInOrder(s, report, count);
    }
  }

  lemma SameFlow(s: State, t: State)
    requires t.sent == s.sent && t.delivered == s.delivered && t.responses == s.responses
    ensures DeliversPrefix(s) ==> DeliversPrefix(t)
    ensures InHand(t) + t.reports == InHand(s) + s.reports && InOrder(s) ==> InOrder(t)
    ensures t.late == s.late && Completed(s) ==> Completed(t)
  {
    if InHand(t) + t.reports == InHand(s) + s.reports && InOrder(s) {
      var count: nat :| InOrderAt(s, count);
      assert InOrderAt(t, count);
    }
    if t.late == s.late && Completed(s) {
      var count: nat :| CompletedAt(s, count);
      assert CompletedAt(t, count);
    }
  }

  lemma ReporterKeeps(s: State, e: Event)
    requires Inv(s) && ReporterStep(s, e).Some?
    ensures Inv(ReporterStep(s, e).value)
  {
    var t := ReporterStep(s, e).value;
    match e
    case Send(report) => AcceptKeeps(s, report);
    case LeakedSend(report) => AcceptKeeps(s, report);
    case _ => SameFlow(s, t);
  }

  lemma NextSent(sent: seq<Report>, count: nat, report: Report, rest: seq<Report>)
    requires count <= |sent| && sent[count..] == [report] + rest
    ensures count < |sent| && sent[count] == report && sent[count + 1..] == rest
  {
    assert |sent[count..]| == |sent| - count;
    assert sent[count..][0] == report && sent[count + 1..] == sent[count..][1..];
  }

  lemma AppendMessage(delivered: seq<Message>, responses: seq<Message>, message: Message)
    ensures delivered + (responses + [message]) == (delivered + responses) + [message]
  {
  }

  /** A forwarded report joins the flow; the final status closes it. */
  lemma RespondKeeps(s: State, report: Report, after: Phase)
    requires Inv(s) && s.watching && |s.responses| < CAPACITY
    requires s.phase.Sending? || s.phase.DrainSending?
    requires InHand(s) == [report] && (after.Selecting? || after.Draining?)
    ensures InOrder(Respond(s, Forwarded(report), after).value)
  {
    var t := Respond(s, Forwarded(report), after).value;
    var count: nat :| InOrderAt(s, count);
    NextSent(s.sent, count, report, s.reports);
    MessagesExtend(s.sent, count);
    AppendMessage(s.delivered, s.responses, Forwarded(report));
    assert InHand(t) + t.reports == s.reports;
    assert InOrderAt(t, count + 1);
  }

  lemma CompleteKeeps(s: State)
    requires Inv(s) && s.phase.Completing? && s.watching && |s.responses| < CAPACITY
    ensures Completed(Complete(Respond(s, Unavailable, Finished)).value)
  {
    var t := Complete(Respond(s, Unavailable, Finished)).value;
    var count: nat :| InOrderAt(s, count);
    AppendMessage(s.delivered, s.responses, Unavailable);
    if !s.late {
      assert s.sent[count..] == [];
      assert |s.sent[count..]| == |s.sent| - count;
    }
    assert CompletedAt(t, count);
  }

  lemma AbandonKeeps(s: State)
    requires Inv(s) && !s.watching
    ensures Inv(Abandon(s))
  {
    SameFlow(s, Abandon(s));
  }

  /** The head of the channel is taken in hand: the stream is the same. */
  lemma TakeKeeps(s: State, t: State)
    requires s.reports != [] && InHand(s) == [] && InHand(t) == [s.reports[0]]
    requires t == s.(phase := t.phase, reports := s.reports[1..])
    ensures DeliversPrefix(s) ==> DeliversPrefix(t)
    ensures InOrder(s) ==> InOrder(t)
  {
    assert InHand(t) + t.reports == s.reports;
    assert InHand(s) + s.reports == s.reports;
    SameFlow(s, t);
  }

  lemma ForwardReceiveKeeps(s: State)
    requires Inv(s) && ForwarderStep(s, ForwardReceive).Some?
    ensures Inv(ForwarderStep(s, ForwardReceive).value)
  {
    var t := ForwarderStep(s, ForwardReceive).value;
    if s.reports != [] {
      TakeKeeps(s, t);
    } else {
      assert t.reports == s.reports && InHand(t) == InHand(s);
      SameFlow(s, t);
    }
  }

  lemma ForwardEndKeeps(s: State)
    requires Inv(s) && ForwarderStep(s, ForwardEnd).Some?
    ensures Inv(ForwarderStep(s, ForwardEnd).value)
  {
    SameFlow(s, ForwarderStep(s, ForwardEnd).value);
  }

  lemma ForwardSendKeeps(s: State)
    requires Inv(s) && s.watching && ForwarderStep(s, ForwardSend).Some?
    ensures Inv(ForwarderStep(s, ForwardSend).value)
  {
    SameDelivered(s, ForwarderStep(s, ForwardSend).value);
    match s.phase
    case Sending(report) => RespondKeeps(s, report, Selecting);
    case DrainSending(report) => RespondKeeps(s, report, Draining);
    case Completing => CompleteKeeps(s);
  }

  lemma ForwarderKeeps(s: State, e: Event)
    requires Inv(s) && ForwarderStep(s, e).Some?
    ensures Inv(ForwarderStep(s, e).value)
  {
    if e.ForwardReceive? {
      ForwardReceiveKeeps(s);
    } else if e.ForwardEnd? {
      ForwardEndKeeps(s);
    } else if s.watching {
      ForwardSendKeeps(s);
    } else {
      AbandonKeeps(s);
    }
  }

  lemma ReceiveKeeps(s: State)
    requires Inv(s) && s.watching && s.responses != []
    ensures Inv(ClientStep(s, Receive).value)
  {
    var t := ClientStep(s, Receive).value;
    assert Flow(t) == Flow(s);
    assert t.delivered == Flow(s)[..|t.delivered|];
    if s.phase.Finished? {
      var count: nat :| CompletedAt(s, count);
      assert IsPrefix(Flow(s), s.sent, count) && CompletedAt(t, count);
      PartOfFlow(s.sent, count, Flow(s), |t.delivered|);
    } else {
      var count: nat :| InOrderAt(s, count);
      assert IsPrefix(Flow(s), s.sent, count) && InOrderAt(t, count);
      PartOfFlow(s.sent, count, Flow(s), |t.delivered|);
    }
  }

  lemma StepKeeps(s: State, e: Event)
    requires Inv(s) && Step(s, e).Some?
    ensures Inv(Step(s, e).value)
  {
    if Forwards(e) {
      ForwarderKeeps(s, e);
    } else if e.Receive? {
      ReceiveKeeps(s);
    } else if e.Leave? {
      SameDelivered(s, Step(s, e).value);
    } else {
      ReporterKeeps(s, e);
    }
  }

  lemma SameDelivered(s: State, t: State)
    requires t.sent == s.sent && t.delivered == s.delivered && DeliversPrefix(s)
    ensures DeliversPrefix(t)
  {
  }

  lemma {:induction false} RunKeeps(s: State, events: seq<Event>)
    requires Inv(s)
    ensures Inv(Run(s, events))
  {
    if events != [] {
      var n := |events| - 1;
      RunKeeps(s, events[..n]);
      if Step(Run(s, events[..n]), events[n]).Some? {
        StepKeeps(Run(s, events[..n]), events[n]);
      }
    }
  }

  // ----- What the client sees -----

  /** In every schedule the client has received the sent reports in order, up to some point, and after that at most one final status. */
  lemma DeliveredIsAPrefix(events: seq<Event>)
    ensures DeliversPrefix(Run(Start(), events))
  {
    InvStart();
    RunKeeps(Start(), events);
  }

  /** The client stays and the forwarder has nothing more to give it. */
  predicate Drained(s: State)
  {
    s.watching && s.phase.Finished? && s.responses == []
  }

  /** A client that stays to the end has every report, once and in order, and then exactly one final status. */
  lemma WholeStream(events: seq<Event>)
    requires Drained(Run(Start(), events)) && !Run(Start(), events).late
    ensures Run(Start(), events).delivered == Messages(Run(Start(), events).sent) + [Unavailable]
  {
    InvStart();
    RunKeeps(Start(), events);
    var s := Run(Start(), events);
    var count: nat :| CompletedAt(s, count);
    assert Flow(s) == s.delivered;
    assert s.sent[..|s.sent|] == s.sent;
  }

  lemma StepNeverLate(s: State, e: Event)
    requires !s.late && !s.leaked && e != Leak && Step(s, e).Some?
    ensures !Step(s, e).value.late && !Step(s, e).value.leaked
  {
  }

  /** Without a leaked sender no report comes late. */
  lemma {:induction false} NeverLate(events: seq<Event>)
    requires Leak !in events
    ensures !Run(Start(), events).late && !Run(Start(), events).leaked
  {
    if events != [] {
      var n := |events| - 1;
      assert forall e :: e in events[..n] ==> e in events;
      NeverLate(events[..n]);
      assert events[n] in events;
      if Step(Run(Start(), events[..n]), events[n]).Some? {
        StepNeverLate(Run(Start(), events[..n]), events[n]);
      }
    }
  }

  /** The forwarder never stops while the reporter runs: a client that leaves takes the reporter with it. */
  lemma ReporterIsNotLeftBehind(events: seq<Event>)
    ensures !Listening(Run(Start(), events)) ==> !Run(Start(), events).task.Running?
    ensures |Run(Start(), events).reports| <= CAPACITY && |Run(Start(), events).responses| <= CAPACITY
  {
    InvStart();
    RunKeeps(Start(), events);
  }

  // ----- The stream ends -----

  /** The reporter is done, nobody holds its sender, and the client stays. */
  predicate Closing(s: State)
  {
    !s.task.Running? && !Senders(s) && s.watching
  }

  predicate Moves(e: Event)
  {
    Forwards(e) || e.Receive?
  }

  function PhaseRank(phase: Phase): nat
  {
    match phase
    case Selecting => 5
    case Sending(_) => 5
    case AwaitingEnd => 4
    case Draining => 4
    case DrainSending(_) => 4
    case Completing => 3
    case Finished => 1
    case Abandoned => 0
  }

  function Rank(s: State): nat
  {
    4 * |s.reports| + 3 * |InHand(s)| + |s.responses| + PhaseRank(s.phase)
  }

  /** Every step the forwarder or the client takes brings the end nearer. */
  lemma MovesProgress(s: State, e: Event)
    requires Inv(s) && Closing(s) && Moves(e) && Step(s, e).Some?
    ensures Closing(Step(s, e).value) && Rank(Step(s, e).value) < Rank(s)
  {
  }

  /** Until everything is delivered one of them can move. */
  lemma NeverStuck(s: State)
    requires Inv(s) && Closing(s) && !Drained(s)
    ensures exists e :: Moves(e) && Step(s, e).Some?
  {
    assert Moves(ForwardReceive) && Moves(ForwardEnd) && Moves(ForwardSend) && Moves(Receive);
    assert !s.phase.Abandoned?;
    assert s.phase.Selecting? || s.phase.AwaitingEnd? ==> Step(s, ForwardEnd).Some?;
    assert s.phase.Draining? ==> Step(s, ForwardReceive).Some?;
    assert s.responses != [] ==> Step(s, Receive).Some?;
    assert InHand(s) != [] || s.phase.Completing? ==> Step(s, ForwardSend).Some? || Step(s, Receive).Some?;
  }

  /** Every event of the schedule is taken, by the forwarder or the client. */
  predicate AllTaken(s: State, events: seq<Event>)
  {
    forall k :: 0 <= k < |events| ==> Moves(events[k]) && Step(Run(s, events[..k]), events[k]).Some?
  }

  lemma {:induction false} TakenProgress(s: State, events: seq<Event>)
    requires Inv(s) && Closing(s) && AllTaken(s, events)
    ensures Inv(Run(s, events)) && Closing(Run(s, events)) && Rank(Run(s, events)) + |events| <= Rank(s)
  {
    if events != [] {
      var n := |events| - 1;
      forall k | 0 <= k < n
        ensures Moves(events[..n][k]) && Step(Run(s, events[..n][..k]), events[..n][k]).Some?
      {
        assert events[..n][..k] == events[..k];
      }
      TakenProgress(s, events[..n]);
      MovesProgress(Run(s, events[..n]), events[n]);
      StepKeeps(Run(s, events[..n]), events[n]);
    }
  }

  /** Once the reporter is done, every way of going on is finite, and where it cannot go on the stream is whole. */
  lemma EveryStreamEnds(events: seq<Event>, more: seq<Event>)
    requires Closing(Run(Start(), events)) && AllTaken(Run(Start(), events), more)
    ensures |more| <= Rank(Run(Start(), events))
    ensures (forall e :: Moves(e) ==> Step(Run(Run(Start(), events), more), e).None?) ==> Drained(Run(Run(Start(), events), more))
  {
    InvStart();
    RunKeeps(Start(), events);
    TakenProgress(Run(Start(), events), more);
    var s := Run(Run(Start(), events), more);
    if !Drained(s) {
      NeverStuck(s);
    }
  }

  // ----- After the client has left -----

  /** How many more steps the forwarder takes at most. */
  function LeaveRank(phase: Phase): nat
  {
    match phase
    case Selecting => 3
    case AwaitingEnd => 2
    case Draining => 2
    case Sending(_) => 1
    case DrainSending(_) => 1
    case Completing => 1
    case Finished => 0
    case Abandoned => 0
  }

  /** The forwarder's own steps bring its end nearer; nobody else's keep it from that. */
  lemma LeftStep(s: State, e: Event)
    requires !s.watching && Step(s, e).Some?
    ensures !Step(s, e).value.watching && (Step(s, e).value.phase.Finished? ==> s.phase.Finished?)
    ensures if Forwards(e) then LeaveRank(Step(s, e).value.phase) < LeaveRank(s.phase) else Step(s, e).value.phase == s.phase
  {
  }

  /** The steps of the forwarder that a schedule takes. */
  function ForwarderSteps(s: State, events: seq<Event>): nat
  {
    if events == [] then 0
    else
      var n := |events| - 1;
      ForwarderSteps(s, events[..n]) + if Forwards(events[n]) && Step(Run(s, events[..n]), events[n]).Some? then 1 else 0
  }

  lemma {:induction false} LeftRun(s: State, events: seq<Event>)
    requires !s.watching
    ensures !Run(s, events).watching && (Run(s, events).phase.Finished? ==> s.phase.Finished?)
    ensures ForwarderSteps(s, events) + LeaveRank(Run(s, events).phase) <= LeaveRank(s.phase)
  {
    if events != [] {
      var n := |events| - 1;
      LeftRun(s, events[..n]);
      if Step(Run(s, events[..n]), events[n]).Some? {
        LeftStep(Run(s, events[..n]), events[n]);
      }
    }
  }

  lemma LeftIsNotStuck(s: State)
    requires !s.watching && Listening(s)
    ensures exists e :: Forwards(e) && Step(s, e).Some?
  {
    assert Forwards(ForwardClosed) && Forwards(ForwardReceive) && Forwards(ForwardSend);
    assert s.phase.Selecting? || s.phase.AwaitingEnd? ==> Step(s, ForwardClosed).Some?;
    assert s.phase.Draining? ==> Step(s, ForwardReceive).Some?;
    assert InHand(s) != [] || s.phase.Completing? ==> Step(s, ForwardSend).Some?;
  }

  /**
   * Once the client has left, whatever the reporter goes on doing, the
   * forwarder takes at most three more steps and can always take the next one
   * until it has given up; then the reporter is not running.
   */
  lemma EveryLeaverIsNoticed(events: seq<Event>, more: seq<Event>)
    requires !Run(Start(), events).watching
    ensures ForwarderSteps(Run(Start(), events), more) <= 3
    ensures var t := Run(Run(Start(), events), more);
            if Listening(t) then exists e :: Forwards(e) && Step(t, e).Some?
            else !t.task.Running? && (Listening(Run(Start(), events)) ==> t.phase.Abandoned?)
  {
    var s := Run(Start(), events);
    LeftRun(s, more);
    InvStart();
    RunKeeps(Start(), events);
    RunKeeps(s, more);
    if Listening(Run(s, more)) {
      LeftIsNotStuck(Run(s, more));
    }
  }

  // ----- Every stream can happen -----

  /** Between two reports, with nothing waiting anywhere. */
  predicate Calm(s: State, reports: seq<Report>)
  {
    && s.phase.Selecting? && s.task.Running? && s.own && s.watching && s.reports == [] && s.responses == []
    && s.sent == reports && s.delivered == Messages(reports)
  }

  lemma {:induction false} RunThrough(s: State, events: seq<Event>, e: Event)
    requires Step(Run(s, events), e).Some?
    ensures Run(s, events + [e]) == Step(Run(s, events), e).value
  {
    var all := events + [e];
    assert all[..|all| - 1] == events && all[|all| - 1] == e;
  }

  /** One report goes all the way. */
  lemma {:induction false} OneMoreDelivered(s: State, events: seq<Event>, reports: seq<Report>, report: Report) returns (more: seq<Event>)
    requires Calm(Run(s, events), reports)
    ensures Calm(Run(s, more), reports + [report])
  {
    RunThrough(s, events, Send(report));
    var a := events + [Send(report)];
    RunThrough(s, a, ForwardReceive);
    var b := a + [ForwardReceive];
    RunThrough(s, b, ForwardSend);
    var c := b + [ForwardSend];
    RunThrough(s, c, Receive);
    more := c + [Receive];
    var all := reports + [report];
    assert all[..|reports| + 1] == all && all[..|reports|] == reports;
    MessagesExtend(all, |reports|);
  }

  lemma {:induction false} AnyReportsDelivered(reports: seq<Report>) returns (events: seq<Event>)
    ensures Calm(Run(Start(), events), reports)
  {
    if reports == [] {
      events := [];
    } else {
      var n := |reports| - 1;
      var before := AnyReportsDelivered(reports[..n]);
      events := OneMoreDelivered(Start(), before, reports[..n], reports[n]);
      assert reports[..n] + [reports[n]] == reports;
    }
  }

  /** Whatever a reporter has to say can be said: some schedule sends it all, and delivers it all, to the final status. */
  lemma {:induction false} AnyStreamCanHappen(reports: seq<Report>) returns (events: seq<Event>)
    ensures var s := Run(Start(), events); s.sent == reports && s.delivered == Messages(reports) + [Unavailable] && Drained(s)
  {
    events := AnyReportsDelivered(reports);
    RunThrough(Start(), events, End);
    events := events + [End];
    RunThrough(Start(), events, ForwardEnd);
    events := events + [ForwardEnd];
    RunThrough(Start(), events, ForwardReceive);
    events := events + [ForwardReceive];
    RunThrough(Start(), events, ForwardSend);
    events := events + [ForwardSend];
    RunThrough(Start(), events, Receive);
    events := events + [Receive];
  }
}
