/**
 The statuses a session reports (share_session.cc, lines 129-184 and 242-252) and the delayed
 completion of an outgoing transfer (outgoing_share_session.cc, lines 198-204 and 510-529).
 */
module SessionStatus {
  import opened Wrappers

  datatype Status =
    | Unknown | Connecting | AwaitingLocalConfirmation | AwaitingRemoteAcceptance | InProgress
    | Complete | Failed | Rejected | Cancelled | TimedOut | MediaUnavailable | NotEnoughSpace
    | UnsupportedAttachmentType | DeviceAuthenticationFailed | IncompletePayloads

  predicate IsFinal(s: Status) {
    match s
    case Unknown => false
    case Connecting => false
    case AwaitingLocalConfirmation => false
    case AwaitingRemoteAcceptance => false
    case InProgress => false
    case _ => true
  }

  datatype Session = Session(
    gotFinal: bool,            // got_final_status_
    disconnectStatus: Status,  // disconnect_status_
    connected: bool,           // connection_ is set
    completePending: bool,     // pending_complete_metadata_ is set
    timerArmed: bool,          // disconnection_timeout_ can fire
    disconnects: nat,          // how often the connection was asked to close
    emitted: seq<Status>)      // the updates that reached the callback

  const NEW := Session(false, Unknown, false, false, false, 0, [])

  datatype Event =
    | Update(status: Status)
    | Abort(status: Status)
    | SetDisconnectStatus(status: Status)
    | SetConnection
    | DelayComplete
    | TimerFired
    | Disconnected

  function Emit(s: Session, status: Status): Session {
    if s.gotFinal then s else s.(gotFinal := IsFinal(status), emitted := s.emitted + [status])
  }

  function Next(s: Session, e: Event): Session {
    match e
    case Update(status) => Emit(s, status)
    case Abort(status) => Emit(s, status).(disconnects := s.disconnects + 1)
    case SetDisconnectStatus(status) => s.(disconnectStatus := status)
    case SetConnection => s.(connected := true)
    case DelayComplete => Emit(s, InProgress).(completePending := true, timerArmed := true)
    case TimerFired =>
      if s.timerArmed then s.(completePending := false, timerArmed := false, disconnects := s.disconnects + 1) else s
    case Disconnected =>
      var completed := if s.completePending then Emit(s, Complete) else s;
      var final := if s.disconnectStatus == Unknown then completed else Emit(completed, s.disconnectStatus);
      final.(completePending := false, timerArmed := false, connected := false)
  }

  // The part of the session that holds its status; Introduction has its attachments.
  class OutgoingShareSession {
    var gotFinal: bool
    var disconnectStatus: Status
    var connected: bool
    var completePending: bool
    var timerArmed: bool
    ghost var disconnects: nat
    ghost var emitted: seq<Status>

    ghost function State(): Session
      reads this
    {
      Session(gotFinal, disconnectStatus, connected, completePending, timerArmed, disconnects, emitted)
    }

    constructor ()
      ensures State() == NEW
    {
      gotFinal, disconnectStatus, connected, completePending, timerArmed := false, Unknown, false, false, false;
      disconnects, emitted := 0, [];
    }

    method UpdateTransferMetadata(status: Status)
      modifies this
      ensures State() == Next(old(State()), Update(status))
    {
      if gotFinal {
        return;
      }
      gotFinal := IsFinal(status);
      emitted := emitted + [status];
    }

    method SetStatusOnDisconnect(status: Status)
      requires status == Unknown || IsFinal(status)
      modifies this
      ensures State() == Next(old(State()), SetDisconnectStatus(status))
    {
      disconnectStatus := status;
    }

    method Connect()
      modifies this
      ensures State() == Next(old(State()), SetConnection)
    {
      connected := true;
    }

    method Disconnect()
      modifies this`disconnects
      ensures disconnects == old(disconnects) + 1
    {
      disconnects := disconnects + 1;
    }

    method AbortWith(status: Status)
      requires IsFinal(status)
      modifies this
      ensures State() == Next(old(State()), Abort(status))
    {
      UpdateTransferMetadata(status);
      Disconnect();
    }

    method Delay()
      modifies this
      ensures State() == Next(old(State()), DelayComplete)
    {
      completePending := true;
      UpdateTransferMetadata(InProgress);
      timerArmed := true;
    }

    method OnDisconnectionTimeout()
      requires timerArmed
      modifies this
      ensures State() == Next(old(State()), TimerFired)
    {
      timerArmed := false;
      completePending := false;
      Disconnect();
    }

    method OnDisconnect()
      modifies this
      ensures State() == Next(old(State()), Disconnected)
    {
      OnConnectionDisconnected();
      if disconnectStatus != Unknown {
        UpdateTransferMetadata(disconnectStatus);
      }
      connected := false;
    }

    method OnConnectionDisconnected()
      modifies this
      ensures var s := old(State());
              State() == (if s.completePending then Emit(s, Complete) else s)
                         .(completePending := false, timerArmed := false)
    {
      timerArmed := false;
      if completePending {
        UpdateTransferMetadata(Complete);
        completePending := false;
      }
    }
  }

  // Whole runs ----------------------------------------------------------------------

  function Run(events: seq<Event>): Session {
    if events == [] then NEW else Next(Run(Init(events)), Last(events))
  }

  // Only the last status is final, if any, and gotFinal tells whether it is.
  ghost predicate FinalIsLast(s: Session) {
    && (forall i :: 0 <= i < |s.emitted| - 1 ==> !IsFinal(s.emitted[i]))
    && (s.gotFinal <==> s.emitted != [] && IsFinal(Last(s.emitted)))
  }

  lemma EmitKeepsFinalLast(s: Session, status: Status)
    requires FinalIsLast(s)
    ensures FinalIsLast(Emit(s, status))
  {
  }

  lemma StepKeepsFinalLast(s: Session, e: Event)
    requires FinalIsLast(s)
    ensures FinalIsLast(Next(s, e))
  {
    match e
    case Update(status) => EmitKeepsFinalLast(s, status);
    case Abort(status) => EmitKeepsFinalLast(s, status);
    case DelayComplete => EmitKeepsFinalLast(s, InProgress);
    case Disconnected =>
      EmitKeepsFinalLast(s, Complete);
      EmitKeepsFinalLast(s, s.disconnectStatus);
      EmitKeepsFinalLast(Emit(s, Complete), s.disconnectStatus);
    case _ =>
  }

  // A session reports at most one final status, and nothing after it.
  lemma {:induction false} AtMostOneFinalStatus(events: seq<Event>)
    ensures FinalIsLast(Run(events))
  {
    if events != [] {
      AtMostOneFinalStatus(Init(events));
      StepKeepsFinalLast(Run(Init(events)), Last(events));
    }
  }

  // The statuses that are not final.
  const OPEN := {Unknown, Connecting, AwaitingLocalConfirmation, AwaitingRemoteAcceptance, InProgress}

  // The same, status by status: what is reported before the last report is one of these.
  lemma OnlyTheLastIsFinal(events: seq<Event>)
    ensures var s := Run(events);
            && (forall i :: 0 <= i < |s.emitted| - 1 ==> s.emitted[i] in OPEN)
            && (s.gotFinal <==> s.emitted != [] && Last(s.emitted) !in OPEN)
  {
    AtMostOneFinalStatus(events);
  }

  lemma StepOnlyAdds(s: Session, e: Event)
    ensures s.emitted <= Next(s, e).emitted
    ensures s.gotFinal ==> Next(s, e).emitted == s.emitted && Next(s, e).gotFinal
  {
  }

  // Nothing that was reported is taken back, and nothing is added to a final status.
  lemma {:induction false} ReportsOnlyGrow(events: seq<Event>, more: seq<Event>)
    ensures Run(events).emitted <= Run(events + more).emitted
    ensures Run(events).gotFinal ==> Run(events + more).emitted == Run(events).emitted && Run(events + more).gotFinal
    decreases |more|
  {
    if more == [] {
      assert events + more == events;
    } else {
      assert Init(events + more) == events + Init(more) && Last(events + more) == Last(more);
      ReportsOnlyGrow(events, Init(more));
      var before := Run(events + Init(more));
      assert Run(events + more) == Next(before, Last(more));
      StepOnlyAdds(before, Last(more));
    }
  }

  // A completion was delayed, and since then neither the timer fired nor a disconnect arrived.
  predicate DelayStands(events: seq<Event>) {
    events != [] &&
    match Last(events)
    case DelayComplete => true
    case TimerFired => false
    case Disconnected => false
    case _ => DelayStands(Init(events))
  }

  lemma {:induction false} PendingIffDelayStands(events: seq<Event>)
    ensures Run(events).completePending == Run(events).timerArmed == DelayStands(events)
  {
    if events != [] {
      PendingIffDelayStands(Init(events));
    }
  }

  // A transfer session is never told directly that it is complete.
  predicate NeverToldComplete(events: seq<Event>) {
    forall i :: 0 <= i < |events| ==>
      events[i] != Update(Complete) && events[i] != Abort(Complete) && events[i] != SetDisconnectStatus(Complete)
  }

  // A disconnect arrived while a delayed completion stood and no final status had been reported.
  predicate CompletedByDisconnect(events: seq<Event>) {
    events != [] &&
    (CompletedByDisconnect(Init(events)) ||
     (Last(events).Disconnected? && DelayStands(Init(events)) && !Run(Init(events)).gotFinal))
  }

  // A transfer session reports completion exactly when such a disconnect arrived.
  lemma {:induction false} CompleteIffDisconnectedInTime(events: seq<Event>)
    requires NeverToldComplete(events)
    ensures Complete in Run(events).emitted <==> CompletedByDisconnect(events)
    ensures Run(events).disconnectStatus != Complete
  {
    if events != [] {
      assert Last(events) == events[|events| - 1];
      CompleteIffDisconnectedInTime(Init(events));
      PendingIffDelayStands(Init(events));
    }
  }

  lemma RunSnoc(events: seq<Event>, e: Event)
    ensures Run(events + [e]) == Next(Run(events), e)
  {
    assert Init(events + [e]) == events;
  }

  // What may happen between a delayed completion and its end: nothing that ends the delay,
  // reports a final status or changes the status of a disconnect.
  predicate LeavesDelay(e: Event) {
    match e
    case Update(status) => !IsFinal(status)
    case Abort(status) => !IsFinal(status)
    case SetConnection => true
    case DelayComplete => true
    case _ => false
  }

  predicate AllLeaveDelay(events: seq<Event>) {
    forall i :: 0 <= i < |events| ==> LeavesDelay(events[i])
  }

  predicate Delayed(s: Session) {
    !s.gotFinal && s.disconnectStatus == Failed && s.completePending && s.timerArmed
  }

  lemma {:induction false} DelayLasts(events: seq<Event>, between: seq<Event>)
    requires !Run(events).gotFinal && Run(events).disconnectStatus == Failed && AllLeaveDelay(between)
    ensures Delayed(Run(events + [DelayComplete] + between))
    decreases |between|
  {
    var delayed := events + [DelayComplete];
    RunSnoc(events, DelayComplete);
    if between == [] {
      assert delayed + between == delayed;
    } else {
      DelayLasts(events, Init(between));
      RunSnoc(delayed + Init(between), Last(between));
      assert delayed + between == delayed + Init(between) + [Last(between)];
      assert LeavesDelay(between[|between| - 1]);
    }
  }

  lemma DelayedOutcome(s: Session)
    requires Delayed(s)
    ensures Next(s, Disconnected).emitted == s.emitted + [Complete]
    ensures Next(Next(s, TimerFired), Disconnected).emitted == s.emitted + [Failed]
  {
  }

  // The failure set for a disconnect is swallowed after a completion, and reported when the
  // timer came first, whatever else happened in between.
  lemma DisconnectAfterDelay(events: seq<Event>, between: seq<Event>)
    requires !Run(events).gotFinal && Run(events).disconnectStatus == Failed && AllLeaveDelay(between)
    ensures var delayed := events + [DelayComplete] + between;
            && Run(delayed + [Disconnected]).emitted == Run(delayed).emitted + [Complete]
            && Run(delayed + [TimerFired] + [Disconnected]).emitted == Run(delayed).emitted + [Failed]
  {
    var delayed := events + [DelayComplete] + between;
    DelayLasts(events, between);
    DelayedOutcome(Run(delayed));
    RunSnoc(delayed, Disconnected);
    RunSnoc(delayed, TimerFired);
    RunSnoc(delayed + [TimerFired], Disconnected);
  }

  // What is reported, told from the events alone -----------------------------------------

  // The status that was set for a disconnect.
  function OnDisconnectStatus(events: seq<Event>): Status {
    if events == [] then Unknown
    else
      match Last(events)
      case SetDisconnectStatus(status) => status
      case _ => OnDisconnectStatus(Init(events))
  }

  // What an event reports to a session that has not ended, given whether a delay stands and the
  // status set for a disconnect.
  function Reports(e: Event, delayed: bool, onDisconnect: Status): seq<Status> {
    match e
    case Update(status) => [status]
    case Abort(status) => [status]
    case DelayComplete => [InProgress]
    case Disconnected =>
      (if delayed then [Complete] else []) + (if onDisconnect == Unknown then [] else [onDisconnect])
    case _ => []
  }

  function AllReports(events: seq<Event>): seq<Status> {
    if events == [] then []
    else
      AllReports(Init(events))
      + Reports(Last(events), DelayStands(Init(events)), OnDisconnectStatus(Init(events)))
  }

  function Disconnects(events: seq<Event>): nat {
    if events == [] then 0
    else
      Disconnects(Init(events))
      + match Last(events)
        case Abort(_) => 1
        case TimerFired => if DelayStands(Init(events)) then 1 else 0
        case _ => 0
  }

  predicate Connected(events: seq<Event>) {
    events != [] &&
    match Last(events)
    case SetConnection => true
    case Disconnected => false
    case _ => Connected(Init(events))
  }

  // What was emitted are the reports up to the first that is final, and all of them if none is.
  ghost predicate UpToFinal(emitted: seq<Status>, ended: bool, reports: seq<Status>) {
    && emitted <= reports
    && (forall i :: 0 <= i < |emitted| - 1 ==> emitted[i] in OPEN)
    && (ended <==> emitted != [] && emitted[|emitted| - 1] !in OPEN)
    && (!ended ==> emitted == reports)
  }

  ghost predicate Follows(s: Session, reports: seq<Status>) {
    UpToFinal(s.emitted, s.gotFinal, reports)
  }

  lemma EmitFollows(s: Session, reports: seq<Status>, status: Status)
    requires Follows(s, reports)
    ensures Follows(Emit(s, status), reports + [status])
  {
  }

  lemma DisconnectFollows(s: Session, reports: seq<Status>)
    requires Follows(s, reports)
    ensures Follows(Next(s, Disconnected), reports + Reports(Disconnected, s.completePending, s.disconnectStatus))
  {
    var completed, told := s, reports;
    if s.completePending {
      EmitFollows(s, reports, Complete);
      completed, told := Emit(s, Complete), reports + [Complete];
    }
    if s.disconnectStatus != Unknown {
      EmitFollows(completed, told, s.disconnectStatus);
    }
    assert told + (if s.disconnectStatus == Unknown then [] else [s.disconnectStatus])
        == reports + Reports(Disconnected, s.completePending, s.disconnectStatus);
  }

  lemma StepFollows(s: Session, reports: seq<Status>, e: Event)
    requires Follows(s, reports)
    ensures Follows(Next(s, e), reports + Reports(e, s.completePending, s.disconnectStatus))
  {
    match e
    case Update(status) => EmitFollows(s, reports, status);
    case Abort(status) => EmitFollows(s, reports, status);
    case DelayComplete => EmitFollows(s, reports, InProgress);
    case Disconnected => DisconnectFollows(s, reports);
    case _ => assert reports + Reports(e, s.completePending, s.disconnectStatus) == reports;
  }

  // The rest of the state, told from the events alone.
  lemma {:induction false} StateIs(events: seq<Event>)
    ensures var s := Run(events);
            && s.disconnects == Disconnects(events) && s.connected == Connected(events)
            && s.disconnectStatus == OnDisconnectStatus(events)
            && s.completePending == s.timerArmed == DelayStands(events)
  {
    if events != [] {
      StateIs(Init(events));
    }
  }

  // Over every run: the callback gets exactly the reports that the events call for, in order, up
  // to the first final one.
  lemma {:induction false} ReportedExactly(events: seq<Event>)
    ensures Follows(Run(events), AllReports(events))
  {
    if events != [] {
      ReportedExactly(Init(events));
      StateIs(Init(events));
      StepFollows(Run(Init(events)), AllReports(Init(events)), Last(events));
    }
  }
}
