/**
 Payloads that wait for a fast medium (transfer_manager.cc), and the manager's Send that
 feeds them (nearby_connections_manager_impl.cc, lines 505-526).
 */
module DeferredSending {
  import opened Wrappers

  type Payload = int

  datatype Medium =
    | Unknown | Mdns | Bluetooth | WifiHotspot | Ble | WifiLan | WifiAware | Nfc | WifiDirect | WebRtc | BleL2Cap

  predicate IsHighQuality(m: Medium) {
    m.WifiLan? || m.WifiAware? || m.WifiDirect? || m.WifiHotspot? || m.WebRtc?
  }

  // Specification: what is still parked, what was forwarded, and whether the timer is armed.
  datatype Deferral = Deferral(waiting: bool, pending: seq<Payload>, armed: bool, sent: seq<Payload>)

  const FRESH := Deferral(true, [], false, [])

  datatype Event = Submit(payload: Payload) | MediumChanged(medium: Medium) | Start | Cancel | Timeout

  function Release(d: Deferral): Deferral {
    Deferral(false, [], false, d.sent + d.pending)
  }

  function Next(d: Deferral, e: Event): Deferral {
    match e
    case Submit(p) => if d.waiting then d.(pending := d.pending + [p]) else d.(sent := d.sent + [p])
    case MediumChanged(m) => if d.waiting && IsHighQuality(m) then Release(d) else d
    case Start => if d.waiting then d.(armed := true) else d
    case Cancel => d.(armed := false)
    case Timeout => if d.armed then Release(d) else d
  }

  class TransferManager {
    var waiting: bool              // is_waiting_for_high_quality_medium_
    var pending: seq<Payload>      // pending_payloads_
    var timerArmed: bool           // timeout_timer_ is set
    ghost var sent: seq<Payload>   // what deferred_send_function_ was called with

    ghost function State(): Deferral
      reads this
    {
      Deferral(waiting, pending, timerArmed, sent)
    }

    constructor ()
      ensures State() == FRESH
    {
      waiting, pending, timerArmed, sent := true, [], false, [];
    }

    method Send(p: Payload)
      modifies this
      ensures State() == Next(old(State()), Submit(p))
    {
      if waiting {
        pending := pending + [p];
        return;
      }
      sent := sent + [p];
    }

    method OnMediumQualityChanged(m: Medium)
      modifies this
      ensures State() == Next(old(State()), MediumChanged(m))
    {
      if !waiting || !IsHighQuality(m) {
        return;
      }
      StopWaitingForHighQualityMedium();
    }

    method StartTransfer() returns (started: bool)
      modifies this
      ensures State() == Next(old(State()), Start)
      ensures started <==> old(waiting && !timerArmed)
    {
      if !waiting {
        return false;
      }
      if timerArmed {
        return false;
      }
      timerArmed := true;
      return true;
    }

    method CancelTransfer() returns (cancelled: bool)
      modifies this
      ensures State() == Next(old(State()), Cancel) && cancelled == old(timerArmed)
    {
      if !timerArmed {
        return false;
      }
      timerArmed := false;
      return true;
    }

    // The armed timer fires.
    method OnTimeout()
      requires timerArmed
      modifies this
      ensures State() == Next(old(State()), Timeout)
    {
      StopWaitingForHighQualityMedium();
    }

    method StopWaitingForHighQualityMedium()
      modifies this
      ensures State() == Release(old(State()))
    {
      timerArmed := false;
      waiting := false;
      while pending != []
        invariant !waiting && !timerArmed && sent + pending == old(sent + pending)
        decreases |pending|
      {
        var p := pending[0];
        pending := pending[1..];
        sent := sent + [p];
      }
    }
  }

  // The manager's Send for a file whose endpoint has a transfer manager.
  method SendFile(manager: TransferManager, p: Payload)
    modifies manager
    ensures manager.State() == Next(Next(old(manager.State()), Submit(p)), Start)
  {
    manager.Send(p);
    var _ := manager.StartTransfer();
  }

  // Whole runs ----------------------------------------------------------------------

  function Run(events: seq<Event>): Deferral {
    if events == [] then FRESH else Next(Run(Init(events)), Last(events))
  }

  function Submitted(events: seq<Event>): seq<Payload> {
    if events == [] then []
    else Submitted(Init(events)) + (if Last(events).Submit? then [Last(events).payload] else [])
  }

  // What has happened, told from the events alone: a fast medium came, or a timer fired that
  // was armed, and so everything was released.
  predicate Released(events: seq<Event>)
    decreases |events|, 0
  {
    events != [] &&
    match Last(events)
    case MediumChanged(m) => Released(Init(events)) || m in {WifiLan, WifiAware, WifiDirect, WifiHotspot, WebRtc}
    case Timeout => Released(Init(events)) || StartedSinceCancel(Init(events))
    case _ => Released(Init(events))
  }

  // Started while waiting, and neither released nor cancelled since.
  predicate StartedSinceCancel(events: seq<Event>)
    decreases |events|, 1
  {
    events != [] && !Released(events) &&
    match Last(events)
    case Start => true
    case Cancel => false
    case _ => StartedSinceCancel(Init(events))
  }

  // Waiting ends exactly then, and the timer is armed exactly so long.
  lemma {:induction false} WaitsUntilReleased(events: seq<Event>)
    ensures Run(events).waiting <==> !Released(events)
    ensures Run(events).armed <==> StartedSinceCancel(events)
    ensures Run(events).waiting ==> Run(events).sent == []
  {
    if events != [] {
      WaitsUntilReleased(Init(events));
    }
  }

  // First in, first out, exactly once: forwarded, then parked, is what was submitted. Nothing
  // is parked and no timer is armed once waiting has ended.
  lemma {:induction false} ForwardedThenParkedIsSubmitted(events: seq<Event>)
    ensures Run(events).sent + Run(events).pending == Submitted(events)
    ensures !Run(events).waiting ==> Run(events).pending == [] && !Run(events).armed
  {
    if events != [] {
      ForwardedThenParkedIsSubmitted(Init(events));
    }
  }

  lemma {:induction false} WaitingNeverResumes(events: seq<Event>, more: seq<Event>)
    requires !Run(events).waiting
    ensures !Run(events + more).waiting
    decreases |more|
  {
    if more == [] {
      assert events + more == events;
    } else {
      assert Init(events + more) == events + Init(more);
      WaitingNeverResumes(events, Init(more));
    }
  }

  // What the manager does to a transfer manager: it never submits without starting.
  datatype Call = Dispatch(payload: Payload) | Changed(medium: Medium) | Disconnected | Fired

  function Events(calls: seq<Call>): seq<Event> {
    if calls == [] then []
    else Events(Init(calls)) + EventsOf(Last(calls))
  }

  function EventsOf(call: Call): seq<Event> {
    match call
    case Dispatch(p) => [Submit(p), Start]
    case Changed(m) => [MediumChanged(m)]
    case Disconnected => [Cancel]
    case Fired => [Timeout]
  }

  // Something was dispatched, and no cancellation has followed it.
  predicate DispatchedSinceCancel(calls: seq<Call>) {
    calls != [] &&
    match Last(calls)
    case Dispatch(_) => true
    case Disconnected => false
    case _ => DispatchedSinceCancel(Init(calls))
  }

  function NextCall(d: Deferral, call: Call): Deferral {
    match call
    case Dispatch(p) => Next(Next(d, Submit(p)), Start)
    case Changed(m) => Next(d, MediumChanged(m))
    case Disconnected => Next(d, Cancel)
    case Fired => Next(d, Timeout)
  }

  lemma RunCall(events: seq<Event>, call: Call)
    ensures Run(events + EventsOf(call)) == NextCall(Run(events), call)
  {
    var e := EventsOf(call)[0];
    assert Init(events + [e]) == events;
    if call.Dispatch? {
      assert events + EventsOf(call) == events + [e] + [Start];
      assert Init(events + [e] + [Start]) == events + [e];
    } else {
      assert EventsOf(call) == [e];
    }
  }

  function RunCalls(calls: seq<Call>): Deferral {
    if calls == [] then FRESH else NextCall(RunCalls(Init(calls)), Last(calls))
  }

  lemma {:induction false} RunCallsIsRun(calls: seq<Call>)
    ensures RunCalls(calls) == Run(Events(calls))
  {
    if calls != [] {
      RunCallsIsRun(Init(calls));
      RunCall(Events(Init(calls)), Last(calls));
    }
  }

  // Driven by the manager, the timer is armed exactly while waiting lasts and the latest
  // dispatch has not been cancelled. So a parked payload always has its timer until then.
  lemma {:induction false} ArmedUntilCancelled(calls: seq<Call>)
    ensures var d := RunCalls(calls);
            && (d.armed <==> d.waiting && DispatchedSinceCancel(calls))
            && (d.pending != [] ==> d.waiting)
            && (d.pending != [] && DispatchedSinceCancel(calls) ==> d.armed)
  {
    if calls != [] {
      ArmedUntilCancelled(Init(calls));
    }
  }
}
