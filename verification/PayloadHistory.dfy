/**
 What has happened to a payload, told from the events alone: who listens for it, whether it
 waits to be completed, what its listeners were told and when it was written as a message. The
 manager's maps and calls are these, after every run.
 */
module PayloadHistory {
  import opened Wrappers
  import opened PayloadTracking
  import opened PayloadRelay

  // The listener was created and has not expired since.
  predicate Alive(events: seq<Event>, l: Listener) {
    events != [] &&
    match Last(events)
    case Created(x) => x == l || Alive(Init(events), l)
    case Expired(x) => x != l && Alive(Init(events), l)
    case _ => Alive(Init(events), l)
  }

  // Who was registered last for the payload, if nothing has ended the listening since: its last
  // update, a cancellation, a second receipt, the loss of what is incoming, or a reset.
  function ListenerOf(events: seq<Event>, id: int): Option<Listener> {
    if events == [] then None
    else
      var before := Init(events);
      match Last(events)
      case Register(x, l) => if x == id then Some(l) else ListenerOf(before, id)
      case Send(x, l) => if x == id && Alive(before, l) then Some(l) else ListenerOf(before, id)
      case Transfer(u, _) => if u.id == id && !u.status.InProgress? then None else ListenerOf(before, id)
      case CancelCalled(x) => if x == id then None else ListenerOf(before, id)
      case Received(x, _) => if x == id && Waiting(before, id) then None else ListenerOf(before, id)
      case ClearIncoming => if Waiting(before, id) then None else ListenerOf(before, id)
      case ResetCalled => None
      case _ => ListenerOf(before, id)
  }

  // The payload was received, as bytes or with a listener, and since then neither did an update
  // without a listener end it, nor was what is incoming cleared.
  predicate Waiting(events: seq<Event>, id: int) {
    events != [] &&
    var before := Init(events);
    match Last(events)
    case Received(x, isBytes) => Waiting(before, id) || (x == id && (isBytes || ListenerOf(before, id).Some?))
    case Transfer(u, _) =>
      Waiting(before, id) && (u.id != id || u.status.InProgress? || ListenerOf(before, id).Some?)
    case ClearIncoming => false
    case ResetCalled => false
    case _ => Waiting(before, id)
  }

  // What the last event tells a listener: an update as it comes, or that the payload is cancelled.
  function ToldBy(events: seq<Event>): seq<Notice>
    requires events != []
  {
    var before := Init(events);
    match Last(events)
    case Transfer(u, _) => ToldIfAlive(before, u.id, u)
    case CancelCalled(id) => ToldIfAlive(before, id, Update(id, Canceled, 0))
    case Received(id, _) => if Waiting(before, id) then ToldIfAlive(before, id, Update(id, Canceled, 0)) else []
    case _ => []
  }

  function ToldIfAlive(events: seq<Event>, id: int, u: Update): seq<Notice> {
    var l := ListenerOf(events, id);
    if l.Some? && Alive(events, l.value) then [Notice(l.value, u)] else []
  }

  function AllTold(events: seq<Event>): seq<Notice> {
    if events == [] then [] else AllTold(Init(events)) + ToldBy(events)
  }

  // A message is written when the success of a waiting payload without listener arrives, if its
  // endpoint has a connection.
  predicate WritesLast(events: seq<Event>)
    requires events != []
  {
    match Last(events)
    case Transfer(u, connected) =>
      connected && u.status.Success? && Waiting(Init(events), u.id) && ListenerOf(Init(events), u.id).None?
    case _ => false
  }

  function Messages(events: seq<Event>): seq<int> {
    if events == [] then []
    else Messages(Init(events)) + if WritesLast(events) then [Last(events).update.id] else []
  }

  // The service is told to cancel a payload when a caller cancels it, when one is received that is
  // not bytes and has no listener, and when one is received again.
  function CancelsLast(events: seq<Event>): seq<int>
    requires events != []
  {
    match Last(events)
    case CancelCalled(id) => [id]
    case Received(id, isBytes) =>
      if (!isBytes && ListenerOf(Init(events), id).None?) || Waiting(Init(events), id) then [id] else []
    case _ => []
  }

  function Cancellations(events: seq<Event>): seq<int> {
    if events == [] then [] else Cancellations(Init(events)) + CancelsLast(events)
  }

  // The manager knows exactly that much.
  ghost predicate Knows(m: Manager, events: seq<Event>) {
    && (forall l :: l in m.alive <==> Alive(events, l))
    && (forall id :: (if id in m.listeners then Some(m.listeners[id]) else None) == ListenerOf(events, id))
    && (forall id :: id in m.incoming <==> Waiting(events, id))
  }

  lemma {:induction false} ManagerKnows(events: seq<Event>)
    ensures Knows(Run(events), events)
  {
    if events != [] {
      ManagerKnows(Init(events));
      StepKnows(Run(Init(events)), Init(events), Last(events));
      assert events == Init(events) + [Last(events)];
    }
  }

  lemma StepKnows(m: Manager, events: seq<Event>, e: Event)
    requires Knows(m, events)
    ensures Knows(Next(m, e), events + [e])
  {
    var after := Next(m, e);
    assert Init(events + [e]) == events;
    forall id
      ensures (if id in after.listeners then Some(after.listeners[id]) else None) == ListenerOf(events + [e], id)
      ensures id in after.incoming <==> Waiting(events + [e], id)
    {
      assert (if id in m.listeners then Some(m.listeners[id]) else None) == ListenerOf(events, id);
      assert id in m.incoming <==> Waiting(events, id);
    }
  }

  // Over every run, what was told, written and cancelled is what the events call for: nothing is
  // missing, nothing is told, written or cancelled besides, and all is in order.
  lemma {:induction false} ToldAndWrittenExactly(events: seq<Event>)
    ensures Run(events).told == AllTold(events) && Run(events).written == Messages(events)
    ensures Run(events).cancelled == Cancellations(events)
  {
    if events != [] {
      ToldAndWrittenExactly(Init(events));
      ManagerKnows(Init(events));
      StepTellsAndWrites(Run(Init(events)), events);
    }
  }

  lemma StepTellsAndWrites(m: Manager, events: seq<Event>)
    requires events != [] && Knows(m, Init(events))
    ensures Next(m, Last(events)).told == m.told + ToldBy(events)
    ensures Next(m, Last(events)).written == m.written + if WritesLast(events) then [Last(events).update.id] else []
    ensures Next(m, Last(events)).cancelled == m.cancelled + CancelsLast(events)
  {
    var e, before := Last(events), Init(events);
    var id := if e.Transfer? then e.update.id else if e.CancelCalled? || e.Received? then e.id else 0;
    assert (if id in m.listeners then Some(m.listeners[id]) else None) == ListenerOf(before, id);
    assert id in m.incoming <==> Waiting(before, id);
  }

  // What may happen to others while a message is under way.
  predicate LeavesMessage(e: Event, id: int) {
    match e
    case Register(x, _) => x != id
    case Send(x, _) => x != id
    case Transfer(u, _) => u.id != id || u.status.InProgress?
    case ClearIncoming => false
    case ResetCalled => false
    case _ => true
  }

  lemma {:induction false} MessageWaits(events: seq<Event>, between: seq<Event>, id: int)
    requires ListenerOf(events, id).None?
    requires forall i :: 0 <= i < |between| ==> LeavesMessage(between[i], id)
    ensures var under := events + [Received(id, true)] + between;
            Waiting(under, id) && ListenerOf(under, id).None?
    decreases |between|
  {
    var received := events + [Received(id, true)];
    assert Init(received) == events;
    if between == [] {
      assert received + between == received;
    } else {
      assert Init(received + between) == received + Init(between);
      assert LeavesMessage(between[|between| - 1], id);
      MessageWaits(events, Init(between), id);
    }
  }

  // Hence a message without a listener is written when its success arrives, whatever has happened
  // before it was received and to other payloads in between.
  lemma MessageIsWritten(events: seq<Event>, between: seq<Event>, id: int, bytes: nat)
    requires ListenerOf(events, id).None?
    requires forall i :: 0 <= i < |between| ==> LeavesMessage(between[i], id)
    ensures var under := events + [Received(id, true)] + between;
            Run(under + [Transfer(Update(id, Success, bytes), true)]).written == Run(under).written + [id]
  {
    var under, e := events + [Received(id, true)] + between, Transfer(Update(id, Success, bytes), true);
    MessageWaits(events, between, id);
    ToldAndWrittenExactly(under + [e]);
    ToldAndWrittenExactly(under);
    assert Init(under + [e]) == under;
  }
}
