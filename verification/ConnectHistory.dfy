/**
 What has happened to an endpoint, told from the events alone: whose Connect is pending, what is
 known of its connection, and how each Connect was answered. The manager's maps and callbacks
 are these, after every run.
 */
module ConnectHistory {
  import opened Wrappers
  import opened ConnectLifecycle

  // Whether the last event names the endpoint's connection as gone.
  predicate Goes(event: Event, e: Endpoint) {
    match event
    case Disconnected(x) => x == e
    case DisconnectFinished(x) => x == e
    case ResetCalled => true
    case _ => false
  }

  // What is known of an endpoint after some events: the Connect that waits, whether the connection
  // was initiated and from the outside, what a disconnect would report, whether incoming ones are
  // heard, and whether there is a connection or a disconnect under way.
  datatype Facts = Facts(
    pending: Option<Token>, known: Option<bool>, noted: Status, hears: bool, joined: bool, leaving: bool)
  {
    // An acceptance makes a connection if the incoming ones are heard, or the outgoing one is
    // waited for.
    predicate Welcome() {
      known.Some? && if known.value then hears else pending.Some?
    }
  }

  function FactsOf(events: seq<Event>, e: Endpoint): Facts
    decreases |events|, 1
  {
    Facts(Pending(events, e), KnownOf(events, e), Noted(events, e),
          Hears(events), Joined(events, e), Leaving(events, e))
  }

  // The first Connect since the last one was answered, by an acceptance of the outgoing
  // connection, a rejection, a disconnect or a reset.
  function Pending(events: seq<Event>, e: Endpoint): Option<Token> {
    if events == [] then None
    else PendingAfter(Last(events), e, Pending(Init(events), e), KnownOf(Init(events), e))
  }

  function PendingAfter(event: Event, e: Endpoint, waits: Option<Token>, known: Option<bool>): Option<Token> {
    if Goes(event, e) then None
    else
      match event
      case Connect(x, t) => if x == e && waits.None? then Some(t) else waits
      case Accepted(x) => if x == e && known == Some(false) then None else waits
      case Rejected(x, _) => if x == e then None else waits
      case _ => waits
  }

  // Whether the connection was initiated, from the outside or not, and is not gone since.
  function KnownOf(events: seq<Event>, e: Endpoint): Option<bool> {
    if events == [] then None else KnownAfter(Last(events), e, KnownOf(Init(events), e))
  }

  function KnownAfter(event: Event, e: Endpoint, known: Option<bool>): Option<bool> {
    if Goes(event, e) then None
    else
      match event
      case Initiated(x, incoming) => if x == e && known.None? then Some(incoming) else known
      case Rejected(x, _) => if x == e then None else known
      case _ => known
  }

  // A timeout or a refused request, whichever came last to a pending Connect whose connection was
  // known and is not gone since, and otherwise unknown.
  function Noted(events: seq<Event>, e: Endpoint): Status {
    if events == [] then Unknown
    else NotedAfter(Last(events), e, Pending(Init(events), e), KnownOf(Init(events), e), Noted(Init(events), e))
  }

  function NotedAfter(event: Event, e: Endpoint, waits: Option<Token>, known: Option<bool>, noted: Status): Status {
    if Goes(event, e) then Unknown
    else
      match event
      case Rejected(x, _) => if x == e then Unknown else noted
      case TimerFired(x) => if x == e && waits.Some? && known.Some? then Timeout else noted
      case Requested(x, status) =>
        if x == e && waits.Some? && known.Some? && !status.Success? then status else noted
      case _ => noted
  }

  predicate Hears(events: seq<Event>) {
    events != [] && HearsAfter(Last(events), Hears(Init(events)))
  }

  predicate HearsAfter(event: Event, hears: bool) {
    match event
    case Listen(on) => on
    case ResetCalled => false
    case _ => hears
  }

  // There is a connection: it was accepted while welcome, and is not gone since.
  predicate Joined(events: seq<Event>, e: Endpoint) {
    events != [] && !Goes(Last(events), e) &&
    (Joined(Init(events), e) || (Last(events) == Accepted(e) && Welcome(Init(events), e)))
  }

  predicate Welcome(events: seq<Event>, e: Endpoint) {
    match KnownOf(events, e)
    case None => false
    case Some(incoming) => if incoming then Hears(events) else Pending(events, e).Some?
  }

  // A disconnect is under way: it was asked for, by a caller, a timer, a refused request or an
  // acceptance that is not welcome, while there was something to disconnect.
  predicate Leaving(events: seq<Event>, e: Endpoint)
    decreases |events|, 0
  {
    events != [] &&
    match Last(events)
    case DisconnectFinished(x) => x != e && Leaving(Init(events), e)
    case _ => Leaving(Init(events), e) || AsksToLeave(Last(events), e, FactsOf(Init(events), e))
  }

  predicate AsksToLeave(event: Event, e: Endpoint, f: Facts) {
    match event
    case DisconnectCalled(x) => x == e && (f.pending.Some? || f.known.Some?)
    case TimerFired(x) => x == e && (f.pending.Some? || f.known.Some?)
    case Requested(x, status) => x == e && f.pending.Some? && !status.Success?
    case Accepted(x) => x == e && f.known.Some? && !f.Welcome()
    case _ => false
  }

  // How the last event answers the Connect that is pending for the endpoint, if it does.
  function Answer(events: seq<Event>, e: Endpoint): Option<Outcome>
    requires events != []
  {
    var before := Init(events);
    if Pending(before, e).None? then None
    else
      match Last(events)
      case Accepted(x) => if x == e && KnownOf(before, e) == Some(false) then Some(Outcome(e, true, Success)) else None
      case Rejected(x, status) => if x == e then Some(Outcome(e, false, status)) else None
      case Disconnected(x) => if x == e then Some(Outcome(e, false, Noted(before, e))) else None
      case DisconnectFinished(x) => if x == e then Some(Outcome(e, false, Noted(before, e))) else None
      case ResetCalled => Some(Outcome(e, false, Reset))
      case _ => None
  }

  // What the manager has of the endpoint.
  function View(m: Manager, e: Endpoint): Facts {
    Facts(if e in m.pending then Some(m.pending[e]) else None,
          if e in m.infos then Some(m.infos[e].incoming) else None,
          if e in m.infos then m.infos[e].status else Unknown,
          m.listening, e in m.connections, e in m.disconnecting)
  }

  // After every run it has exactly what has happened.
  lemma {:induction false} ManagerKnows(events: seq<Event>, e: Endpoint)
    ensures View(RunFrom(NEW, events), e) == FactsOf(events, e)
  {
    if events != [] {
      var m, before, event := RunFrom(NEW, Init(events)), Init(events), Last(events);
      ManagerKnows(before, e);
      ViewMovesOn(m, event, e);
      assert Welcome(before, e) == FactsOf(before, e).Welcome();
    }
  }

  lemma ViewMovesOn(m: Manager, event: Event, e: Endpoint)
    ensures var (f, after) := (View(m, e), View(Next(m, event), e));
            && after.pending == PendingAfter(event, e, f.pending, f.known)
            && after.known == KnownAfter(event, e, f.known)
            && after.noted == NotedAfter(event, e, f.pending, f.known, f.noted)
            && after.hears == HearsAfter(event, f.hears)
            && (after.joined <==> !Goes(event, e) && (f.joined || (event == Accepted(e) && f.Welcome())))
            && (after.leaving <==> if event.DisconnectFinished? then event.endpoint != e && f.leaving
                                   else f.leaving || AsksToLeave(event, e, f))
  {
    PendingMovesOn(m, event, e);
    KnownMovesOn(m, event, e);
    HearingMovesOn(m, event, e);
    NotedMovesOn(m, event, e);
    JoinedMovesOn(m, event, e);
    LeavingMovesOn(m, event, e);
  }

  lemma PendingMovesOn(m: Manager, event: Event, e: Endpoint)
    ensures View(Next(m, event), e).pending == PendingAfter(event, e, View(m, e).pending, View(m, e).known)
  {
  }

  lemma KnownMovesOn(m: Manager, event: Event, e: Endpoint)
    ensures View(Next(m, event), e).known == KnownAfter(event, e, View(m, e).known)
  {
    match event
    case TimerFired(x) => TimerLeaves(m, x, e);
    case Requested(x, status) => RefusalLeaves(m, x, status, e);
    case _ =>
  }

  // A timer and a refused request only note a status and ask for a disconnect.
  lemma TimerLeaves(m: Manager, x: Endpoint, e: Endpoint)
    ensures var (f, after) := (View(m, e), View(Next(m, TimerFired(x)), e));
            && after.known == f.known
            && after.noted == NotedAfter(TimerFired(x), e, f.pending, f.known, f.noted)
            && (after.leaving <==> f.leaving || AsksToLeave(TimerFired(x), e, f))
  {
  }

  lemma RefusalLeaves(m: Manager, x: Endpoint, status: Status, e: Endpoint)
    ensures var (f, after) := (View(m, e), View(Next(m, Requested(x, status)), e));
            && after.known == f.known
            && after.noted == NotedAfter(Requested(x, status), e, f.pending, f.known, f.noted)
            && (after.leaving <==> f.leaving || AsksToLeave(Requested(x, status), e, f))
  {
  }

  lemma HearingMovesOn(m: Manager, event: Event, e: Endpoint)
    ensures View(Next(m, event), e).hears == HearsAfter(event, View(m, e).hears)
  {
  }

  lemma NotedMovesOn(m: Manager, event: Event, e: Endpoint)
    ensures var f := View(m, e);
            View(Next(m, event), e).noted == NotedAfter(event, e, f.pending, f.known, f.noted)
  {
    match event
    case TimerFired(x) => TimerLeaves(m, x, e);
    case Requested(x, status) => RefusalLeaves(m, x, status, e);
    case _ => NothingNoted(m, event, e);
  }

  lemma NothingNoted(m: Manager, event: Event, e: Endpoint)
    requires !event.TimerFired? && !event.Requested?
    ensures var f := View(m, e);
            View(Next(m, event), e).noted == NotedAfter(event, e, f.pending, f.known, f.noted)
  {
  }

  lemma JoinedMovesOn(m: Manager, event: Event, e: Endpoint)
    ensures View(Next(m, event), e).joined
            <==> !Goes(event, e) && (View(m, e).joined || (event == Accepted(e) && View(m, e).Welcome()))
  {
  }

  lemma LeavingMovesOn(m: Manager, event: Event, e: Endpoint)
    ensures var f := View(m, e);
            View(Next(m, event), e).leaving
            <==> if event.DisconnectFinished? then event.endpoint != e && f.leaving
                 else f.leaving || AsksToLeave(event, e, f)
  {
    match event
    case TimerFired(x) => TimerLeaves(m, x, e);
    case Requested(x, status) => RefusalLeaves(m, x, status, e);
    case _ =>
  }

  // What the last event makes the manager tell the service and the listener: a Connect is passed on
  // even if it is dropped, an endpoint is disconnected unless that is under way already, and an
  // incoming connection is handed to a listener that hears.
  function Orders(event: Event, f: Facts): seq<Order> {
    match event
    case Connect(x, _) => [RequestConnection(x)]
    case Accepted(x) =>
      if f.known == Some(true) && f.hears then [Incoming(x)]
      else if AsksToLeave(event, x, f) && !f.leaving then [DisconnectFrom(x)] else []
    case TimerFired(x) => if AsksToLeave(event, x, f) && !f.leaving then [DisconnectFrom(x)] else []
    case Requested(x, _) => if AsksToLeave(event, x, f) && !f.leaving then [DisconnectFrom(x)] else []
    case DisconnectCalled(x) => if AsksToLeave(event, x, f) && !f.leaving then [DisconnectFrom(x)] else []
    case _ => []
  }

  function EndpointOfEvent(event: Event): Endpoint {
    if event.Listen? || event.ResetCalled? then "" else event.endpoint
  }

  function AllOrders(events: seq<Event>): seq<Order> {
    if events == [] then []
    else AllOrders(Init(events)) + Orders(Last(events), FactsOf(Init(events), EndpointOfEvent(Last(events))))
  }

  lemma OrdersOfStep(m: Manager, event: Event)
    ensures Next(m, event).told == m.told + Orders(event, View(m, EndpointOfEvent(event)))
  {
    match event
    case Accepted(x) => OrdersOfAcceptance(m, x);
    case Requested(x, status) => OrdersOfRefusal(m, x, status);
    case TimerFired(x) => OrdersOfTimer(m, x);
    case _ =>
  }

  lemma OrdersOfAcceptance(m: Manager, x: Endpoint)
    ensures Next(m, Accepted(x)).told == m.told + Orders(Accepted(x), View(m, x))
  {
  }

  lemma OrdersOfRefusal(m: Manager, x: Endpoint, status: Status)
    ensures Next(m, Requested(x, status)).told == m.told + Orders(Requested(x, status), View(m, x))
  {
  }

  lemma OrdersOfTimer(m: Manager, x: Endpoint)
    ensures Next(m, TimerFired(x)).told == m.told + Orders(TimerFired(x), View(m, x))
  {
  }

  // Over every run they are told exactly that, in this order.
  lemma {:induction false} ToldExactly(events: seq<Event>)
    ensures RunFrom(NEW, events).told == AllOrders(events)
  {
    if events != [] {
      ToldExactly(Init(events));
      ManagerKnows(Init(events), EndpointOfEvent(Last(events)));
      OrdersOfStep(RunFrom(NEW, Init(events)), Last(events));
    }
  }

  // Over every run: at each event, each Connect that the event answers is answered so, and every
  // Connect without a service with an error. Nothing else is answered.
  lemma AnsweredSo(events: seq<Event>)
    requires events != [] && Run(events).Some?
    ensures var (before, after) := (Run(Init(events)).value, Run(events).value);
            && (forall e :: e in before.pending && Answer(events, e).Some? ==>
                  before.pending[e] in after.calls && after.calls[before.pending[e]] == Answer(events, e).value)
            && (Last(events).ConnectUnavailable? ==>
                  Last(events).token in after.calls
                  && after.calls[Last(events).token] == Outcome(Last(events).endpoint, false, Error))
            && (forall t :: t in before.calls ==> t in after.calls && after.calls[t] == before.calls[t])
            && (forall t :: t in after.calls && t !in before.calls ==>
                  Last(events) == ConnectUnavailable(after.calls[t].endpoint, t)
                  || exists e :: e in before.pending && before.pending[e] == t && Answer(events, e).Some?)
  {
    var m, event := Run(Init(events)).value, Last(events);
    EveryConnectSettlesOnce(Init(events));
    RunIsRunFrom(Init(events));
    forall e
      ensures View(m, e) == FactsOf(Init(events), e)
    {
      ManagerKnows(Init(events), e);
    }
    StepAnswers(m, events);
    OnlyAnswers(m, events);
  }

  lemma {:induction false} RunIsRunFrom(events: seq<Event>)
    requires Run(events).Some?
    ensures Run(events).value == RunFrom(NEW, events)
  {
    if events != [] {
      RunIsRunFrom(Init(events));
    }
  }

  lemma StepAnswers(m: Manager, events: seq<Event>)
    requires events != [] && Inv(m) && Allowed(m, Last(events))
    requires forall e :: View(m, e) == FactsOf(Init(events), e)
    ensures forall e :: e in m.pending && Answer(events, e).Some? ==>
              m.pending[e] in Next(m, Last(events)).calls
              && Next(m, Last(events)).calls[m.pending[e]] == Answer(events, e).value
  {
    var after := Next(m, Last(events));
    forall e | e in m.pending && Answer(events, e).Some?
      ensures m.pending[e] in after.calls && after.calls[m.pending[e]] == Answer(events, e).value
    {
      assert View(m, e) == FactsOf(Init(events), e);
    }
  }

  lemma OnlyAnswers(m: Manager, events: seq<Event>)
    requires events != [] && Inv(m) && Allowed(m, Last(events))
    requires forall e :: View(m, e) == FactsOf(Init(events), e)
    ensures var (event, after) := (Last(events), Next(m, Last(events)));
            && (event.ConnectUnavailable? ==>
                  event.token in after.calls && after.calls[event.token] == Outcome(event.endpoint, false, Error))
            && (forall t :: t in m.calls ==> t in after.calls && after.calls[t] == m.calls[t])
            && (forall t :: t in after.calls && t !in m.calls ==>
                  event == ConnectUnavailable(after.calls[t].endpoint, t)
                  || exists e :: e in m.pending && m.pending[e] == t && Answer(events, e).Some?)
  {
    var event, after := Last(events), Next(m, Last(events));
    forall t | t in after.calls && t !in m.calls && !event.ConnectUnavailable?
      ensures exists e :: e in m.pending && m.pending[e] == t && Answer(events, e).Some?
    {
      var e := AnsweredFor(m, event, t);
      assert View(m, e) == FactsOf(Init(events), e);
      assert Answer(events, e).Some?;
    }
  }

  // A Connect that is answered was pending, for the endpoint that the event concerns.
  lemma AnsweredFor(m: Manager, event: Event, t: Token) returns (e: Endpoint)
    requires t in Next(m, event).calls && t !in m.calls && !event.ConnectUnavailable?
    ensures e in m.pending && m.pending[e] == t
    ensures match event
            case Accepted(x) => x == e && e in m.infos && !m.infos[e].incoming
            case Rejected(x, _) => x == e
            case Disconnected(x) => x == e
            case DisconnectFinished(x) => x == e
            case ResetCalled => true
            case _ => false
  {
    e := if event.ResetCalled? then EndpointOf(m.pending, t) else event.endpoint;
  }
}
