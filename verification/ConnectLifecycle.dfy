/**
 The life of an outgoing connection attempt (nearby_connections_manager_impl.cc, lines
 343-503, 696-776 and 898-937): the pending callback, its timeout timer, the connection's
 info and the connection itself.
 */
module ConnectLifecycle {
  import opened Wrappers

  type Endpoint = string

  // Identifies one Connect call and the callback it was given.
  type Token = nat

  datatype Status = Success | Error | Unknown | Timeout | Reset | Other(code: int)

  // How a callback was invoked. `handed` is the connection's endpoint, if one was handed over.
  datatype Outcome = Outcome(endpoint: Endpoint, handed: bool, status: Status)

  datatype Info = Info(incoming: bool, status: Status)

  datatype Manager = Manager(
    pending: map<Endpoint, Token>,   // pending_outgoing_connections_
    timers: set<Endpoint>,           // connect_timeout_timers_
    infos: map<Endpoint, Info>,      // connection_info_map_
    connections: set<Endpoint>,      // connections_
    disconnecting: set<Endpoint>,    // disconnecting_endpoints_
    listening: bool,                 // incoming_connection_listener_ is set
    calls: map<Token, Outcome>,      // the callbacks invoked so far
    invokedTwice: bool,              // some callback was invoked again
    told: seq<Order>)                // what the service and the listener were told

  // The service is asked to connect or to disconnect, the listener is given a connection.
  datatype Order = RequestConnection(to: Endpoint) | DisconnectFrom(to: Endpoint) | Incoming(from: Endpoint)

  const NEW := Manager(map[], {}, map[], {}, {}, false, map[], false, [])

  datatype Event =
    | Connect(endpoint: Endpoint, token: Token)
    | ConnectUnavailable(endpoint: Endpoint, token: Token)
    | Listen(on: bool)
    | Initiated(endpoint: Endpoint, incoming: bool)
    | Accepted(endpoint: Endpoint)
    | Rejected(endpoint: Endpoint, status: Status)
    | TimerFired(endpoint: Endpoint)
    | Requested(endpoint: Endpoint, status: Status)
    | DisconnectCalled(endpoint: Endpoint)
    | Disconnected(endpoint: Endpoint)
    | DisconnectFinished(endpoint: Endpoint)
    | ResetCalled

  function Invoke(m: Manager, token: Token, outcome: Outcome): Manager {
    m.(calls := m.calls[token := outcome], invokedTwice := m.invokedTwice || token in m.calls)
  }

  // The pending callback of the endpoint, if any, is invoked and leaves with its timer.
  function Settle(m: Manager, e: Endpoint, handed: bool, status: Status): Manager {
    if e !in m.pending then m
    else Invoke(m, m.pending[e], Outcome(e, handed, status)).(pending := m.pending - {e}, timers := m.timers - {e})
  }

  function AskDisconnect(m: Manager, e: Endpoint): Manager {
    if (e !in m.pending && e !in m.infos) || e in m.disconnecting then m
    else m.(disconnecting := m.disconnecting + {e}, told := m.told + [DisconnectFrom(e)])
  }

  function NoteStatus(m: Manager, e: Endpoint, status: Status): Manager {
    if e in m.pending && e in m.infos then m.(infos := m.infos[e := m.infos[e].(status := status)]) else m
  }

  function OnDisconnected(m: Manager, e: Endpoint): Manager {
    var status := if e in m.infos then m.infos[e].status else Unknown;
    var settled := Settle(m, e, false, status);
    settled.(infos := m.infos - {e}, connections := m.connections - {e})
  }

  predicate Injective(pending: map<Endpoint, Token>) {
    forall e1, e2 :: e1 in pending && e2 in pending && pending[e1] == pending[e2] ==> e1 == e2
  }

  ghost function Next(m: Manager, event: Event): Manager {
    match event
    case Connect(e, t) =>
      var kept := if e in m.pending then m else m.(pending := m.pending[e := t], timers := m.timers + {e});
      kept.(told := m.told + [RequestConnection(e)])
    case ConnectUnavailable(e, t) => Invoke(m, t, Outcome(e, false, Error))
    case Listen(on) => m.(listening := on)
    case Initiated(e, incoming) => if e in m.infos then m else m.(infos := m.infos[e := Info(incoming, Unknown)])
    case Accepted(e) =>
      if e !in m.infos then m
      else if m.infos[e].incoming then
        if m.listening then m.(connections := m.connections + {e}, told := m.told + [Incoming(e)])
        else AskDisconnect(m, e)
      else if e !in m.pending then AskDisconnect(m, e)
      else Settle(m.(connections := m.connections + {e}), e, true, Success)
    case Rejected(e, status) => Settle(m.(infos := m.infos - {e}), e, false, status)
    case TimerFired(e) => AskDisconnect(NoteStatus(m, e, Timeout), e)
    case Requested(e, status) =>
      if e !in m.pending || status.Success? then m else AskDisconnect(NoteStatus(m, e, status), e)
    case DisconnectCalled(e) => AskDisconnect(m, e)
    case Disconnected(e) => OnDisconnected(m, e)
    case DisconnectFinished(e) => var d := OnDisconnected(m, e); d.(disconnecting := d.disconnecting - {e})
    case ResetCalled =>
      Manager(map[], {}, map[], {}, m.disconnecting, false,
              m.calls + ResetCalls(m.pending),
              m.invokedTwice || !Injective(m.pending) || exists e :: e in m.pending && m.pending[e] in m.calls,
              m.told)
  }

  // Reset invokes every pending callback.
  ghost function ResetCalls(pending: map<Endpoint, Token>): (calls: map<Token, Outcome>)
    ensures calls.Keys == pending.Values
    ensures forall t :: t in calls ==> !calls[t].handed && calls[t].status == Reset
    ensures Injective(pending) ==> forall e :: e in pending ==> calls[pending[e]] == Outcome(e, false, Reset)
  {
    map t | t in pending.Values :: Outcome(EndpointOf(pending, t), false, Reset)
  }

  ghost function EndpointOf(pending: map<Endpoint, Token>, t: Token): (e: Endpoint)
    requires t in pending.Values
    ensures e in pending && pending[e] == t
  {
    var e :| e in pending && pending[e] == t;
    e
  }

  // The caller's side: no second Connect for an endpoint that is pending, and a token per call.
  predicate Allowed(m: Manager, event: Event) {
    match event
    case Connect(e, t) => e !in m.pending && t !in m.pending.Values && t !in m.calls
    case ConnectUnavailable(_, t) => t !in m.pending.Values && t !in m.calls
    case _ => true
  }

  ghost function Run(events: seq<Event>): Option<Manager> {
    if events == [] then Some(NEW)
    else
      var before := Run(Init(events));
      if before.None? || !Allowed(before.value, Last(events)) then None else Some(Next(before.value, Last(events)))
  }

  function Tokens(events: seq<Event>): set<Token> {
    if events == [] then {}
    else
      var e := Last(events);
      Tokens(Init(events)) + (if e.Connect? || e.ConnectUnavailable? then {e.token} else {})
  }

  ghost predicate Inv(m: Manager) {
    && m.timers == m.pending.Keys
    && Injective(m.pending)
    && m.pending.Values !! m.calls.Keys
    && !m.invokedTwice
    && (forall t :: t in m.calls && m.calls[t].handed ==> m.calls[t].status.Success?)
  }

  // The tokens of a map of pending callbacks when an entry is added or leaves.
  lemma ValuesWithout(pending: map<Endpoint, Token>, e: Endpoint)
    requires Injective(pending) && e in pending
    ensures (pending - {e}).Values == pending.Values - {pending[e]} && pending[e] in pending.Values
  {
    forall t | t in pending.Values - {pending[e]}
      ensures t in (pending - {e}).Values
    {
      var other := EndpointOf(pending, t);
      assert (pending - {e})[other] == t;
    }
  }

  lemma ValuesWith(pending: map<Endpoint, Token>, e: Endpoint, t: Token)
    requires e !in pending
    ensures pending[e := t].Values == pending.Values + {t}
  {
    forall u | u in pending.Values + {t}
      ensures u in pending[e := t].Values
    {
      if u == t {
        assert pending[e := t][e] == t;
      } else {
        assert pending[e := t][EndpointOf(pending, u)] == u;
      }
    }
  }

  lemma SettleKeepsInv(m: Manager, e: Endpoint, handed: bool, status: Status)
    requires Inv(m) && (handed ==> status.Success?)
    ensures var s := Settle(m, e, handed, status);
            && Inv(s) && e !in s.pending
            && s.pending.Values + s.calls.Keys == m.pending.Values + m.calls.Keys
  {
    if e in m.pending {
      ValuesWithout(m.pending, e);
    }
  }

  lemma DisconnectKeepsInv(m: Manager, e: Endpoint)
    requires Inv(m)
    ensures var d := OnDisconnected(m, e);
            && Inv(d) && d.pending.Values + d.calls.Keys == m.pending.Values + m.calls.Keys
  {
    SettleKeepsInv(m, e, false, if e in m.infos then m.infos[e].status else Unknown);
  }

  lemma AcceptKeepsInv(m: Manager, e: Endpoint)
    requires Inv(m)
    ensures var a := Next(m, Accepted(e));
            && Inv(a) && a.pending.Values + a.calls.Keys == m.pending.Values + m.calls.Keys
  {
    SettleKeepsInv(m.(connections := m.connections + {e}), e, true, Success);
  }

  lemma ResetKeepsInv(m: Manager)
    requires Inv(m)
    ensures var r := Next(m, ResetCalled);
            && Inv(r) && r.pending.Values + r.calls.Keys == m.pending.Values + m.calls.Keys
  {
    forall e | e in m.pending
      ensures m.pending[e] !in m.calls
    {
      assert m.pending[e] in m.pending.Values;
    }
  }

  lemma AskKeepsInv(m: Manager, e: Endpoint, status: Status)
    requires Inv(m)
    ensures var a := AskDisconnect(NoteStatus(m, e, status), e);
            Inv(a) && a.pending == m.pending && a.calls == m.calls
  {
  }

  // Every event keeps the invariant. The tokens given out are those pending and those whose
  // callback was invoked, so a callback is invoked exactly when its pending entry leaves.
  lemma EventKeepsInv(m: Manager, event: Event)
    requires Inv(m) && Allowed(m, event)
    ensures Inv(Next(m, event))
    ensures Next(m, event).pending.Values + Next(m, event).calls.Keys
         == m.pending.Values + m.calls.Keys
            + (if event.Connect? || event.ConnectUnavailable? then {event.token} else {})
  {
    match event
    case Connect(e, t) => ValuesWith(m.pending, e, t);
    case Accepted(e) => AcceptKeepsInv(m, e);
    case Rejected(e, status) => SettleKeepsInv(m.(infos := m.infos - {e}), e, false, status);
    case TimerFired(e) => AskKeepsInv(m, e, Timeout);
    case Requested(e, status) => AskKeepsInv(m, e, status);
    case Disconnected(e) => DisconnectKeepsInv(m, e);
    case DisconnectFinished(e) => DisconnectKeepsInv(m, e);
    case ResetCalled => ResetKeepsInv(m);
    case _ =>
  }

  // Over every run no callback is invoked twice; every Connect's callback is pending or was
  // invoked, never both; timers and pending entries have the same endpoints.
  lemma {:induction false} EveryConnectSettlesOnce(events: seq<Event>)
    requires Run(events).Some?
    ensures var m := Run(events).value;
            && Inv(m)
            && Tokens(events) == m.pending.Values + m.calls.Keys
  {
    if events != [] {
      EveryConnectSettlesOnce(Init(events));
      EventKeepsInv(Run(Init(events)).value, Last(events));
    }
  }

  // The manager after any events, allowed or not.
  ghost function RunFrom(m: Manager, events: seq<Event>): Manager {
    if events == [] then m else Next(RunFrom(m, Init(events)), Last(events))
  }

  ghost predicate Known(m: Manager, t: Token) {
    t in m.pending.Values || t in m.calls
  }

  predicate Gives(event: Event, t: Token) {
    (event.Connect? || event.ConnectUnavailable?) && event.token == t
  }

  lemma PendingOnlyGiven(m: Manager, event: Event, e: Endpoint)
    requires e in Next(m, event).pending
    ensures var t := Next(m, event).pending[e];
            (e in m.pending && m.pending[e] == t) || Gives(event, t)
  {
  }

  lemma InvokedOnlyKnown(m: Manager, event: Event, t: Token)
    requires t in Next(m, event).calls
    ensures Known(m, t) || Gives(event, t)
  {
  }

  lemma TokensOnlyGiven(m: Manager, event: Event, t: Token)
    requires Known(Next(m, event), t)
    ensures Known(m, t) || Gives(event, t)
  {
    if t in Next(m, event).calls {
      InvokedOnlyKnown(m, event, t);
    } else {
      PendingOnlyGiven(m, event, EndpointOf(Next(m, event).pending, t));
    }
  }

  lemma {:induction false} NeverGivenNeverKnown(m: Manager, events: seq<Event>, t: Token)
    requires !Known(m, t) && forall i :: 0 <= i < |events| ==> !Gives(events[i], t)
    ensures !Known(RunFrom(m, events), t)
  {
    if events != [] {
      NeverGivenNeverKnown(m, Init(events), t);
      assert !Gives(events[|events| - 1], t);
      if Known(RunFrom(m, events), t) {
        TokensOnlyGiven(RunFrom(m, Init(events)), Last(events), t);
      }
    }
  }

  // A second Connect for a pending endpoint is dropped: its callback is kept, or ever invoked
  // later, if and only if no attempt to that endpoint is pending.
  lemma ConnectIsKeptIffNotPending(m: Manager, e: Endpoint, t: Token, later: seq<Event>)
    requires !Known(m, t) && forall i :: 0 <= i < |later| ==> !Gives(later[i], t)
    ensures e !in m.pending ==> Next(m, Connect(e, t)).pending == m.pending[e := t]
    ensures e in m.pending ==> !Known(RunFrom(Next(m, Connect(e, t)), later), t)
  {
    if e in m.pending {
      NeverGivenNeverKnown(Next(m, Connect(e, t)), later, t);
    }
  }

  // A callback that hands over a connection does so while the connection is in the map, for
  // the endpoint it was pending for, and no other event hands one over.
  lemma SuccessHandsOverAConnection(m: Manager, event: Event, t: Token)
    requires Inv(m) && Allowed(m, event)
    requires t !in m.calls && t in Next(m, event).calls && Next(m, event).calls[t].handed
    ensures event.Accepted?
    ensures var e := event.endpoint;
            && Next(m, event).calls[t] == Outcome(e, true, Success)
            && e in m.pending && m.pending[e] == t && e in Next(m, event).connections
  {
  }

  // What leaves an attempt to the endpoint as it is: nothing that settles it, and nothing that
  // notes another status for it. It may be initiated, and a disconnect may be asked for again.
  predicate LeavesAttempt(event: Event, e: Endpoint) {
    match event
    case Connect(other, _) => other != e
    case Accepted(other) => other != e
    case Rejected(other, _) => other != e
    case TimerFired(other) => other != e
    case Requested(other, _) => other != e
    case Disconnected(other) => other != e
    case DisconnectFinished(other) => other != e
    case ResetCalled => false
    case _ => true
  }

  predicate AllLeaveAttempt(events: seq<Event>, e: Endpoint) {
    forall i :: 0 <= i < |events| ==> LeavesAttempt(events[i], e)
  }

  // The attempt is pending and its status was noted if its connection had been initiated.
  predicate TimedOut(m: Manager, e: Endpoint, t: Token, initiated: bool) {
    && e in m.pending && m.pending[e] == t
    && (initiated ==> e in m.infos && m.infos[e].status.Timeout?)
    && (!initiated && e in m.infos ==> m.infos[e].status.Unknown?)
  }

  lemma StaysTimedOut(m: Manager, event: Event, e: Endpoint, t: Token, initiated: bool)
    requires TimedOut(m, e, t, initiated) && LeavesAttempt(event, e)
    ensures TimedOut(Next(m, event), e, t, initiated)
  {
    if event.Accepted? || event.Rejected? || event.Disconnected? || event.DisconnectFinished? {
      ElsewhereLeaves(m, event, e);
    }
  }

  // An attempt that settles elsewhere.
  lemma ElsewhereLeaves(m: Manager, event: Event, e: Endpoint)
    requires event.Accepted? || event.Rejected? || event.Disconnected? || event.DisconnectFinished?
    requires e in m.pending && event.endpoint != e
    ensures var after := Next(m, event);
            && e in after.pending && after.pending[e] == m.pending[e]
            && (e in after.infos <==> e in m.infos) && (e in m.infos ==> after.infos[e] == m.infos[e])
  {
  }

  lemma {:induction false} TimeoutLasts(m: Manager, e: Endpoint, between: seq<Event>)
    requires e in m.pending && AllLeaveAttempt(between, e)
    ensures TimedOut(RunFrom(Next(m, TimerFired(e)), between), e, m.pending[e], e in m.infos)
  {
    if between != [] {
      TimeoutLasts(m, e, Init(between));
      assert LeavesAttempt(between[|between| - 1], e);
      StaysTimedOut(RunFrom(Next(m, TimerFired(e)), Init(between)), Last(between), e, m.pending[e], e in m.infos);
    }
  }

  // A timed-out attempt that ends with a disconnect reports the timeout if and only if its
  // connection had been initiated when the timer fired; otherwise the status is unknown.
  lemma TimeoutIsReportedIffInitiated(m: Manager, e: Endpoint, between: seq<Event>, finished: bool)
    requires e in m.pending && AllLeaveAttempt(between, e)
    ensures var before := RunFrom(Next(m, TimerFired(e)), between);
            var after := Next(before, if finished then DisconnectFinished(e) else Disconnected(e));
            && m.pending[e] in after.calls
            && after.calls[m.pending[e]] == Outcome(e, false, if e in m.infos then Timeout else Unknown)
            && e !in after.pending && e !in after.infos && e !in after.connections
  {
    TimeoutLasts(m, e, between);
  }

  // A connection that is accepted before that is handed over all the same.
  lemma AcceptedAfterTimeout(m: Manager, e: Endpoint, between: seq<Event>)
    requires e in m.pending && e in m.infos && !m.infos[e].incoming && AllLeaveAttempt(between, e)
    ensures var after := Next(RunFrom(Next(m, TimerFired(e)), between), Accepted(e));
            m.pending[e] in after.calls && after.calls[m.pending[e]] == Outcome(e, true, Success)
  {
    TimeoutLasts(m, e, between);
    StaysOutgoing(m, e, between);
  }

  lemma {:induction false} StaysOutgoing(m: Manager, e: Endpoint, between: seq<Event>)
    requires e in m.infos && !m.infos[e].incoming && AllLeaveAttempt(between, e)
    ensures var after := RunFrom(Next(m, TimerFired(e)), between);
            e in after.infos && !after.infos[e].incoming
  {
    if between != [] {
      StaysOutgoing(m, e, Init(between));
      assert LeavesAttempt(between[|between| - 1], e);
      StaysInitiated(RunFrom(Next(m, TimerFired(e)), Init(between)), Last(between), e);
    }
  }

  lemma StaysInitiated(m: Manager, event: Event, e: Endpoint)
    requires e in m.infos && !m.infos[e].incoming && LeavesAttempt(event, e)
    ensures e in Next(m, event).infos && !Next(m, event).infos[e].incoming
  {
  }

  lemma ResetCallsStep(pending: map<Endpoint, Token>, e: Endpoint)
    requires Injective(pending) && e in pending
    ensures var rest := pending - {e};
            && Injective(rest) && rest.Values == pending.Values - {pending[e]} && pending[e] in pending.Values
            && ResetCalls(pending) == ResetCalls(rest)[pending[e] := Outcome(e, false, Reset)]
  {
    ValuesWithout(pending, e);
    var rest := pending - {e};
    forall t | t in rest.Values
      ensures ResetCalls(rest)[t] == ResetCalls(pending)[t]
    {
      var other := EndpointOf(rest, t);
      assert pending[other] == t;
    }
  }

  // One turn of Reset's loop.
  lemma ResetTurn(calls: map<Token, Outcome>, pending: map<Endpoint, Token>, e: Endpoint)
    requires Injective(pending) && e in pending && pending.Values !! calls.Keys
    ensures var rest, after := pending - {e}, calls[pending[e] := Outcome(e, false, Reset)];
            && Injective(rest) && rest.Values !! after.Keys && pending[e] !in calls
            && after + ResetCalls(rest) == calls + ResetCalls(pending)
  {
    ResetCallsStep(pending, e);
  }

  // The part of the manager that concerns connections; PayloadRelay has the part that concerns
  // payloads. Only Reset touches both.
  class NearbyConnectionsManagerImpl {
    var pending: map<Endpoint, Token>
    var timers: set<Endpoint>
    var infos: map<Endpoint, Info>
    var connections: set<Endpoint>
    var disconnecting: set<Endpoint>
    var listening: bool
    ghost var calls: map<Token, Outcome>
    ghost var invokedTwice: bool
    ghost var told: seq<Order>

    ghost function State(): Manager
      reads this
    {
      Manager(pending, timers, infos, connections, disconnecting, listening, calls, invokedTwice, told)
    }

    constructor ()
      ensures State() == NEW
    {
      pending, timers, infos, connections, disconnecting, listening := map[], {}, map[], {}, {}, false;
      calls, invokedTwice, told := map[], false, [];
    }

    // Runs the callback of a Connect call.
    ghost method Call(token: Token, outcome: Outcome)
      modifies this`calls, this`invokedTwice
      ensures State() == Invoke(old(State()), token, outcome)
    {
      invokedTwice := invokedTwice || token in calls;
      calls := calls[token := outcome];
    }

    method ConnectTo(e: Endpoint, token: Token, service: bool)
      modifies this
      ensures State() == Next(old(State()), if service then Connect(e, token) else ConnectUnavailable(e, token))
    {
      if !service {
        Call(token, Outcome(e, false, Error));
        return;
      }
      if e !in pending {
        pending := pending[e := token];
        timers := timers + {e};
      }
      Tell(RequestConnection(e));
    }

    // Calls the connections service, or the listener for incoming connections.
    ghost method Tell(order: Order)
      modifies this`told
      ensures told == old(told) + [order]
    {
      told := told + [order];
    }

    method SetListener(on: bool)
      modifies this
      ensures State() == Next(old(State()), Listen(on))
    {
      listening := on;
    }

    method OnConnectionTimedOut(e: Endpoint)
      modifies this
      ensures State() == Next(old(State()), TimerFired(e))
    {
      if e in pending {
        if e in infos {
          infos := infos[e := infos[e].(status := Timeout)];
        }
      }
      Disconnect(e);
    }

    method OnConnectionRequested(e: Endpoint, status: Status)
      modifies this
      ensures State() == Next(old(State()), Requested(e, status))
    {
      if e !in pending {
        return;
      }
      if status != Success {
        if e in infos {
          infos := infos[e := infos[e].(status := status)];
        }
        Disconnect(e);
      }
    }

    method Disconnect(e: Endpoint)
      modifies this
      ensures State() == Next(old(State()), DisconnectCalled(e))
    {
      if e !in pending && e !in infos {
        return;
      }
      if e in disconnecting {
        return;
      }
      disconnecting := disconnecting + {e};
      Tell(DisconnectFrom(e));
    }

    // The task that the service's answer to DisconnectFromEndpoint posts.
    method OnDisconnectFinished(e: Endpoint)
      modifies this
      ensures State() == Next(old(State()), DisconnectFinished(e))
    {
      OnDisconnectedFrom(e);
      disconnecting := disconnecting - {e};
    }

    method OnConnectionInitiated(e: Endpoint, incoming: bool)
      modifies this
      ensures State() == Next(old(State()), Initiated(e, incoming))
    {
      if e !in infos {
        infos := infos[e := Info(incoming, Unknown)];
      }
    }

    method OnConnectionAccepted(e: Endpoint)
      modifies this
      ensures State() == Next(old(State()), Accepted(e))
    {
      if e !in infos {
        return;
      }
      if infos[e].incoming {
        if !listening {
          Disconnect(e);
          return;
        }
        connections := connections + {e};
        Tell(Incoming(e));
      } else {
        if e !in pending {
          Disconnect(e);
          return;
        }
        connections := connections + {e};
        Call(pending[e], Outcome(e, true, Success));
        pending := pending - {e};
        timers := timers - {e};
      }
    }

    method OnConnectionRejected(e: Endpoint, status: Status)
      modifies this
      ensures State() == Next(old(State()), Rejected(e, status))
    {
      infos := infos - {e};
      if e in pending {
        Call(pending[e], Outcome(e, false, status));
        pending := pending - {e};
        timers := timers - {e};
      }
    }

    method OnDisconnectedFrom(e: Endpoint)
      modifies this
      ensures State() == Next(old(State()), Disconnected(e))
    {
      var status := Unknown;
      if e in infos {
        status := infos[e].status;
        infos := infos - {e};
      }
      assert infos == old(infos) - {e};
      if e in pending {
        Call(pending[e], Outcome(e, false, status));
        pending := pending - {e};
        timers := timers - {e};
      }
      connections := connections - {e};
    }

    method ResetAll()
      requires Inv(State())
      modifies this
      ensures State() == Next(old(State()), ResetCalled)
    {
      connections := {};
      infos := map[];
      listening := false;
      timers := {};
      InvokeAllPending();
      pending := map[];
    }

    // Reset's loop over the pending callbacks.
    method InvokeAllPending()
      requires Injective(pending) && pending.Values !! calls.Keys
      modifies this`calls, this`invokedTwice
      ensures calls == old(calls) + ResetCalls(pending) && invokedTwice == old(invokedTwice)
    {
      var entries := pending;
      while entries.Keys != {}
        invariant Injective(entries) && entries.Values !! calls.Keys
        invariant calls + ResetCalls(entries) == old(calls) + ResetCalls(pending)
        invariant invokedTwice == old(invokedTwice)
        decreases entries.Keys
      {
        var e :| e in entries.Keys;
        ResetTurn(calls, entries, e);
        Call(entries[e], Outcome(e, false, Reset));
        entries := entries - {e};
      }
      assert ResetCalls(entries).Keys == {};
      assert calls == calls + ResetCalls(entries);
    }
  }
}
