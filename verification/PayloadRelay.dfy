/**
 How the connections manager passes payload updates on to their listeners
 (nearby_connections_manager_impl.cc, lines 505-516, 541-592, 794-876 and 898-937), and what
 that means for a tracker at the other end of the listener's queue.
 */
module PayloadRelay {
  import opened Wrappers
  import opened PayloadTracking

  // Identifies a payload status listener, which is held weakly.
  type Listener = nat

  // What has been passed to a listener.
  datatype Notice = Notice(listener: Listener, update: Update)

  datatype Manager = Manager(
    listeners: map<int, Listener>,  // payload_status_listeners_
    incoming: set<int>,             // the ids of incoming_payloads_
    alive: set<Listener>,           // the listeners that still exist
    told: seq<Notice>,
    written: seq<int>,              // the payloads written to a connection as messages
    cancelled: seq<int>)            // the payloads that the service was told to cancel

  const NEW := Manager(map[], {}, {}, [], [], [])

  datatype Event =
    | Created(listener: Listener)
    | Expired(listener: Listener)
    | Register(id: int, listener: Listener)
    | Send(id: int, listener: Listener)
    | Received(id: int, isBytes: bool)
    | Transfer(update: Update, connected: bool)
    | CancelCalled(id: int)
    | ClearIncoming
    | ResetCalled

  function Tell(m: Manager, l: Listener, u: Update): Manager {
    if l in m.alive then m.(told := m.told + [Notice(l, u)]) else m
  }

  function Cancelled(m: Manager, id: int): Manager {
    var stopped := m.(cancelled := m.cancelled + [id]);
    if id !in m.listeners then stopped
    else Tell(stopped.(listeners := m.listeners - {id}), m.listeners[id], Update(id, Canceled, 0))
  }

  function Relayed(m: Manager, u: Update, connected: bool): Manager {
    if u.id in m.listeners then
      var kept := if u.status.InProgress? then m.listeners else m.listeners - {u.id};
      Tell(m.(listeners := kept), m.listeners[u.id], u)
    else if u.status.InProgress? then m
    else
      var left := m.(incoming := m.incoming - {u.id});
      if u.id in m.incoming && u.status.Success? && connected then left.(written := m.written + [u.id]) else left
  }

  function Next(m: Manager, e: Event): Manager {
    match e
    case Created(l) => m.(alive := m.alive + {l})
    case Expired(l) => m.(alive := m.alive - {l})
    case Register(id, l) => m.(listeners := m.listeners[id := l])
    case Send(id, l) => if l in m.alive then m.(listeners := m.listeners[id := l]) else m
    case Received(id, isBytes) =>
      if (!isBytes && id !in m.listeners) || id in m.incoming then Cancelled(m, id)
      else m.(incoming := m.incoming + {id})
    case Transfer(u, connected) => Relayed(m, u, connected)
    case CancelCalled(id) => Cancelled(m, id)
    case ClearIncoming => m.(listeners := m.listeners - m.incoming, incoming := {})
    case ResetCalled => m.(listeners := map[], incoming := {})
  }

  function Run(events: seq<Event>): Manager {
    if events == [] then NEW else Next(Run(Init(events)), Last(events))
  }

  lemma Inhabited(ids: set<int>)
    ensures ids == {} || exists id :: id in ids
  {
    if forall id :: id !in ids {
      assert ids == {};
    }
  }

  lemma WithoutOne(listeners: map<int, Listener>, gone: set<int>, id: int)
    ensures (listeners - gone) - {id} == listeners - (gone + {id})
  {
  }

  // The part of the manager that concerns payloads; ConnectLifecycle has the part that concerns
  // connections. Only Reset touches both.
  class NearbyConnectionsManagerImpl {
    var listeners: map<int, Listener>
    var incoming: set<int>
    ghost var alive: set<Listener>
    ghost var told: seq<Notice>
    ghost var written: seq<int>
    ghost var cancelled: seq<int>

    ghost function State(): Manager
      reads this
    {
      Manager(listeners, incoming, alive, told, written, cancelled)
    }

    constructor ()
      ensures State() == NEW
    {
      listeners, incoming, alive, told, written, cancelled := map[], {}, {}, [], [], [];
    }

    // Locks the weak pointer, which finds the listener or nothing, and calls it if found.
    ghost method OnStatusUpdate(l: Listener, u: Update)
      modifies this`told
      ensures State() == Tell(old(State()), l, u)
    {
      if l in alive {
        told := told + [Notice(l, u)];
      }
    }

    method RegisterPayloadStatusListener(id: int, l: Listener)
      modifies this
      ensures State() == Next(old(State()), Register(id, l))
    {
      listeners := listeners[id := l];
    }

    // `locked` tells whether the listener still exists.
    method RegisterForSend(id: int, l: Listener, locked: bool)
      requires locked <==> l in alive
      modifies this
      ensures State() == Next(old(State()), Send(id, l))
    {
      if locked {
        RegisterPayloadStatusListener(id, l);
      }
    }

    method Cancel(id: int)
      modifies this
      ensures State() == Next(old(State()), CancelCalled(id))
    {
      if id in listeners {
        var l := listeners[id];
        listeners := listeners - {id};
        OnStatusUpdate(l, Update(id, Canceled, 0));
      }
      CancelPayload(id);
    }

    ghost method CancelPayload(id: int)
      modifies this`cancelled
      ensures cancelled == old(cancelled) + [id]
    {
      cancelled := cancelled + [id];
    }

    method OnPayloadReceived(id: int, isBytes: bool)
      modifies this
      ensures State() == Next(old(State()), Received(id, isBytes))
    {
      if !isBytes && id !in listeners {
        Cancel(id);
        return;
      }
      if id !in incoming {
        incoming := incoming + {id};
        return;
      }
      Cancel(id);
    }

    // `connected` tells whether the endpoint has a connection.
    method OnPayloadTransferUpdate(u: Update, connected: bool)
      modifies this
      ensures State() == Next(old(State()), Transfer(u, connected))
    {
      if u.id in listeners {
        var l := listeners[u.id];
        match u.status {
          case InProgress =>
          case Success | Canceled | Failure => listeners := listeners - {u.id};
        }
        OnStatusUpdate(l, u);
        return;
      }
      if u.status == InProgress {
        return;
      }
      var known := u.id in incoming;
      incoming := incoming - {u.id};
      if !known {
        return;
      }
      if u.status != Success {
        return;
      }
      if !connected {
        return;
      }
      WriteMessage(u.id);
    }

    ghost method WriteMessage(id: int)
      modifies this`written
      ensures written == old(written) + [id]
    {
      written := written + [id];
    }

    method ClearIncomingPayloads()
      modifies this
      ensures State() == Next(old(State()), ClearIncoming)
    {
      var todo := incoming;
      ghost var gone: set<int> := {};
      while todo != {}
        invariant gone + todo == incoming
        invariant listeners == old(listeners) - gone
        invariant unchanged(`incoming, `alive, `told, `written, `cancelled)
        decreases |todo|
      {
        Inhabited(todo);
        var id :| id in todo;
        WithoutOne(old(listeners), gone, id);
        listeners := listeners - {id};
        todo := todo - {id};
        gone := gone + {id};
      }
      assert gone == incoming;
      incoming := {};
    }

    method ResetPayloads()
      modifies this
      ensures State() == Next(old(State()), ResetCalled)
    {
      listeners := map[];
      ClearIncomingPayloads();
    }
  }

  // Terminal updates ------------------------------------------------------------------

  predicate Registers(e: Event, id: int) {
    (e.Register? || e.Send?) && e.id == id
  }

  function Registrations(events: seq<Event>, id: int): nat {
    if events == [] then 0 else Registrations(Init(events), id) + if Registers(Last(events), id) then 1 else 0
  }

  function Terminals(told: seq<Notice>, id: int): nat {
    if told == [] then 0
    else
      Terminals(Init(told), id) + if Last(told).update.id == id && !Last(told).update.status.InProgress? then 1 else 0
  }

  lemma StepTells(m: Manager, e: Event)
    ensures var told := Next(m, e).told;
            told == m.told
            || (told != [] && Init(told) == m.told && Last(told).update.id in m.listeners
                && Last(told).listener == m.listeners[Last(told).update.id])
  {
    if Next(m, e).told != m.told {
      var n := Last(Next(m, e).told);
      assert Init(m.told + [n]) == m.told;
    }
  }

  // Each registration is worth at most one terminal update, whatever the mix of transfer
  // updates and cancellations, and none while its listener still stands.
  lemma {:induction false} OneTerminalPerRegistration(events: seq<Event>, id: int)
    ensures var m := Run(events);
            Terminals(m.told, id) + (if id in m.listeners then 1 else 0) <= Registrations(events, id)
  {
    if events != [] {
      OneTerminalPerRegistration(Init(events), id);
      StepTells(Run(Init(events)), Last(events));
    }
  }

  // The registrations of a payload for one listener, and the terminal updates that listener is
  // told of it.
  predicate RegistersFor(e: Event, id: int, l: Listener) {
    Registers(e, id) && e.listener == l
  }

  function RegistrationsFor(events: seq<Event>, id: int, l: Listener): nat {
    if events == [] then 0
    else RegistrationsFor(Init(events), id, l) + if RegistersFor(Last(events), id, l) then 1 else 0
  }

  // What one listener has been told.
  function ToldTo(told: seq<Notice>, l: Listener): seq<Update> {
    if told == [] then []
    else if Last(told).listener == l then ToldTo(Init(told), l) + [Last(told).update]
    else ToldTo(Init(told), l)
  }

  function TerminalsIn(us: seq<Update>, id: int): nat {
    if us == [] then 0
    else TerminalsIn(Init(us), id) + if Last(us).id == id && !Last(us).status.InProgress? then 1 else 0
  }

  predicate ListensFor(m: Manager, id: int, l: Listener) {
    id in m.listeners && m.listeners[id] == l
  }

  lemma StepTellsListener(m: Manager, e: Event, l: Listener)
    ensures var (before, after) := (ToldTo(m.told, l), ToldTo(Next(m, e).told, l));
            after == before || (after != [] && Init(after) == before && ListensFor(m, Last(after).id, l))
    ensures forall id :: ListensFor(Next(m, e), id, l) ==> ListensFor(m, id, l) || RegistersFor(e, id, l)
  {
    StepTells(m, e);
  }

  // A terminal update ends the listening it is told to.
  lemma TerminalEndsListening(m: Manager, e: Event, l: Listener)
    ensures var (before, after) := (ToldTo(m.told, l), ToldTo(Next(m, e).told, l));
            after != before && !Last(after).status.InProgress? ==>
              !Registers(e, Last(after).id) && !ListensFor(Next(m, e), Last(after).id, l)
  {
    StepTells(m, e);
  }

  lemma {:induction false} OneTerminalPerRegistrationFor(events: seq<Event>, id: int, l: Listener)
    ensures var m := Run(events);
            TerminalsIn(ToldTo(m.told, l), id) + (if ListensFor(m, id, l) then 1 else 0)
            <= RegistrationsFor(events, id, l)
  {
    if events != [] {
      OneTerminalPerRegistrationFor(Init(events), id, l);
      StepTellsListener(Run(Init(events)), Last(events), l);
      TerminalEndsListening(Run(Init(events)), Last(events), l);
    }
  }

  // Nothing is told about a payload after its terminal update.
  ghost predicate EndsOnce(us: seq<Update>) {
    forall i, j :: 0 <= i < j < |us| && us[i].id == us[j].id ==> us[i].status.InProgress?
  }

  // A listener is registered for each payload at most once. Other listeners, like those of an
  // earlier transfer of the same file, do not matter.
  ghost predicate RegisteredOnce(events: seq<Event>, l: Listener) {
    forall id :: RegistrationsFor(events, id, l) <= 1
  }

  lemma {:induction false} TerminalCounts(us: seq<Update>, id: int, i: nat)
    requires i < |us| && us[i].id == id && !us[i].status.InProgress?
    ensures TerminalsIn(us, id) >= 1
  {
    if i < |us| - 1 {
      TerminalCounts(Init(us), id, i);
    }
  }

  lemma {:induction false} OnceRegisteredEndsOnce(events: seq<Event>, l: Listener)
    requires RegisteredOnce(events, l)
    ensures EndsOnce(ToldTo(Run(events).told, l))
  {
    if events != [] {
      var before, m := Init(events), Run(Init(events));
      assert forall id :: RegistrationsFor(before, id, l) <= RegistrationsFor(events, id, l);
      OnceRegisteredEndsOnce(before, l);
      StepTellsListener(m, Last(events), l);
      var us, after := ToldTo(m.told, l), ToldTo(Run(events).told, l);
      if after != us {
        var id := Last(after).id;
        OneTerminalPerRegistrationFor(before, id, l);
        forall i | 0 <= i < |us| && us[i].id == id
          ensures us[i].status.InProgress?
        {
          if !us[i].status.InProgress? {
            TerminalCounts(us, id, i);
          }
        }
      }
    }
  }

  // At the tracker ------------------------------------------------------------------------

  lemma {:induction false} StatusIsOfSome(us: seq<Update>, id: int) returns (i: nat)
    requires StatusAfter(us, id).Success?
    ensures i < |us| && us[i].id == id && us[i].status.Success?
  {
    if Last(us).id == id {
      i := |us| - 1;
    } else {
      i := StatusIsOfSome(Init(us), id);
    }
  }

  lemma {:induction false} EndsOnceMeansNoneLate(us: seq<Update>, tracked: set<int>)
    requires EndsOnce(us)
    ensures Late(us, tracked) == 0
  {
    if us != [] {
      EndsOnceMeansNoneLate(Init(us), tracked);
      if Last(us).id in Succeeded(Init(us), tracked) {
        var i := StatusIsOfSome(Init(us), Last(us).id);
        assert false;
      }
    }
  }

  lemma NoneLate(events: seq<Event>, l: Listener, us: seq<Update>, tracked: set<int>)
    requires RegisteredOnce(events, l) && us <= ToldTo(Run(events).told, l)
    ensures Late(us, tracked) == 0
  {
    OnceRegisteredEndsOnce(events, l);
    EndsOnceMeansNoneLate(us, tracked);
  }

  // A tracker that has read any part of what its listener was told, in order, has counted the
  // payloads that succeeded, and calls the transfer complete exactly when all of them have.
  lemma TrackedCountIsExact(events: seq<Event>, l: Listener, us: seq<Update>, t: Tracker, sampled: nat -> bool)
    requires RegisteredOnce(events, l) && us <= ToldTo(Run(events).told, l)
    requires Fresh(t)
    ensures Feed(t, us, sampled).count == |Succeeded(us, t.payloads.Keys)|
    ensures us != [] && Last(us).id in t.payloads ==>
              (LastReport(t, us, sampled).AllComplete?
               <==> forall id :: id in t.payloads ==> StatusAfter(us, id).Success?)
  {
    NoneLate(events, l, us, t.payloads.Keys);
    CountIsSuccessesPlusLate(t, us, sampled);
    if us != [] && Last(us).id in t.payloads {
      CompleteIffAllSucceeded(t, us, sampled);
    }
  }

  // Nor does any of its sums wrap around, if no update exceeds its payload's size.
  lemma TrackedReportsInRange(events: seq<Event>, l: Listener, us: seq<Update>, t: Tracker, sampled: nat -> bool)
    requires RegisteredOnce(events, l) && us <= ToldTo(Run(events).told, l) && us != []
    requires Sound(t) && Fresh(t) && WithinSizes(t, us)
    ensures LastReport(t, us, sampled).Progress? ==>
              && Last(us).id in t.payloads
              && InRange(Feed(t, Init(us), sampled), Last(us), LastReport(t, us, sampled))
  {
    NoneLate(events, l, us, t.payloads.Keys);
    EveryReportInRange(t, us, sampled);
    TotalsStay(t, Init(us), sampled);
  }

  lemma RunSnoc(events: seq<Event>, e: Event)
    ensures Run(events + [e]) == Next(Run(events), e)
  {
    assert Init(events + [e]) == events;
  }

  // The hypothesis is needed: after any run, a registration lets its listener be told the next
  // update, so one that is registered again can be told of the same success again.
  lemma RegisteredIsTold(events: seq<Event>, l: Listener, u: Update, connected: bool)
    requires l in Run(events).alive
    ensures ToldTo(Run(events + [Register(u.id, l)] + [Transfer(u, connected)]).told, l)
         == ToldTo(Run(events).told, l) + [u]
  {
    var m, registered := Run(events), events + [Register(u.id, l)];
    RunSnoc(events, Register(u.id, l));
    RunSnoc(registered, Transfer(u, connected));
    assert Init(m.told + [Notice(l, u)]) == m.told;
  }

  // Messages ------------------------------------------------------------------------------

  function Occurrences(ids: seq<int>, id: int): nat {
    if ids == [] then 0 else Occurrences(Init(ids), id) + if Last(ids) == id then 1 else 0
  }

  function Receipts(events: seq<Event>, id: int): nat {
    if events == [] then 0
    else Receipts(Init(events), id) + if Last(events).Received? && Last(events).id == id then 1 else 0
  }

  // Each received payload is written to a connection at most once.
  lemma {:induction false} WrittenAtMostOncePerReceipt(events: seq<Event>, id: int)
    ensures var m := Run(events);
            Occurrences(m.written, id) + (if id in m.incoming then 1 else 0) <= Receipts(events, id)
  {
    if events != [] {
      WrittenAtMostOncePerReceipt(Init(events), id);
      var m, e := Run(Init(events)), Last(events);
      if e.Transfer? {
        assert Init(m.written + [e.update.id]) == m.written;
      }
    }
  }
}
