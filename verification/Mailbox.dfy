/**
 The specification of selective receive: one mailbox of undelivered frames and at
 most one pending request. A run of the reader is a trace of events; the trace is
 legal when every event is one the mailbox allows.
 */
module Mailbox {
  import opened Wrappers

  datatype Frame = Frame(kind: int, body: int)

  // What the peer wrote: bytes that decode to a V1 frame, or bytes that do not.
  datatype Packet = Undecodable | Encoded(frame: Frame)

  // A read request. `kind` is None for a read of any frame; `timed` tells whether it has a timeout.
  datatype Request = Request(callback: int, kind: Option<int>, timed: bool)

  datatype Event =
    | Issued(request: Request)
    | Arrived(packet: Packet)
    | Lost(lost: Frame)
    | Delivered(receiver: Request, frame: Frame)
    | TimedOut(expired: Request)
    | Closed(closed: Request)

  // `spare` counts the timeouts that have not yet cost a frame.
  datatype Box = Box(frames: seq<Frame>, pending: Option<Request>, spare: nat)

  predicate Matches(kind: Option<int>, f: Frame) {
    kind.None? || kind.value == f.kind
  }

  // The position of the first matching frame, or |frames| when there is none.
  function FirstMatch(frames: seq<Frame>, kind: Option<int>): (i: nat)
    ensures i <= |frames|
    ensures i < |frames| ==> Matches(kind, frames[i])
    ensures forall j :: 0 <= j < i ==> !Matches(kind, frames[j])
  {
    if frames == [] || Matches(kind, frames[0]) then 0 else 1 + FirstMatch(frames[1..], kind)
  }

  function Decode(packets: seq<Packet>): seq<Frame> {
    if packets == [] then []
    else (if packets[0].Encoded? then [packets[0].frame] else []) + Decode(packets[1..])
  }

  function Step(b: Box, e: Event): Option<Box> {
    match e
    case Issued(r) =>
      if b.pending.None? then Some(b.(pending := Some(r))) else None
    case Arrived(p) =>
      Some(b.(frames := b.frames + Decode([p])))
    case Lost(_) =>
      if b.pending.None? && b.spare > 0 then Some(b.(spare := b.spare - 1)) else None
    case Delivered(r, f) =>
      var i := FirstMatch(b.frames, r.kind);
      if b.pending == Some(r) && i < |b.frames| && b.frames[i] == f
      then Some(b.(frames := b.frames[..i] + b.frames[i + 1..], pending := None))
      else None
    case TimedOut(r) =>
      if b.pending == Some(r) && r.timed then Some(b.(pending := None, spare := b.spare + 1)) else None
    case Closed(r) =>
      if b.pending == Some(r) then Some(b.(pending := None)) else None
  }

  // The mailbox after a trace, or None when the mailbox forbids one of its events.
  function Run(trace: seq<Event>): Option<Box> {
    if trace == [] then Some(Box([], None, 0))
    else
      var before := Run(Init(trace));
      if before.None? then None else Step(before.value, Last(trace))
  }

  lemma RunSnoc(trace: seq<Event>, e: Event)
    requires Run(trace).Some?
    ensures Run(trace + [e]) == Step(Run(trace).value, e)
  {
    assert Init(trace + [e]) == trace;
  }

  // What a trace says about itself -------------------------------------------------

  function OfKind(frames: seq<Frame>, kind: int): seq<Frame> {
    if frames == [] then []
    else (if frames[0].kind == kind then [frames[0]] else []) + OfKind(frames[1..], kind)
  }

  // What a step adds to the frames handed over and to those kept.
  function HandedBy(e: Event): seq<Frame> {
    if e.Delivered? then [e.frame] else []
  }

  function KeptBy(e: Event): seq<Frame> {
    if e.Arrived? then Decode([e.packet]) else []
  }

  function Handed(trace: seq<Event>): seq<Frame> {
    if trace == [] then []
    else Handed(Init(trace)) + HandedBy(Last(trace))
  }

  function Kept(trace: seq<Event>): seq<Frame> {
    if trace == [] then []
    else Kept(Init(trace)) + KeptBy(Last(trace))
  }

  function LostFrames(trace: seq<Event>): seq<Frame> {
    if trace == [] then []
    else LostFrames(Init(trace)) + (if Last(trace).Lost? then [Last(trace).lost] else [])
  }

  function Expired(trace: seq<Event>): seq<Request> {
    if trace == [] then []
    else Expired(Init(trace)) + (if Last(trace).TimedOut? then [Last(trace).expired] else [])
  }

  function Requests(trace: seq<Event>): seq<Request> {
    if trace == [] then []
    else Requests(Init(trace)) + (if Last(trace).Issued? then [Last(trace).request] else [])
  }

  // The requests whose callbacks have run, in the order they ran.
  function Answered(trace: seq<Event>): seq<Request> {
    if trace == [] then []
    else Answered(Init(trace)) + Answer(Last(trace))
  }

  function Answer(e: Event): seq<Request> {
    match e
    case Delivered(r, _) => [r]
    case TimedOut(r) => [r]
    case Closed(r) => [r]
    case _ => []
  }

  // Laws of the mailbox ------------------------------------------------------------

  lemma {:induction false} OfKindConcat(a: seq<Frame>, b: seq<Frame>, kind: int)
    ensures OfKind(a + b, kind) == OfKind(a, kind) + OfKind(b, kind)
  {
    if a == [] {
      assert a + b == b;
    } else {
      OfKindConcat(a[1..], b, kind);
      assert (a + b)[1..] == a[1..] + b;
      var first := if a[0].kind == kind then [a[0]] else [];
      assert OfKind(a + b, kind) == first + OfKind(a[1..] + b, kind);
      assert OfKind(a, kind) == first + OfKind(a[1..], kind);
    }
  }

  lemma {:induction false} OfKindNone(a: seq<Frame>, kind: int)
    requires forall j :: 0 <= j < |a| ==> a[j].kind != kind
    ensures OfKind(a, kind) == []
  {
    if a != [] {
      OfKindNone(a[1..], kind);
    }
  }

  // Taking the first match of a request takes the first frame of that frame's own kind.
  lemma TakeIsFirstOfKind(frames: seq<Frame>, wanted: Option<int>, kind: int)
    requires FirstMatch(frames, wanted) < |frames|
    ensures var i := FirstMatch(frames, wanted);
            OfKind(frames, kind) == OfKind([frames[i]], kind) + OfKind(frames[..i] + frames[i + 1..], kind)
  {
    var i := FirstMatch(frames, wanted);
    assert frames == frames[..i] + ([frames[i]] + frames[i + 1..]);
    OfKindConcat(frames[..i], [frames[i]] + frames[i + 1..], kind);
    OfKindConcat([frames[i]], frames[i + 1..], kind);
    OfKindConcat(frames[..i], frames[i + 1..], kind);
    if frames[i].kind == kind {
      OfKindNone(frames[..i], kind);
    }
  }

  lemma StepKeepsOrder(b: Box, e: Event, kind: int)
    requires Step(b, e).Some?
    ensures OfKind(HandedBy(e), kind) + OfKind(Step(b, e).value.frames, kind)
         == OfKind(b.frames, kind) + OfKind(KeptBy(e), kind)
  {
    match e
    case Arrived(p) => OfKindConcat(b.frames, Decode([p]), kind);
    case Delivered(r, f) => TakeIsFirstOfKind(b.frames, r.kind, kind);
    case _ =>
  }

  lemma Regroup(h: seq<Frame>, h': seq<Frame>, f: seq<Frame>, f': seq<Frame>, k: seq<Frame>, k': seq<Frame>)
    requires h + f == k && h' + f' == f + k'
    ensures (h + h') + f' == k + k'
  {
    assert (h + h') + f' == h + (h' + f');
    assert h + (f + k') == (h + f) + k';
  }

  // Within a kind, what was delivered followed by what is still in the box is what arrived
  // and was kept: nothing kept is lost, duplicated or reordered.
  lemma {:induction false} KeptInOrder(trace: seq<Event>, kind: int)
    requires Run(trace).Some?
    ensures OfKind(Handed(trace), kind) + OfKind(Run(trace).value.frames, kind) == OfKind(Kept(trace), kind)
  {
    if trace != [] {
      var t, e := Init(trace), Last(trace);
      KeptInOrder(t, kind);
      StepKeepsOrder(Run(t).value, e, kind);
      OfKindConcat(Handed(t), HandedBy(e), kind);
      OfKindConcat(Kept(t), KeptBy(e), kind);
      Regroup(OfKind(Handed(t), kind), OfKind(HandedBy(e), kind), OfKind(Run(t).value.frames, kind),
              OfKind(Run(trace).value.frames, kind), OfKind(Kept(t), kind), OfKind(KeptBy(e), kind));
    }
  }

  // Every request's callback runs exactly once and in the order of the requests; the only
  // request whose callback has not run is the pending one.
  lemma {:induction false} EachRequestAnsweredOnce(trace: seq<Event>)
    requires Run(trace).Some?
    ensures var p := Run(trace).value.pending;
            Requests(trace) == Answered(trace) + (if p.Some? then [p.value] else [])
  {
    if trace != [] {
      EachRequestAnsweredOnce(Init(trace));
    }
  }

  // Each timeout loses at most one frame; without timeouts no frame is lost.
  lemma {:induction false} LossBoundedByTimeouts(trace: seq<Event>)
    requires Run(trace).Some?
    ensures |LostFrames(trace)| + Run(trace).value.spare == |Expired(trace)|
  {
    if trace != [] {
      LossBoundedByTimeouts(Init(trace));
    }
  }

  // Only a request with a timeout times out.
  lemma {:induction false} OnlyTimedExpire(trace: seq<Event>)
    requires Run(trace).Some?
    ensures forall i :: 0 <= i < |Expired(trace)| ==> Expired(trace)[i].timed
  {
    if trace != [] {
      OnlyTimedExpire(Init(trace));
    }
  }

  // Each event of a run is allowed by the mailbox as its prefix leaves it.
  lemma {:induction false} EveryStepAllowed(trace: seq<Event>, k: nat)
    requires Run(trace).Some? && k < |trace|
    ensures Run(trace[..k]).Some? && Step(Run(trace[..k]).value, trace[k]).Some?
  {
    assert Init(trace)[..k] == trace[..k];
    if k < |trace| - 1 {
      EveryStepAllowed(Init(trace), k);
    }
  }

  lemma DeliveryTakesFirst(b: Box, r: Request, f: Frame)
    requires Step(b, Delivered(r, f)).Some?
    ensures Matches(r.kind, f) && b.pending == Some(r)
    ensures [f] <= OfKind(b.frames, f.kind) && b.frames != [] && (r.kind.None? ==> b.frames[0] == f)
  {
    TakeIsFirstOfKind(b.frames, r.kind, f.kind);
    assert OfKind([f], f.kind) == [f];
  }

  // A delivered frame matches its request, and in its own kind it is the next one to have
  // arrived: as many came before it as were delivered before it. A read of any frame gets the
  // first of all the undelivered ones.
  ghost predicate EarliestMatch(before: seq<Event>, r: Request, f: Frame)
    requires Run(before).Some?
  {
    var n := |OfKind(Handed(before), f.kind)|;
    && (r.kind == None || r.kind == Some(f.kind))
    && n < |OfKind(Kept(before), f.kind)| && OfKind(Kept(before), f.kind)[n] == f
    && (r.kind.None? ==> [f] <= Run(before).value.frames)
  }

  lemma DeliveryIsNext(before: seq<Event>, r: Request, f: Frame)
    requires Run(before).Some? && Step(Run(before).value, Delivered(r, f)).Some?
    ensures EarliestMatch(before, r, f)
  {
    DeliveryTakesFirst(Run(before).value, r, f);
    KeptInOrder(before, f.kind);
    var handed, left := OfKind(Handed(before), f.kind), OfKind(Run(before).value.frames, f.kind);
    assert (handed + left)[|handed|] == left[0];
  }

  // This holds wherever a run delivers a frame.
  lemma DeliveryIsEarliestMatch(trace: seq<Event>, k: nat)
    requires Run(trace).Some? && k < |trace| && trace[k].Delivered?
    ensures Run(trace[..k]).Some? && EarliestMatch(trace[..k], trace[k].receiver, trace[k].frame)
  {
    EveryStepAllowed(trace, k);
    DeliveryIsNext(trace[..k], trace[k].receiver, trace[k].frame);
  }
}
