/**
 The connection's packet queue with its single read slot (nearby_connection_impl.cc) and the
 reader that serves typed read requests from it (incoming_frames_reader.cc).

 A callback is a step of the reader's client, which may read again before it returns. The
 client is an arbitrary sequence of decisions, each a list of reads that it makes one after
 the other: a callback takes decisions until one is empty or a request is queued. Callers are
 asked to wait for a callback before they read again: a client that Waits makes one read at a
 time. What happens to the others is stated too.
 */
module FramesReader {
  import opened Wrappers
  import opened Mailbox

  class Connection {
    var packets: seq<Packet>  // written by the peer, not yet read
    var waiting: bool       // a read callback is registered

    constructor ()
      ensures packets == [] && !waiting
    {
      packets, waiting := [], false;
    }

    // The packet that the read callback runs with at once, or None when it is registered instead.
    method Read() returns (packet: Option<Packet>)
      modifies this
      ensures old(packets) == [] ==> packet.None? && waiting && packets == []
      ensures old(packets) != [] ==>
        packet == Some(old(packets)[0]) && packets == old(packets)[1..] && waiting == old(waiting)
    {
      if packets == [] {
        waiting := true;
        return None;
      }
      packet := Some(packets[0]);
      packets := packets[1..];
    }

    // Whether the registered callback has to run with these bytes; otherwise they are queued.
    method WriteMessage(p: Packet) returns (run: bool)
      modifies this
      ensures run == old(waiting) && !waiting
      ensures packets == if run then old(packets) else old(packets) + [p]
    {
      if !waiting {
        packets := packets + [p];
        return false;
      }
      waiting := false;
      return true;
    }
  }

  // What the queue of pending requests becomes and whether the connection is read, when a
  // request finds no cached frame ...
  function Enqueue(queue: seq<Request>, r: Request): (seq<Request>, bool) {
    (queue + [r], queue == [])
  }

  // ... and when the front request has been answered with others queued behind it, or with
  // `issued` left there by its callback, which read them without an answer.
  function Resumed(queue: seq<Request>, issued: seq<Request>): (seq<Request>, bool)
    requires queue != []
  {
    var left := queue[1..] + issued;
    if left == [] then (left, false) else Enqueue(left[1..], left[0])
  }

  // Whoever is left comes next, with a read outstanding, exactly when no more than one request
  // is left once the callback has returned, whether it was queued before or left by the
  // callback. Otherwise the first of them is put behind the others and no read is issued.
  lemma ServesInOrderIffAtMostTwo(queue: seq<Request>, issued: seq<Request>)
    requires queue != []
    ensures var left := queue[1..] + issued;
            Resumed(queue, issued) == (left, left != []) <==> |queue + issued| <= 2
  {
    var left := queue[1..] + issued;
    if |left| == 1 {
      assert left == left[1..] + [left[0]];
    }
  }

  // Three requests in the queue, and two whose first callback reads again.
  lemma ThreePendingRequestsStall()
    ensures var r1, r2, r3 := Request(1, None, false), Request(2, None, false), Request(3, None, false);
            Resumed([r1, r2, r3], []) == Resumed([r1, r2], [r3]) == ([r3, r2], false)
  {
    var r1, r2, r3 := Request(1, None, false), Request(2, None, false), Request(3, None, false);
    assert [r1, r2, r3][1..] + [] == [r2, r3] == [r1, r2][1..] + [r3];
    assert [r2, r3][1..] + [r2] == [r3, r2];
  }

  // A caller reads only while none of its requests is queued, and a timer fires only if it runs.
  datatype External = Arrives(packet: Packet) | Reads(request: Request) | TimerFires

  // A callback that was run without a frame, as a timeout or not.
  datatype Call = Call(request: Request, isTimeout: bool)

  // The callback that was run with this frame, as an event of the mailbox.
  function Handover(r: Request, frame: Option<Frame>): seq<Event> {
    if frame.Some? then [Delivered(r, frame.value)] else []
  }

  function Deliveries(trace: seq<Event>): seq<Event> {
    if trace == [] then []
    else Deliveries(Init(trace)) + if Last(trace).Delivered? then [Last(trace)] else []
  }

  function WithoutFrame(requests: seq<Request>, isTimeout: bool): seq<Call> {
    seq(|requests|, i requires 0 <= i < |requests| => Call(requests[i], isTimeout))
  }

  function Count(requests: seq<Request>, r: Request): nat {
    if requests == [] then 0 else Count(Init(requests), r) + Is(Last(requests), r)
  }

  function Is(x: Request, r: Request): nat {
    if x == r then 1 else 0
  }

  // How often the client's first n decisions read a request.
  function Asked(client: nat -> seq<Request>, n: nat, r: Request): nat {
    if n == 0 then 0 else Asked(client, n - 1, r) + Count(client(n - 1), r)
  }

  lemma {:induction false} CountConcat(a: seq<Request>, b: seq<Request>, r: Request)
    ensures Count(a + b, r) == Count(a, r) + Count(b, r)
  {
    if b == [] {
      assert a + b == a;
    } else {
      assert Init(a + b) == a + Init(b);
      CountConcat(a, Init(b), r);
    }
  }

  lemma CountSnoc(a: seq<Request>, x: Request, r: Request)
    ensures Count(a + [x], r) == Count(a, r) + Is(x, r)
  {
    assert Init(a + [x]) == a;
  }

  lemma CountNext(a: seq<Request>, i: nat, r: Request)
    requires i < |a|
    ensures Count(a[..i + 1], r) == Count(a[..i], r) + Is(a[i], r)
  {
    assert Init(a[..i + 1]) == a[..i];
  }

  lemma CountFront(a: seq<Request>, r: Request)
    requires a != []
    ensures Count(a, r) == Is(a[0], r) + Count(a[1..], r)
  {
    assert [a[0]] + a[1..] == a && Init([a[0]]) == [];
    CountConcat([a[0]], a[1..], r);
  }

  // The callbacks run with a frame and those run without, and the client's decisions.
  datatype Tally = Tally(handed: seq<Event>, silent: seq<Call>, decisions: nat)

  // Since then all callbacks were run with a frame, and the client took a decision in each.
  ghost predicate Grown(before: Tally, after: Tally) {
    && before.handed <= after.handed && before.silent == after.silent
    && after.decisions - before.decisions >= |after.handed| - |before.handed|
  }

  // Since then these callbacks were run without a frame, in this order: after a timeout the client
  // took a decision in each, and in those it led to; otherwise it took none.
  ghost predicate Silenced(before: Tally, requests: seq<Request>, isTimeout: bool, after: Tally) {
    && after.silent == before.silent + WithoutFrame(requests, isTimeout) && before.handed <= after.handed
    && if isTimeout
       then after.decisions - before.decisions >= |after.handed| - |before.handed| + |requests|
       else after.handed == before.handed && after.decisions == before.decisions
  }

  lemma SilencedNext(before: Tally, requests: seq<Request>, n: nat, isTimeout: bool, mid: Tally, after: Tally)
    requires n < |requests| && Silenced(before, requests[..n], isTimeout, mid)
    requires Silenced(mid, [requests[n]], isTimeout, after)
    ensures Silenced(before, requests[..n + 1], isTimeout, after)
  {
    assert WithoutFrame(requests[..n + 1], isTimeout)
        == WithoutFrame(requests[..n], isTimeout) + WithoutFrame([requests[n]], isTimeout);
  }

  // One more callback, in which the client takes a decision.
  function After(t: Tally, r: Request, isTimeout: bool, frame: Option<Frame>): Tally {
    Tally(t.handed + Handover(r, frame), t.silent + if frame.None? then [Call(r, isTimeout)] else [], t.decisions + 1)
  }

  class IncomingFramesReader {
    const connection: Connection
    const client: nat -> seq<Request>
    var decisions: nat          // how many of the client's decisions have been taken
    var queue: seq<Request>     // read_frame_info_queue_
    var cached: seq<Frame>      // cached_frames_
    var timerArmed: bool
    ghost var trace: seq<Event>
    ghost var handed: seq<Event>  // the callbacks that have run with a frame
    ghost var silent: seq<Call>   // and those without
    ghost const watched: Request  // any request
    ghost var answered: nat       // how often its callback has run

    ghost function Tallied(): Tally
      reads this
    {
      Tally(handed, silent, decisions)
    }

    // Every callback waits for its read before it reads again.
    ghost predicate Waits() {
      forall n: nat :: |client(n)| <= 1
    }

    // How often the watched request was called back or is queued, apart from the client's own reads.
    ghost function Balance(): int
      reads this
    {
      answered + Count(queue, watched) - Asked(client, decisions, watched)
    }

    // Whatever is delivered is handed to its callback, in this order, and nothing else is.
    ghost predicate Told()
      reads this
    {
      handed == Deliveries(trace)
    }

    // The trace is a legal run of the mailbox, which holds the cached frames, then those of
    // the packets in `hand`, then those still queued at the connection. A request is issued to
    // the mailbox when it is taken up, not while it is queued behind others.
    ghost predicate Holds(hand: seq<Packet>, pending: Option<Request>)
      reads this, connection
    {
      && Run(trace).Some?
      && Run(trace).value.pending == pending
      && Run(trace).value.frames == cached + Decode(hand + connection.packets)
      && (connection.waiting ==> connection.packets == [])
      && (connection.waiting && pending.None? ==> Run(trace).value.spare > 0)
      && Told()
    }

    // Moreover, the timer runs only for the pending request, and only if that has a timeout.
    ghost predicate Refines(hand: seq<Packet>, pending: Option<Request>)
      reads this, connection
    {
      Holds(hand, pending) && (timerArmed ==> pending.Some? && pending.value.timed)
    }

    // The connection is gone. A timer that was running runs on, to no effect.
    ghost predicate Shut()
      reads this, connection
    {
      queue == [] && !connection.waiting && Holds([], None)
    }

    // The frame in hand answers the request, and what is left in the reader is left in the mailbox.
    ghost predicate Deliverable(r: Request, frame: Frame)
      reads this, connection
    {
      && Run(trace).Some? && Step(Run(trace).value, Delivered(r, frame)).Some?
      && Step(Run(trace).value, Delivered(r, frame)).value.frames == cached + Decode(connection.packets)
      && (connection.waiting ==> connection.packets == [] && Run(trace).value.spare > 0)
      && Told() && !timerArmed
    }

    // The front request cannot be answered from the cache, and its timer runs if it has one.
    ghost predicate Blocked()
      reads this
    {
      queue != [] && FirstMatch(cached, queue[0].kind) == |cached| && (queue[0].timed ==> timerArmed)
    }

    // Between two calls: no request is queued, or nothing undelivered matches the front one,
    // and its read callback is registered at a connection that holds no packet.
    ghost predicate Quiet()
      reads this, connection
    {
      if queue == [] then Refines([], None)
      else Blocked() && Refines([], Some(queue[0])) && connection.waiting
    }

    // Requests are queued, but none of them has been taken up: no read callback is registered
    // and no timer runs, so neither a packet nor a timeout can move them.
    ghost predicate Stalled()
      reads this, connection
    {
      |queue| >= 2 && !connection.waiting && Refines([], None)
    }

    // Whatever order its queue is in, the request that the mailbox waits for is among those queued.
    ghost predicate Sound()
      reads this, connection
    {
      && Run(trace).Some? && Refines([], Run(trace).value.pending)
      && (Run(trace).value.pending.Some? ==> Run(trace).value.pending.value in queue)
    }

    // With more than one request queued, the reader may have been reordered.
    ghost predicate Settled()
      reads this, connection
    {
      Sound() && (|queue| <= 1 ==> Quiet())
    }

    ghost function Undelivered(): nat
      reads this, connection
    {
      |cached| + |connection.packets|
    }

    constructor (connection: Connection, client: nat -> seq<Request>, ghost watched: Request)
      requires connection.packets == [] && !connection.waiting
      ensures this.watched == watched && Balance() == 0
      ensures Quiet() && this.connection == connection && this.client == client
      ensures queue == [] && trace == [] && handed == [] && silent == []
    {
      this.connection := connection;
      this.client := client;
      this.watched, answered := watched, 0;
      decisions, queue, cached, timerArmed, trace, handed, silent := 0, [], [], false, [], [], [];
    }

    ghost method Log(e: Event)
      requires Run(trace).Some? && Step(Run(trace).value, e).Some?
      modifies this`trace
      ensures trace == old(trace) + [e] && Run(trace) == Step(Run(old(trace)).value, e)
      ensures Deliveries(trace) == Deliveries(old(trace)) + if e.Delivered? then [e] else []
    {
      RunSnoc(trace, e);
      trace := trace + [e];
    }

    ghost method NoteCall(r: Request, isTimeout: bool, frame: Option<Frame>)
      modifies this`handed, this`silent, this`answered
      ensures answered == old(answered) + Is(r, watched)
      ensures handed == old(handed) + Handover(r, frame)
      ensures silent == old(silent) + if frame.None? then [Call(r, isTimeout)] else []
    {
      answered := answered + Is(r, watched);
      handed := handed + Handover(r, frame);
      silent := silent + if frame.None? then [Call(r, isTimeout)] else [];
    }

    // The caller reads a frame. With a request queued already the new one only joins the queue,
    // so a stalled reader stays stalled.
    method ReadFrame(r: Request)
      requires queue == [] ==> Quiet()
      modifies this, connection
      ensures old(queue) != [] ==>
        && queue == old(queue) + [r]
        && cached == old(cached) && timerArmed == old(timerArmed) && decisions == old(decisions)
        && trace == old(trace) && Tallied() == old(Tallied()) && unchanged(connection)
      ensures old(queue) == [] ==> old(trace) + [Issued(r)] <= trace
      ensures old(queue) == [] ==> Settled()
      ensures old(queue) == [] && Waits() ==> |queue| <= 1
      ensures Undelivered() <= old(Undelivered()) && |connection.packets| <= old(|connection.packets|)
      ensures decisions >= old(decisions) && Grown(old(Tallied()), Tallied())
      ensures queue == [] ==> Undelivered() < old(Undelivered()) && decisions > old(decisions)
      ensures Balance() == old(Balance()) + Is(r, watched)
      decreases Undelivered(), |connection.packets|, 3
    {
      if queue == [] {
        Log(Issued(r));
      }
      ProcessReadRequest(r);
    }

    method ProcessReadRequest(r: Request)
      requires queue == [] ==> Refines([], Some(r))
      requires queue == [] && connection.waiting ==>
        Run(trace).value.spare > 0 || FirstMatch(cached, r.kind) == |cached|
      requires queue == [] && timerArmed ==> FirstMatch(cached, r.kind) == |cached|
      modifies this, connection
      ensures old(queue) != [] ==>
        && queue == Enqueue(old(queue), r).0
        && cached == old(cached) && timerArmed == old(timerArmed) && decisions == old(decisions)
        && trace == old(trace) && Tallied() == old(Tallied()) && unchanged(connection)
      ensures old(queue) == [] ==> old(trace) <= trace
      ensures old(queue) == [] ==> Settled()
      ensures old(queue) == [] && Waits() ==> |queue| <= 1
      ensures Undelivered() <= old(Undelivered()) && |connection.packets| <= old(|connection.packets|)
      ensures decisions >= old(decisions) && Grown(old(Tallied()), Tallied())
      ensures old(queue) == [] && queue == [] ==> Undelivered() < old(Undelivered()) && decisions > old(decisions)
      ensures Balance() == old(Balance()) + Is(r, watched)
      decreases Undelivered(), |connection.packets|, 2
    {
      if queue != [] {
        CountSnoc(queue, r, watched);
        queue := queue + [r];
        return;
      }
      var frame := TakeFromCache(r);
      if frame.Some? {
        RunCallback(r, false, frame);
        return;
      }
      Await(r);
    }

    // No cached frame matches, so more frames are read.
    method Await(r: Request)
      requires queue == [] && Refines([], Some(r)) && FirstMatch(cached, r.kind) == |cached|
      modifies this, connection
      ensures old(trace) <= trace && Settled() && (Waits() ==> |queue| <= 1)
      ensures Undelivered() <= old(Undelivered()) && |connection.packets| <= old(|connection.packets|)
      ensures decisions >= old(decisions) && Grown(old(Tallied()), Tallied())
      ensures queue == [] ==> Undelivered() < old(Undelivered()) && decisions > old(decisions)
      ensures Balance() == old(Balance()) + Is(r, watched)
      decreases Undelivered(), |connection.packets|, 1
    {
      CountSnoc(queue, r, watched);
      queue := queue + [r];
      if r.timed {
        timerArmed := true;
      }
      ReadNextFrame();
    }

    // A cached frame that matches answers the request at once.
    method TakeFromCache(r: Request) returns (frame: Option<Frame>)
      requires Refines([], Some(r))
      requires connection.waiting ==> Run(trace).value.spare > 0 || FirstMatch(cached, r.kind) == |cached|
      requires timerArmed ==> FirstMatch(cached, r.kind) == |cached|
      modifies this`cached
      ensures frame.Some? ==> Deliverable(r, frame.value) && |cached| == old(|cached|) - 1
      ensures frame.None? ==> cached == old(cached) && FirstMatch(cached, r.kind) == |cached|
    {
      frame := PopCachedFrame(r.kind);
      if frame.Some? {
        CachedFirst(old(cached), Decode(connection.packets), r.kind);
        assert [] + connection.packets == connection.packets;
      }
    }

    method PopCachedFrame(kind: Option<int>) returns (frame: Option<Frame>)
      modifies this`cached
      ensures var i := FirstMatch(old(cached), kind);
              if i == |old(cached)| then frame.None? && cached == old(cached)
              else frame == Some(old(cached)[i]) && cached == old(cached)[..i] + old(cached)[i + 1..]
    {
      var i := 0;
      while i < |cached| && !Matches(kind, cached[i])
        invariant 0 <= i <= |cached|
        invariant forall j :: 0 <= j < i ==> !Matches(kind, cached[j])
      {
        i := i + 1;
      }
      FirstMatchIs(cached, kind, i);
      if i == |cached| {
        return None;
      }
      frame := Some(cached[i]);
      cached := cached[..i] + cached[i + 1..];
    }

    method ReadNextFrame()
      requires if queue == [] then Refines([], None) && Run(trace).value.spare > 0 && connection.packets == []
               else Blocked() && Refines([], Some(queue[0]))
      modifies this, connection
      ensures old(trace) <= trace && Settled()
      ensures Waits() ==> (Quiet() || Stalled()) && (old(|queue|) <= 1 ==> |queue| <= 1)
      ensures Undelivered() <= old(Undelivered()) && |connection.packets| <= old(|connection.packets|)
      ensures decisions >= old(decisions) && Grown(old(Tallied()), Tallied())
      ensures old(queue) != [] && queue == [] ==> Undelivered() < old(Undelivered()) && decisions > old(decisions)
      ensures Balance() == old(Balance())
      decreases Undelivered(), |connection.packets|, 0
    {
      var packet := connection.Read();
      if packet.Some? {
        assert [] + old(connection.packets) == [packet.value] + connection.packets;
        OnDataReadFromConnection(packet.value);
      }
    }

    method OnDataReadFromConnection(p: Packet)
      requires !connection.waiting
      requires if queue == []
               then Refines([], None) && connection.packets == [] && (p.Undecodable? ==> Run(trace).value.spare > 0)
               else Blocked() && Refines([p], Some(queue[0]))
      modifies this, connection
      ensures old(trace) <= trace && Settled()
      ensures Waits() ==> (Quiet() || Stalled()) && (old(|queue|) <= 1 ==> |queue| <= 1)
      ensures Undelivered() <= old(Undelivered()) + 1 && |connection.packets| <= old(|connection.packets|)
      ensures decisions >= old(decisions) && Grown(old(Tallied()), Tallied())
      ensures old(queue) != [] && queue == [] ==> Undelivered() <= old(Undelivered()) && decisions > old(decisions)
      ensures old(queue) == [] && p.Encoded? ==> trace == old(trace)
      ensures Balance() == old(Balance())
      decreases Undelivered() + 1, |connection.packets|, 1
    {
      assert ([p] + connection.packets)[1..] == connection.packets == [] + connection.packets;
      if p.Undecodable? {
        ReadNextFrame();
        return;
      }
      if queue == [] {
        return;
      }
      var frame := p.frame;
      if !Matches(queue[0].kind, frame) {
        CacheBlocks(cached, frame, queue[0].kind);
        assert cached + ([frame] + Decode(connection.packets)) == cached + [frame] + Decode(connection.packets);
        cached := cached + [frame];
        ReadNextFrame();
        return;
      }
      ghost var _ := Done(frame);
    }

    // The frame in hand answers the front request; `left` is the queue as its callback leaves
    // it. With one request left, that one is taken up. With more, the first of them goes to the
    // back, and if any of them was queued before the callback, the reader stalls.
    method Done(frame: Frame) returns (ghost left: seq<Request>)
      requires !connection.waiting && Blocked() && Matches(queue[0].kind, frame)
      requires Refines([Encoded(frame)], Some(queue[0]))
      modifies this, connection
      ensures old(trace) + [Delivered(old(queue)[0], frame)] <= trace && decisions > old(decisions)
      ensures old(handed) + [Delivered(old(queue)[0], frame)] <= handed
      ensures Settled() && Grown(old(Tallied()), Tallied())
      ensures Waits() ==> (Quiet() || Stalled()) && (old(|queue|) == 1 ==> |queue| <= 1)
      ensures |left| >= 2 ==> queue == Enqueue(left[1..], left[0]).0
      ensures old(|queue|) >= 2 ==> left == old(queue)[1..] + client(old(decisions))
      ensures old(|queue|) >= 2 && |left| == 1 ==>
        old(trace) + [Delivered(old(queue)[0], frame)] + [Issued(left[0])] <= trace
      ensures old(|queue|) >= 2 && |left| >= 2 ==>
        && Stalled() && trace == old(trace) + [Delivered(old(queue)[0], frame)]
        && queue == Resumed(old(queue), client(old(decisions))).0
      ensures Undelivered() <= old(Undelivered()) && |connection.packets| <= old(|connection.packets|)
      ensures Balance() == old(Balance())
      decreases Undelivered(), |connection.packets|, 8
    {
      Answer(frame);
      left := queue;
      Resume();
    }

    // The front request leaves the queue before its callback runs.
    method Answer(frame: Frame)
      requires !connection.waiting && Blocked() && Matches(queue[0].kind, frame)
      requires Refines([Encoded(frame)], Some(queue[0]))
      modifies this, connection
      ensures old(|queue|) >= 2 ==>
        && queue == old(queue)[1..] + client(old(decisions)) && trace == old(trace) + [Delivered(old(queue)[0], frame)]
        && !timerArmed && !connection.waiting && Refines([], None)
      ensures old(|queue|) == 1 ==>
        && old(trace) + [Delivered(old(queue)[0], frame)] <= trace
        && Settled() && (Waits() ==> |queue| <= 1)
      ensures decisions > old(decisions) && Grown(old(Tallied()), Tallied())
      ensures old(handed) + [Delivered(old(queue)[0], frame)] <= handed
      ensures Undelivered() <= old(Undelivered()) && |connection.packets| <= old(|connection.packets|)
      ensures Balance() == old(Balance())
      decreases Undelivered(), |connection.packets|, 7
    {
      var r := TakeFront(frame);
      RunCallback(r, false, Some(frame));
    }

    method TakeFront(frame: Frame) returns (r: Request)
      requires Blocked() && Matches(queue[0].kind, frame) && Refines([Encoded(frame)], Some(queue[0]))
      requires !connection.waiting
      modifies this`queue, this`timerArmed
      ensures r == old(queue)[0] && queue == old(queue)[1..] && !timerArmed && Deliverable(r, frame)
      ensures Balance() == old(Balance()) - Is(r, watched)
    {
      CountFront(queue, watched);
      timerArmed := false;
      r := queue[0];
      queue := queue[1..];
      HandedFirst(cached, frame, connection.packets, r.kind);
    }

    // The second half of Done: the front request, if any, is taken off the queue and
    // processed again. With more than one request left this only moves it to the back.
    method Resume()
      requires Sound()
      requires |queue| <= 1 ==> Quiet() || (queue != [] && Refines([], None) && !connection.waiting)
      modifies this, connection
      ensures old(|queue|) <= 1 ==> old(trace) <= trace && Settled() && (Waits() ==> |queue| <= 1)
      ensures old(|queue| == 1 && !connection.waiting) ==> old(trace) + [Issued(old(queue)[0])] <= trace
      ensures old(|queue|) >= 2 ==>
        && queue == Enqueue(old(queue)[1..], old(queue)[0]).0
        && cached == old(cached) && timerArmed == old(timerArmed) && decisions == old(decisions)
        && trace == old(trace) && Tallied() == old(Tallied()) && unchanged(connection)
      ensures Settled() && decisions >= old(decisions) && Grown(old(Tallied()), Tallied())
      ensures Undelivered() <= old(Undelivered()) && |connection.packets| <= old(|connection.packets|)
      ensures Balance() == old(Balance())
      decreases Undelivered(), |connection.packets|, 7
    {
      if queue == [] {
        return;
      }
      var r := queue[0];
      if |queue| == 1 && !connection.waiting {
        Log(Issued(r));
      }
      CountFront(queue, watched);
      queue := queue[1..];
      ProcessReadRequest(r);
    }

    // A callback runs, which delivers its frame. While no request is queued the client reads again
    // and again, as it decides; what it reads while one is queued only joins the queue.
    method RunCallback(r: Request, isTimeout: bool, frame: Option<Frame>)
      requires if frame.Some? then !isTimeout && Deliverable(r, frame.value)
               else Told() && (queue == [] ==> Refines([], None))
      modifies this, connection
      ensures old(trace) + Handover(r, frame) <= trace && Told()
      ensures Grown(After(old(Tallied()), r, isTimeout, frame), Tallied())
      ensures old(queue) != [] ==>
        && queue == old(queue) + client(old(decisions)) && Tallied() == After(old(Tallied()), r, isTimeout, frame)
        && cached == old(cached) && timerArmed == old(timerArmed) && unchanged(connection)
        && trace == old(trace) + Handover(r, frame) && (frame.Some? ==> Refines([], None))
      ensures old(queue) == [] ==> Settled() && (Waits() ==> |queue| <= 1)
      ensures decisions > old(decisions) && (queue == [] ==> client(decisions - 1) == [])
      ensures Undelivered() <= old(Undelivered()) && |connection.packets| <= old(|connection.packets|)
      ensures Balance() == old(Balance()) + Is(r, watched)
      decreases Undelivered(), |connection.packets|, 6
    {
      if frame.Some? {
        Log(Delivered(r, frame.value));
      }
      NoteCall(r, isTimeout, frame);
      assert [] + connection.packets == connection.packets;
      Decide();
    }

    // The client's part of a callback.
    method Decide()
      requires queue == [] ==> Refines([], None)
      modifies this, connection
      ensures old(queue) != [] ==>
        && queue == old(queue) + client(old(decisions)) && decisions == old(decisions) + 1
        && cached == old(cached) && timerArmed == old(timerArmed)
        && trace == old(trace) && handed == old(handed) && silent == old(silent) && unchanged(connection)
      ensures old(queue) == [] ==> old(trace) <= trace && Settled() && (Waits() ==> |queue| <= 1)
      ensures Grown(old(Tallied().(decisions := decisions + 1)), Tallied())
      ensures decisions > old(decisions) && (queue == [] ==> client(decisions - 1) == [])
      ensures Undelivered() <= old(Undelivered()) && |connection.packets| <= old(|connection.packets|)
      ensures Balance() == old(Balance())
      decreases Undelivered(), |connection.packets|, 6, 0
    {
      var again := TakeDecision();
      if again {
        Decide();
      }
    }

    // One decision of the client. `again` tells whether its reads have all been answered.
    method TakeDecision() returns (again: bool)
      requires queue == [] ==> Quiet()
      modifies this, connection
      ensures again == (queue == [] && client(old(decisions)) != [])
      ensures old(queue) != [] || client(old(decisions)) == [] ==>
        && queue == old(queue) + client(old(decisions)) && decisions == old(decisions) + 1
        && cached == old(cached) && timerArmed == old(timerArmed) && trace == old(trace)
        && handed == old(handed) && silent == old(silent) && unchanged(connection)
      ensures old(queue) == [] ==> old(trace) <= trace && Settled() && (Waits() ==> |queue| <= 1)
      ensures decisions > old(decisions) && Grown(old(Tallied().(decisions := decisions + 1)), Tallied())
      ensures Undelivered() <= old(Undelivered()) && |connection.packets| <= old(|connection.packets|)
      ensures again ==> Undelivered() < old(Undelivered())
      ensures Balance() == old(Balance())
      decreases Undelivered(), |connection.packets|, 5
    {
      var choice := client(decisions);
      decisions := decisions + 1;
      ReadAll(choice);
      again := queue == [] && choice != [];
    }

    // The client reads several times before its callback returns.
    method ReadAll(requests: seq<Request>)
      requires queue == [] ==> Quiet()
      modifies this, connection
      ensures old(queue) != [] || requests == [] ==>
        && queue == old(queue) + requests
        && cached == old(cached) && timerArmed == old(timerArmed) && decisions == old(decisions)
        && trace == old(trace) && Tallied() == old(Tallied()) && unchanged(connection)
      ensures old(queue) == [] ==> old(trace) <= trace && Settled()
      ensures old(queue) == [] && Waits() && |requests| <= 1 ==> |queue| <= 1
      ensures Undelivered() <= old(Undelivered()) && |connection.packets| <= old(|connection.packets|)
      ensures decisions >= old(decisions) && Grown(old(Tallied()), Tallied())
      ensures queue == [] && requests != [] ==> Undelivered() < old(Undelivered())
      ensures Balance() == old(Balance()) + Count(requests, watched)
      decreases Undelivered(), |connection.packets|, 4, |requests|
    {
      if requests != [] {
        ReadFrame(requests[0]);
        CountFront(requests, watched);
        ReadAll(requests[1..]);
      }
    }

    // The callbacks of the pending reads run without a frame, each once and in order. After the
    // connection is closed there is nothing to read from, so they do not read again.
    method CloseAllPendingReads(isTimeout: bool)
      requires if isTimeout then !timerArmed else !connection.waiting
      requires Run(trace).Some? && Holds([], Run(trace).value.pending)
      requires var pending := Run(trace).value.pending;
        pending.Some? ==> pending.value in queue && (isTimeout ==> pending.value.timed)
      modifies this, connection
      ensures Silenced(old(Tallied()), old(queue), isTimeout, Tallied())
      ensures if isTimeout then Settled() && (Waits() ==> Quiet()) else Shut()
      ensures Waits() && old(|queue|) <= 1 ==> |queue| <= 1
      ensures old(queue) == [] ==> trace == old(trace)
      ensures var pending := old(Run(trace).value.pending);
        pending.Some? ==> old(trace) + [if isTimeout then TimedOut(pending.value) else Closed(pending.value)] <= trace
      ensures Balance() == old(Balance())
    {
      var taken := queue;
      queue := [];
      ghost var pending := Run(trace).value.pending;
      if pending.Some? {
        Log(if isTimeout then TimedOut(pending.value) else Closed(pending.value));
      }
      RunAll(taken, isTimeout);
    }

    method RunAll(requests: seq<Request>, isTimeout: bool)
      requires queue == [] && if isTimeout then Quiet() else Shut()
      modifies this, connection
      ensures Silenced(old(Tallied()), requests, isTimeout, Tallied()) && old(trace) <= trace
      ensures if isTimeout then Settled() && (Waits() ==> Quiet()) else Shut()
      ensures Waits() && |requests| <= 1 ==> |queue| <= 1
      ensures requests == [] ==> trace == old(trace)
      ensures Balance() == old(Balance()) + Count(requests, watched)
    {
      var taken := requests;
      ghost var n := 0;
      while taken != []
        invariant n <= |requests| && taken == requests[n..]
        invariant Silenced(old(Tallied()), requests[..n], isTimeout, Tallied()) && old(trace) <= trace
        invariant if isTimeout then Settled() && (Waits() ==> Quiet()) else Shut()
        invariant n == 0 ==> queue == [] && trace == old(trace)
        invariant Waits() && n <= 1 ==> |queue| <= 1
        invariant Balance() == old(Balance()) + Count(requests[..n], watched)
        decreases |taken|
      {
        ghost var mid := Tallied();
        NextOf(requests, n);
        CountNext(requests, n, watched);
        RunOne(taken[0], isTimeout);
        SilencedNext(old(Tallied()), requests, n, isTimeout, mid, Tallied());
        taken := taken[1..];
        n := n + 1;
      }
      WholeOf(requests);
    }

    // One turn of that loop.
    method RunOne(r: Request, isTimeout: bool)
      requires if isTimeout then Settled() && (Waits() ==> Quiet()) else Shut()
      modifies this, connection
      ensures Silenced(old(Tallied()), [r], isTimeout, Tallied()) && old(trace) <= trace
      ensures if isTimeout then Settled() && (Waits() ==> Quiet()) else Shut()
      ensures Waits() && old(queue) == [] ==> |queue| <= 1
      ensures Balance() == old(Balance()) + Is(r, watched)
    {
      if isTimeout {
        RunCallback(r, true, None);
        assert old(queue) != [] ==> trace == old(trace);
        assert WithoutFrame([r], true) == [Call(r, true)];
      } else {
        NoteCall(r, false, None);
        assert WithoutFrame([r], false) == [Call(r, false)];
      }
    }

    // The timer of the pending request fires, or one that outlives its connection.
    method OnTimeout()
      requires (Sound() || Shut()) && timerArmed
      modifies this, connection
      ensures Silenced(old(Tallied()), old(queue), true, Tallied())
      ensures Settled() && (Waits() ==> Quiet())
      ensures Waits() && old(|queue|) <= 1 ==> |queue| <= 1
      ensures old(queue) == [] ==> trace == old(trace)
      ensures old(Quiet()) && old(queue) != [] ==> old(trace) + [TimedOut(old(queue)[0])] <= trace
      ensures Balance() == old(Balance())
    {
      timerArmed := false;
      CloseAllPendingReads(true);
    }

    // The peer's bytes, as an event of the mailbox.
    ghost method NoteArrival(p: Packet)
      requires Quiet() || Stalled()
      modifies this`trace
      ensures var lost := connection.waiting && queue == [] && p.Encoded?;
        && trace == old(trace) + [if lost then Lost(p.frame) else Arrived(p)]
        && Run(trace).Some? && Run(trace).value.pending == old(Run(trace).value.pending)
        && Run(trace).value.frames == cached + Decode(if lost then [] else connection.packets + [p])
        && (connection.waiting && queue == [] && !lost ==> Run(trace).value.spare > 0)
      ensures Told()
    {
      ArriveLast(cached, connection.packets, p);
      assert [] + connection.packets == connection.packets;
      Log(if connection.waiting && queue == [] && p.Encoded? then Lost(p.frame) else Arrived(p));
    }

    // The peer's bytes arrive. A frame is dropped only when it meets a read callback that a
    // timed-out request left behind. A stalled reader leaves them at the connection.
    method Receive(p: Packet)
      requires Quiet() || Stalled()
      modifies this, connection
      ensures Settled() && (Waits() ==> Quiet() || Stalled())
      ensures Waits() && old(|queue|) <= 1 ==> |queue| <= 1
      ensures old(connection.waiting && queue == []) && p.Encoded? ==> trace == old(trace) + [Lost(p.frame)]
      ensures !(old(connection.waiting && queue == []) && p.Encoded?) ==> old(trace) + [Arrived(p)] <= trace
      ensures old(Stalled()) ==> Stalled() && queue == old(queue)
      ensures Grown(old(Tallied()), Tallied())
      ensures Balance() == old(Balance())
    {
      NoteArrival(p);
      var run := connection.WriteMessage(p);
      assert [] + connection.packets == connection.packets;
      if run {
        OnDataReadFromConnection(p);
      }
    }

    // The connection is destroyed: its read callback, if any, runs without bytes. A stalled
    // reader has none there, so its requests stay.
    method ConnectionClosed()
      requires Sound()
      modifies this, connection
      ensures if old(connection.waiting) then Shut()
              else Sound() && queue == old(queue) && trace == old(trace)
      ensures Silenced(old(Tallied()), if old(connection.waiting) then old(queue) else [], false, Tallied())
      ensures old(Quiet()) ==> queue == []
      ensures old(Quiet()) && old(queue) != [] ==> old(trace) + [Closed(old(queue)[0])] <= trace
      ensures old(Stalled()) ==> Stalled()
      ensures Balance() == old(Balance())
    {
      var registered := connection.waiting;
      connection.waiting := false;
      if registered {
        CloseAllPendingReads(false);
      }
    }

    // The reader is destroyed, which ends even a stall. A read callback that is still registered
    // finds the reader gone and does nothing, like one that is not there.
    method ReaderDestroyed()
      requires Sound() || Shut()
      modifies this, connection
      ensures Shut() && Silenced(old(Tallied()), old(queue), false, Tallied())
      ensures Balance() == old(Balance())
    {
      connection.waiting := false;
      CloseAllPendingReads(false);
    }

    // What happens to the reader from outside, as long as its connection exists; `read` is what the
    // caller reads.
    method RunEvent(event: External) returns (ghost read: seq<Request>)
      requires Waits() && Quiet() && |queue| <= 1
      modifies this, connection
      ensures Quiet() && |queue| <= 1 && old(trace) <= trace
      ensures read == if event.Reads? && old(queue) == [] then [event.request] else []
      ensures event.Arrives? ==>
        old(trace) + [if old(connection.waiting && queue == []) && event.packet.Encoded? then Lost(event.packet.frame)
                      else Arrived(event.packet)] <= trace
      ensures event.TimerFires? && old(timerArmed) ==>
        Silenced(old(Tallied()), old(queue), true, Tallied()) && old(trace) + [TimedOut(old(queue)[0])] <= trace
      ensures Balance() == old(Balance()) + Count(read, watched)
    {
      read := [];
      match event {
        case Arrives(p) => Receive(p);
        case Reads(r) =>
          if queue == [] {
            CountSnoc([], r, watched);
            read := [r];
            ReadFrame(r);
          }
        case TimerFires =>
          if timerArmed {
            OnTimeout();
          }
      }
    }

    // A caller that waits for its callback, as the header asks, keeps the reader quiet over
    // every run, so that WholeRun applies at any point of it. However often a request was read,
    // by the caller or by the client's callbacks, so often it was called back or is queued.
    method RunEvents(events: seq<External>) returns (ghost read: seq<Request>)
      requires Waits() && Quiet() && |queue| <= 1
      modifies this, connection
      ensures Quiet() && |queue| <= 1 && old(trace) <= trace
      ensures answered + Count(queue, watched)
           == old(Balance()) + Count(read, watched) + Asked(client, decisions, watched)
    {
      read := [];
      for i := 0 to |events|
        invariant Quiet() && |queue| <= 1 && old(trace) <= trace
        invariant Balance() == old(Balance()) + Count(read, watched)
      {
        ghost var more := RunEvent(events[i]);
        CountConcat(read, more, watched);
        read := read + more;
      }
    }
  }

  // What a quiet reader guarantees about its whole run, whatever its client decided and
  // however packets, timeouts and reads were interleaved.
  lemma WholeRun(reader: IncomingFramesReader)
    requires reader.Quiet() || reader.Shut()
    ensures var left := reader.cached + Decode(reader.connection.packets);
            && (forall kind ::
                  OfKind(Handed(reader.trace), kind) + OfKind(left, kind) == OfKind(Kept(reader.trace), kind))
            && (reader.queue != [] ==>
                  forall i :: 0 <= i < |left| ==>
                    reader.queue[0].kind.Some? && left[i].kind != reader.queue[0].kind.value)
    ensures Requests(reader.trace) == Answered(reader.trace) + if reader.queue == [] then [] else [reader.queue[0]]
    ensures |LostFrames(reader.trace)| <= |Expired(reader.trace)|
    ensures forall i :: 0 <= i < |Expired(reader.trace)| ==> Expired(reader.trace)[i].timed
    ensures reader.queue != [] ==> reader.connection.waiting && reader.connection.packets == []
    ensures reader.handed == Deliveries(reader.trace)
  {
    assert [] + reader.connection.packets == reader.connection.packets;
    forall kind
      ensures OfKind(Handed(reader.trace), kind) + OfKind(Run(reader.trace).value.frames, kind)
           == OfKind(Kept(reader.trace), kind)
    {
      KeptInOrder(reader.trace, kind);
    }
    EachRequestAnsweredOnce(reader.trace);
    LossBoundedByTimeouts(reader.trace);
    OnlyTimedExpire(reader.trace);
  }

  lemma NextOf(requests: seq<Request>, n: nat)
    requires n < |requests|
    ensures requests[n..][0] == requests[n] && requests[n..][1..] == requests[n + 1..]
  {
  }

  lemma WholeOf(requests: seq<Request>)
    ensures requests[..|requests|] == requests
  {
  }

  // Facts about first matches that the methods use -----------------------------------

  lemma FirstMatchIs(frames: seq<Frame>, kind: Option<int>, i: nat)
    requires i <= |frames| && forall j :: 0 <= j < i ==> !Matches(kind, frames[j])
    requires i < |frames| ==> Matches(kind, frames[i])
    ensures FirstMatch(frames, kind) == i
  {
    var m := FirstMatch(frames, kind);
    assert m >= i;
  }

  // A match in the cache is the first match of the whole box.
  lemma CachedFirst(cached: seq<Frame>, later: seq<Frame>, kind: Option<int>)
    requires FirstMatch(cached, kind) < |cached|
    ensures var i := FirstMatch(cached, kind);
            && FirstMatch(cached + later, kind) == i
            && (cached + later)[..i] + (cached + later)[i + 1..] == (cached[..i] + cached[i + 1..]) + later
  {
    FirstMatchIs(cached + later, kind, FirstMatch(cached, kind));
  }

  // With no match in the cache, the frame in hand is the first match of the box.
  lemma HandedFirst(cached: seq<Frame>, frame: Frame, packets: seq<Packet>, kind: Option<int>)
    requires FirstMatch(cached, kind) == |cached| && Matches(kind, frame)
    ensures var box := cached + Decode([Encoded(frame)] + packets);
            && FirstMatch(box, kind) == |cached| < |box| && box[|cached|] == frame
            && box[..|cached|] + box[|cached| + 1..] == cached + Decode(packets)
  {
    assert ([Encoded(frame)] + packets)[1..] == packets;
    var box := cached + Decode([Encoded(frame)] + packets);
    assert box == cached + ([frame] + Decode(packets));
    FirstMatchIs(box, kind, |cached|);
  }

  lemma CacheBlocks(cached: seq<Frame>, frame: Frame, kind: Option<int>)
    requires FirstMatch(cached, kind) == |cached| && !Matches(kind, frame)
    ensures FirstMatch(cached + [frame], kind) == |cached + [frame]|
  {
    FirstMatchIs(cached + [frame], kind, |cached| + 1);
  }

  lemma {:induction false} DecodeConcat(a: seq<Packet>, b: seq<Packet>)
    ensures Decode(a + b) == Decode(a) + Decode(b)
    decreases |a|
  {
    if a == [] {
      assert a + b == b;
    } else {
      var rest := a[1..];
      DecodeConcat(rest, b);
      DecodeFirst(a[0], rest);
      DecodeFirst(a[0], rest + b);
      assert a == [a[0]] + rest;
      assert a + b == [a[0]] + (rest + b);
      Associate(Decode([a[0]]), Decode(rest), Decode(b));
    }
  }

  lemma DecodeFirst(p: Packet, packets: seq<Packet>)
    ensures Decode([p] + packets) == Decode([p]) + Decode(packets)
  {
    assert ([p] + packets)[1..] == packets;
    assert [p][1..] == [];
  }

  lemma Associate(x: seq<Frame>, y: seq<Frame>, z: seq<Frame>)
    ensures (x + y) + z == x + (y + z)
  {
  }

  lemma ArriveLast(cached: seq<Frame>, packets: seq<Packet>, p: Packet)
    ensures (cached + Decode(packets)) + Decode([p]) == cached + Decode(packets + [p])
  {
    DecodeConcat(packets, [p]);
  }
}
