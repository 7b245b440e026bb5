/**
 How one transfer's payloads are counted and summed (payload_tracker.cc). Sizes are 64-bit
 unsigned numbers that wrap around; percentages are exact quotients rounded down.
 */
module PayloadTracking {
  import opened Wrappers

  const WORD := 0x1_0000_0000_0000_0000

  function Wrap(x: int): nat {
    x % WORD
  }

  datatype Status = Success | Failure | InProgress | Canceled

  datatype Update = Update(id: int, status: Status, bytes: nat)

  // An attachment as the tracker sees it.
  datatype Item = Item(attachment: int, size: int)

  datatype Payload = Payload(attachment: int, amount: nat, total: nat, status: Status)

  datatype Tracker = Tracker(
    ids: seq<int>,                // the tracked payload ids, in the order they were added
    payloads: map<int, Payload>,  // payload_state_
    total: nat,                   // total_transfer_size_
    confirmed: nat,               // confirmed_transfer_size_
    count: nat,                   // transferred_attachments_count_
    lastProgress: int,            // last_update_progress_
    lastSize: nat)                // last_transferred_size_

  // What ProcessPayloadUpdate returns. `sample` is the difference from which the speed is
  // computed, when it is computed; `remaining` is what the estimated time is computed from.
  datatype Report =
    | Nothing
    | AllComplete
    | WasCancelled
    | HasFailed
    | Progress(percent: int, transferred: nat, remaining: nat, sample: Option<nat>)

  // The constructor's loop over files, then texts, then Wi-Fi credentials.
  function Track(items: seq<Item>, payloadIds: map<int, int>): Tracker {
    if items == [] then Tracker([], map[], 0, 0, 0, 0, 0)
    else Add(Track(Init(items), payloadIds), Last(items), payloadIds)
  }

  function Add(t: Tracker, item: Item, payloadIds: map<int, int>): Tracker {
    if item.attachment !in payloadIds then t
    else
      var id := payloadIds[item.attachment];
      var grown := t.(total := Wrap(t.total + item.size));
      if id in t.payloads then grown
      else grown.(ids := t.ids + [id],
                  payloads := t.payloads[id := Payload(item.attachment, 0, Wrap(item.size), InProgress)])
  }

  function Transferred(t: Tracker, p: Payload): nat {
    if p.status.Success? then t.confirmed else Wrap(t.confirmed + p.amount)
  }

  function PercentOf(now: nat, total: nat): int {
    if total == 0 then 100 else 100 * now / total
  }

  function Percent(t: Tracker, p: Payload): int {
    PercentOf(Transferred(t, p), t.total)
  }

  // The counters after an update of a tracked payload.
  function Count(t: Tracker, u: Update): Tracker
    requires u.id in t.payloads
  {
    var p := t.payloads[u.id];
    var amount := if u.bytes > p.amount then u.bytes else p.amount;
    var counted := t.(payloads := t.payloads[u.id := p.(status := u.status, amount := amount)]);
    if u.status.Success? then counted.(count := t.count + 1, confirmed := Wrap(t.confirmed + u.bytes)) else counted
  }

  // OnTransferUpdate: `sampled` tells whether the time has come to compute the speed.
  function Respond(c: Tracker, p: Payload, sampled: bool): (Tracker, Report) {
    if c.count == |c.payloads| then (c, AllComplete)
    else if p.status.Canceled? then (c, WasCancelled)
    else if p.status.Failure? then (c, HasFailed)
    else
      var percent, now := Percent(c, p), Transferred(c, p);
      if percent == c.lastProgress && !p.status.Success? then (c, Nothing)
      else
        (c.(lastProgress := percent, lastSize := if sampled then now else c.lastSize),
         Progress(percent, now, Wrap(c.total - now), if sampled then Some(Wrap(now - c.lastSize)) else None))
  }

  function Process(t: Tracker, u: Update, sampled: bool): (Tracker, Report) {
    if u.id !in t.payloads then (t, Nothing)
    else
      var c := Count(t, u);
      Respond(c, c.payloads[u.id], sampled)
  }

  class PayloadTracker {
    var payloads: map<int, Payload>
    var total: nat
    var confirmed: nat
    var count: nat
    var lastProgress: int
    var lastSize: nat
    ghost var ids: seq<int>

    ghost function State(): Tracker
      reads this
    {
      Tracker(ids, payloads, total, confirmed, count, lastProgress, lastSize)
    }

    constructor (items: seq<Item>, payloadIds: map<int, int>)
      ensures State() == Track(items, payloadIds)
    {
      payloads, total, confirmed, count, lastProgress, lastSize, ids := map[], 0, 0, 0, 0, 0, [];
      new;
      var i := 0;
      while i < |items|
        invariant 0 <= i <= |items|
        invariant State() == Track(items[..i], payloadIds)
      {
        assert Init(items[..i + 1]) == items[..i];
        var item := items[i];
        i := i + 1;
        if item.attachment !in payloadIds {
          continue;
        }
        var id := payloadIds[item.attachment];
        if id !in payloads {
          payloads := payloads[id := Payload(item.attachment, 0, Wrap(item.size), InProgress)];
          ids := ids + [id];
        }
        total := Wrap(total + item.size);
      }
      assert items[..i] == items;
    }

    method ProcessPayloadUpdate(u: Update, sampled: bool) returns (report: Report)
      modifies this
      ensures (State(), report) == Process(old(State()), u, sampled)
    {
      if u.id !in payloads {
        return Nothing;
      }
      var p := payloads[u.id].(status := u.status);
      if p.status == Success {
        count := count + 1;
        confirmed := Wrap(confirmed + u.bytes);
      }
      if u.bytes > p.amount {
        p := p.(amount := u.bytes);
      }
      payloads := payloads[u.id := p];
      report := OnTransferUpdate(p, sampled);
    }

    method OnTransferUpdate(p: Payload, sampled: bool) returns (report: Report)
      modifies this`lastProgress, this`lastSize
      ensures (State(), report) == Respond(old(State()), p, sampled)
    {
      if count == |payloads| {
        return AllComplete;
      }
      if p.status == Canceled {
        return WasCancelled;
      }
      if p.status == Failure {
        return HasFailed;
      }
      var now := if p.status == Success then confirmed else Wrap(confirmed + p.amount);
      var percent := if total == 0 then 100 else 100 * now / total;
      if percent == lastProgress && p.status != Success {
        return Nothing;
      }
      var sample: Option<nat> := None;
      if sampled {
        sample := Some(Wrap(now - lastSize));
        lastSize := now;
      }
      lastProgress := percent;
      report := Progress(percent, now, Wrap(total - now), sample);
    }
  }

  // Counting ------------------------------------------------------------------------

  // The tracker after a stream of updates; `sampled(i)` is the clock's part in update i.
  function Feed(t: Tracker, us: seq<Update>, sampled: nat -> bool): Tracker {
    if us == [] then t else Process(Feed(t, Init(us), sampled), Last(us), sampled(|us| - 1)).0
  }

  // What the last update of a stream is answered with.
  function LastReport(t: Tracker, us: seq<Update>, sampled: nat -> bool): Report
    requires us != []
  {
    Process(Feed(t, Init(us), sampled), Last(us), sampled(|us| - 1)).1
  }

  function StatusAfter(us: seq<Update>, id: int): Status {
    if us == [] then InProgress
    else if Last(us).id == id then Last(us).status
    else StatusAfter(Init(us), id)
  }

  function Succeeded(us: seq<Update>, tracked: set<int>): set<int> {
    set id | id in tracked && StatusAfter(us, id).Success?
  }

  // How many updates concern a tracked payload that had already succeeded.
  function Late(us: seq<Update>, tracked: set<int>): nat {
    if us == [] then 0
    else Late(Init(us), tracked) + if Last(us).id in Succeeded(Init(us), tracked) then 1 else 0
  }

  ghost predicate Fresh(t: Tracker) {
    && t.count == t.confirmed == t.lastSize == 0 && t.lastProgress == 0
    && forall id :: id in t.payloads ==> t.payloads[id].status.InProgress? && t.payloads[id].amount == 0
  }

  // Past the counters, an update only changes what was last reported.
  lemma ProcessCounts(t: Tracker, u: Update, sampled: bool)
    ensures var (after, c) := (Process(t, u, sampled).0, if u.id in t.payloads then Count(t, u) else t);
            && after.ids == c.ids && after.payloads == c.payloads && after.total == c.total
            && after.confirmed == c.confirmed && after.count == c.count
  {
  }

  lemma SucceededSteps(us: seq<Update>, tracked: set<int>)
    requires us != []
    ensures var (before, u) := (Succeeded(Init(us), tracked), Last(us));
            |Succeeded(us, tracked)| + (if u.id in before then 1 else 0)
            == |before| + (if u.id in tracked && u.status.Success? then 1 else 0)
  {
    var before, u := Succeeded(Init(us), tracked), Last(us);
    var others := before - {u.id};
    assert Succeeded(us, tracked) == if u.id in tracked && u.status.Success? then others + {u.id} else others;
    assert before == if u.id in before then others + {u.id} else others;
  }

  // The count is the number of payloads in success state plus the number of late updates: the
  // tracker has no guard of its own, and what it counts too much it never makes good.
  lemma {:induction false} CountIsSuccessesPlusLate(t: Tracker, us: seq<Update>, sampled: nat -> bool)
    requires Fresh(t)
    ensures var after, tracked := Feed(t, us, sampled), t.payloads.Keys;
            && after.payloads.Keys == tracked
            && (forall id :: id in tracked ==> after.payloads[id].status == StatusAfter(us, id))
            && after.count == |Succeeded(us, tracked)| + Late(us, tracked)
  {
    var tracked := t.payloads.Keys;
    if us == [] {
      assert Succeeded(us, tracked) == {};
    } else {
      var before, u := Init(us), Last(us);
      CountIsSuccessesPlusLate(t, before, sampled);
      ProcessCounts(Feed(t, before, sampled), u, sampled(|us| - 1));
      SucceededSteps(us, tracked);
    }
  }

  // Completion is reported exactly when every payload has succeeded, if no update came late.
  lemma CompleteIffAllSucceeded(t: Tracker, us: seq<Update>, sampled: nat -> bool)
    requires Fresh(t) && us != [] && Last(us).id in t.payloads
    requires Late(us, t.payloads.Keys) == 0
    ensures LastReport(t, us, sampled).AllComplete?
            <==> forall id :: id in t.payloads ==> StatusAfter(us, id).Success?
  {
    var tracked := t.payloads.Keys;
    CountIsSuccessesPlusLate(t, Init(us), sampled);
    CountIsSuccessesPlusLate(t, us, sampled);
    SubsetOfSameSize(Succeeded(us, tracked), tracked);
  }

  lemma SubsetOfSameSize(a: set<int>, b: set<int>)
    requires a <= b
    ensures |a| == |b| <==> a == b
  {
    assert b == a + (b - a);
  }

  // Two payloads, and the success of the first one told twice: the tracker calls it complete.
  lemma ToldTwice()
    ensures exists t: Tracker, us: seq<Update>, sampled: nat -> bool ::
              Fresh(t) && us != [] && LastReport(t, us, sampled).AllComplete?
              && exists id :: id in t.payloads && !StatusAfter(us, id).Success?
  {
    var payload := Payload(1, 0, 10, InProgress);
    var t := Tracker([7, 8], map[7 := payload, 8 := payload], 20, 0, 0, 0, 0);
    var u := Update(7, Success, 10);
    var us := [u, u];
    var sampled := (i: nat) => false;
    assert Init(us) == [u] && Init([u]) == [];
    assert Feed(t, [], sampled) == t;
    assert t.payloads.Keys == {7, 8};
    var once := Feed(t, [u], sampled);
    assert once == Process(t, u, false).0;
    assert once.payloads.Keys == {7, 8} && once.count == 1;
    assert LastReport(t, us, sampled) == Process(once, u, false).1;
    assert 8 in t.payloads && StatusAfter(us, 8) == StatusAfter([u], 8) == StatusAfter([], 8);
  }

  // Sums over the tracked payloads -----------------------------------------------------

  predicate Distinct(ids: seq<int>) {
    forall i, j :: 0 <= i < j < |ids| ==> ids[i] != ids[j]
  }

  predicate Covers(payloads: map<int, Payload>, ids: seq<int>) {
    forall i :: 0 <= i < |ids| ==> ids[i] in payloads
  }

  function Sum(ids: seq<int>, payloads: map<int, Payload>, weight: Payload -> nat): nat
    requires Covers(payloads, ids)
  {
    if ids == [] then 0 else weight(payloads[ids[0]]) + Sum(ids[1..], payloads, weight)
  }

  function Size(p: Payload): nat { p.total }

  // What a payload may still confirm, and what it has transferred without confirming it.
  function Unsent(p: Payload): nat { if p.status.Success? then 0 else p.total }

  function Outstanding(p: Payload): nat { if p.status.Success? then 0 else p.amount }

  lemma {:induction false} SumIgnores(ids: seq<int>, payloads: map<int, Payload>, id: int, p: Payload,
                                      weight: Payload -> nat)
    requires Covers(payloads, ids) && id !in ids
    ensures Sum(ids, payloads[id := p], weight) == Sum(ids, payloads, weight)
  {
    if ids != [] {
      SumIgnores(ids[1..], payloads, id, p, weight);
    }
  }

  // What a new value of one payload does to a sum.
  lemma {:induction false} SumFollows(ids: seq<int>, payloads: map<int, Payload>, id: int, p: Payload,
                                      weight: Payload -> nat)
    requires Distinct(ids) && Covers(payloads, ids) && id in ids
    ensures Sum(ids, payloads[id := p], weight) + weight(payloads[id]) == Sum(ids, payloads, weight) + weight(p)
  {
    if ids[0] == id {
      SumIgnores(ids[1..], payloads, id, p, weight);
    } else {
      SumFollows(ids[1..], payloads, id, p, weight);
    }
  }

  lemma {:induction false} SumHas(ids: seq<int>, payloads: map<int, Payload>, id: int, weight: Payload -> nat)
    requires Covers(payloads, ids) && id in ids
    ensures weight(payloads[id]) <= Sum(ids, payloads, weight)
  {
    if ids[0] != id {
      SumHas(ids[1..], payloads, id, weight);
    }
  }

  lemma {:induction false} SumMonotone(ids: seq<int>, payloads: map<int, Payload>, low: Payload -> nat,
                                       high: Payload -> nat)
    requires Covers(payloads, ids)
    requires forall id :: id in payloads ==> low(payloads[id]) <= high(payloads[id])
    ensures Sum(ids, payloads, low) <= Sum(ids, payloads, high)
  {
    if ids != [] {
      SumMonotone(ids[1..], payloads, low, high);
    }
  }

  lemma {:induction false} SumOnly(ids: seq<int>, payloads: map<int, Payload>, id: int, weight: Payload -> nat)
    requires Distinct(ids) && Covers(payloads, ids)
    requires forall other :: other in payloads && other != id ==> weight(payloads[other]) == 0
    ensures Sum(ids, payloads, weight) == if id in ids then weight(payloads[id]) else 0
  {
    if ids != [] {
      SumOnly(ids[1..], payloads, id, weight);
    }
  }

  // Arithmetic --------------------------------------------------------------------------

  // The ids are the payloads', without repetition ...
  ghost predicate Indexed(t: Tracker) {
    && Distinct(t.ids) && Covers(t.payloads, t.ids)
    && (forall id :: id in t.payloads ==> id in t.ids)
  }

  // ... and the total is the sum of their sizes.
  ghost predicate Sound(t: Tracker) {
    Indexed(t) && t.total == Sum(t.ids, t.payloads, Size) < WORD
  }

  // Confirmed bytes leave room for every payload that has not succeeded, and no payload has
  // transferred more than its size.
  ghost predicate Bounded(t: Tracker)
    requires Covers(t.payloads, t.ids)
  {
    && t.confirmed + Sum(t.ids, t.payloads, Unsent) <= t.total
    && forall id :: id in t.payloads ==> t.payloads[id].amount <= t.payloads[id].total
  }

  ghost predicate Fits(t: Tracker, u: Update) {
    u.id in t.payloads ==> u.bytes <= t.payloads[u.id].total && !t.payloads[u.id].status.Success?
  }

  // Everything that is or may yet be on its way fits into the total.
  lemma OutstandingFits(t: Tracker)
    requires Sound(t) && Bounded(t)
    ensures t.confirmed + Sum(t.ids, t.payloads, Outstanding) <= t.total
    ensures forall id :: id in t.payloads && !t.payloads[id].status.Success? ==>
              t.confirmed + t.payloads[id].amount <= t.total
  {
    SumMonotone(t.ids, t.payloads, Outstanding, Unsent);
    forall id | id in t.payloads && !t.payloads[id].status.Success?
      ensures t.confirmed + t.payloads[id].amount <= t.total
    {
      SumHas(t.ids, t.payloads, id, Outstanding);
    }
  }

  lemma CountKeepsBounded(t: Tracker, u: Update)
    requires Sound(t) && Bounded(t) && Fits(t, u) && u.id in t.payloads
    ensures var c := Count(t, u);
            && Sound(c) && Bounded(c) && c.total == t.total
            && c.confirmed == t.confirmed + if u.status.Success? then u.bytes else 0
  {
    var p := Count(t, u).payloads[u.id];
    SumFollows(t.ids, t.payloads, u.id, p, Size);
    SumFollows(t.ids, t.payloads, u.id, p, Unsent);
    SumHas(t.ids, t.payloads, u.id, Unsent);
  }

  ghost predicate InRange(t: Tracker, u: Update, report: Report)
    requires u.id in t.payloads && report.Progress?
  {
    && report.transferred == t.confirmed
                             + (if u.status.Success? then u.bytes else Max(u.bytes, t.payloads[u.id].amount))
    && report.transferred + report.remaining == t.total
    && 0 <= report.percent <= 100
  }

  lemma RespondInRange(c: Tracker, p: Payload, sampled: bool)
    requires Transferred(c, p) <= c.total < WORD
    ensures var report := Respond(c, p, sampled).1;
            report.Progress? ==>
              && report.transferred == Transferred(c, p)
              && report.transferred + report.remaining == c.total
              && 0 <= report.percent <= 100
  {
    PercentBound(Transferred(c, p), c.total);
  }

  lemma CountInRange(t: Tracker, u: Update)
    requires Sound(t) && Bounded(t) && Fits(t, u) && u.id in t.payloads
    ensures var (c, bytes) := (Count(t, u), Max(u.bytes, t.payloads[u.id].amount));
            && c.total == t.total
            && Transferred(c, c.payloads[u.id]) <= t.total
            && Transferred(c, c.payloads[u.id]) == t.confirmed + (if u.status.Success? then u.bytes else bytes)
  {
    CountKeepsBounded(t, u);
    OutstandingFits(Count(t, u));
  }

  // One update that fits: the sum that is reported is exact and never exceeds the total, so
  // neither it nor what remains wraps around, and the percentage is one.
  lemma NothingWraps(t: Tracker, u: Update, sampled: bool)
    requires Sound(t) && Bounded(t) && Fits(t, u)
    ensures var report := Process(t, u, sampled).1;
            report.Progress? ==> u.id in t.payloads && InRange(t, u, report)
  {
    if u.id in t.payloads {
      var c := Count(t, u);
      CountInRange(t, u);
      RespondInRange(c, c.payloads[u.id], sampled);
    }
  }

  lemma ProcessKeepsBounded(t: Tracker, u: Update, sampled: bool)
    requires Sound(t) && Bounded(t) && Fits(t, u)
    ensures var after := Process(t, u, sampled).0;
            Sound(after) && Bounded(after)
  {
    ProcessCounts(t, u, sampled);
    if u.id in t.payloads {
      CountKeepsBounded(t, u);
    }
  }

  function Max(a: nat, b: nat): nat { if a > b then a else b }

  lemma PercentBound(now: nat, total: nat)
    requires now <= total
    ensures total > 0 ==> 0 <= 100 * now / total <= 100
  {
    if total > 0 {
      QuotientMonotone(100 * now, 100 * total, total);
      assert 100 * total / total == 100;
    }
  }

  lemma QuotientMonotone(x: nat, y: nat, d: nat)
    requires x <= y && d > 0
    ensures x / d <= y / d
  {
    assert x == d * (x / d) + x % d && y == d * (y / d) + y % d;
    assert d * (x / d) < d * (y / d + 1);
  }

  // Whole streams -----------------------------------------------------------------------

  ghost predicate WithinSizes(t: Tracker, us: seq<Update>) {
    forall u :: u in us && u.id in t.payloads ==> u.bytes <= t.payloads[u.id].total
  }

  lemma FreshIsBounded(t: Tracker)
    requires Sound(t) && Fresh(t)
    ensures Bounded(t)
  {
    SumMonotone(t.ids, t.payloads, Unsent, Size);
  }

  lemma {:induction false} TotalsStay(t: Tracker, us: seq<Update>, sampled: nat -> bool)
    ensures var after := Feed(t, us, sampled);
            && after.ids == t.ids && after.total == t.total && after.payloads.Keys == t.payloads.Keys
            && forall id :: id in t.payloads ==> after.payloads[id].total == t.payloads[id].total
  {
    if us != [] {
      TotalsStay(t, Init(us), sampled);
      ProcessCounts(Feed(t, Init(us), sampled), Last(us), sampled(|us| - 1));
    }
  }

  // Over every interleaving of updates that stay within their payloads' sizes, none of them
  // late, every report is in range.
  lemma {:induction false} EveryReportInRange(t: Tracker, us: seq<Update>, sampled: nat -> bool)
    requires Sound(t) && Fresh(t) && WithinSizes(t, us) && Late(us, t.payloads.Keys) == 0
    ensures var after := Feed(t, us, sampled);
            && Sound(after) && Bounded(after)
    ensures us != [] && LastReport(t, us, sampled).Progress? ==>
              InRange(Feed(t, Init(us), sampled), Last(us), LastReport(t, us, sampled))
  {
    if us == [] {
      FreshIsBounded(t);
    } else {
      var before, u := Init(us), Last(us);
      EveryReportInRange(t, before, sampled);
      LastFits(t, us, sampled);
      NothingWraps(Feed(t, before, sampled), u, sampled(|us| - 1));
      ProcessKeepsBounded(Feed(t, before, sampled), u, sampled(|us| - 1));
    }
  }

  lemma LastFits(t: Tracker, us: seq<Update>, sampled: nat -> bool)
    requires Fresh(t) && us != [] && WithinSizes(t, us) && Late(us, t.payloads.Keys) == 0
    ensures Fits(Feed(t, Init(us), sampled), Last(us))
  {
    CountIsSuccessesPlusLate(t, Init(us), sampled);
    TotalsStay(t, Init(us), sampled);
    assert Last(us) in us;
  }

  // A late update can carry the sum past the total: of sizes 10, 1 and 1 the first is told twice,
  // the percentage exceeds 100, and what remains wraps around.
  lemma LateUpdateOvershoots()
    ensures var big, small, u := Payload(1, 0, 10, InProgress), Payload(2, 0, 1, InProgress), Update(7, Success, 10);
            var t := Tracker([7, 8, 9], map[7 := big, 8 := small, 9 := small], 12, 0, 0, 0, 0);
            && Fresh(t) && Sound(t)
            && Process(Process(t, u, false).0, u, false).1 == Progress(166, 20, WORD - 8, None)
  {
    var big, small, u := Payload(1, 0, 10, InProgress), Payload(2, 0, 1, InProgress), Update(7, Success, 10);
    var payloads := map[7 := big, 8 := small, 9 := small];
    var t := Tracker([7, 8, 9], payloads, 12, 0, 0, 0, 0);
    assert [9][1..] == [] && Sum([9], payloads, Size) == 1;
    assert [8, 9][1..] == [9] && Sum([8, 9], payloads, Size) == 2;
    assert t.ids[1..] == [8, 9] && Sum(t.ids, payloads, Size) == 12;
    var once := Count(t, u);
    assert once.payloads.Keys == {7, 8, 9};
    var twice := Count(once, u);
    assert twice.payloads.Keys == {7, 8, 9};
    ProcessTwice(once, twice);
  }

  lemma ProcessTwice(once: Tracker, twice: Tracker)
    requires once.total == twice.total == 12 && once.confirmed == 10 && twice.confirmed == 20
    requires |once.payloads| == |twice.payloads| == 3 && once.count == 1 && twice.count == 2
    requires twice.lastProgress == once.lastProgress == 0
    ensures forall p: Payload :: p.status.Success? ==>
              && Respond(once, p, false).0 == once.(lastProgress := 83)
              && Respond(twice.(lastProgress := 83), p, false).1 == Progress(166, 20, WORD - 8, None)
  {
  }

  // Payloads running one after another: when one moves on, whatever another has transferred has
  // been confirmed, and its own bytes have not gone down.
  ghost predicate InTurn(us: seq<Update>) {
    forall i, j :: 0 <= j < i < |us| && (us[i].status.InProgress? || us[i].status.Success?) && us[j].bytes > 0 ==>
      if us[j].id == us[i].id then us[j].bytes <= us[i].bytes else StatusAfter(us[..i], us[j].id).Success?
  }

  function Level(t: Tracker): nat
    requires Covers(t.payloads, t.ids)
  {
    t.confirmed + Sum(t.ids, t.payloads, Outstanding)
  }

  // What has been reported is not beyond what has been transferred.
  ghost predicate Behind(t: Tracker)
    requires Covers(t.payloads, t.ids)
  {
    t.lastSize <= Level(t) && t.lastProgress <= PercentOf(Level(t), t.total)
  }

  // An amount is the number of bytes of some update of the payload, and no update had more.
  lemma {:induction false} AmountIsLargest(t: Tracker, us: seq<Update>, sampled: nat -> bool, id: int)
    requires Fresh(t) && id in t.payloads
    ensures id in Feed(t, us, sampled).payloads
    ensures var amount := Feed(t, us, sampled).payloads[id].amount;
            amount == 0 || exists j :: 0 <= j < |us| && us[j].id == id && us[j].bytes == amount
  {
    if us != [] {
      var before := Init(us);
      AmountIsLargest(t, before, sampled, id);
      assert forall j :: 0 <= j < |before| ==> us[j] == before[j];
      assert us[|before|] == Last(us);
    }
  }

  // When it is a payload's turn, only that payload has bytes outstanding, and no more than the
  // update brings.
  lemma OnlyItsOwnOutstanding(t: Tracker, us: seq<Update>, sampled: nat -> bool)
    requires Sound(t) && Fresh(t) && us != [] && InTurn(us) && Last(us).id in t.payloads
    requires Last(us).status.InProgress? || Last(us).status.Success?
    ensures var before, u := Feed(t, Init(us), sampled), Last(us);
            && u.id in before.payloads && before.payloads[u.id].amount <= u.bytes
            && forall id :: id in before.payloads && id != u.id ==> Outstanding(before.payloads[id]) == 0
  {
    var before, u, i := Feed(t, Init(us), sampled), Last(us), |us| - 1;
    CountIsSuccessesPlusLate(t, Init(us), sampled);
    forall id | id in t.payloads
      ensures if id == u.id then before.payloads[id].amount <= u.bytes else Outstanding(before.payloads[id]) == 0
    {
      AmountIsLargest(t, Init(us), sampled, id);
      assert us[i] == u && us[..i] == Init(us);
    }
  }

  ghost predicate Forward(t: Tracker, report: Report)
    requires report.Progress?
  {
    && t.lastProgress <= report.percent
    && (report.sample.Some? ==> t.lastSize + report.sample.value == report.transferred)
  }

  lemma RespondForward(c: Tracker, p: Payload, sampled: bool, was: nat)
    requires c.lastSize <= was && c.lastProgress <= PercentOf(was, c.total)
    requires (p.status.InProgress? || p.status.Success?) ==> was <= Transferred(c, p) < WORD
    ensures var report := Respond(c, p, sampled).1;
            report.Progress? ==> Forward(c, report)
  {
    if p.status.InProgress? || p.status.Success? {
      PercentRises(was, Transferred(c, p), c.total);
    }
  }

  // What an answer records is what it reports.
  lemma RespondRecords(c: Tracker, p: Payload, sampled: bool)
    ensures var (after, report) := Respond(c, p, sampled);
            if report.Progress? then
              after == c.(lastProgress := Percent(c, p), lastSize := if sampled then Transferred(c, p) else c.lastSize)
            else after == c
  {
  }

  // One update in turn: the difference from which the speed is computed does not wrap around
  // and the progress does not go back.
  lemma StepForward(t: Tracker, u: Update, sampled: bool)
    requires Sound(t) && Bounded(t) && Behind(t) && Fits(t, u) && u.id in t.payloads
    requires u.status.InProgress? || u.status.Success? ==>
               && t.payloads[u.id].amount <= u.bytes
               && forall id :: id in t.payloads && id != u.id ==> Outstanding(t.payloads[id]) == 0
    ensures var (after, report) := Process(t, u, sampled);
            && Sound(after) && Behind(after)
            && (report.Progress? ==> Forward(t, report))
  {
    var c := Count(t, u);
    CountKeepsBounded(t, u);
    LevelRises(t, u);
    ProcessCounts(t, u, sampled);
    RespondStaysBehind(c, c.payloads[u.id], sampled, Level(t), Level(c));
  }

  lemma RespondStaysBehind(c: Tracker, p: Payload, sampled: bool, was: nat, level: nat)
    requires c.lastSize <= was <= level < WORD && c.lastProgress <= PercentOf(was, c.total)
    requires p.status.InProgress? || p.status.Success? ==> level == Transferred(c, p)
    ensures var (after, report) := Respond(c, p, sampled);
            && after.lastSize <= level && after.lastProgress <= PercentOf(level, c.total)
            && (report.Progress? ==> Forward(c, report))
  {
    RespondForward(c, p, sampled, was);
    RespondRecords(c, p, sampled);
    PercentRises(was, level, c.total);
  }

  lemma PercentRises(was: nat, level: nat, total: nat)
    requires was <= level
    ensures PercentOf(was, total) <= PercentOf(level, total)
  {
    if total > 0 {
      QuotientMonotone(100 * was, 100 * level, total);
    }
  }

  lemma LevelRises(t: Tracker, u: Update)
    requires Sound(t) && Bounded(t) && Fits(t, u) && u.id in t.payloads
    requires u.status.InProgress? || u.status.Success? ==>
               && t.payloads[u.id].amount <= u.bytes
               && forall id :: id in t.payloads && id != u.id ==> Outstanding(t.payloads[id]) == 0
    ensures var c := Count(t, u);
            && Covers(c.payloads, c.ids) && Level(t) <= Level(c) <= t.total
            && (u.status.InProgress? || u.status.Success? ==> Level(c) == Transferred(c, c.payloads[u.id]))
  {
    var c := Count(t, u);
    CountKeepsBounded(t, u);
    OutstandingFits(c);
    SumFollows(t.ids, t.payloads, u.id, c.payloads[u.id], Outstanding);
    if u.status.InProgress? || u.status.Success? {
      SumOnly(t.ids, t.payloads, u.id, Outstanding);
    }
  }

  lemma {:induction false} ProgressNeverGoesBack(t: Tracker, us: seq<Update>, sampled: nat -> bool)
    requires Sound(t) && Fresh(t) && WithinSizes(t, us) && Late(us, t.payloads.Keys) == 0 && InTurn(us)
    ensures var after := Feed(t, us, sampled);
            Sound(after) && Behind(after)
    ensures us != [] && LastReport(t, us, sampled).Progress? ==>
              Forward(Feed(t, Init(us), sampled), LastReport(t, us, sampled))
  {
    if us == [] {
    } else {
      var before, u := Init(us), Last(us);
      assert forall i :: 0 <= i < |before| ==> us[..i] == before[..i];
      ProgressNeverGoesBack(t, before, sampled);
      EveryReportInRange(t, before, sampled);
      LastFits(t, us, sampled);
      TotalsStay(t, before, sampled);
      if u.id in t.payloads {
        if u.status.InProgress? || u.status.Success? {
          OnlyItsOwnOutstanding(t, us, sampled);
        }
        StepForward(Feed(t, before, sampled), u, sampled(|us| - 1));
      }
    }
  }
}
