/**
 What a tracker answers, told from the updates alone: the bytes confirmed, the largest number
 reported for each payload, and what was last answered.
 */
module TrackerHistory {
  import opened Wrappers
  import opened PayloadTracking

  // The bytes that an update confirms.
  function Confirms(u: Update, tracked: set<int>): nat {
    if u.id in tracked && u.status.Success? then u.bytes else 0
  }

  // The bytes of all successes of tracked payloads.
  function ConfirmedBytes(us: seq<Update>, tracked: set<int>): nat {
    if us == [] then 0 else ConfirmedBytes(Init(us), tracked) + Confirms(Last(us), tracked)
  }

  // The largest number of bytes reported for a payload.
  function Largest(us: seq<Update>, id: int): nat {
    if us == [] then 0
    else if Last(us).id == id && Last(us).bytes > Largest(Init(us), id) then Last(us).bytes
    else Largest(Init(us), id)
  }

  // What the tracker's sums are after any updates.
  lemma {:induction false} SumsAre(t: Tracker, us: seq<Update>, sampled: nat -> bool)
    requires Fresh(t)
    ensures var after := Feed(t, us, sampled);
            && after.ids == t.ids && after.total == t.total && after.payloads.Keys == t.payloads.Keys
            && after.confirmed == Wrap(ConfirmedBytes(us, t.payloads.Keys))
  {
    if us != [] {
      var before, sum := Feed(t, Init(us), sampled), ConfirmedBytes(Init(us), t.payloads.Keys);
      SumsAre(t, Init(us), sampled);
      StepAdds(before, Last(us), sampled(|us| - 1), sum);
      assert ConfirmedBytes(us, t.payloads.Keys) == sum + Confirms(Last(us), t.payloads.Keys);
    }
  }

  lemma StepAdds(t: Tracker, u: Update, sampled: bool, sum: nat)
    requires t.confirmed == Wrap(sum)
    ensures Process(t, u, sampled).0.confirmed == Wrap(sum + Confirms(u, t.payloads.Keys))
    ensures var after := Process(t, u, sampled).0;
            after.ids == t.ids && after.total == t.total && after.payloads.Keys == t.payloads.Keys
  {
    ProcessCounts(t, u, sampled);
    WrapSums(sum, Confirms(u, t.payloads.Keys));
  }

  // What a payload is after any updates.
  lemma {:induction false} PayloadIs(t: Tracker, us: seq<Update>, sampled: nat -> bool, id: int)
    requires Fresh(t) && id in t.payloads
    ensures var after := Feed(t, us, sampled);
            && id in after.payloads
            && after.payloads[id] == t.payloads[id].(amount := Largest(us, id), status := StatusAfter(us, id))
  {
    if us != [] {
      PayloadIs(t, Init(us), sampled, id);
      StepIs(Feed(t, Init(us), sampled), Last(us), sampled(|us| - 1));
    }
  }

  lemma StepIs(t: Tracker, u: Update, sampled: bool)
    ensures var after := Process(t, u, sampled).0;
            && after.payloads.Keys == t.payloads.Keys
            && (forall id :: id in t.payloads ==>
                  after.payloads[id] == if id != u.id then t.payloads[id]
                    else t.payloads[id].(status := u.status,
                                         amount := if u.bytes > t.payloads[id].amount then u.bytes
                                                   else t.payloads[id].amount))
  {
    ProcessCounts(t, u, sampled);
  }

  lemma WrapSums(a: nat, b: nat)
    ensures Wrap(Wrap(a) + b) == Wrap(a + b)
  {
  }

  // The progress of the last report that had one, and the bytes of the last that was sampled.
  function LastPercent(t: Tracker, us: seq<Update>, sampled: nat -> bool): int {
    if us == [] then 0
    else
      match LastReport(t, us, sampled)
      case Progress(percent, _, _, _) => percent
      case _ => LastPercent(t, Init(us), sampled)
  }

  function LastSampled(t: Tracker, us: seq<Update>, sampled: nat -> bool): nat {
    if us == [] then 0
    else
      match LastReport(t, us, sampled)
      case Progress(_, transferred, _, Some(_)) => transferred
      case _ => LastSampled(t, Init(us), sampled)
  }

  lemma {:induction false} RecordsLast(t: Tracker, us: seq<Update>, sampled: nat -> bool)
    requires Fresh(t)
    ensures Feed(t, us, sampled).lastProgress == LastPercent(t, us, sampled)
    ensures Feed(t, us, sampled).lastSize == LastSampled(t, us, sampled)
  {
    if us != [] {
      RecordsLast(t, Init(us), sampled);
    }
  }

  // The bytes that count as transferred at an update: those confirmed and, while its payload is
  // under way, the most that was reported for that payload.
  function TransferredAt(us: seq<Update>, tracked: set<int>): nat
    requires us != []
  {
    Sent(Last(us).status, ConfirmedBytes(us, tracked), Largest(us, Last(us).id))
  }

  function Sent(status: Status, confirmed: nat, largest: nat): nat {
    Wrap(confirmed + if status.Success? then 0 else largest)
  }

  function AnswerTo(status: Status, all: bool, now: nat, total: nat, percentBefore: int, sampledBefore: Option<nat>)
    : Report
  {
    var percent := if total == 0 then 100 else 100 * now / total;
    if all then AllComplete
    else if status.Canceled? then WasCancelled
    else if status.Failure? then HasFailed
    else if status.InProgress? && percent == percentBefore then Nothing
    else
      Progress(percent, now, Wrap(total - now),
               if sampledBefore.Some? then Some(Wrap(now - sampledBefore.value)) else None)
  }

  // The answer to every update of a tracked payload: that all is complete, as soon as as many
  // successes were counted as there are payloads; else that the payload was cancelled or failed;
  // else the progress, unless it is the same as before and the payload is not through.
  lemma AnswerIs(t: Tracker, us: seq<Update>, sampled: nat -> bool)
    requires Fresh(t) && us != [] && Last(us).id in t.payloads
    ensures var (tracked, before) := (t.payloads.Keys, Init(us));
            LastReport(t, us, sampled)
            == AnswerTo(Last(us).status, |Succeeded(us, tracked)| + Late(us, tracked) == |t.payloads|,
                        TransferredAt(us, tracked), t.total, LastPercent(t, before, sampled),
                        if sampled(|us| - 1) then Some(LastSampled(t, before, sampled)) else None)
  {
    var before, u := Feed(t, Init(us), sampled), Last(us);
    SumsAre(t, Init(us), sampled);
    var c := Count(before, u);
    CountedAt(t, us, sampled, c);
    RecordsLast(t, Init(us), sampled);
    RespondIs(c, c.payloads[u.id], sampled(|us| - 1), TransferredAt(us, t.payloads.Keys));
  }

  // The counters at the last update.
  lemma CountedAt(t: Tracker, us: seq<Update>, sampled: nat -> bool, c: Tracker)
    requires Fresh(t) && us != [] && Last(us).id in t.payloads && Last(us).id in Feed(t, Init(us), sampled).payloads
    requires c == Count(Feed(t, Init(us), sampled), Last(us))
    ensures c.count == |Succeeded(us, t.payloads.Keys)| + Late(us, t.payloads.Keys) && |c.payloads| == |t.payloads|
    ensures c.total == t.total && Last(us).id in c.payloads && c.payloads[Last(us).id].status == Last(us).status
    ensures c.lastProgress == Feed(t, Init(us), sampled).lastProgress
    ensures c.lastSize == Feed(t, Init(us), sampled).lastSize
    ensures Transferred(c, c.payloads[Last(us).id]) == TransferredAt(us, t.payloads.Keys)
  {
    var u, after := Last(us), Feed(t, us, sampled);
    FedLast(t, us, sampled, c);
    SumsAre(t, us, sampled);
    PayloadIs(t, us, sampled, u.id);
    CountIsSuccessesPlusLate(t, us, sampled);
    SameKeys(after.payloads, t.payloads);
    TransferredIs(c, c.payloads[u.id], ConfirmedBytes(us, t.payloads.Keys), Largest(us, u.id));
  }

  lemma FedLast(t: Tracker, us: seq<Update>, sampled: nat -> bool, c: Tracker)
    requires us != [] && Last(us).id in Feed(t, Init(us), sampled).payloads
    requires c == Count(Feed(t, Init(us), sampled), Last(us))
    ensures var (before, after) := (Feed(t, Init(us), sampled), Feed(t, us, sampled));
            && after.payloads == c.payloads && after.confirmed == c.confirmed && after.count == c.count
            && after.total == c.total && c.lastProgress == before.lastProgress && c.lastSize == before.lastSize
  {
    ProcessCounts(Feed(t, Init(us), sampled), Last(us), sampled(|us| - 1));
  }

  lemma TransferredIs(c: Tracker, p: Payload, confirmed: nat, largest: nat)
    requires c.confirmed == Wrap(confirmed) && p.amount == largest
    ensures Transferred(c, p) == Sent(p.status, confirmed, largest)
  {
    WrapSums(confirmed, largest);
  }

  lemma RespondIs(c: Tracker, p: Payload, sampled: bool, now: nat)
    requires now == Transferred(c, p)
    ensures Respond(c, p, sampled).1
         == AnswerTo(p.status, c.count == |c.payloads|, now, c.total, c.lastProgress,
                     if sampled then Some(c.lastSize) else None)
  {
  }

  lemma SameKeys(a: map<int, Payload>, b: map<int, Payload>)
    requires a.Keys == b.Keys
    ensures |a| == |b|
  {
    assert |a| == |a.Keys| && |b| == |b.Keys|;
  }

  // An update of any other payload is not answered and changes nothing.
  lemma OthersAreIgnored(t: Tracker, us: seq<Update>, sampled: nat -> bool)
    requires Fresh(t) && us != [] && Last(us).id !in t.payloads
    ensures LastReport(t, us, sampled).Nothing? && Feed(t, us, sampled) == Feed(t, Init(us), sampled)
  {
    SumsAre(t, Init(us), sampled);
  }
}
