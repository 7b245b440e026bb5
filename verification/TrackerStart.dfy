/**
 The tracker that the constructor builds (payload_tracker.cc, lines 41-96): when it is sound, and
 what it reports when it is not.
 */
module TrackerStart {
  import opened Wrappers
  import opened PayloadTracking

  function TotalSize(items: seq<Item>): int {
    if items == [] then 0 else TotalSize(Init(items)) + Last(items).size
  }

  ghost predicate Mapped(items: seq<Item>, payloadIds: map<int, int>) {
    forall i :: 0 <= i < |items| ==> items[i].attachment in payloadIds
  }

  // Each attachment has a payload of its own.
  ghost predicate OwnPayloads(items: seq<Item>, payloadIds: map<int, int>) {
    && Mapped(items, payloadIds)
    && forall i, j :: 0 <= i < j < |items| ==> payloadIds[items[i].attachment] != payloadIds[items[j].attachment]
  }

  ghost predicate SizesFit(items: seq<Item>) {
    forall i :: 0 <= i < |items| ==> 0 <= items[i].size < WORD
  }

  ghost predicate AllPositive(items: seq<Item>) {
    forall i :: 0 <= i < |items| ==> items[i].size > 0
  }

  // Each attachment's payload is tracked, and no other payload.
  ghost predicate Tracks(t: Tracker, items: seq<Item>, payloadIds: map<int, int>)
    requires Mapped(items, payloadIds)
  {
    && (forall i :: 0 <= i < |items| ==> payloadIds[items[i].attachment] in t.payloads)
    && forall id :: id in t.payloads ==> exists i :: 0 <= i < |items| && payloadIds[items[i].attachment] == id
  }

  // With payloads of their own, the attachments are tracked in their order and with their sizes.
  ghost predicate Lists(t: Tracker, items: seq<Item>, payloadIds: map<int, int>)
    requires Mapped(items, payloadIds)
  {
    && |t.ids| == |items|
    && forall i :: 0 <= i < |items| ==>
         && t.ids[i] == payloadIds[items[i].attachment] && t.ids[i] in t.payloads
         && t.payloads[t.ids[i]] == Payload(items[i].attachment, 0, Wrap(items[i].size), InProgress)
  }

  // The tracked sizes are the attachments' sizes, except that of attachments that share a
  // payload only the first one's counts.
  ghost predicate Sums(t: Tracker, items: seq<Item>, payloadIds: map<int, int>)
    requires Indexed(t)
  {
    var sum := Sum(t.ids, t.payloads, Size);
    && sum <= TotalSize(items)
    && (OwnPayloads(items, payloadIds) ==> sum == TotalSize(items))
    && (AllPositive(items) && sum == TotalSize(items) ==> OwnPayloads(items, payloadIds))
  }

  lemma {:induction false} SumSnoc(ids: seq<int>, id: int, payloads: map<int, Payload>, weight: Payload -> nat)
    requires Covers(payloads, ids) && id in payloads
    ensures Covers(payloads, ids + [id])
    ensures Sum(ids + [id], payloads, weight) == Sum(ids, payloads, weight) + weight(payloads[id])
  {
    if ids == [] {
      assert [id][1..] == [];
    } else {
      SumSnoc(ids[1..], id, payloads, weight);
      assert (ids + [id])[1..] == ids[1..] + [id];
    }
  }

  lemma WrapSum(a: int, b: int)
    ensures Wrap(Wrap(a) + b) == Wrap(a + b)
  {
    assert a == WORD * (a / WORD) + a % WORD;
    AddWords(a / WORD, a % WORD + b);
  }

  lemma AddWords(k: int, x: int)
    ensures Wrap(k * WORD + x) == Wrap(x)
  {
  }

  lemma AddIndexes(t: Tracker, item: Item, payloadIds: map<int, int>)
    requires Indexed(t) && Fresh(t) && item.attachment in payloadIds
    ensures var after := Add(t, item, payloadIds);
            && Indexed(after) && Fresh(after)
            && Sum(after.ids, after.payloads, Size)
               == Sum(t.ids, t.payloads, Size)
                  + (if payloadIds[item.attachment] in t.payloads then 0 else Wrap(item.size))
  {
    var id := payloadIds[item.attachment];
    if id !in t.payloads {
      var after := Add(t, item, payloadIds);
      SumIgnores(t.ids, t.payloads, id, after.payloads[id], Size);
      SumSnoc(t.ids, id, after.payloads, Size);
    }
  }

  lemma AddTracks(t: Tracker, items: seq<Item>, payloadIds: map<int, int>)
    requires items != [] && Mapped(items, payloadIds) && Tracks(t, Init(items), payloadIds)
    ensures Tracks(Add(t, Last(items), payloadIds), items, payloadIds)
  {
    var after, n := Add(t, Last(items), payloadIds), |items| - 1;
    forall id | id in after.payloads
      ensures exists i :: 0 <= i < |items| && payloadIds[items[i].attachment] == id
    {
      if id in t.payloads {
        var i :| 0 <= i < n && payloadIds[Init(items)[i].attachment] == id;
        assert payloadIds[items[i].attachment] == id;
      } else {
        assert payloadIds[items[n].attachment] == id;
      }
    }
  }

  // One more attachment has a payload of its own if it is not tracked yet.
  lemma OwnPayloadsNext(t: Tracker, items: seq<Item>, payloadIds: map<int, int>)
    requires items != [] && Mapped(items, payloadIds) && Tracks(t, Init(items), payloadIds)
    ensures OwnPayloads(items, payloadIds)
            <==> OwnPayloads(Init(items), payloadIds) && payloadIds[Last(items).attachment] !in t.payloads
  {
    var front, n, id := Init(items), |items| - 1, payloadIds[Last(items).attachment];
    if id in t.payloads {
      var i :| 0 <= i < n && payloadIds[front[i].attachment] == id;
      assert payloadIds[items[i].attachment] == payloadIds[items[n].attachment];
    } else {
      forall i, j | 0 <= i < j < |items| && OwnPayloads(front, payloadIds)
        ensures payloadIds[items[i].attachment] != payloadIds[items[j].attachment]
      {
        assert items[i] == front[i];
        assert j < n ==> items[j] == front[j];
      }
      assert forall i :: 0 <= i < n ==> front[i] == items[i];
    }
  }

  ghost predicate Started(t: Tracker, items: seq<Item>, payloadIds: map<int, int>)
    requires Mapped(items, payloadIds)
  {
    && Indexed(t) && Fresh(t) && t.total == Wrap(TotalSize(items))
    && Tracks(t, items, payloadIds) && Sums(t, items, payloadIds)
  }

  lemma AddSums(t: Tracker, items: seq<Item>, payloadIds: map<int, int>)
    requires items != [] && Mapped(items, payloadIds) && SizesFit(items) && Started(t, Init(items), payloadIds)
    ensures var after := Add(t, Last(items), payloadIds);
            && Indexed(after) && Fresh(after) && Sums(after, items, payloadIds)
  {
    AddIndexes(t, Last(items), payloadIds);
    OwnPayloadsNext(t, items, payloadIds);
    SizesSplit(items);
  }

  lemma SizesSplit(items: seq<Item>)
    requires items != [] && SizesFit(items)
    ensures 0 <= Last(items).size < WORD && TotalSize(items) == TotalSize(Init(items)) + Last(items).size
    ensures AllPositive(items) ==> AllPositive(Init(items)) && Last(items).size > 0
  {
  }

  lemma AddStarts(t: Tracker, items: seq<Item>, payloadIds: map<int, int>)
    requires items != [] && Mapped(items, payloadIds) && SizesFit(items) && Started(t, Init(items), payloadIds)
    ensures Started(Add(t, Last(items), payloadIds), items, payloadIds)
  {
    AddSums(t, items, payloadIds);
    AddTracks(t, items, payloadIds);
    WrapSum(TotalSize(Init(items)), Last(items).size);
  }

  lemma {:induction false} TrackStarts(items: seq<Item>, payloadIds: map<int, int>)
    requires Mapped(items, payloadIds) && SizesFit(items)
    ensures Started(Track(items, payloadIds), items, payloadIds)
  {
    if items != [] {
      TrackStarts(Init(items), payloadIds);
      AddStarts(Track(Init(items), payloadIds), items, payloadIds);
    }
  }

  lemma AddLists(t: Tracker, items: seq<Item>, payloadIds: map<int, int>)
    requires items != [] && OwnPayloads(items, payloadIds)
    requires Tracks(t, Init(items), payloadIds) && Lists(t, Init(items), payloadIds)
    ensures Lists(Add(t, Last(items), payloadIds), items, payloadIds)
  {
    OwnPayloadsNext(t, items, payloadIds);
    assert forall i :: 0 <= i < |items| - 1 ==> Init(items)[i] == items[i];
  }

  lemma {:induction false} TrackLists(items: seq<Item>, payloadIds: map<int, int>)
    requires OwnPayloads(items, payloadIds) && SizesFit(items)
    ensures Lists(Track(items, payloadIds), items, payloadIds)
  {
    if items != [] {
      assert OwnPayloads(Init(items), payloadIds) by {
        assert forall i :: 0 <= i < |items| - 1 ==> Init(items)[i] == items[i];
      }
      TrackStarts(Init(items), payloadIds);
      TrackLists(Init(items), payloadIds);
      AddLists(Track(Init(items), payloadIds), items, payloadIds);
    }
  }

  // Attachments with payloads of their own: the tracker lists them, its total is their sizes'
  // sum modulo the word, and it is sound if and only if that sum fits into the word.
  lemma TrackerStarts(items: seq<Item>, payloadIds: map<int, int>)
    requires OwnPayloads(items, payloadIds) && SizesFit(items)
    ensures var t := Track(items, payloadIds);
            && Fresh(t) && Lists(t, items, payloadIds) && t.total == Wrap(TotalSize(items))
            && (Sound(t) <==> TotalSize(items) < WORD)
            && (t.total == TotalSize(items) <==> TotalSize(items) < WORD)
  {
    TrackStarts(items, payloadIds);
    TrackLists(items, payloadIds);
    SumDecides(Track(items, payloadIds), items, payloadIds);
  }

  // Sizes whose sum fits: the tracker is sound if and only if no two attachments share a payload.
  lemma SoundIffOwnPayloads(items: seq<Item>, payloadIds: map<int, int>)
    requires Mapped(items, payloadIds) && SizesFit(items) && AllPositive(items) && TotalSize(items) < WORD
    ensures Sound(Track(items, payloadIds)) <==> OwnPayloads(items, payloadIds)
  {
    TrackStarts(items, payloadIds);
    SumDecides(Track(items, payloadIds), items, payloadIds);
  }

  lemma SumDecides(t: Tracker, items: seq<Item>, payloadIds: map<int, int>)
    requires Mapped(items, payloadIds) && Started(t, items, payloadIds)
    ensures OwnPayloads(items, payloadIds) ==>
              (Sound(t) <==> TotalSize(items) < WORD) && (t.total == TotalSize(items) <==> TotalSize(items) < WORD)
    ensures AllPositive(items) && TotalSize(items) < WORD ==> (Sound(t) <==> OwnPayloads(items, payloadIds))
  {
  }

  // Two attachments of one payload: once all its bytes have been sent the tracker shows 50
  // percent, and the first success completes the transfer.
  lemma SharedPayload()
    ensures var t := Track([Item(1, 10), Item(2, 10)], map[1 := 7, 2 := 7]);
            && t.total == 20 && t.ids == [7] && !Sound(t)
            && Process(t, Update(7, InProgress, 10), false).1 == Progress(50, 10, 10, None)
            && Process(t, Update(7, Success, 10), false).1.AllComplete?
  {
    SharedStart();
    var t := Tracker([7], map[7 := Payload(1, 0, 10, InProgress)], 20, 0, 0, 0, 0);
    assert t.payloads.Keys == {7} && [7][1..] == [] && Sum([], t.payloads, Size) == 0;
    assert Count(t, Update(7, InProgress, 10)).payloads.Keys == {7};
    assert Count(t, Update(7, Success, 10)).payloads.Keys == {7};
  }

  lemma SharedStart()
    ensures Track([Item(1, 10), Item(2, 10)], map[1 := 7, 2 := 7])
         == Tracker([7], map[7 := Payload(1, 0, 10, InProgress)], 20, 0, 0, 0, 0)
  {
    var payloadIds, empty := map[1 := 7, 2 := 7], Tracker([], map[], 0, 0, 0, 0, 0);
    assert Init([Item(1, 10), Item(2, 10)]) == [Item(1, 10)] && Init([Item(1, 10)]) == [];
    assert Track([], payloadIds) == empty;
    assert Track([Item(1, 10)], payloadIds) == Add(empty, Item(1, 10), payloadIds);
    assert Add(empty, Item(1, 10), payloadIds) == Tracker([7], map[7 := Payload(1, 0, 10, InProgress)], 10, 0, 0, 0, 0);
  }
}
