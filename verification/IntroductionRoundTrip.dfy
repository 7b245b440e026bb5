/**
 An introduction from the sender's attachments to the receiver's, and to the trackers that both
 sides start from it.
 */
module IntroductionRoundTrip {
  import opened Wrappers
  import opened Introduction
  import opened IntroductionReceiver
  import opened PayloadTracking
  import opened TrackerStart

  // Round trip -----------------------------------------------------------------------------

  // What of a file, a text and Wi-Fi credentials is introduced.
  function Announced(c: Container): Container {
    Container(
      seq(|c.files|, i requires 0 <= i < |c.files| => c.files[i].(path := None)),
      seq(|c.texts|, i requires 0 <= i < |c.texts| => c.texts[i].(body := "")),
      seq(|c.wifis|, i requires 0 <= i < |c.wifis| => c.wifis[i].(password := "", hidden := false)))
  }

  ghost predicate NonzeroIds(c: Container) {
    && (forall i :: 0 <= i < |c.files| ==> c.files[i].id != 0)
    && (forall i :: 0 <= i < |c.texts| ==> c.texts[i].id != 0)
    && (forall i :: 0 <= i < |c.wifis| ==> c.wifis[i].id != 0)
  }

  lemma FileComesThrough(f: File, payload: int, random: int)
    requires f.id != 0
    ensures NewFile(FileRow(f, payload), random) == f.(path := None)
  {
  }

  // The same attachments, family by family and in order, come out of the introduction.
  lemma AttachmentsComeThrough(c: Container, fp: seq<int>, tp: seq<int>, wp: seq<int>, random: nat -> int)
    requires |c.files| == |fp| && |c.texts| == |tp| && |c.wifis| == |wp|
    requires NonzeroIds(c)
    ensures Rebuild(Introduce(c, fp, tp, wp), random) == Announced(c)
  {
    var frame := Introduce(c, fp, tp, wp);
    var rebuilt, n := Rebuild(frame, random), |AllFileAttachments(frame, random)|;
    FileRows(frame.files, |fp|, random);
    TextRows(frame.texts, |tp|, random, n);
    WifiRows(frame.wifis, |wp|, random, n + |tp|);
    forall i | 0 <= i < |c.files|
      ensures rebuilt.files[i] == Announced(c).files[i]
    {
      FileComesThrough(c.files[i], fp[i], random(i));
    }
    assert rebuilt.files == Announced(c).files;
    assert rebuilt.texts == Announced(c).texts;
    assert rebuilt.wifis == Announced(c).wifis;
  }

  function SizeSum(files: seq<File>): int {
    if files == [] then 0 else SizeSum(Init(files)) + Last(files).size
  }

  lemma {:induction false} SameSum(files: seq<File>, rows: seq<FileMetadata>)
    requires |files| == |rows| && forall i :: 0 <= i < |files| ==> files[i].size == rows[i].size
    ensures FileSum(rows) == SizeSum(files)
  {
    if files != [] {
      SameSum(Init(files), Init(rows));
    }
  }

  ghost predicate Sendable(c: Container) {
    && SizeSum(c.files) <= INT64_MAX
    && (forall i :: 0 <= i < |c.files| ==> c.files[i].size > 0)
    && (forall i :: 0 <= i < |c.texts| ==> c.texts[i].size > 0)
  }

  // An introduction is accepted exactly if the sender's sizes are positive, and those of the
  // files together fit into an int64_t.
  lemma AcceptedIff(c: Container, fp: seq<int>, tp: seq<int>, wp: seq<int>)
    requires |c.files| == |fp| && |c.texts| == |tp| && |c.wifis| == |wp|
    ensures Acceptable(Introduce(c, fp, tp, wp)) <==> HasAttachments(c) && Sendable(c)
  {
    var frame := Introduce(c, fp, tp, wp);
    SameSum(c.files, frame.files);
    assert forall i :: 0 <= i < |c.files| ==> frame.files[i].size == c.files[i].size;
    assert forall i :: 0 <= i < |c.texts| ==> frame.texts[i].size == c.texts[i].size;
  }

  // The last link of an attachment is the one that the map keeps.
  lemma {:induction false} AssignKeeps(links: seq<Link>, i: nat)
    requires i < |links| && forall j :: i < j < |links| ==> links[j].attachment != links[i].attachment
    ensures links[i].attachment in Assign(map[], links)
    ensures Assign(map[], links)[links[i].attachment] == links[i].payload
  {
    if i < |links| - 1 {
      assert forall j :: i < j < |Init(links)| ==> Init(links)[j] == links[j];
      AssignKeeps(Init(links), i);
    }
  }

  lemma {:induction false} AssignKeys(links: seq<Link>, a: int) returns (i: nat)
    requires a in Assign(map[], links)
    ensures i < |links| && links[i].attachment == a
  {
    if Last(links).attachment == a {
      i := |links| - 1;
    } else {
      i := AssignKeys(Init(links), a);
    }
  }

  ghost predicate DistinctAttachments(links: seq<Link>) {
    forall i, j :: 0 <= i < j < |links| ==> links[i].attachment != links[j].attachment
  }

  ghost predicate Within(m: map<int, int>, n: map<int, int>) {
    forall k :: k in m ==> k in n && m[k] == n[k]
  }

  lemma WithinEachOther(m: map<int, int>, n: map<int, int>)
    ensures Within(m, n) && Within(n, m) ==> m == n
  {
    if (forall k :: k in m ==> k in n && m[k] == n[k]) && (forall k :: k in n ==> k in m && m[k] == n[k]) {
      assert m == n;
    }
  }

  // What the receiver writes into its map for this introduction.
  function SentEntries(c: Container, fp: seq<int>, tp: seq<int>, wp: seq<int>): seq<Link>
    requires |c.files| == |fp| && |c.texts| == |tp| && |c.wifis| == |wp|
  {
    FileLinks(c.files, fp) + (TextLinks(c.texts, tp) + WifiLinks(c.wifis, wp))
  }

  lemma EntriesAreLinks(c: Container, fp: seq<int>, tp: seq<int>, wp: seq<int>, random: nat -> int)
    requires |c.files| == |fp| && |c.texts| == |tp| && |c.wifis| == |wp|
    ensures Entries(Introduce(c, fp, tp, wp), random) == SentEntries(c, fp, tp, wp)
  {
    var frame := Introduce(c, fp, tp, wp);
    FileEntriesAreLinks(c.files, fp, frame.files);
    TextEntriesAreLinks(c.texts, tp, frame.texts);
    WifiEntriesAreLinks(c.wifis, wp, frame.wifis);
    assert AllFileEntries(frame, random) == FileEntries(frame.files, |fp|);
  }

  lemma FileEntriesAreLinks(files: seq<File>, fp: seq<int>, rows: seq<FileMetadata>)
    requires |files| == |fp| == |rows| && forall i :: 0 <= i < |rows| ==> rows[i] == FileRow(files[i], fp[i])
    ensures FileEntries(rows, |rows|) == FileLinks(files, fp)
  {
    FileRows(rows, |rows|, i => 0);
  }

  lemma TextEntriesAreLinks(texts: seq<Text>, tp: seq<int>, rows: seq<TextMetadata>)
    requires |texts| == |tp| == |rows| && forall i :: 0 <= i < |rows| ==> rows[i] == TextRow(texts[i], tp[i])
    ensures TextEntries(rows, |rows|) == TextLinks(texts, tp)
  {
    TextRows(rows, |rows|, i => 0, 0);
  }

  lemma WifiEntriesAreLinks(wifis: seq<Wifi>, wp: seq<int>, rows: seq<WifiMetadata>)
    requires |wifis| == |wp| == |rows| && forall i :: 0 <= i < |rows| ==> rows[i] == WifiRow(wifis[i], wp[i])
    ensures WifiEntries(rows, |rows|) == WifiLinks(wifis, wp)
  {
    WifiRows(rows, |rows|, i => 0, 0);
  }

  lemma {:induction false} AssignMerges(m: map<int, int>, links: seq<Link>)
    ensures Assign(m, links) == m + Assign(map[], links)
  {
    if links != [] {
      AssignMerges(m, Init(links));
    }
  }

  // Two ways of writing the same links end in the same map exactly if no attachment ends with
  // one payload in the first part and another in the second.
  lemma OrderMatters(a: seq<Link>, b: seq<Link>)
    ensures Assign(map[], a + b) == Assign(map[], b + a) <==> Compatible(Assign(map[], a), Assign(map[], b))
  {
    AssignConcat(map[], a, b);
    AssignConcat(map[], b, a);
    AssignMerges(Assign(map[], a), b);
    AssignMerges(Assign(map[], b), a);
    MergesCommute(Assign(map[], a), Assign(map[], b));
  }

  ghost predicate Compatible(m: map<int, int>, n: map<int, int>) {
    forall k :: k in m && k in n ==> m[k] == n[k]
  }

  lemma MergesCommute(m: map<int, int>, n: map<int, int>)
    ensures m + n == n + m <==> Compatible(m, n)
  {
    if m + n == n + m {
      forall k | k in m && k in n
        ensures m[k] == n[k]
      {
        assert (m + n)[k] == n[k] && (n + m)[k] == m[k];
      }
    }
    WithinEachOther(m + n, n + m);
  }

  // The sender writes the files last and the receiver writes them first. Both end with the same
  // map if and only if no id is that of a file and of another attachment with different payloads.
  lemma MapsAgree(c: Container, fp: seq<int>, tp: seq<int>, wp: seq<int>)
    requires |c.files| == |fp| && |c.texts| == |tp| && |c.wifis| == |wp|
    ensures Assign(map[], SentEntries(c, fp, tp, wp)) == Assign(map[], SenderLinks(c, fp, tp, wp))
            <==> CompatibleIds(c, fp, tp, wp)
  {
    var files, rest := FileLinks(c.files, fp), TextLinks(c.texts, tp) + WifiLinks(c.wifis, wp);
    OrderMatters(files, rest);
  }

  ghost predicate CompatibleIds(c: Container, fp: seq<int>, tp: seq<int>, wp: seq<int>)
    requires |c.files| == |fp| && |c.texts| == |tp| && |c.wifis| == |wp|
  {
    Compatible(Assign(map[], FileLinks(c.files, fp)), Assign(map[], TextLinks(c.texts, tp) + WifiLinks(c.wifis, wp)))
  }

  lemma NoneInBoth(a: seq<Link>, b: seq<Link>, i: nat, j: nat)
    requires DistinctAttachments(a + b) && i < |a| && j < |b|
    ensures a[i].attachment != b[j].attachment
  {
    assert (a + b)[i] == a[i] && (a + b)[|a| + j] == b[j];
  }

  // Distinct ids are enough for that.
  lemma DistinctIdsAreCompatible(c: Container, fp: seq<int>, tp: seq<int>, wp: seq<int>)
    requires |c.files| == |fp| && |c.texts| == |tp| && |c.wifis| == |wp|
    requires DistinctAttachments(SenderLinks(c, fp, tp, wp))
    ensures CompatibleIds(c, fp, tp, wp)
  {
    var files, rest := FileLinks(c.files, fp), TextLinks(c.texts, tp) + WifiLinks(c.wifis, wp);
    forall k | k in Assign(map[], files) && k in Assign(map[], rest)
      ensures false
    {
      var i := AssignKeys(files, k);
      var j := AssignKeys(rest, k);
      NoneInBoth(rest, files, j, i);
    }
  }

  // Equal ids in two families, with a payload each: the maps differ.
  lemma EqualIdsDisagree(f: File, t: Text, fp: int, tp: int)
    requires f.id == t.id && fp != tp
    ensures var c := Container([f], [t], []);
            Assign(map[], SentEntries(c, [fp], [tp], [])) != Assign(map[], SenderLinks(c, [fp], [tp], []))
  {
    var c := Container([f], [t], []);
    MapsAgree(c, [fp], [tp], []);
    var rest := TextLinks(c.texts, [tp]) + WifiLinks(c.wifis, []);
    AssignKeeps(FileLinks(c.files, [fp]), 0);
    AssignKeeps(rest, 0);
    assert rest[0] == Link(t.id, tp);
  }

  // The trackers -----------------------------------------------------------------------------

  // The attachments as a tracker's constructor goes through them.
  function Items(c: Container): seq<Item> {
    seq(|c.files|, i requires 0 <= i < |c.files| => Item(c.files[i].id, c.files[i].size))
    + seq(|c.texts|, i requires 0 <= i < |c.texts| => Item(c.texts[i].id, c.texts[i].size))
    + seq(|c.wifis|, i requires 0 <= i < |c.wifis| => Item(c.wifis[i].id, |c.wifis[i].ssid|))
  }

  ghost predicate DistinctPayloads(links: seq<Link>) {
    forall i, j :: 0 <= i < j < |links| ==> links[i].payload != links[j].payload
  }

  // The tracker that a fresh receiver starts from the attachments and the map it is left with.
  function ReceiverTracker(frame: Frame, random: nat -> int): Tracker {
    Track(Items(Rebuild(frame, random)), Assign(map[], Entries(frame, random)))
  }

  // It is that of the sender's attachments, which have ids other than 0.
  lemma ReceiverTracks(c: Container, fp: seq<int>, tp: seq<int>, wp: seq<int>, random: nat -> int)
    requires |c.files| == |fp| && |c.texts| == |tp| && |c.wifis| == |wp| && NonzeroIds(c)
    ensures ReceiverTracker(Introduce(c, fp, tp, wp), random)
         == Track(Items(c), Assign(map[], SentEntries(c, fp, tp, wp)))
  {
    AttachmentsComeThrough(c, fp, tp, wp, random);
    EntriesAreLinks(c, fp, tp, wp, random);
    assert Items(Announced(c)) == Items(c);
  }

  // Fresh sessions start the same tracker on both sides if their maps agree.
  lemma TrackersAgree(c: Container, fp: seq<int>, tp: seq<int>, wp: seq<int>, random: nat -> int)
    requires |c.files| == |fp| && |c.texts| == |tp| && |c.wifis| == |wp|
    requires NonzeroIds(c) && CompatibleIds(c, fp, tp, wp)
    ensures ReceiverTracker(Introduce(c, fp, tp, wp), random)
         == Track(Items(c), Assign(map[], SenderLinks(c, fp, tp, wp)))
  {
    ReceiverTracks(c, fp, tp, wp, random);
    MapsAgree(c, fp, tp, wp);
  }

  // No string is longer than an int64_t can tell.
  ghost predicate NamesFit(c: Container) {
    forall i :: 0 <= i < |c.wifis| ==> |c.wifis[i].ssid| <= INT64_MAX
  }

  ghost predicate NamesNonempty(c: Container) {
    forall i :: 0 <= i < |c.wifis| ==> c.wifis[i].ssid != []
  }

  lemma ItemsFollowEntries(c: Container, fp: seq<int>, tp: seq<int>, wp: seq<int>)
    requires |c.files| == |fp| && |c.texts| == |tp| && |c.wifis| == |wp| && NamesFit(c)
    requires Acceptable(Introduce(c, fp, tp, wp)) && DistinctAttachments(SentEntries(c, fp, tp, wp))
    ensures var (items, entries) := (Items(c), SentEntries(c, fp, tp, wp));
            var payloadIds := Assign(map[], entries);
            && |items| == |entries| && Mapped(items, payloadIds) && SizesFit(items)
            && (NamesNonempty(c) ==> AllPositive(items))
            && (forall i :: 0 <= i < |items| ==> payloadIds[items[i].attachment] == entries[i].payload)
  {
    AcceptedIff(c, fp, tp, wp);
    var items, entries := Items(c), SentEntries(c, fp, tp, wp);
    forall i | 0 <= i < |items|
      ensures items[i].attachment == entries[i].attachment
      ensures entries[i].attachment in Assign(map[], entries)
      ensures Assign(map[], entries)[entries[i].attachment] == entries[i].payload
    {
      AssignKeeps(entries, i);
    }
  }

  lemma {:induction false} AssignHas(links: seq<Link>, i: nat)
    requires i < |links|
    ensures links[i].attachment in Assign(map[], links)
  {
    if i < |links| - 1 {
      AssignHas(Init(links), i);
    }
  }

  ghost predicate NoneDrawn(random: nat -> int, m: map<int, int>) {
    forall k: nat :: random(k) !in m
  }

  lemma IdMapped(sent: int, drawn: int, m: map<int, int>)
    requires sent in m && drawn !in m
    ensures NewId(sent, drawn) in m <==> sent != 0
  {
  }

  ghost predicate IdsIn(c: Container, m: map<int, int>) {
    && (forall i :: 0 <= i < |c.files| ==> c.files[i].id in m)
    && (forall i :: 0 <= i < |c.texts| ==> c.texts[i].id in m)
    && (forall i :: 0 <= i < |c.wifis| ==> c.wifis[i].id in m)
  }

  lemma MappedByFamily(c: Container, m: map<int, int>)
    ensures Mapped(Items(c), m) <==> IdsIn(c, m)
  {
    var items, n, k := Items(c), |c.files|, |c.texts|;
    assert |items| == n + k + |c.wifis|;
    assert forall i :: 0 <= i < n ==> items[i].attachment == c.files[i].id;
    assert forall i :: 0 <= i < k ==> items[n + i].attachment == c.texts[i].id;
    assert forall i :: 0 <= i < |c.wifis| ==> items[n + k + i].attachment == c.wifis[i].id;
    if IdsIn(c, m) {
      forall i | 0 <= i < |items|
        ensures items[i].attachment in m
      {
        if i >= n + k {
          assert items[i].attachment == c.wifis[i - n - k].id;
        } else if i >= n {
          assert items[i].attachment == c.texts[i - n].id;
        }
      }
    }
  }

  ghost predicate RowIdsIn(frame: Frame, m: map<int, int>) {
    && (forall i :: 0 <= i < |frame.files| ==> frame.files[i].id in m)
    && (forall i :: 0 <= i < |frame.texts| ==> frame.texts[i].id in m)
    && (forall i :: 0 <= i < |frame.wifis| ==> frame.wifis[i].id in m)
  }

  ghost predicate NonzeroRowIds(frame: Frame) {
    && (forall i :: 0 <= i < |frame.files| ==> frame.files[i].id != 0)
    && (forall i :: 0 <= i < |frame.texts| ==> frame.texts[i].id != 0)
    && (forall i :: 0 <= i < |frame.wifis| ==> frame.wifis[i].id != 0)
  }

  // The receiver finds a payload for every attachment if and only if all of them come with ids,
  // provided that the ids that it draws are not among those it was sent.
  lemma AllMappedIffNonzeroIds(frame: Frame, random: nat -> int)
    requires frame.apps == [] && NoneDrawn(random, Assign(map[], Entries(frame, random)))
    ensures Mapped(Items(Rebuild(frame, random)), Assign(map[], Entries(frame, random))) <==> NonzeroRowIds(frame)
  {
    var whole, entries := Rebuild(frame, random), Entries(frame, random);
    var m := Assign(map[], entries);
    SentIdsMapped(frame, random, entries, m);
    RebuiltFilesMapped(frame, whole.files, random, m);
    RebuiltTextsMapped(frame.texts, whole.texts, random, |whole.files|, m);
    RebuiltWifisMapped(frame.wifis, whole.wifis, random, |whole.files| + |whole.texts|, m);
    MappedByFamily(whole, m);
  }

  lemma RebuiltFilesMapped(frame: Frame, files: seq<File>, random: nat -> int, m: map<int, int>)
    requires files == AllFileAttachments(frame, random) && frame.apps == []
    requires NoneDrawn(random, m) && forall i :: 0 <= i < |frame.files| ==> frame.files[i].id in m
    ensures |files| == |frame.files|
    ensures forall i :: 0 <= i < |frame.files| ==> (files[i].id in m <==> frame.files[i].id != 0)
  {
    FileRows(frame.files, |frame.files|, random);
    assert files == FileAttachments(frame.files, |frame.files|, random);
    FilesMapped(frame.files, files, random, m);
  }

  lemma RebuiltTextsMapped(rows: seq<TextMetadata>, texts: seq<Text>, random: nat -> int, from: nat, m: map<int, int>)
    requires texts == TextAttachments(rows, |rows|, random, from)
    requires NoneDrawn(random, m) && forall i :: 0 <= i < |rows| ==> rows[i].id in m
    ensures forall i :: 0 <= i < |rows| ==> (texts[i].id in m <==> rows[i].id != 0)
  {
    TextRows(rows, |rows|, random, from);
    TextsMapped(rows, texts, random, from, m);
  }

  lemma RebuiltWifisMapped(rows: seq<WifiMetadata>, wifis: seq<Wifi>, random: nat -> int, from: nat, m: map<int, int>)
    requires wifis == WifiAttachments(rows, |rows|, random, from)
    requires NoneDrawn(random, m) && forall i :: 0 <= i < |rows| ==> rows[i].id in m
    ensures forall i :: 0 <= i < |rows| ==> (wifis[i].id in m <==> rows[i].id != 0)
  {
    WifiRows(rows, |rows|, random, from);
    WifisMapped(rows, wifis, random, from, m);
  }

  lemma FilesMapped(rows: seq<FileMetadata>, files: seq<File>, random: nat -> int, m: map<int, int>)
    requires NoneDrawn(random, m) && |files| == |rows| && forall i :: 0 <= i < |rows| ==> rows[i].id in m
    requires forall i :: 0 <= i < |rows| ==> files[i].id == NewId(rows[i].id, random(i))
    ensures forall i :: 0 <= i < |rows| ==> (files[i].id in m <==> rows[i].id != 0)
  {
    forall i | 0 <= i < |rows|
      ensures files[i].id in m <==> rows[i].id != 0
    {
      IdMapped(rows[i].id, random(i), m);
    }
  }

  lemma TextsMapped(rows: seq<TextMetadata>, texts: seq<Text>, random: nat -> int, from: nat, m: map<int, int>)
    requires NoneDrawn(random, m) && |texts| == |rows| && forall i :: 0 <= i < |rows| ==> rows[i].id in m
    requires forall i :: 0 <= i < |rows| ==> texts[i].id == NewId(rows[i].id, random(from + i))
    ensures forall i :: 0 <= i < |rows| ==> (texts[i].id in m <==> rows[i].id != 0)
  {
    forall i | 0 <= i < |rows|
      ensures texts[i].id in m <==> rows[i].id != 0
    {
      IdMapped(rows[i].id, random(from + i), m);
    }
  }

  lemma WifisMapped(rows: seq<WifiMetadata>, wifis: seq<Wifi>, random: nat -> int, from: nat, m: map<int, int>)
    requires NoneDrawn(random, m) && |wifis| == |rows| && forall i :: 0 <= i < |rows| ==> rows[i].id in m
    requires forall i :: 0 <= i < |rows| ==> wifis[i].id == NewId(rows[i].id, random(from + i))
    ensures forall i :: 0 <= i < |rows| ==> (wifis[i].id in m <==> rows[i].id != 0)
  {
    forall i | 0 <= i < |rows|
      ensures wifis[i].id in m <==> rows[i].id != 0
    {
      IdMapped(rows[i].id, random(from + i), m);
    }
  }

  lemma SentIdsMapped(frame: Frame, random: nat -> int, entries: seq<Link>, m: map<int, int>)
    requires frame.apps == [] && entries == Entries(frame, random) && m == Assign(map[], entries)
    ensures RowIdsIn(frame, m)
  {
    var files, texts := FileEntries(frame.files, |frame.files|), TextEntries(frame.texts, |frame.texts|);
    var wifis := WifiEntries(frame.wifis, |frame.wifis|);
    assert AllFileEntries(frame, random) == files;
    FileRows(frame.files, |frame.files|, random);
    TextRows(frame.texts, |frame.texts|, random, 0);
    WifiRows(frame.wifis, |frame.wifis|, random, 0);
    PartsMapped(files, texts, wifis);
  }

  lemma PartsMapped(a: seq<Link>, b: seq<Link>, d: seq<Link>)
    ensures var m := Assign(map[], a + (b + d));
            && (forall i :: 0 <= i < |a| ==> a[i].attachment in m)
            && (forall i :: 0 <= i < |b| ==> b[i].attachment in m)
            && (forall i :: 0 <= i < |d| ==> d[i].attachment in m)
  {
    var all := a + (b + d);
    forall i | 0 <= i < |all|
      ensures all[i].attachment in Assign(map[], all)
    {
      AssignHas(all, i);
    }
    assert forall i :: 0 <= i < |a| ==> all[i] == a[i];
    assert forall i :: 0 <= i < |b| ==> all[|a| + i] == b[i];
    assert forall i :: 0 <= i < |d| ==> all[|a| + |b| + i] == d[i];
  }

  // A text that comes without an id is accepted, but never tracked: it is given another id, and
  // its entry stays under 0.
  lemma TextWithoutIdIsUntracked(t: Text, payload: int, random: nat -> int)
    requires t.id == 0 && t.size > 0 && random(0) != 0
    ensures var frame := Introduce(Container([], [t], []), [], [payload], []);
            Acceptable(frame) && |Rebuild(frame, random).texts| == 1 && ReceiverTracker(frame, random).ids == []
  {
    var c := Container([], [t], []);
    var frame := Introduce(c, [], [payload], []);
    AcceptedIff(c, [], [payload], []);
    EntriesAreLinks(c, [], [payload], [], random);
    assert SentEntries(c, [], [payload], []) == [Link(0, payload)];
    assert Init([Link(0, payload)]) == [] && Assign(map[], [Link(0, payload)]) == map[0 := payload];
    assert Rebuild(frame, random).texts == [NewText(frame.texts[0], random(0))];
    var item := Item(random(0), t.size);
    assert Items(Rebuild(frame, random)) == [item];
    assert Init([item]) == [] && Track([item], map[0 := payload]).ids == [];
  }

  // With a payload each, the tracker of an accepted introduction tracks one payload for each
  // attachment; its total is the sum of their sizes, and it is sound, if and only if that sum
  // fits into 64 bits. Acceptance does not see to that: it bounds the files' sizes only.
  lemma AcceptedTrackerSoundIffSumFits(c: Container, fp: seq<int>, tp: seq<int>, wp: seq<int>, random: nat -> int)
    requires |c.files| == |fp| && |c.texts| == |tp| && |c.wifis| == |wp| && NamesFit(c) && NonzeroIds(c)
    requires Acceptable(Introduce(c, fp, tp, wp))
    requires var entries := SentEntries(c, fp, tp, wp); DistinctAttachments(entries) && DistinctPayloads(entries)
    ensures var (t, sum) := (ReceiverTracker(Introduce(c, fp, tp, wp), random), TotalSize(Items(c)));
            && Fresh(t) && |t.ids| == |c.files| + |c.texts| + |c.wifis|
            && (t.total == sum <==> sum < WORD) && (Sound(t) <==> sum < WORD)
  {
    ReceiverTracks(c, fp, tp, wp, random);
    ItemsFollowEntries(c, fp, tp, wp);
    TrackerStarts(Items(c), Assign(map[], SentEntries(c, fp, tp, wp)));
  }

  // Three texts as long as an int64_t can tell are accepted, and wrap the total around.
  lemma LongTextsWrap(a: Text, b: Text, d: Text, random: nat -> int)
    requires a.size == b.size == d.size == INT64_MAX
    requires a.id != b.id && a.id != d.id && b.id != d.id && a.id != 0 && b.id != 0 && d.id != 0
    ensures var c := Container([], [a, b, d], []);
            var frame := Introduce(c, [], [1, 2, 3], []);
            && Acceptable(frame) && TotalSize(Items(c)) >= WORD
            && ReceiverTracker(frame, random).total != TotalSize(Items(c)) && !Sound(ReceiverTracker(frame, random))
  {
    var c := Container([], [a, b, d], []);
    AcceptedIff(c, [], [1, 2, 3], []);
    var x, y, z := Item(a.id, INT64_MAX), Item(b.id, INT64_MAX), Item(d.id, INT64_MAX);
    assert Items(c) == [x, y, z];
    assert Init([x]) == [] && TotalSize([x]) == INT64_MAX;
    assert Init([x, y]) == [x] && Last([x, y]) == y && TotalSize([x, y]) == 2 * INT64_MAX;
    assert Init([x, y, z]) == [x, y] && Last([x, y, z]) == z;
    assert SentEntries(c, [], [1, 2, 3], []) == [Link(a.id, 1), Link(b.id, 2), Link(d.id, 3)];
    AcceptedTrackerSoundIffSumFits(c, [], [1, 2, 3], [], random);
  }

  // Conversely, if the sum fits, the tracker is sound if and only if no payload is shared.
  lemma AcceptedTrackerSoundIffOwnPayloads(c: Container, fp: seq<int>, tp: seq<int>, wp: seq<int>, random: nat -> int)
    requires |c.files| == |fp| && |c.texts| == |tp| && |c.wifis| == |wp| && NamesFit(c) && NamesNonempty(c)
    requires NonzeroIds(c)
    requires Acceptable(Introduce(c, fp, tp, wp)) && DistinctAttachments(SentEntries(c, fp, tp, wp))
    requires TotalSize(Items(c)) < WORD
    ensures Sound(ReceiverTracker(Introduce(c, fp, tp, wp), random)) <==> DistinctPayloads(SentEntries(c, fp, tp, wp))
  {
    var items, entries := Items(c), SentEntries(c, fp, tp, wp);
    var payloadIds := Assign(map[], entries);
    ReceiverTracks(c, fp, tp, wp, random);
    ItemsFollowEntries(c, fp, tp, wp);
    SoundIffOwnPayloads(items, payloadIds);
    OwnMeansDistinct(items, payloadIds, entries);
  }

  lemma OwnMeansDistinct(items: seq<Item>, payloadIds: map<int, int>, entries: seq<Link>)
    requires |items| == |entries| && Mapped(items, payloadIds)
    requires forall i :: 0 <= i < |items| ==> payloadIds[items[i].attachment] == entries[i].payload
    ensures OwnPayloads(items, payloadIds) <==> DistinctPayloads(entries)
  {
    if OwnPayloads(items, payloadIds) {
      forall i, j | 0 <= i < j < |entries|
        ensures entries[i].payload != entries[j].payload
      {
        assert payloadIds[items[i].attachment] != payloadIds[items[j].attachment];
      }
    }
  }

  // A file payload's id is the hash of its path, so a file that is sent twice shares its payload.
  // If hashes do not collide and the drawn ids are apart, that is the only way to share one.
  ghost predicate DistinctPaths(files: seq<File>) {
    forall i, j :: 0 <= i < j < |files| ==> files[i].path != files[j].path
  }

  ghost predicate NoCollisions(files: seq<File>, hash: string -> int)
    requires HavePaths(files)
  {
    forall i, j :: 0 <= i < j < |files| && hash(files[i].path.value) == hash(files[j].path.value) ==>
      files[i].path == files[j].path
  }

  ghost predicate DrawnApart(drawn: seq<int>, hashes: seq<int>) {
    && (forall i, j :: 0 <= i < j < |drawn| ==> drawn[i] != drawn[j])
    && (forall i, j :: 0 <= i < |drawn| && 0 <= j < |hashes| ==> drawn[i] != hashes[j])
  }

  lemma PathsDecidePayloads(c: Container, hash: string -> int, tp: seq<int>, wp: seq<int>)
    requires HavePaths(c.files) && |c.texts| == |tp| && |c.wifis| == |wp|
    requires NoCollisions(c.files, hash) && DrawnApart(tp + wp, Hashes(c.files, hash))
    ensures DistinctPayloads(SentEntries(c, Hashes(c.files, hash), tp, wp)) <==> DistinctPaths(c.files)
  {
    var fp, n := Hashes(c.files, hash), |c.files|;
    var entries := SentEntries(c, fp, tp, wp);
    assert forall i :: 0 <= i < |entries| ==> entries[i].payload == if i < n then fp[i] else (tp + wp)[i - n];
    if DistinctPayloads(entries) {
      forall i, j | 0 <= i < j < n
        ensures c.files[i].path != c.files[j].path
      {
        assert entries[i].payload != entries[j].payload;
      }
    }
    if DistinctPaths(c.files) {
      forall i, j | 0 <= i < j < |entries|
        ensures entries[i].payload != entries[j].payload
      {
        assert i >= n ==> (tp + wp)[i - n] != (tp + wp)[j - n];
      }
    }
  }

  // Hence a file must not be sent twice in a transfer, and nothing else is required.
  lemma AcceptedTrackerSoundIffDistinctPaths(c: Container, hash: string -> int, tp: seq<int>, wp: seq<int>,
                                             random: nat -> int)
    requires HavePaths(c.files) && |c.texts| == |tp| && |c.wifis| == |wp| && NamesFit(c) && NamesNonempty(c)
    requires NonzeroIds(c)
    requires NoCollisions(c.files, hash) && DrawnApart(tp + wp, Hashes(c.files, hash))
    requires Acceptable(Introduce(c, Hashes(c.files, hash), tp, wp))
    requires DistinctAttachments(SentEntries(c, Hashes(c.files, hash), tp, wp))
    requires TotalSize(Items(c)) < WORD
    ensures Sound(ReceiverTracker(Introduce(c, Hashes(c.files, hash), tp, wp), random)) <==> DistinctPaths(c.files)
  {
    AcceptedTrackerSoundIffOwnPayloads(c, Hashes(c.files, hash), tp, wp, random);
    PathsDecidePayloads(c, hash, tp, wp);
  }

  // Storage ----------------------------------------------------------------------------------

  function AppFileSum(files: seq<AppFile>): int {
    if files == [] then 0 else AppFileSum(Init(files)) + Last(files).size
  }

  lemma {:induction false} SizeSumConcat(a: seq<File>, b: seq<File>)
    ensures SizeSum(a + b) == SizeSum(a) + SizeSum(b)
  {
    if b == [] {
      assert a + b == a;
    } else {
      assert Init(a + b) == a + Init(b);
      SizeSumConcat(a, Init(b));
    }
  }

  lemma {:induction false} AppFileSumConcat(a: seq<AppFile>, b: seq<AppFile>)
    ensures AppFileSum(a + b) == AppFileSum(a) + AppFileSum(b)
  {
    if b == [] {
      assert a + b == a;
    } else {
      assert Init(a + b) == a + Init(b);
      AppFileSumConcat(a, Init(b));
    }
  }

  lemma {:induction false} FileStorage(rows: seq<FileMetadata>, n: nat, random: nat -> int)
    requires n <= |rows|
    ensures SizeSum(FileAttachments(rows, n, random)) == FileSum(rows[..n])
  {
    if n > 0 {
      FileStorage(rows, n - 1, random);
      FileSumNext(rows, n - 1);
      assert Init(FileAttachments(rows, n, random)) == FileAttachments(rows, n - 1, random);
    }
  }

  lemma {:induction false} AppStorage(files: seq<AppFile>, n: nat, random: nat -> int, from: nat)
    requires n <= |files|
    ensures SizeSum(AppAttachments(files, n, random, from)) == AppFileSum(files[..n])
  {
    if n > 0 {
      AppStorage(files, n - 1, random, from);
      assert Init(files[..n]) == files[..n - 1];
      assert Init(AppAttachments(files, n, random, from)) == AppAttachments(files, n - 1, random, from);
    }
  }

  // The storage that a receiver needs is that of the files and of the apps' files, whatever the
  // apps declare.
  lemma StorageIs(frame: Frame, random: nat -> int)
    ensures SizeSum(Rebuild(frame, random).files) == FileSum(frame.files) + AppFileSum(AppFiles(frame.apps))
  {
    var apps, n := AppFiles(frame.apps), |frame.files|;
    FileStorage(frame.files, n, random);
    AppStorage(apps, |apps|, random, n);
    assert frame.files[..n] == frame.files && apps[..|apps|] == apps;
    SizeSumConcat(FileAttachments(frame.files, n, random), AppAttachments(apps, |apps|, random, n));
  }

  lemma {:induction false} DeclaredCovers(apps: seq<AppMetadata>)
    requires forall i :: 0 <= i < |apps| ==> AppFileSum(FilesOf(apps[i])) <= apps[i].size
    ensures AppFileSum(AppFiles(apps)) <= AppSum(apps)
  {
    if apps != [] {
      assert forall i :: 0 <= i < |apps| - 1 ==> Init(apps)[i] == apps[i];
      DeclaredCovers(Init(apps));
      AppFileSumConcat(AppFiles(Init(apps)), FilesOf(Last(apps)));
    }
  }

  // It fits into an int64_t if each accepted app declares at least the sizes of its files ...
  lemma StorageFits(frame: Frame, random: nat -> int)
    requires Acceptable(frame)
    requires forall i :: 0 <= i < |frame.apps| ==> AppFileSum(FilesOf(frame.apps[i])) <= frame.apps[i].size
    ensures SizeSum(Rebuild(frame, random).files) <= INT64_MAX
  {
    StorageIs(frame, random);
    DeclaredCovers(frame.apps);
  }

  // ... but an app that declares less than its file's size is accepted too.
  lemma StorageMayNotFit(row: FileMetadata, name: string, payloadId: int, random: nat -> int)
    requires row.size == INT64_MAX - 1
    ensures var frame := Frame([row], [AppMetadata(1, [name], [INT64_MAX], [payloadId])], [], []);
            Acceptable(frame) && SizeSum(Rebuild(frame, random).files) > INT64_MAX
  {
    var app, file := AppMetadata(1, [name], [INT64_MAX], [payloadId]), AppFile(name, INT64_MAX, payloadId);
    assert Init([row]) == [] && FileSum([row]) == row.size;
    assert Init([app]) == [] && AppSum([app]) == 1;
    assert FilesOf(app) == FirstFilesOf(app, 1) == [file] && AppFiles([app]) == [file];
    assert Init([file]) == [] && AppFileSum([file]) == INT64_MAX;
    StorageIs(Frame([row], [app], [], []), random);
  }

  // The methods together ---------------------------------------------------------------------

  lemma Received(c: Container, fp: seq<int>, tp: seq<int>, wp: seq<int>, random: nat -> int)
    requires |c.files| == |fp| && |c.texts| == |tp| && |c.wifis| == |wp| && NonzeroIds(c)
    ensures var frame := Introduce(c, fp, tp, wp);
            && (Acceptable(frame) <==> HasAttachments(c) && Sendable(c))
            && Rebuild(frame, random) == Announced(c)
            && (Assign(map[], Entries(frame, random)) == Assign(map[], SenderLinks(c, fp, tp, wp))
                <==> CompatibleIds(c, fp, tp, wp))
  {
    AcceptedIff(c, fp, tp, wp);
    AttachmentsComeThrough(c, fp, tp, wp, random);
    EntriesAreLinks(c, fp, tp, wp, random);
    MapsAgree(c, fp, tp, wp);
  }

  // A fresh sender introduces its attachments to a fresh receiver. This succeeds exactly if there
  // are attachments, the files' sizes can be found, all sizes are positive and the files' fit;
  // then the receiver has the attachments that were announced, and the sender's map if and only
  // if no id stands for a file and something else with different payloads.
  method Introduced(sender: OutgoingShareSession, receiver: IncomingShareSession, c: Container,
                    textIds: nat -> int, wifiIds: nat -> int, sizeOf: string -> Option<nat>,
                    hash: string -> int, random: nat -> int)
    returns (ok: bool)
    requires sender.payloadIds == map[] && receiver.payloadIds == map[]
    requires HavePaths(c.files) && NonzeroIds(c)
    modifies sender, receiver
    ensures ok <==> HasAttachments(c) && FirstUnsized(c.files, sizeOf) == |c.files| && Sendable(sender.Attachments())
    ensures ok ==>
              && sender.Attachments() == c.(files := Sized(c.files, sizeOf))
              && receiver.attachments == Announced(sender.Attachments())
              && |sender.files| == |sender.filePayloads|
              && |sender.texts| == |sender.textPayloads| && |sender.wifis| == |sender.wifiPayloads|
              && (receiver.payloadIds == sender.payloadIds <==>
                    CompatibleIds(sender.Attachments(), sender.filePayloads, sender.textPayloads, sender.wifiPayloads))
  {
    ok := sender.InitiateSendAttachments(c, textIds, wifiIds, sizeOf, hash);
    if !ok {
      return;
    }
    ghost var a, fp, tp, wp := sender.Attachments(), sender.filePayloads, sender.textPayloads, sender.wifiPayloads;
    var introduction := sender.FillIntroductionFrame();
    var refusal;
    ghost var written, stop;
    refusal, written, stop := receiver.ProcessIntroduction(introduction.value, random);
    Received(a, fp, tp, wp, random);
    ok := refusal.None?;
  }
}
