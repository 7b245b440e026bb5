/**
 How the sender of a transfer introduces its attachments and sends their payloads
 (outgoing_share_session.cc, lines 156-323 and 488-508).
 */
module Introduction {
  import opened Wrappers

  const INT64_MAX := 0x7FFF_FFFF_FFFF_FFFF

  type int64 = x: int | -INT64_MAX - 1 <= x <= INT64_MAX

  datatype File =
    File(id: int, name: string, mime: string, kind: int, folder: string, size: int64, path: Option<string>)

  datatype Text = Text(id: int, kind: int, title: string, size: int64, body: string)

  // Its size is that of its network name.
  datatype Wifi = Wifi(id: int, ssid: string, security: int, password: string, hidden: bool)

  datatype Container = Container(files: seq<File>, texts: seq<Text>, wifis: seq<Wifi>)

  datatype FileMetadata =
    FileMetadata(id: int, name: string, payloadId: int, kind: int, mime: string, size: int64, folder: string)

  datatype TextMetadata = TextMetadata(id: int, title: string, kind: int, size: int64, payloadId: int)

  datatype WifiMetadata = WifiMetadata(id: int, ssid: string, security: int, payloadId: int)

  // An app comes as any number of files; `size` is what it declares for all of them.
  datatype AppMetadata =
    AppMetadata(size: int64, fileNames: seq<string>, fileSizes: seq<int64>, payloadIds: seq<int>)

  datatype Frame =
    Frame(files: seq<FileMetadata>, apps: seq<AppMetadata>, texts: seq<TextMetadata>, wifis: seq<WifiMetadata>)

  // An entry of attachment_payload_map_, which maps attachments to payloads.
  datatype Link = Link(attachment: int, payload: int)

  function Assign(m: map<int, int>, links: seq<Link>): map<int, int> {
    if links == [] then m else Assign(m, Init(links))[Last(links).attachment := Last(links).payload]
  }

  lemma AllLinks(links: seq<Link>)
    ensures links[..|links|] == links
  {
  }

  lemma AssignNext(m: map<int, int>, links: seq<Link>, i: nat)
    requires i < |links|
    ensures Assign(m, links[..i + 1]) == Assign(m, links[..i])[links[i].attachment := links[i].payload]
  {
    assert Init(links[..i + 1]) == links[..i];
  }

  lemma {:induction false} AssignConcat(m: map<int, int>, a: seq<Link>, b: seq<Link>)
    ensures Assign(m, a + b) == Assign(Assign(m, a), b)
  {
    if b == [] {
      assert a + b == a;
    } else {
      assert Init(a + b) == a + Init(b);
      AssignConcat(m, a, Init(b));
    }
  }

  // The sender -----------------------------------------------------------------------------

  function TextLinks(texts: seq<Text>, payloads: seq<int>): (links: seq<Link>)
    requires |texts| == |payloads|
  {
    seq(|texts|, i requires 0 <= i < |texts| => Link(texts[i].id, payloads[i]))
  }

  function WifiLinks(wifis: seq<Wifi>, payloads: seq<int>): (links: seq<Link>)
    requires |wifis| == |payloads|
  {
    seq(|wifis|, i requires 0 <= i < |wifis| => Link(wifis[i].id, payloads[i]))
  }

  function FileLinks(files: seq<File>, payloads: seq<int>): (links: seq<Link>)
    requires |files| == |payloads|
  {
    seq(|files|, i requires 0 <= i < |files| => Link(files[i].id, payloads[i]))
  }

  // The first n ids that are generated.
  function Drawn(ids: nat -> int, n: nat): (drawn: seq<int>) {
    seq(n, i requires 0 <= i < n => ids(i))
  }

  predicate HavePaths(files: seq<File>) {
    forall i :: 0 <= i < |files| ==> files[i].path.Some?
  }

  // A payload's id is a hash of its file's path.
  function Hashes(files: seq<File>, hash: string -> int): (ids: seq<int>)
    requires HavePaths(files)
  {
    seq(|files|, i requires 0 <= i < |files| => hash(files[i].path.value))
  }

  // The conversion from uintmax_t to int64_t: the only number in range that is the same modulo 2^64.
  function ToInt64(n: nat): (r: int64)
    ensures (n - r) % 0x1_0000_0000_0000_0000 == 0
    ensures n <= INT64_MAX ==> r == n
  {
    var low := n % 0x1_0000_0000_0000_0000;
    if low <= INT64_MAX then low else low - 0x1_0000_0000_0000_0000
  }

  // The position of the first file whose size cannot be found.
  function FirstUnsized(files: seq<File>, sizeOf: string -> Option<nat>): (n: nat)
    requires HavePaths(files)
    ensures n <= |files|
    ensures forall i :: 0 <= i < n ==> sizeOf(files[i].path.value).Some?
    ensures n < |files| ==> sizeOf(files[n].path.value).None?
  {
    if files == [] || sizeOf(files[0].path.value).None? then 0 else 1 + FirstUnsized(files[1..], sizeOf)
  }

  function Sized(files: seq<File>, sizeOf: string -> Option<nat>): (sized: seq<File>)
    requires HavePaths(files) && forall i :: 0 <= i < |files| ==> sizeOf(files[i].path.value).Some?
  {
    seq(|files|, i requires 0 <= i < |files| => files[i].(size := ToInt64(sizeOf(files[i].path.value).value)))
  }

  lemma SizedAt(files: seq<File>, i: nat, sizeOf: string -> Option<nat>)
    requires i < |files| && HavePaths(files) && forall j :: 0 <= j < i ==> sizeOf(files[j].path.value).Some?
    ensures (Sized(files[..i], sizeOf) + files[i..])[i] == files[i]
  {
  }

  lemma SizedNext(files: seq<File>, i: nat, sizeOf: string -> Option<nat>)
    requires i < |files| && HavePaths(files) && forall j :: 0 <= j <= i ==> sizeOf(files[j].path.value).Some?
    ensures var file := files[i].(size := ToInt64(sizeOf(files[i].path.value).value));
            && (Sized(files[..i], sizeOf) + files[i..])[i] == files[i]
            && (Sized(files[..i], sizeOf) + files[i..])[i := file] == Sized(files[..i + 1], sizeOf) + files[i + 1..]
  {
  }

  // The frame that introduces the attachments with these payloads. A sender has no apps.
  function Introduce(c: Container, filePayloads: seq<int>, textPayloads: seq<int>, wifiPayloads: seq<int>): Frame
    requires |c.files| == |filePayloads| && |c.texts| == |textPayloads| && |c.wifis| == |wifiPayloads|
  {
    Frame(
      seq(|c.files|, i requires 0 <= i < |c.files| => FileRow(c.files[i], filePayloads[i])),
      [],
      seq(|c.texts|, i requires 0 <= i < |c.texts| => TextRow(c.texts[i], textPayloads[i])),
      seq(|c.wifis|, i requires 0 <= i < |c.wifis| => WifiRow(c.wifis[i], wifiPayloads[i])))
  }

  function FileRow(f: File, payload: int): FileMetadata {
    FileMetadata(f.id, f.name, payload, f.kind, f.mime, f.size, f.folder)
  }

  function TextRow(t: Text, payload: int): TextMetadata {
    TextMetadata(t.id, t.title, t.kind, t.size, payload)
  }

  function WifiRow(w: Wifi, payload: int): WifiMetadata {
    WifiMetadata(w.id, w.ssid, w.security, payload)
  }

  // The part of the session that holds its attachments; SessionStatus has its status.
  class OutgoingShareSession {
    var files: seq<File>
    var texts: seq<Text>
    var wifis: seq<Wifi>
    var filePayloads: seq<int>
    var textPayloads: seq<int>
    var wifiPayloads: seq<int>
    var payloadIds: map<int, int>

    constructor ()
      ensures files == [] && texts == [] && wifis == [] && payloadIds == map[]
      ensures filePayloads == [] && textPayloads == [] && wifiPayloads == []
    {
      files, texts, wifis, payloadIds := [], [], [], map[];
      filePayloads, textPayloads, wifiPayloads := [], [], [];
    }

    ghost function Attachments(): Container
      reads this
    {
      Container(files, texts, wifis)
    }

    method CreateTextPayloads(ids: nat -> int)
      requires textPayloads == []
      modifies this`textPayloads, this`payloadIds
      ensures textPayloads == Drawn(ids, |texts|)
      ensures payloadIds == Assign(old(payloadIds), TextLinks(texts, textPayloads))
    {
      ghost var links := TextLinks(texts, Drawn(ids, |texts|));
      var i := 0;
      while i < |texts|
        invariant 0 <= i <= |texts| && textPayloads == Drawn(ids, i)
        invariant payloadIds == Assign(old(payloadIds), links[..i])
      {
        AssignNext(old(payloadIds), links, i);
        textPayloads := textPayloads + [ids(i)];
        payloadIds := payloadIds[texts[i].id := Last(textPayloads)];
        i := i + 1;
      }
      assert links[..i] == links;
    }

    method CreateWifiCredentialsPayloads(ids: nat -> int)
      requires wifiPayloads == []
      modifies this`wifiPayloads, this`payloadIds
      ensures wifiPayloads == Drawn(ids, |wifis|)
      ensures payloadIds == Assign(old(payloadIds), WifiLinks(wifis, wifiPayloads))
    {
      ghost var links := WifiLinks(wifis, Drawn(ids, |wifis|));
      var i := 0;
      while i < |wifis|
        invariant 0 <= i <= |wifis| && wifiPayloads == Drawn(ids, i)
        invariant payloadIds == Assign(old(payloadIds), links[..i])
      {
        AssignNext(old(payloadIds), links, i);
        wifiPayloads := wifiPayloads + [ids(i)];
        payloadIds := payloadIds[wifis[i].id := Last(wifiPayloads)];
        i := i + 1;
      }
      assert links[..i] == links;
    }

    // Stops at the first file whose size cannot be found and leaves what was done before.
    method CreateFilePayloads(sizeOf: string -> Option<nat>, hash: string -> int) returns (ok: bool)
      requires HavePaths(files) && filePayloads == []
      modifies this`files, this`filePayloads, this`payloadIds
      ensures var n := FirstUnsized(old(files), sizeOf);
              && (ok <==> n == |old(files)|)
              && files == Sized(old(files)[..n], sizeOf) + old(files)[n..]
              && filePayloads == Hashes(old(files)[..n], hash)
              && payloadIds == Assign(old(payloadIds), FileLinks(old(files)[..n], filePayloads))
    {
      ghost var before, n := files, FirstUnsized(files, sizeOf);
      ghost var links := FileLinks(before[..n], Hashes(before[..n], hash));
      ok := CreateEachFilePayload(sizeOf, hash, n, links);
    }

    // The loop over the files, of which the n-th is the first without a size, if there is one.
    method CreateEachFilePayload(sizeOf: string -> Option<nat>, hash: string -> int, ghost n: nat,
                                 ghost links: seq<Link>) returns (ok: bool)
      requires HavePaths(files) && filePayloads == [] && n == |links| <= |files|
      requires forall i :: 0 <= i < n ==> sizeOf(files[i].path.value).Some?
      requires forall i :: 0 <= i < n ==> links[i] == Link(files[i].id, hash(files[i].path.value))
      requires n < |files| ==> sizeOf(files[n].path.value).None?
      modifies this`files, this`filePayloads, this`payloadIds
      ensures ok == (n == |old(files)|) && Prepared(old(files), n, sizeOf, hash)
      ensures payloadIds == Assign(old(payloadIds), links)
    {
      ghost var before := files;
      var i := 0;
      while i < |files|
        invariant 0 <= i <= n <= |files| == |before| && Prepared(before, i, sizeOf, hash)
        invariant payloadIds == Assign(old(payloadIds), links[..i])
      {
        SizedAt(before, i, sizeOf);
        if sizeOf(files[i].path.value).None? {
          break;
        }
        AssignNext(old(payloadIds), links, i);
        CreateFilePayload(i, before, sizeOf, hash);
        i := i + 1;
      }
      assert i == n;
      AllLinks(links);
      ok := i == |files|;
    }

    // The first i of the files `before` have their sizes and their payloads.
    ghost predicate Prepared(before: seq<File>, i: nat, sizeOf: string -> Option<nat>, hash: string -> int)
      reads this
    {
      && i <= |before| && HavePaths(before) && (forall j :: 0 <= j < i ==> sizeOf(before[j].path.value).Some?)
      && files == Sized(before[..i], sizeOf) + before[i..] && filePayloads == Hashes(before[..i], hash)
    }

    // One turn of that loop, for a file whose size is known.
    method CreateFilePayload(i: nat, ghost before: seq<File>, sizeOf: string -> Option<nat>, hash: string -> int)
      requires i < |files| == |before| && Prepared(before, i, sizeOf, hash)
      requires files[i] == before[i] && sizeOf(before[i].path.value).Some?
      modifies this`files, this`filePayloads, this`payloadIds
      ensures |files| == |before| && Prepared(before, i + 1, sizeOf, hash)
      ensures payloadIds == old(payloadIds)[before[i].id := hash(before[i].path.value)]
    {
      SizedNext(before, i, sizeOf);
      files := files[i := files[i].(size := ToInt64(sizeOf(files[i].path.value).value))];
      filePayloads := filePayloads + [hash(files[i].path.value)];
      payloadIds := payloadIds[files[i].id := Last(filePayloads)];
    }

    // True if every attachment has its payload and there is one; then their map entries are
    // those of the texts, the Wi-Fi credentials and the files, written in this order.
    method InitiateSendAttachments(c: Container, textIds: nat -> int, wifiIds: nat -> int,
                                   sizeOf: string -> Option<nat>, hash: string -> int) returns (success: bool)
      requires HavePaths(c.files)
      modifies this
      ensures success <==> FirstUnsized(c.files, sizeOf) == |c.files| && HasAttachments(c)
      ensures success ==>
                && Attachments() == c.(files := Sized(c.files, sizeOf))
                && filePayloads == Hashes(c.files, hash)
                && textPayloads == Drawn(textIds, |c.texts|) && wifiPayloads == Drawn(wifiIds, |c.wifis|)
                && payloadIds == Assign(old(payloadIds),
                                         SenderLinks(Attachments(), filePayloads, textPayloads, wifiPayloads))
    {
      files, texts, wifis := c.files, c.texts, c.wifis;
      textPayloads, wifiPayloads, filePayloads := [], [], [];
      CreateTextPayloads(textIds);
      CreateWifiCredentialsPayloads(wifiIds);
      ghost var early := TextLinks(texts, textPayloads) + WifiLinks(wifis, wifiPayloads);
      AssignConcat(old(payloadIds), TextLinks(texts, textPayloads), WifiLinks(wifis, wifiPayloads));
      success := CreateFilePayloads(sizeOf, hash);
      if success {
        assert c.files[..|c.files|] == c.files && c.files[|c.files|..] == [];
        AssignConcat(old(payloadIds), early, FileLinks(files, filePayloads));
        assert FileLinks(files, filePayloads) == FileLinks(c.files, filePayloads);
        if textPayloads == [] && wifiPayloads == [] && filePayloads == [] {
          success := false;
        }
      }
    }

    method FillIntroductionFrame() returns (introduction: Option<Frame>)
      ensures introduction.Some? <==>
                && HasAttachments(Attachments())
                && |files| == |filePayloads| && |texts| == |textPayloads| && |wifis| == |wifiPayloads|
      ensures introduction.Some? ==>
                introduction.value == Introduce(Attachments(), filePayloads, textPayloads, wifiPayloads)
    {
      if texts == [] && files == [] && wifis == [] {
        return None;
      }
      if |filePayloads| != |files| || |textPayloads| != |texts| || |wifiPayloads| != |wifis| {
        return None;
      }
      ghost var whole := Introduce(Attachments(), filePayloads, textPayloads, wifiPayloads);
      var frame := Frame([], [], [], []);
      for i := 0 to |files|
        invariant frame == Frame(whole.files[..i], [], [], [])
      {
        frame := frame.(files := frame.files + [FileRow(files[i], filePayloads[i])]);
      }
      for i := 0 to |texts|
        invariant frame == Frame(whole.files, [], whole.texts[..i], [])
      {
        frame := frame.(texts := frame.texts + [TextRow(texts[i], textPayloads[i])]);
      }
      for i := 0 to |wifis|
        invariant frame == Frame(whole.files, [], whole.texts, whole.wifis[..i])
      {
        frame := frame.(wifis := frame.wifis + [WifiRow(wifis[i], wifiPayloads[i])]);
      }
      introduction := Some(frame);
    }

    // The payloads that have not been sent, in the order in which they will be.
    ghost function Unsent(): seq<int>
      reads this
    {
      SendOrder(textPayloads, filePayloads, wifiPayloads)
    }

    method ExtractNextPayload() returns (payload: Option<int>)
      modifies this`textPayloads, this`filePayloads, this`wifiPayloads
      ensures payload == if old(Unsent()) == [] then None else Some(old(Unsent())[0])
      ensures payload.Some? ==> Unsent() == old(Unsent())[1..]
      ensures payload.None? ==> Unsent() == []
    {
      FirstSent(textPayloads, filePayloads, wifiPayloads);
      if textPayloads != [] {
        payload := Some(Last(textPayloads));
        textPayloads := Init(textPayloads);
        return;
      }
      if filePayloads != [] {
        payload := Some(Last(filePayloads));
        filePayloads := Init(filePayloads);
        return;
      }
      if wifiPayloads != [] {
        payload := Some(Last(wifiPayloads));
        wifiPayloads := Init(wifiPayloads);
        return;
      }
      payload := None;
    }
  }

  function Reversed(s: seq<int>): seq<int> {
    if s == [] then [] else [Last(s)] + Reversed(Init(s))
  }

  // The payloads of three lists in the order in which they are sent, and how the first goes.
  function SendOrder(texts: seq<int>, files: seq<int>, wifis: seq<int>): seq<int> {
    Reversed(texts) + Reversed(files) + Reversed(wifis)
  }

  lemma FirstSent(texts: seq<int>, files: seq<int>, wifis: seq<int>)
    ensures texts != [] ==> SendOrder(texts, files, wifis) == [Last(texts)] + SendOrder(Init(texts), files, wifis)
    ensures texts == [] && files != [] ==>
              SendOrder(texts, files, wifis) == [Last(files)] + SendOrder([], Init(files), wifis)
  {
    if texts != [] {
      Regroup([Last(texts)], Reversed(Init(texts)), Reversed(files), Reversed(wifis));
    } else if files != [] {
      Regroup([], [Last(files)], Reversed(Init(files)), Reversed(wifis));
    }
  }

  lemma Regroup(a: seq<int>, b: seq<int>, c: seq<int>, d: seq<int>)
    ensures a + b + c + d == a + (b + c + d) && [] + (b + c) + d == b + ([] + c + d)
  {
  }

  predicate HasAttachments(c: Container) {
    c.files != [] || c.texts != [] || c.wifis != []
  }

  function SenderLinks(c: Container, filePayloads: seq<int>, textPayloads: seq<int>, wifiPayloads: seq<int>): seq<Link>
    requires |c.files| == |filePayloads| && |c.texts| == |textPayloads| && |c.wifis| == |wifiPayloads|
  {
    TextLinks(c.texts, textPayloads) + WifiLinks(c.wifis, wifiPayloads) + FileLinks(c.files, filePayloads)
  }
}
