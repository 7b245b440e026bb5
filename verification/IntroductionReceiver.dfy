/**
 What the receiver of an introduction makes of it (incoming_share_session.cc, lines 87-208).
 */
module IntroductionReceiver {
  import opened Wrappers
  import opened Introduction

  datatype Refusal = UnsupportedAttachmentType | NotEnoughSpace

  const ANDROID_APP := 3

  // Sizes ------------------------------------------------------------------------------------

  function FileSum(files: seq<FileMetadata>): int {
    if files == [] then 0 else FileSum(Init(files)) + Last(files).size
  }

  function AppSum(apps: seq<AppMetadata>): int {
    if apps == [] then 0 else AppSum(Init(apps)) + Last(apps).size
  }

  ghost predicate Positive(files: seq<FileMetadata>) {
    forall i :: 0 <= i < |files| ==> files[i].size > 0
  }

  predicate Matching(app: AppMetadata) {
    |app.fileNames| == |app.fileSizes| == |app.payloadIds|
  }

  ghost predicate AppOk(app: AppMetadata) {
    app.size > 0 && Matching(app) && forall i :: 0 <= i < |app.fileSizes| ==> app.fileSizes[i] > 0
  }

  ghost predicate AppsOk(apps: seq<AppMetadata>) {
    forall i :: 0 <= i < |apps| ==> AppOk(apps[i])
  }

  // The k-th file, after files of positive sizes, is the first to overflow the sum ...
  ghost predicate FilesOverflow(files: seq<FileMetadata>, k: nat) {
    k < |files| && Positive(files[..k + 1]) && FileSum(files[..k + 1]) > INT64_MAX
  }

  // ... or the k-th app, after apps that are in order.
  ghost predicate AppsOverflow(start: int, apps: seq<AppMetadata>, k: nat) {
    k < |apps| && AppsOk(apps[..k]) && apps[k].size > 0 && start + AppSum(apps[..k + 1]) > INT64_MAX
  }

  ghost predicate SomeAppOverflows(start: int, apps: seq<AppMetadata>) {
    exists k: nat :: AppsOverflow(start, apps, k)
  }

  ghost predicate Overflows(frame: Frame) {
    || SomeFileOverflows(frame.files)
    || (Positive(frame.files) && FileSum(frame.files) <= INT64_MAX
        && SomeAppOverflows(FileSum(frame.files), frame.apps))
  }

  ghost predicate AppsFit(start: int, apps: seq<AppMetadata>) {
    AppsOk(apps) && start + AppSum(apps) <= INT64_MAX
  }

  ghost predicate FilesFit(frame: Frame) {
    Positive(frame.files) && FileSum(frame.files) <= INT64_MAX && AppsFit(FileSum(frame.files), frame.apps)
  }

  ghost predicate SomeFileOverflows(files: seq<FileMetadata>) {
    exists k: nat :: FilesOverflow(files, k)
  }

  // The first i files are in order and have not overflowed the sum.
  ghost predicate FilesInOrder(files: seq<FileMetadata>, i: nat)
    requires i <= |files|
  {
    Positive(files[..i]) && FileSum(files[..i]) <= INT64_MAX && forall k: nat :: k < i ==> !FilesOverflow(files, k)
  }

  lemma FileStaysInOrder(files: seq<FileMetadata>, i: nat)
    requires i < |files| && FilesInOrder(files, i)
    requires files[i].size > 0 && FileSum(files[..i + 1]) <= INT64_MAX
    ensures FilesInOrder(files, i + 1)
  {
    assert files[..i + 1] == files[..i] + [files[i]];
  }

  // What the file that ends the loop says about all of them.
  lemma FileRefusedAt(files: seq<FileMetadata>, i: nat)
    requires i < |files| && FilesInOrder(files, i)
    requires files[i].size <= 0 || FileSum(files[..i + 1]) > INT64_MAX
    ensures !(Positive(files) && FileSum(files) <= INT64_MAX)
    ensures SomeFileOverflows(files) <==> files[i].size > 0
  {
    if files[i].size <= 0 {
      NoFilesOverflowPast(files, i);
    } else {
      assert files[..i + 1] == files[..i] + [files[i]];
      assert FilesOverflow(files, i);
      FileSumsGrow(files, i + 1);
    }
  }

  // The first i apps are in order and have not overflowed the sum.
  ghost predicate InOrder(start: int, apps: seq<AppMetadata>, i: nat)
    requires i <= |apps|
  {
    AppsFit(start, apps[..i]) && forall k: nat :: k < i ==> !AppsOverflow(start, apps, k)
  }

  lemma StaysInOrder(start: int, apps: seq<AppMetadata>, i: nat)
    requires i < |apps| && InOrder(start, apps, i)
    requires AppOk(apps[i]) && start + AppSum(apps[..i + 1]) <= INT64_MAX
    ensures InOrder(start, apps, i + 1)
  {
    assert apps[..i + 1] == apps[..i] + [apps[i]];
  }

  // What the app that ends the loop says about all of them.
  lemma RefusedAt(start: int, apps: seq<AppMetadata>, i: nat)
    requires i < |apps| && InOrder(start, apps, i)
    requires !AppOk(apps[i]) || start + AppSum(apps[..i + 1]) > INT64_MAX
    ensures !AppsFit(start, apps)
    ensures SomeAppOverflows(start, apps) <==> apps[i].size > 0 && start + AppSum(apps[..i + 1]) > INT64_MAX
  {
    AppSumsGrow(apps, i + 1);
    if apps[i].size > 0 && start + AppSum(apps[..i + 1]) > INT64_MAX {
      assert AppsOverflow(start, apps, i);
    } else {
      NoAppsOverflowPast(start, apps, i);
    }
  }

  ghost predicate Acceptable(frame: Frame) {
    FilesFit(frame) && TextsPositive(frame) && HasRows(frame)
  }

  lemma FileSumNext(rows: seq<FileMetadata>, i: nat)
    requires i < |rows|
    ensures FileSum(rows[..i + 1]) == FileSum(rows[..i]) + rows[i].size
  {
    assert Init(rows[..i + 1]) == rows[..i];
  }

  lemma AppSumNext(apps: seq<AppMetadata>, i: nat)
    requires i < |apps|
    ensures AppSum(apps[..i + 1]) == AppSum(apps[..i]) + apps[i].size
  {
    assert Init(apps[..i + 1]) == apps[..i];
  }

  lemma NoFilesOverflowPast(rows: seq<FileMetadata>, i: nat)
    requires i < |rows| && rows[i].size <= 0
    ensures forall k: nat :: i <= k ==> !FilesOverflow(rows, k)
  {
    forall k: nat | i <= k
      ensures !FilesOverflow(rows, k)
    {
      if k < |rows| {
        assert rows[..k + 1][i] == rows[i];
      }
    }
  }

  lemma NoAppsOverflowPast(start: int, apps: seq<AppMetadata>, i: nat)
    requires i < |apps| && !AppOk(apps[i]) && !AppsOverflow(start, apps, i)
    ensures forall k: nat :: i <= k ==> !AppsOverflow(start, apps, k)
  {
    forall k: nat | i <= k
      ensures !AppsOverflow(start, apps, k)
    {
      if i < k < |apps| {
        assert apps[..k][i] == apps[i];
      }
    }
  }

  lemma {:induction false} FileSumsGrow(rows: seq<FileMetadata>, k: nat)
    requires k <= |rows|
    ensures Positive(rows) ==> FileSum(rows[..k]) <= FileSum(rows)
    decreases |rows| - k
  {
    if k == |rows| {
      assert rows[..k] == rows;
    } else {
      FileSumNext(rows, k);
      FileSumsGrow(rows, k + 1);
    }
  }

  lemma {:induction false} AppSumsGrow(apps: seq<AppMetadata>, k: nat)
    requires k <= |apps|
    ensures AppsOk(apps) ==> AppSum(apps[..k]) <= AppSum(apps)
    decreases |apps| - k
  {
    if k == |apps| {
      assert apps[..k] == apps;
    } else {
      AppSumNext(apps, k);
      AppSumsGrow(apps, k + 1);
    }
  }

  // The i-th app keeps the apps in order, or says of all of them why they are refused.
  lemma AppVerdict(start: int, apps: seq<AppMetadata>, i: nat, sum: int)
    requires i < |apps| && sum == start + AppSum(apps[..i]) && InOrder(start, apps, i)
    ensures sum + apps[i].size == start + AppSum(apps[..i + 1])
    ensures if AppOk(apps[i]) && sum + apps[i].size <= INT64_MAX then InOrder(start, apps, i + 1)
            else
              && !AppsFit(start, apps)
              && (SomeAppOverflows(start, apps) <==> apps[i].size > 0 && sum + apps[i].size > INT64_MAX)
  {
    AppSumNext(apps, i);
    if AppOk(apps[i]) && sum + apps[i].size <= INT64_MAX {
      StaysInOrder(start, apps, i);
    } else {
      RefusedAt(start, apps, i);
    }
  }

  // Where reading stops ------------------------------------------------------------------------

  // The row that ends the reading, in the j-th file of an app for an app, or the end of the frame.
  datatype Stop = AtFile(i: nat) | AtApp(i: nat, j: nat) | AtText(i: nat) | AtEnd

  // The i-th file has no positive size, or is the one that overflows the sum.
  ghost predicate FilesStop(files: seq<FileMetadata>, refusal: Option<Refusal>, i: nat) {
    && i < |files| && FilesInOrder(files, i)
    && refusal == Some(if files[i].size <= 0 then UnsupportedAttachmentType else NotEnoughSpace)
    && (files[i].size > 0 ==> FileSum(files[..i + 1]) > INT64_MAX)
  }

  // The app is refused as such, before its first file, or its j-th file is the first without a
  // positive size; `sum` is what was declared before it.
  ghost predicate AppStops(app: AppMetadata, sum: int, refusal: Option<Refusal>, j: nat) {
    && !(AppOk(app) && sum + app.size <= INT64_MAX)
    && refusal == Some(if app.size > 0 && sum + app.size > INT64_MAX then NotEnoughSpace else UnsupportedAttachmentType)
    && if app.size > 0 && sum + app.size <= INT64_MAX && Matching(app) then FirstUnsizedFile(app, j) else j == 0
  }

  ghost predicate FirstUnsizedFile(app: AppMetadata, j: nat) {
    j < |app.fileSizes| && app.fileSizes[j] <= 0 && forall k :: 0 <= k < j ==> app.fileSizes[k] > 0
  }

  ghost predicate AppsStop(start: int, apps: seq<AppMetadata>, refusal: Option<Refusal>, i: nat, j: nat) {
    i < |apps| && InOrder(start, apps, i) && AppStops(apps[i], start + AppSum(apps[..i]), refusal, j)
  }

  ghost predicate TextsStop(texts: seq<TextMetadata>, i: nat) {
    i < |texts| && texts[i].size <= 0 && forall k :: 0 <= k < i ==> texts[k].size > 0
  }

  // The reading of a frame stops there, with this verdict.
  ghost predicate Stops(frame: Frame, refusal: Option<Refusal>, stop: Stop) {
    match stop
    case AtFile(i) => FilesStop(frame.files, refusal, i)
    case AtApp(i, j) =>
      && Positive(frame.files) && FileSum(frame.files) <= INT64_MAX
      && AppsStop(FileSum(frame.files), frame.apps, refusal, i, j)
    case AtText(i) => FilesFit(frame) && TextsStop(frame.texts, i) && refusal == Some(UnsupportedAttachmentType)
    case AtEnd =>
      && FilesFit(frame) && TextsPositive(frame)
      && refusal == if HasRows(frame) then None else Some(UnsupportedAttachmentType)
  }

  ghost predicate TextsPositive(frame: Frame) {
    forall i :: 0 <= i < |frame.texts| ==> frame.texts[i].size > 0
  }

  predicate HasRows(frame: Frame) {
    frame.files != [] || AppFiles(frame.apps) != [] || frame.texts != [] || frame.wifis != []
  }

  // How many entries are in the map then. A file that overflows the sum has its entry.
  function EntriesRead(frame: Frame, stop: Stop): nat {
    match stop
    case AtFile(i) => if i < |frame.files| && frame.files[i].size > 0 then i + 1 else i
    case AtApp(i, j) => |frame.files| + (if i <= |frame.apps| then |AppFiles(frame.apps[..i])| else 0) + j
    case AtText(i) => |frame.files| + |AppFiles(frame.apps)| + i
    case AtEnd => |frame.files| + |AppFiles(frame.apps)| + |frame.texts| + |frame.wifis|
  }

  // What is rebuilt --------------------------------------------------------------------------

  // An attachment without an id is given a random one.
  function NewId(id: int, random: int): int {
    if id == 0 then random else id
  }

  function NewFile(m: FileMetadata, random: int): File {
    File(NewId(m.id, random), m.name, m.mime, m.kind, m.folder, m.size, None)
  }

  function NewText(m: TextMetadata, random: int): Text {
    Text(NewId(m.id, random), m.kind, m.title, m.size, "")
  }

  function NewWifi(m: WifiMetadata, random: int): Wifi {
    Wifi(NewId(m.id, random), m.ssid, m.security, "", false)
  }

  datatype AppFile = AppFile(name: string, size: int64, payloadId: int)

  // An app's file comes without an id, so it is given a random one.
  function NewAppFile(f: AppFile, random: int): File {
    File(NewId(0, random), f.name, "", ANDROID_APP, "", f.size, None)
  }

  // The first n files of an app, and all of them, if its lists match.
  function FirstFilesOf(app: AppMetadata, n: nat): (files: seq<AppFile>)
    requires Matching(app) && n <= |app.fileNames|
    ensures |files| == n
  {
    if n == 0 then []
    else FirstFilesOf(app, n - 1) + [AppFile(app.fileNames[n - 1], app.fileSizes[n - 1], app.payloadIds[n - 1])]
  }

  function FilesOf(app: AppMetadata): seq<AppFile> {
    if Matching(app) then FirstFilesOf(app, |app.fileNames|) else []
  }

  // The files of apps, one app after the other.
  function AppFiles(apps: seq<AppMetadata>): seq<AppFile> {
    if apps == [] then [] else AppFiles(Init(apps)) + FilesOf(Last(apps))
  }

  // The attachments made of the first n rows; `random(i)` is drawn for the i-th attachment.
  function FileAttachments(rows: seq<FileMetadata>, n: nat, random: nat -> int): (r: seq<File>)
    requires n <= |rows|
    ensures |r| == n
  {
    if n == 0 then [] else FileAttachments(rows, n - 1, random) + [NewFile(rows[n - 1], random(n - 1))]
  }

  function AppAttachments(files: seq<AppFile>, n: nat, random: nat -> int, from: nat): (r: seq<File>)
    requires n <= |files|
    ensures |r| == n
  {
    if n == 0 then [] else AppAttachments(files, n - 1, random, from) + [NewAppFile(files[n - 1], random(from + n - 1))]
  }

  function TextAttachments(rows: seq<TextMetadata>, n: nat, random: nat -> int, from: nat): (r: seq<Text>)
    requires n <= |rows|
    ensures |r| == n
  {
    if n == 0 then [] else TextAttachments(rows, n - 1, random, from) + [NewText(rows[n - 1], random(from + n - 1))]
  }

  function WifiAttachments(rows: seq<WifiMetadata>, n: nat, random: nat -> int, from: nat): (r: seq<Wifi>)
    requires n <= |rows|
    ensures |r| == n
  {
    if n == 0 then [] else WifiAttachments(rows, n - 1, random, from) + [NewWifi(rows[n - 1], random(from + n - 1))]
  }

  // The files of a frame are its file rows and those of its apps.
  function AllFileAttachments(frame: Frame, random: nat -> int): seq<File> {
    var apps := AppFiles(frame.apps);
    FileAttachments(frame.files, |frame.files|, random) + AppAttachments(apps, |apps|, random, |frame.files|)
  }

  // All attachments of a frame.
  function Rebuild(frame: Frame, random: nat -> int): Container {
    var files := AllFileAttachments(frame, random);
    var texts := TextAttachments(frame.texts, |frame.texts|, random, |files|);
    Container(files, texts, WifiAttachments(frame.wifis, |frame.wifis|, random, |files| + |texts|))
  }

  // The map entries of the first n rows, in the order in which they are written.
  function FileEntries(rows: seq<FileMetadata>, n: nat): (r: seq<Link>)
    requires n <= |rows|
    ensures |r| == n
  {
    if n == 0 then [] else FileEntries(rows, n - 1) + [Link(rows[n - 1].id, rows[n - 1].payloadId)]
  }

  function AppEntries(files: seq<AppFile>, n: nat, random: nat -> int, from: nat): (r: seq<Link>)
    requires n <= |files|
    ensures |r| == n
  {
    if n == 0 then []
    else AppEntries(files, n - 1, random, from) + [Link(NewId(0, random(from + n - 1)), files[n - 1].payloadId)]
  }

  function TextEntries(rows: seq<TextMetadata>, n: nat): (r: seq<Link>)
    requires n <= |rows|
    ensures |r| == n
  {
    if n == 0 then [] else TextEntries(rows, n - 1) + [Link(rows[n - 1].id, rows[n - 1].payloadId)]
  }

  function WifiEntries(rows: seq<WifiMetadata>, n: nat): (r: seq<Link>)
    requires n <= |rows|
    ensures |r| == n
  {
    if n == 0 then [] else WifiEntries(rows, n - 1) + [Link(rows[n - 1].id, rows[n - 1].payloadId)]
  }

  function AllFileEntries(frame: Frame, random: nat -> int): seq<Link> {
    var apps := AppFiles(frame.apps);
    FileEntries(frame.files, |frame.files|) + AppEntries(apps, |apps|, random, |frame.files|)
  }

  function LateEntries(frame: Frame): seq<Link> {
    TextEntries(frame.texts, |frame.texts|) + WifiEntries(frame.wifis, |frame.wifis|)
  }

  function Entries(frame: Frame, random: nat -> int): seq<Link> {
    AllFileEntries(frame, random) + LateEntries(frame)
  }

  lemma {:induction false} FileEntriesPrefix(rows: seq<FileMetadata>, n: nat, m: nat)
    requires n <= m <= |rows|
    ensures FileEntries(rows, n) <= FileEntries(rows, m)
  {
    if n < m {
      FileEntriesPrefix(rows, n, m - 1);
    }
  }

  lemma {:induction false} TextEntriesPrefix(rows: seq<TextMetadata>, n: nat, m: nat)
    requires n <= m <= |rows|
    ensures TextEntries(rows, n) <= TextEntries(rows, m)
  {
    if n < m {
      TextEntriesPrefix(rows, n, m - 1);
    }
  }

  lemma {:induction false} FirstFilesPrefix(app: AppMetadata, n: nat, m: nat)
    requires Matching(app) && n <= m <= |app.fileNames|
    ensures FirstFilesOf(app, n) <= FirstFilesOf(app, m)
  {
    if n < m {
      FirstFilesPrefix(app, n, m - 1);
    }
  }

  // The entries and attachments of files that are taken in two parts.
  lemma {:induction false} AppEntriesConcat(a: seq<AppFile>, b: seq<AppFile>, n: nat, random: nat -> int, from: nat)
    requires n <= |b|
    ensures AppEntries(a + b, |a| + n, random, from)
         == AppEntries(a, |a|, random, from) + AppEntries(b, n, random, from + |a|)
  {
    if n > 0 {
      AppEntriesConcat(a, b, n - 1, random, from);
    } else {
      AppEntriesOfPart(a, b, |a|, random, from);
    }
  }

  lemma {:induction false} AppEntriesOfPart(a: seq<AppFile>, b: seq<AppFile>, n: nat, random: nat -> int, from: nat)
    requires n <= |a|
    ensures AppEntries(a + b, n, random, from) == AppEntries(a, n, random, from)
  {
    if n > 0 {
      AppEntriesOfPart(a, b, n - 1, random, from);
    }
  }

  lemma {:induction false} AppAttachmentsConcat(a: seq<AppFile>, b: seq<AppFile>, n: nat, random: nat -> int, from: nat)
    requires n <= |b|
    ensures AppAttachments(a + b, |a| + n, random, from)
         == AppAttachments(a, |a|, random, from) + AppAttachments(b, n, random, from + |a|)
  {
    if n > 0 {
      AppAttachmentsConcat(a, b, n - 1, random, from);
    } else {
      AppAttachmentsOfPart(a, b, |a|, random, from);
    }
  }

  lemma {:induction false} AppAttachmentsOfPart(a: seq<AppFile>, b: seq<AppFile>, n: nat, random: nat -> int, from: nat)
    requires n <= |a|
    ensures AppAttachments(a + b, n, random, from) == AppAttachments(a, n, random, from)
  {
    if n > 0 {
      AppAttachmentsOfPart(a, b, n - 1, random, from);
    }
  }

  lemma TakenBoth(a: seq<AppFile>, b: seq<AppFile>, random: nat -> int, from: nat)
    ensures AppEntries(a + b, |a + b|, random, from)
         == AppEntries(a, |a|, random, from) + AppEntries(b, |b|, random, from + |a|)
    ensures AppAttachments(a + b, |a + b|, random, from)
         == AppAttachments(a, |a|, random, from) + AppAttachments(b, |b|, random, from + |a|)
  {
    assert |a + b| == |a| + |b|;
    AppEntriesConcat(a, b, |b|, random, from);
    AppAttachmentsConcat(a, b, |b|, random, from);
  }

  lemma {:induction false} AppFilesPrefix(apps: seq<AppMetadata>, k: nat)
    requires k <= |apps|
    ensures AppFiles(apps[..k]) <= AppFiles(apps)
    decreases |apps| - k
  {
    if k == |apps| {
      assert apps[..k] == apps;
    } else {
      AppFilesNext(apps, k);
      AppFilesPrefix(apps, k + 1);
    }
  }

  // The loop over the apps before the i-th: their files, and the sum with what they declare.
  ghost predicate Taken(apps: seq<AppMetadata>, i: nat, start: int, sum: int, taken: seq<AppFile>) {
    i <= |apps| && taken == AppFiles(apps[..i]) && sum == start + AppSum(apps[..i]) && InOrder(start, apps, i)
  }

  lemma NothingTaken(apps: seq<AppMetadata>, start: int, random: nat -> int, from: nat, m: map<int, int>)
    requires start <= INT64_MAX
    ensures Taken(apps, 0, start, start, [])
    ensures AppAttachments([], 0, random, from) == [] && Assign(m, AppEntries([], 0, random, from)) == m
  {
    assert apps[..0] == [];
  }

  lemma AllInOrder(start: int, apps: seq<AppMetadata>)
    requires InOrder(start, apps, |apps|)
    ensures apps[..|apps|] == apps && AppsFit(start, apps) && !SomeAppOverflows(start, apps)
  {
    assert apps[..|apps|] == apps;
  }

  lemma AppFilesNext(apps: seq<AppMetadata>, i: nat)
    requires i < |apps|
    ensures AppFiles(apps[..i + 1]) == AppFiles(apps[..i]) + FilesOf(apps[i])
  {
    assert Init(apps[..i + 1]) == apps[..i];
  }

  lemma AssignSnoc(m: map<int, int>, links: seq<Link>, link: Link)
    ensures Assign(m, links + [link]) == Assign(m, links)[link.attachment := link.payload]
  {
    assert Init(links + [link]) == links;
  }

  // What one more row adds.
  lemma FileRowNext(rows: seq<FileMetadata>, i: nat, random: nat -> int, m: map<int, int>)
    requires i < |rows|
    ensures FileAttachments(rows, i + 1, random) == FileAttachments(rows, i, random) + [NewFile(rows[i], random(i))]
    ensures Assign(m, FileEntries(rows, i + 1)) == Assign(m, FileEntries(rows, i))[rows[i].id := rows[i].payloadId]
  {
    AssignSnoc(m, FileEntries(rows, i), Link(rows[i].id, rows[i].payloadId));
  }

  lemma TextRowNext(rows: seq<TextMetadata>, i: nat, random: nat -> int, from: nat, m: map<int, int>)
    requires i < |rows|
    ensures TextAttachments(rows, i + 1, random, from)
         == TextAttachments(rows, i, random, from) + [NewText(rows[i], random(from + i))]
    ensures Assign(m, TextEntries(rows, i + 1)) == Assign(m, TextEntries(rows, i))[rows[i].id := rows[i].payloadId]
  {
    AssignSnoc(m, TextEntries(rows, i), Link(rows[i].id, rows[i].payloadId));
  }

  lemma WifiRowNext(rows: seq<WifiMetadata>, i: nat, random: nat -> int, from: nat, m: map<int, int>)
    requires i < |rows|
    ensures WifiAttachments(rows, i + 1, random, from)
         == WifiAttachments(rows, i, random, from) + [NewWifi(rows[i], random(from + i))]
    ensures Assign(m, WifiEntries(rows, i + 1)) == Assign(m, WifiEntries(rows, i))[rows[i].id := rows[i].payloadId]
  {
    AssignSnoc(m, WifiEntries(rows, i), Link(rows[i].id, rows[i].payloadId));
  }

  lemma AppFileNext(files: seq<AppFile>, i: nat, random: nat -> int, from: nat, m: map<int, int>)
    requires i < |files|
    ensures AppAttachments(files, i + 1, random, from)
         == AppAttachments(files, i, random, from) + [NewAppFile(files[i], random(from + i))]
    ensures Assign(m, AppEntries(files, i + 1, random, from))
         == Assign(m, AppEntries(files, i, random, from))
              [NewAppFile(files[i], random(from + i)).id := files[i].payloadId]
  {
    AssignSnoc(m, AppEntries(files, i, random, from), Link(NewId(0, random(from + i)), files[i].payloadId));
  }

  lemma PrefixOfFirst(part: seq<Link>, a: seq<Link>, b: seq<Link>)
    requires part <= a
    ensures part <= a + b
  {
  }

  lemma PrefixOfSecond(a: seq<Link>, part: seq<Link>, b: seq<Link>)
    requires part <= b
    ensures a + part <= a + b
  {
  }

  lemma HasRowsIff(frame: Frame, random: nat -> int, whole: Container)
    requires whole == Rebuild(frame, random)
    ensures HasRows(frame) <==> whole.files != [] || whole.texts != [] || whole.wifis != []
  {
    assert |whole.files| == |frame.files| + |AppFiles(frame.apps)|;
  }

  lemma LateLengths(frame: Frame, random: nat -> int)
    ensures |AllFileEntries(frame, random)| == |frame.files| + |AppFiles(frame.apps)|
    ensures |LateEntries(frame)| == |frame.texts| + |frame.wifis|
  {
  }

  class IncomingShareSession {
    var attachments: Container
    var payloadIds: map<int, int>

    constructor ()
      ensures attachments == Container([], [], []) && payloadIds == map[]
    {
      attachments, payloadIds := Container([], [], []), map[];
    }

    // Refuses exactly the unacceptable frames, for lack of space exactly if the sizes of the
    // first files and apps, all in order, exceed what an int64_t holds. A refusal leaves the
    // attachments alone, but not the map: the entries of the rows before `stop` stay.
    method ProcessIntroduction(frame: Frame, random: nat -> int) returns (refusal: Option<Refusal>,
                               ghost written: seq<Link>, ghost stop: Stop)
      modifies this
      ensures refusal.None? <==> Acceptable(frame)
      ensures refusal == Some(NotEnoughSpace) <==> Overflows(frame)
      ensures attachments == if refusal.None? then Rebuild(frame, random) else old(attachments)
      ensures Stops(frame, refusal, stop) && (refusal.None? ==> written == Entries(frame, random))
      ensures written <= Entries(frame, random) && |written| == EntriesRead(frame, stop)
      ensures payloadIds == Assign(old(payloadIds), written)
    {
      var files, texts, wifis;
      ghost var whole := Rebuild(frame, random);
      refusal, files, texts, wifis, written, stop := ReadAttachments(frame, random, Entries(frame, random), whole);
      HasRowsIff(frame, random, whole);
      if refusal.None? {
        if texts == [] && files == [] && wifis == [] {
          refusal := Some(UnsupportedAttachmentType);
        } else {
          attachments := Container(files, texts, wifis);
        }
      }
    }

    // All the loops, which fill the builder and the map; `all` are the frame's entries and `whole`
    // its attachments.
    method ReadAttachments(frame: Frame, random: nat -> int, ghost all: seq<Link>, ghost whole: Container)
      returns (refusal: Option<Refusal>, files: seq<File>, texts: seq<Text>, wifis: seq<Wifi>,
               ghost written: seq<Link>, ghost stop: Stop)
      requires all == Entries(frame, random) && whole == Rebuild(frame, random)
      modifies this`payloadIds
      ensures refusal.None? <==> FilesFit(frame) && TextsPositive(frame)
      ensures if refusal.None? then stop == AtEnd else Stops(frame, refusal, stop)
      ensures refusal == Some(NotEnoughSpace) <==> Overflows(frame)
      ensures refusal.None? ==> whole == Container(files, texts, wifis) && written == all
      ensures written <= all && |written| == EntriesRead(frame, stop) && payloadIds == Assign(old(payloadIds), written)
    {
      texts, wifis := [], [];
      ghost var early, late := AllFileEntries(frame, random), LateEntries(frame);
      refusal, files, written, stop := ReadAllFiles(frame, random, early, whole.files);
      PrefixOfFirst(written, early, late);
      if refusal.None? {
        ghost var more;
        refusal, texts, wifis, more :=
          ReadTextsAndWifiCredentials(frame, random, |files|, late, whole.texts, whole.wifis);
        AssignConcat(old(payloadIds), written, more);
        PrefixOfSecond(written, more, late);
        stop := if refusal.None? then AtEnd else AtText(|more|);
        LateLengths(frame, random);
        written := written + more;
      }
    }

    method ReadTextsAndWifiCredentials(frame: Frame, random: nat -> int, from: nat, ghost late: seq<Link>,
                                       ghost allTexts: seq<Text>, ghost allWifis: seq<Wifi>)
      returns (refusal: Option<Refusal>, texts: seq<Text>, wifis: seq<Wifi>, ghost written: seq<Link>)
      requires late == LateEntries(frame) && allTexts == TextAttachments(frame.texts, |frame.texts|, random, from)
      requires allWifis == WifiAttachments(frame.wifis, |frame.wifis|, random, from + |allTexts|)
      modifies this`payloadIds
      ensures refusal.None? <==> TextsPositive(frame)
      ensures refusal.Some? ==> TextsStop(frame.texts, |written|)
      ensures refusal.Some? ==> refusal == Some(UnsupportedAttachmentType)
      ensures refusal.None? ==> texts == allTexts && wifis == allWifis && written == late
      ensures written <= late && payloadIds == Assign(old(payloadIds), written)
    {
      ghost var n;
      wifis := [];
      refusal, texts, n := ReadTexts(frame.texts, random, from);
      written := TextEntries(frame.texts, n);
      TextEntriesPrefix(frame.texts, n, |frame.texts|);
      PrefixOfFirst(written, TextEntries(frame.texts, |frame.texts|), WifiEntries(frame.wifis, |frame.wifis|));
      if refusal.None? {
        wifis := ReadWifiCredentials(frame.wifis, random, from + |texts|);
        AssignConcat(old(payloadIds), written, WifiEntries(frame.wifis, |frame.wifis|));
        written := written + WifiEntries(frame.wifis, |frame.wifis|);
      }
    }

    // The loops over files and over apps.
    method ReadAllFiles(frame: Frame, random: nat -> int, ghost early: seq<Link>, ghost whole: seq<File>)
      returns (refusal: Option<Refusal>, files: seq<File>, ghost written: seq<Link>, ghost stop: Stop)
      requires early == AllFileEntries(frame, random) && whole == AllFileAttachments(frame, random)
      modifies this`payloadIds
      ensures refusal.None? <==> FilesFit(frame)
      ensures refusal == Some(NotEnoughSpace) <==> Overflows(frame)
      ensures refusal.None? ==> files == whole && written == early
      ensures refusal.Some? ==> Stops(frame, refusal, stop) && |written| == EntriesRead(frame, stop)
      ensures written <= early && payloadIds == Assign(old(payloadIds), written)
    {
      var sum, appFiles;
      ghost var n, at;
      ghost var apps := AppFiles(frame.apps);
      refusal, files, sum, n, at := ReadFiles(frame.files, random);
      stop := AtFile(at);
      written := FileEntries(frame.files, n);
      FileEntriesPrefix(frame.files, n, |frame.files|);
      PrefixOfFirst(written, FileEntries(frame.files, |frame.files|), AppEntries(apps, |apps|, random, |frame.files|));
      if refusal.None? {
        ghost var more, i, j;
        refusal, appFiles, more, i, j := ReadApps(frame.apps, random, |frame.files|, sum);
        stop := AtApp(i, j);
        AssignConcat(old(payloadIds), written, more);
        PrefixOfSecond(written, more, AppEntries(apps, |apps|, random, |frame.files|));
        written := written + more;
        files := files + appFiles;
      }
    }

    method ReadFiles(rows: seq<FileMetadata>, random: nat -> int)
      returns (refusal: Option<Refusal>, files: seq<File>, sum: int, ghost n: nat, ghost at: nat)
      modifies this`payloadIds
      ensures refusal.None? <==> Positive(rows) && FileSum(rows) <= INT64_MAX
      ensures refusal == Some(NotEnoughSpace) <==> SomeFileOverflows(rows)
      ensures n <= |rows| && (refusal.None? ==> n == |rows| && sum == FileSum(rows))
      ensures refusal.Some? ==> FilesStop(rows, refusal, at) && n == if rows[at].size > 0 then at + 1 else at
      ensures files == FileAttachments(rows, n, random) && payloadIds == Assign(old(payloadIds), FileEntries(rows, n))
    {
      var i := 0;
      sum, files, n, at := 0, [], 0, 0;
      while i < |rows|
        invariant 0 <= i == n <= |rows| && files == FileAttachments(rows, i, random)
        invariant sum == FileSum(rows[..i]) && FilesInOrder(rows, i)
        invariant payloadIds == Assign(old(payloadIds), FileEntries(rows, i))
      {
        var row := rows[i];
        FileSumNext(rows, i);
        if row.size <= 0 {
          FileRefusedAt(rows, i);
          return Some(UnsupportedAttachmentType), files, sum, n, i;
        }
        files := files + [NewFile(row, random(i))];
        FileRowNext(rows, i, random, old(payloadIds));
        payloadIds := payloadIds[row.id := row.payloadId];
        n := n + 1;
        if INT64_MAX - row.size < sum {
          FileRefusedAt(rows, i);
          return Some(NotEnoughSpace), files, sum, n, i;
        }
        FileStaysInOrder(rows, i);
        sum := sum + row.size;
        i := i + 1;
      }
      assert rows[..i] == rows;
      refusal := None;
    }

    // The files of apps join the file attachments; the sum counts what the apps declare.
    method ReadApps(apps: seq<AppMetadata>, random: nat -> int, from: nat, start: int)
      returns (refusal: Option<Refusal>, files: seq<File>, ghost written: seq<Link>, ghost i: nat, ghost j: nat)
      requires start <= INT64_MAX
      modifies this`payloadIds
      ensures refusal.None? <==> AppsFit(start, apps)
      ensures refusal == Some(NotEnoughSpace) <==> SomeAppOverflows(start, apps)
      ensures refusal.Some? ==> AppsStop(start, apps, refusal, i, j) && |written| == |AppFiles(apps[..i])| + j
      ensures var all := AppFiles(apps);
              && (refusal.None? ==>
                    && files == AppAttachments(all, |all|, random, from)
                    && written == AppEntries(all, |all|, random, from))
              && written <= AppEntries(all, |all|, random, from)
      ensures payloadIds == Assign(old(payloadIds), written)
    {
      ghost var all := AppFiles(apps);
      refusal, files, written, i, j := LoopOverApps(apps, random, from, start, AppEntries(all, |all|, random, from));
    }

    method LoopOverApps(apps: seq<AppMetadata>, random: nat -> int, from: nat, start: int, ghost all: seq<Link>)
      returns (refusal: Option<Refusal>, files: seq<File>, ghost written: seq<Link>, ghost at: nat, ghost j: nat)
      requires start <= INT64_MAX && all == AppEntries(AppFiles(apps), |AppFiles(apps)|, random, from)
      modifies this`payloadIds
      ensures refusal.None? <==> AppsFit(start, apps)
      ensures refusal == Some(NotEnoughSpace) <==> SomeAppOverflows(start, apps)
      ensures refusal.None? ==> files == AppAttachments(AppFiles(apps), |AppFiles(apps)|, random, from)
      ensures refusal.Some? ==> AppsStop(start, apps, refusal, at, j) && |written| == |AppFiles(apps[..at])| + j
      ensures written <= all && (refusal.None? ==> written == all) && payloadIds == Assign(old(payloadIds), written)
    {
      at, j := 0, 0;
      var i, sum := 0, start;
      ghost var taken := [];
      files, refusal := [], None;
      NothingTaken(apps, start, random, from, payloadIds);
      while i < |apps|
        invariant Taken(apps, i, start, sum, taken) && refusal.None?
        invariant files == AppAttachments(taken, |taken|, random, from)
        invariant payloadIds == Assign(old(payloadIds), AppEntries(taken, |taken|, random, from))
      {
        refusal, files, written, j :=
          TakeNextApp(apps, i, random, from, start, sum, files, old(payloadIds), taken, all);
        if refusal.Some? {
          return refusal, files, written, i, j;
        }
        taken := taken + FilesOf(apps[i]);
        sum := sum + apps[i].size;
        i := i + 1;
      }
      AllInOrder(start, apps);
      written := all;
    }

    // The i-th app after the files `taken`; `before` is the map before them.
    method TakeNextApp(apps: seq<AppMetadata>, i: nat, random: nat -> int, from: nat, ghost start: int, sum: int,
                       done: seq<File>, ghost before: map<int, int>, ghost taken: seq<AppFile>, ghost all: seq<Link>)
      returns (refusal: Option<Refusal>, files: seq<File>, ghost written: seq<Link>, ghost j: nat)
      requires i < |apps| && Taken(apps, i, start, sum, taken)
      requires all == AppEntries(AppFiles(apps), |AppFiles(apps)|, random, from)
      requires done == AppAttachments(taken, |taken|, random, from)
      requires payloadIds == Assign(before, AppEntries(taken, |taken|, random, from))
      modifies this`payloadIds
      ensures refusal.None? ==> Taken(apps, i + 1, start, sum + apps[i].size, taken + FilesOf(apps[i]))
      ensures refusal.Some? ==> !AppsFit(start, apps)
      ensures refusal.Some? ==> (refusal == Some(NotEnoughSpace) <==> SomeAppOverflows(start, apps))
      ensures refusal.Some? ==> written <= all && payloadIds == Assign(before, written)
      ensures refusal.Some? ==> AppsStop(start, apps, refusal, i, j) && |written| == |taken| + j
      ensures var more := taken + FilesOf(apps[i]);
              refusal.None? ==>
                && files == AppAttachments(more, |more|, random, from)
                && payloadIds == Assign(before, AppEntries(more, |more|, random, from))
    {
      ghost var last;
      ghost var next := AppEntries(FilesOf(apps[i]), |FilesOf(apps[i])|, random, from + |taken|);
      refusal, files, last, j := AppendApp(apps[i], random, from, sum, done, before, taken, next);
      AppVerdict(start, apps, i, sum);
      AppFilesNext(apps, i);
      AppEntriesFirst(apps, i, taken, next, last, all, random, from);
      written := AppEntries(taken, |taken|, random, from) + last;
    }

    method AppendApp(app: AppMetadata, random: nat -> int, from: nat, sum: int,
                     done: seq<File>, ghost before: map<int, int>, ghost taken: seq<AppFile>, ghost most: seq<Link>)
      returns (refusal: Option<Refusal>, files: seq<File>, ghost last: seq<Link>, ghost j: nat)
      requires most == AppEntries(FilesOf(app), |FilesOf(app)|, random, from + |taken|)
      requires sum <= INT64_MAX && done == AppAttachments(taken, |taken|, random, from)
      requires payloadIds == Assign(before, AppEntries(taken, |taken|, random, from))
      modifies this`payloadIds
      ensures refusal.None? <==> AppOk(app) && sum + app.size <= INT64_MAX
      ensures refusal == Some(NotEnoughSpace) <==> app.size > 0 && sum + app.size > INT64_MAX
      ensures last <= most && (refusal.Some? ==> AppStops(app, sum, refusal, j) && |last| == j)
      ensures var all := taken + FilesOf(app);
              refusal.None? ==>
                && files == AppAttachments(all, |all|, random, from)
                && payloadIds == Assign(before, AppEntries(all, |all|, random, from))
      ensures payloadIds == Assign(before, AppEntries(taken, |taken|, random, from) + last)
    {
      var at := from + |done|;
      refusal, files, last, j := TakeApp(app, random, at, sum);
      AssignConcat(before, AppEntries(taken, |taken|, random, from), last);
      TakenBoth(taken, FilesOf(app), random, from);
      files := done + files;
    }

    method TakeApp(app: AppMetadata, random: nat -> int, from: nat, sum: int)
      returns (refusal: Option<Refusal>, files: seq<File>, ghost written: seq<Link>, ghost j: nat)
      requires sum <= INT64_MAX
      modifies this`payloadIds
      ensures refusal.None? <==> AppOk(app) && sum + app.size <= INT64_MAX
      ensures refusal == Some(NotEnoughSpace) <==> app.size > 0 && sum + app.size > INT64_MAX
      ensures refusal.Some? ==> AppStops(app, sum, refusal, j) && |written| == j
      ensures var all := FilesOf(app);
              && (refusal.None? ==>
                    && files == AppAttachments(all, |all|, random, from)
                    && written == AppEntries(all, |all|, random, from))
              && written <= AppEntries(all, |all|, random, from)
      ensures payloadIds == Assign(old(payloadIds), written)
    {
      files, written, j := [], [], 0;
      if app.size <= 0 {
        return Some(UnsupportedAttachmentType), files, written, j;
      }
      if INT64_MAX - app.size < sum {
        return Some(NotEnoughSpace), files, written, j;
      }
      if !Matching(app) {
        return Some(UnsupportedAttachmentType), files, written, j;
      }
      var ok;
      ok, files, j := ReadApp(app, FilesOf(app), random, from);
      written := AppEntries(FilesOf(app), j, random, from);
      AppEntriesPrefix(FilesOf(app), j, |FilesOf(app)|, random, from);
      refusal := if ok then None else Some(UnsupportedAttachmentType);
    }

    // One app's files, `all`, up to the first without a positive size, the n-th.
    method ReadApp(app: AppMetadata, ghost all: seq<AppFile>, random: nat -> int, from: nat)
      returns (ok: bool, files: seq<File>, ghost n: nat)
      requires Matching(app) && all == FirstFilesOf(app, |app.fileNames|)
      modifies this`payloadIds
      ensures ok <==> forall i :: 0 <= i < |app.fileSizes| ==> app.fileSizes[i] > 0
      ensures n <= |all| && (if ok then n == |all| else FirstUnsizedFile(app, n))
      ensures files == AppAttachments(all, n, random, from)
      ensures payloadIds == Assign(old(payloadIds), AppEntries(all, n, random, from))
    {
      var index := 0;
      files := [];
      while index < |app.fileNames|
        invariant 0 <= index <= |app.fileNames| == |all|
        invariant files == AppAttachments(all, index, random, from)
        invariant forall i :: 0 <= i < index ==> app.fileSizes[i] > 0
        invariant payloadIds == Assign(old(payloadIds), AppEntries(all, index, random, from))
      {
        if app.fileSizes[index] <= 0 {
          return false, files, index;
        }
        FirstFilesPrefix(app, index + 1, |app.fileNames|);
        var apkFile := File(NewId(0, random(from + index)), app.fileNames[index], "", ANDROID_APP, "",
                            app.fileSizes[index], None);
        AppFileNext(all, index, random, from, old(payloadIds));
        files := files + [apkFile];
        payloadIds := payloadIds[apkFile.id := app.payloadIds[index]];
        index := index + 1;
      }
      return true, files, index;
    }

    method ReadTexts(rows: seq<TextMetadata>, random: nat -> int, from: nat)
      returns (refusal: Option<Refusal>, texts: seq<Text>, ghost n: nat)
      modifies this`payloadIds
      ensures refusal.None? <==> forall i :: 0 <= i < |rows| ==> rows[i].size > 0
      ensures refusal.Some? ==> refusal == Some(UnsupportedAttachmentType)
      ensures n <= |rows| && (if refusal.None? then n == |rows| else TextsStop(rows, n))
      ensures texts == TextAttachments(rows, n, random, from)
      ensures payloadIds == Assign(old(payloadIds), TextEntries(rows, n))
    {
      var i := 0;
      texts := [];
      while i < |rows|
        invariant 0 <= i <= |rows| && texts == TextAttachments(rows, i, random, from)
        invariant forall k :: 0 <= k < i ==> rows[k].size > 0
        invariant payloadIds == Assign(old(payloadIds), TextEntries(rows, i))
      {
        var row := rows[i];
        if row.size <= 0 {
          return Some(UnsupportedAttachmentType), texts, i;
        }
        texts := texts + [NewText(row, random(from + i))];
        TextRowNext(rows, i, random, from, old(payloadIds));
        payloadIds := payloadIds[row.id := row.payloadId];
        i := i + 1;
      }
      return None, texts, i;
    }

    method ReadWifiCredentials(rows: seq<WifiMetadata>, random: nat -> int, from: nat) returns (wifis: seq<Wifi>)
      modifies this`payloadIds
      ensures wifis == WifiAttachments(rows, |rows|, random, from)
      ensures payloadIds == Assign(old(payloadIds), WifiEntries(rows, |rows|))
    {
      var i := 0;
      wifis := [];
      while i < |rows|
        invariant 0 <= i <= |rows| && wifis == WifiAttachments(rows, i, random, from)
        invariant payloadIds == Assign(old(payloadIds), WifiEntries(rows, i))
      {
        var row := rows[i];
        wifis := wifis + [NewWifi(row, random(from + i))];
        WifiRowNext(rows, i, random, from, old(payloadIds));
        payloadIds := payloadIds[row.id := row.payloadId];
        i := i + 1;
      }
    }
  }

  lemma {:induction false} AppEntriesPrefix(files: seq<AppFile>, n: nat, m: nat, random: nat -> int, from: nat)
    requires n <= m <= |files|
    ensures AppEntries(files, n, random, from) <= AppEntries(files, m, random, from)
  {
    if n < m {
      AppEntriesPrefix(files, n, m - 1, random, from);
    }
  }

  // The files of all apps are those of the first i, those of the next, and the rest.
  lemma AppFilesSplit(apps: seq<AppMetadata>, i: nat) returns (rest: seq<AppFile>)
    requires i < |apps|
    ensures AppFiles(apps) == AppFiles(apps[..i]) + (FilesOf(apps[i]) + rest)
  {
    AppFilesNext(apps, i);
    AppFilesPrefix(apps, i + 1);
    rest := RestOf(AppFiles(apps[..i]), FilesOf(apps[i]), AppFiles(apps));
  }

  lemma RestOf(a: seq<AppFile>, b: seq<AppFile>, all: seq<AppFile>) returns (rest: seq<AppFile>)
    requires a + b <= all
    ensures all == a + (b + rest)
  {
    rest := all[|a + b|..];
  }

  // What has been written of the next app comes right after the entries of the first i.
  lemma AppEntriesFirst(apps: seq<AppMetadata>, i: nat, taken: seq<AppFile>, next: seq<Link>, last: seq<Link>,
                        all: seq<Link>, random: nat -> int, from: nat)
    requires i < |apps| && taken == AppFiles(apps[..i]) && last <= next
    requires next == AppEntries(FilesOf(apps[i]), |FilesOf(apps[i])|, random, from + |taken|)
    requires all == AppEntries(AppFiles(apps), |AppFiles(apps)|, random, from)
    ensures AppEntries(taken, |taken|, random, from) + last <= all
  {
    var rest := AppFilesSplit(apps, i);
    FirstEntries(AppFiles(apps[..i]), FilesOf(apps[i]), rest, last, random, from);
  }

  lemma FirstEntries(done: seq<AppFile>, next: seq<AppFile>, rest: seq<AppFile>, last: seq<Link>, random: nat -> int,
                     from: nat)
    requires last <= AppEntries(next, |next|, random, from + |done|)
    ensures var all := done + (next + rest);
            AppEntries(done, |done|, random, from) + last <= AppEntries(all, |all|, random, from)
  {
    var late := next + rest;
    TakenBoth(done, late, random, from);
    TakenBoth(next, rest, random, from + |done|);
    PrefixOfFirst(last, AppEntries(next, |next|, random, from + |done|),
                  AppEntries(rest, |rest|, random, from + |done| + |next|));
    PrefixOfSecond(AppEntries(done, |done|, random, from), last, AppEntries(late, |late|, random, from + |done|));
  }

  // The rows one by one -----------------------------------------------------------------------

  lemma {:induction false} FileRows(rows: seq<FileMetadata>, n: nat, random: nat -> int)
    requires n <= |rows|
    ensures forall i :: 0 <= i < n ==> FileAttachments(rows, n, random)[i] == NewFile(rows[i], random(i))
    ensures forall i :: 0 <= i < n ==> FileEntries(rows, n)[i] == Link(rows[i].id, rows[i].payloadId)
  {
    if n > 0 {
      FileRows(rows, n - 1, random);
    }
  }

  lemma {:induction false} TextRows(rows: seq<TextMetadata>, n: nat, random: nat -> int, from: nat)
    requires n <= |rows|
    ensures forall i :: 0 <= i < n ==> TextAttachments(rows, n, random, from)[i] == NewText(rows[i], random(from + i))
    ensures forall i :: 0 <= i < n ==> TextEntries(rows, n)[i] == Link(rows[i].id, rows[i].payloadId)
  {
    if n > 0 {
      TextRows(rows, n - 1, random, from);
    }
  }

  lemma {:induction false} WifiRows(rows: seq<WifiMetadata>, n: nat, random: nat -> int, from: nat)
    requires n <= |rows|
    ensures forall i :: 0 <= i < n ==> WifiAttachments(rows, n, random, from)[i] == NewWifi(rows[i], random(from + i))
    ensures forall i :: 0 <= i < n ==> WifiEntries(rows, n)[i] == Link(rows[i].id, rows[i].payloadId)
  {
    if n > 0 {
      WifiRows(rows, n - 1, random, from);
    }
  }

  lemma {:induction false} AppRows(files: seq<AppFile>, n: nat, random: nat -> int, from: nat)
    requires n <= |files|
    ensures forall i :: 0 <= i < n ==>
      AppEntries(files, n, random, from)[i] == Link(random(from + i), files[i].payloadId)
    ensures forall i :: 0 <= i < n ==>
      AppAttachments(files, n, random, from)[i]
      == File(random(from + i), files[i].name, "", ANDROID_APP, "", files[i].size, None)
  {
    if n > 0 {
      AppRows(files, n - 1, random, from);
    }
  }

  lemma {:induction false} FirstFilesAre(app: AppMetadata, n: nat)
    requires Matching(app) && n <= |app.fileNames|
    ensures forall j :: 0 <= j < n ==>
      FirstFilesOf(app, n)[j] == AppFile(app.fileNames[j], app.fileSizes[j], app.payloadIds[j])
  {
    if n > 0 {
      FirstFilesAre(app, n - 1);
    }
  }

  // Where the files of the i-th app are among those of all apps.
  lemma {:induction false} AppFilesAt(apps: seq<AppMetadata>, i: nat)
    requires i < |apps|
    ensures var (before, own) := (AppFiles(apps[..i]), FilesOf(apps[i]));
            before + own <= AppFiles(apps)
    decreases |apps|
  {
    if i == |apps| - 1 {
      assert apps[..i] == Init(apps);
    } else {
      AppFilesAt(Init(apps), i);
      assert Init(apps)[..i] == apps[..i];
    }
  }

  lemma AppFileAt(files: seq<AppFile>, at: nat, f: AppFile, random: nat -> int, frame: Frame)
    requires files == AppFiles(frame.apps) && at < |files| && files[at] == f
    ensures var n := |frame.files| + at;
            && n < |AllFileEntries(frame, random)| == |AllFileAttachments(frame, random)|
            && AllFileEntries(frame, random)[n] == Link(random(n), f.payloadId)
            && AllFileAttachments(frame, random)[n] == File(random(n), f.name, "", 3, "", f.size, None)
  {
    AppRows(files, |files|, random, |frame.files|);
  }

  // Every file of an app is rebuilt from its own name and size, under a random id that is mapped to
  // its own payload, after the files of the frame and of the apps before it.
  lemma EveryAppFile(frame: Frame, random: nat -> int, i: nat, j: nat)
    requires i < |frame.apps| && Matching(frame.apps[i]) && j < |frame.apps[i].fileNames|
    ensures var (app, at) := (frame.apps[i], |frame.files| + (|AppFiles(frame.apps[..i])| + j));
            && at < |AllFileEntries(frame, random)| == |AllFileAttachments(frame, random)|
            && AllFileEntries(frame, random)[at] == Link(random(at), app.payloadIds[j])
            && AllFileAttachments(frame, random)[at]
            == File(random(at), app.fileNames[j], "", 3, "", app.fileSizes[j], None)
  {
    var app, files, before := frame.apps[i], AppFiles(frame.apps), |AppFiles(frame.apps[..i])|;
    AppFilesAt(frame.apps, i);
    FirstFilesAre(app, |app.fileNames|);
    assert files[before..before + |app.fileNames|][j] == files[before + j];
    AppFileAt(files, before + j, AppFile(app.fileNames[j], app.fileSizes[j], app.payloadIds[j]), random, frame);
  }

  // Every other row is rebuilt from its own fields, under its id unless that is 0.
  lemma EveryFileRow(frame: Frame, random: nat -> int)
    ensures var (files, rows) := (Rebuild(frame, random).files, frame.files);
            && |files| == |rows| + |AppFiles(frame.apps)|
            && forall i :: 0 <= i < |rows| ==>
                 files[i] == File(if rows[i].id == 0 then random(i) else rows[i].id, rows[i].name, rows[i].mime,
                                  rows[i].kind, rows[i].folder, rows[i].size, None)
  {
    FileRows(frame.files, |frame.files|, random);
  }

  lemma EveryTextRow(frame: Frame, random: nat -> int)
    ensures var (all, rows) := (Rebuild(frame, random), frame.texts);
            && |all.texts| == |rows|
            && forall i :: 0 <= i < |rows| ==>
                 all.texts[i] == Text(if rows[i].id == 0 then random(|all.files| + i) else rows[i].id, rows[i].kind,
                                      rows[i].title, rows[i].size, "")
  {
    TextRows(frame.texts, |frame.texts|, random, |Rebuild(frame, random).files|);
  }

  lemma EveryWifiRow(frame: Frame, random: nat -> int)
    ensures var (all, rows) := (Rebuild(frame, random), frame.wifis);
            && |all.wifis| == |rows|
            && forall i :: 0 <= i < |rows| ==>
                 all.wifis[i] == Wifi(if rows[i].id == 0 then random(|all.files| + |all.texts| + i) else rows[i].id,
                                      rows[i].ssid, rows[i].security, "", false)
  {
    var all := Rebuild(frame, random);
    WifiRows(frame.wifis, |frame.wifis|, random, |all.files| + |all.texts|);
  }
}
