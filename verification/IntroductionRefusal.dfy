/**
 What a refused introduction leaves behind in the receiver's map.
 */
module IntroductionRefusal {
  import opened Wrappers
  import opened Introduction
  import opened IntroductionReceiver

  // A frame stops the reading at one row only, and for one reason.
  lemma StopIsUnique(frame: Frame, r1: Option<Refusal>, s1: Stop, r2: Option<Refusal>, s2: Stop)
    requires Stops(frame, r1, s1) && Stops(frame, r2, s2)
    ensures r1 == r2 && s1 == s2
  {
    match (s1, s2)
    case (AtFile(i), AtFile(k)) => OneFileStops(frame.files, r1, i, r2, k);
    case (AtFile(i), _) => FileRefusedAt(frame.files, i);
    case (_, AtFile(k)) => FileRefusedAt(frame.files, k);
    case (AtApp(i, j), AtApp(k, l)) => OneAppStops(FileSum(frame.files), frame.apps, r1, i, j, r2, k, l);
    case (AtApp(i, j), _) => StoppedAppsDoNotFit(FileSum(frame.files), frame.apps, r1, i, j);
    case (_, AtApp(k, l)) => StoppedAppsDoNotFit(FileSum(frame.files), frame.apps, r2, k, l);
    case (AtText(i), AtText(k)) =>
      assert frame.texts[i].size <= 0 && frame.texts[k].size <= 0;
    case _ =>
  }

  lemma OneFileStops(files: seq<FileMetadata>, r1: Option<Refusal>, i: nat, r2: Option<Refusal>, k: nat)
    requires FilesStop(files, r1, i) && FilesStop(files, r2, k)
    ensures r1 == r2 && i == k
  {
    if i < k {
      FileInOrder(files, i, k);
    } else if k < i {
      FileInOrder(files, k, i);
    }
  }

  // A file before the i-th, all of them in order, does not stop the reading.
  lemma FileInOrder(files: seq<FileMetadata>, k: nat, i: nat)
    requires k < i <= |files| && FilesInOrder(files, i)
    ensures files[k].size > 0 && FileSum(files[..k + 1]) <= INT64_MAX
  {
    assert files[..i][k] == files[k];
    FileSumsGrow(files[..i], k + 1);
    assert files[..i][..k + 1] == files[..k + 1];
  }

  lemma OneAppStops(start: int, apps: seq<AppMetadata>, r1: Option<Refusal>, i: nat, j: nat, r2: Option<Refusal>,
                    k: nat, l: nat)
    requires AppsStop(start, apps, r1, i, j) && AppsStop(start, apps, r2, k, l)
    ensures r1 == r2 && i == k && j == l
  {
    if i < k {
      AppInOrder(start, apps, i, k);
    } else if k < i {
      AppInOrder(start, apps, k, i);
    }
  }

  lemma AppInOrder(start: int, apps: seq<AppMetadata>, k: nat, i: nat)
    requires k < i <= |apps| && InOrder(start, apps, i)
    ensures AppOk(apps[k]) && start + AppSum(apps[..k]) + apps[k].size <= INT64_MAX && InOrder(start, apps, k)
  {
    assert apps[..i][k] == apps[k];
    AppSumsGrow(apps[..i], k + 1);
    AppSumNext(apps, k);
    assert apps[..i][..k + 1] == apps[..k + 1];
    assert forall m :: 0 <= m < k ==> apps[..k][m] == apps[..i][m];
  }

  lemma StoppedAppsDoNotFit(start: int, apps: seq<AppMetadata>, refusal: Option<Refusal>, i: nat, j: nat)
    requires AppsStop(start, apps, refusal, i, j)
    ensures !AppsFit(start, apps)
  {
    AppSumNext(apps, i);
    RefusedAt(start, apps, i);
  }

  // The i-th app is read, and so is its first file.
  ghost predicate AppTaken(apps: seq<AppMetadata>, i: nat) {
    && i < |apps| && InOrder(0, apps, i)
    && apps[i].size > 0 && AppSum(apps[..i]) + apps[i].size <= INT64_MAX
    && Matching(apps[i]) && apps[i].fileSizes != [] && apps[i].fileSizes[0] > 0
  }

  ghost predicate SomeAppTaken(apps: seq<AppMetadata>) {
    exists k: nat :: AppTaken(apps, k)
  }

  // The first row that comes with an entry is read: a file; or, without files, the first file of
  // an app; or, without those, a text.
  ghost predicate FirstRowTaken(frame: Frame) {
    if frame.files != [] then frame.files[0].size > 0
    else
      || SomeAppTaken(frame.apps)
      || (AppsFit(0, frame.apps) && frame.texts != [] && frame.texts[0].size > 0)
  }

  lemma {:induction false} FirstTakenApp(apps: seq<AppMetadata>, n: nat) returns (k: nat)
    requires n <= |apps| && InOrder(0, apps, n) && AppFiles(apps[..n]) != []
    ensures k < n && AppTaken(apps, k)
  {
    AppInOrder(0, apps, n - 1, n);
    AppFilesNext(apps, n - 1);
    if FilesOf(apps[n - 1]) != [] {
      k := n - 1;
    } else {
      k := FirstTakenApp(apps, n - 1);
    }
  }

  lemma TakenHasFiles(apps: seq<AppMetadata>, k: nat, n: nat)
    requires k < n <= |apps| && AppTaken(apps, k)
    ensures AppFiles(apps[..n]) != []
  {
    AppFilesNext(apps, k);
    AppFilesPrefix(apps[..n], k + 1);
    assert apps[..n][..k + 1] == apps[..k + 1];
  }

  // Past the app that stops the reading no app is taken; that app is if a file of it was read.
  lemma TakenIffFilesRead(apps: seq<AppMetadata>, refusal: Option<Refusal>, i: nat, j: nat)
    requires AppsStop(0, apps, refusal, i, j)
    ensures |AppFiles(apps[..i])| + j > 0 <==> SomeAppTaken(apps)
  {
    if k: nat :| AppTaken(apps, k) {
      if k < i {
        TakenHasFiles(apps, k, i);
      } else if k > i {
        AppInOrder(0, apps, i, k);
      }
    }
    if j > 0 {
      assert AppTaken(apps, i);
    } else if AppFiles(apps[..i]) != [] {
      var k := FirstTakenApp(apps, i);
    }
  }

  lemma AllAppsTakenIff(apps: seq<AppMetadata>)
    requires AppsFit(0, apps)
    ensures AppFiles(apps) != [] <==> SomeAppTaken(apps)
  {
    FitMeansInOrder(apps);
    if k: nat :| AppTaken(apps, k) {
      TakenHasFiles(apps, k, |apps|);
    }
    if AppFiles(apps) != [] {
      var k := FirstTakenApp(apps, |apps|);
    }
  }

  lemma NoFileIsTooLong(files: seq<FileMetadata>, refusal: Option<Refusal>, i: nat)
    requires FilesStop(files, refusal, i)
    ensures files[0].size > 0 <==> i > 0
  {
    if i > 0 {
      FileInOrder(files, 0, i);
    } else {
      FileSumNext(files, 0);
    }
  }

  // The rows before the stop have their entries, and of the row itself only a file that overflows.
  lemma EntriesUpTo(frame: Frame, refusal: Option<Refusal>, stop: Stop)
    requires Stops(frame, refusal, stop)
    ensures EntriesRead(frame, stop) ==
      match stop
      case AtFile(i) => if refusal == Some(NotEnoughSpace) then i + 1 else i
      case AtApp(i, j) => |frame.files| + |AppFiles(frame.apps[..i])| + j
      case AtText(i) => |frame.files| + |AppFiles(frame.apps)| + i
      case AtEnd => |frame.files| + |AppFiles(frame.apps)| + |frame.texts| + |frame.wifis|
  {
  }

  // A refusal leaves entries if and only if the first row that comes with one is read.
  lemma EntriesReadIff(frame: Frame, refusal: Option<Refusal>, stop: Stop)
    requires Stops(frame, refusal, stop) && refusal.Some?
    ensures EntriesRead(frame, stop) > 0 <==> FirstRowTaken(frame)
  {
    match stop
    case AtFile(i) => NoFileIsTooLong(frame.files, refusal, i);
    case AtApp(i, j) =>
      if frame.files == [] {
        TakenIffFilesRead(frame.apps, refusal, i, j);
        StoppedAppsDoNotFit(0, frame.apps, refusal, i, j);
      }
    case _ =>
      if frame.files == [] {
        AllAppsTakenIff(frame.apps);
      }
  }

  lemma FitMeansInOrder(apps: seq<AppMetadata>)
    requires AppsFit(0, apps)
    ensures InOrder(0, apps, |apps|) && apps[..|apps|] == apps
  {
    assert apps[..|apps|] == apps;
    forall k: nat | k < |apps|
      ensures !AppsOverflow(0, apps, k)
    {
      AppSumsGrow(apps, k + 1);
    }
  }

  // A fresh session's map is empty after a refusal if and only if that row is not read.
  lemma RefusalLeavesMapEmptyIff(frame: Frame, refusal: Option<Refusal>, stop: Stop, written: seq<Link>)
    requires Stops(frame, refusal, stop) && refusal.Some? && |written| == EntriesRead(frame, stop)
    ensures Assign(map[], written) == map[] <==> !FirstRowTaken(frame)
  {
    EntriesReadIff(frame, refusal, stop);
    if written != [] {
      assert Last(written).attachment in Assign(map[], written);
    }
  }

  lemma StopsAtSecondFile(first: FileMetadata, second: FileMetadata, frame: Frame)
    requires first.size == 5 && second.size == 0 && frame == Frame([first, second], [], [], [])
    ensures Stops(frame, Some(UnsupportedAttachmentType), AtFile(1))
  {
    assert frame.files[..1] == [first] && Init([first]) == [];
    forall k: nat | k < 1
      ensures !FilesOverflow(frame.files, k)
    {
      assert frame.files[..k + 1] == [first] && FileSum([first]) == FileSum([]) + 5;
    }
  }

  lemma FirstEntry(frame: Frame, random: nat -> int)
    requires frame.files != []
    ensures |Entries(frame, random)| > 0
    ensures Entries(frame, random)[0] == Link(frame.files[0].id, frame.files[0].payloadId)
  {
    FileRows(frame.files, |frame.files|, random);
  }

  // A file of size 5 and then one of size 0: the introduction is refused, and the first file
  // stays in the map.
  method FirstFileStays(receiver: IncomingShareSession, first: FileMetadata, second: FileMetadata, random: nat -> int)
    returns (refusal: Option<Refusal>)
    requires receiver.payloadIds == map[] && first.size == 5 && second.size == 0
    modifies receiver
    ensures refusal == Some(UnsupportedAttachmentType) && receiver.attachments == old(receiver.attachments)
    ensures receiver.payloadIds == map[first.id := first.payloadId]
  {
    ghost var written, stop;
    var frame := Frame([first, second], [], [], []);
    refusal, written, stop := receiver.ProcessIntroduction(frame, random);
    StopsAtSecondFile(first, second, frame);
    StopIsUnique(frame, refusal, stop, Some(UnsupportedAttachmentType), AtFile(1));
    FirstEntry(frame, random);
    assert written == [Entries(frame, random)[0]];
    assert Init(written) == [];
  }
}
