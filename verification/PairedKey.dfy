/**
 The paired-key handshake (paired_key_verification_runner.cc): each side sends an encryption
 frame, judges the peer's, sends its judgement and combines it with the peer's judgement.
 Certificates, signatures and hashes are left abstract: a certificate is the set of
 signatures it verifies, and private certificates are a table of hashes by visibility.
 */
module PairedKey {
  import opened Wrappers

  datatype Verdict = Success | Unable | Fail

  datatype Visibility = Unspecified | AllContacts | SelectedContacts | Everyone | SelfShare | Hidden

  datatype Certificate = Certificate(verifies: set<int>)

  datatype Status = UnknownStatus | SuccessStatus | FailStatus | UnableStatus

  datatype Frame =
    | Encryption(secretIdHash: int, signedData: int, optionalSignedData: Option<int>)
    | Result(status: Status)

  // What a side knows before it starts. `recentlyUpdated` is IsVisibilityRecentlyUpdated;
  // `encryption` is the frame that SendPairedKeyEncryptionFrame builds.
  datatype Setup = Setup(
    incoming: bool, visibility: Visibility, lastVisibility: Visibility, recentlyUpdated: bool,
    screenLocked: bool, hashes: map<Visibility, int>, certificate: Option<Certificate>, encryption: Frame)

  // Success > Unable > Fail.
  function Min(a: Verdict, b: Verdict): Verdict {
    if a.Fail? || b.Fail? then Fail else if a.Unable? || b.Unable? then Unable else Success
  }

  function Convert(status: Status): Verdict {
    match status
    case SuccessStatus => Success
    case FailStatus => Fail
    case UnknownStatus => Unable
    case UnableStatus => Unable
  }

  function StatusOf(v: Verdict): (s: Status)
    ensures Convert(s) == v
  {
    match v
    case Success => SuccessStatus
    case Unable => UnableStatus
    case Fail => FailStatus
  }

  function VisibilitiesToCheck(s: Setup): seq<Visibility> {
    (if s.screenLocked then [SelfShare] else []) + [s.visibility]
      + (if s.recentlyUpdated then [s.lastVisibility] else [])
  }

  predicate HashMatches(s: Setup, frame: Frame)
    requires frame.Encryption?
  {
    exists v :: v in VisibilitiesToCheck(s) && v in s.hashes && s.hashes[v] == frame.secretIdHash
  }

  // The judgement of the peer's knowledge of our certificate.
  function HashVerdict(s: Setup, frame: Frame): Verdict
    requires frame.Encryption?
  {
    if HashMatches(s, frame) then Success
    else if s.incoming && !s.visibility.Everyone? then Fail
    else Unable
  }

  // The judgement of the peer's signature.
  function SignatureVerdict(s: Setup, frame: Frame): Verdict
    requires frame.Encryption?
  {
    if s.certificate.None? then Unable
    else if frame.signedData in s.certificate.value.verifies then Success
    else if frame.optionalSignedData.Some? && frame.optionalSignedData.value in s.certificate.value.verifies
    then Success
    else Fail
  }

  // What the peer is told: a hidden receiver rejects everyone.
  function LocalVerdict(s: Setup, frame: Frame): Verdict
    requires frame.Encryption?
  {
    if s.incoming && s.visibility.Hidden? then Fail else SignatureVerdict(s, frame)
  }

  // The runner -----------------------------------------------------------------------

  datatype Phase = Ready | AwaitingEncryption | AwaitingResult | Finished

  datatype Side = Side(phase: Phase, verdict: Verdict, sent: seq<Frame>, outcomes: seq<Verdict>)

  const IDLE := Side(Ready, Success, [], [])

  function Started(s: Setup, x: Side): Side {
    x.(phase := AwaitingEncryption, verdict := Success, sent := x.sent + [s.encryption])
  }

  // A read that failed, by timeout or because the connection closed.
  function ReadFailed(x: Side): Side {
    x.(phase := Finished, outcomes := x.outcomes + [Fail])
  }

  function GotEncryption(s: Setup, x: Side, frame: Frame): Side
    requires frame.Encryption?
  {
    x.(phase := AwaitingResult,
       verdict := Min(Min(x.verdict, HashVerdict(s, frame)), LocalVerdict(s, frame)),
       sent := x.sent + [Result(StatusOf(LocalVerdict(s, frame)))])
  }

  function GotResult(x: Side, frame: Frame): Side
    requires frame.Result?
  {
    var verdict := Min(x.verdict, Convert(frame.status));
    x.(phase := Finished, verdict := verdict, outcomes := x.outcomes + [verdict])
  }

  class PairedKeyVerificationRunner {
    const setup: Setup
    var phase: Phase                  // which typed read is outstanding
    var verificationResult: Verdict
    ghost var sent: seq<Frame>        // what frame_writer_ was called with
    ghost var outcomes: seq<Verdict>  // what callback_ was called with

    ghost function State(): Side
      reads this
    {
      Side(phase, verificationResult, sent, outcomes)
    }

    constructor (setup: Setup)
      ensures this.setup == setup && State() == IDLE
    {
      this.setup := setup;
      phase, verificationResult, sent, outcomes := Ready, Success, [], [];
    }

    method Run()
      modifies this
      ensures State() == Started(setup, old(State()))
    {
      verificationResult := Success;
      sent := sent + [setup.encryption];
      phase := AwaitingEncryption;
    }

    method OnReadPairedKeyEncryptionFrame(frame: Option<Frame>)
      requires frame.Some? ==> frame.value.Encryption?
      modifies this
      ensures State() == if frame.None? then ReadFailed(old(State()))
                         else GotEncryption(setup, old(State()), frame.value)
    {
      if frame.None? {
        outcomes := outcomes + [Fail];
        phase := Finished;
        return;
      }
      var hashResult := VerifyAuthTokenHashWithPrivateCertificates(frame.value);
      if hashResult == Unable {
        if setup.incoming && setup.visibility != Everyone {
          hashResult := Fail;
        }
      }
      ApplyResult(hashResult);
      var localResult := VerifyPairedKeyEncryptionFrame(frame.value);
      ApplyResult(localResult);
      if setup.incoming && setup.visibility == Hidden {
        localResult := Fail;
        ApplyResult(Fail);
      }
      sent := sent + [Result(StatusOf(localResult))];
      phase := AwaitingResult;
    }

    method OnReadPairedKeyResultFrame(frame: Option<Frame>)
      requires frame.Some? ==> frame.value.Result?
      modifies this
      ensures State() == if frame.None? then ReadFailed(old(State()))
                         else GotResult(old(State()), frame.value)
    {
      phase := Finished;
      if frame.None? {
        outcomes := outcomes + [Fail];
        return;
      }
      ApplyResult(Convert(frame.value.status));
      outcomes := outcomes + [verificationResult];
    }

    // Success or Unable, never Fail.
    method VerifyAuthTokenHashWithPrivateCertificates(frame: Frame) returns (v: Verdict)
      requires frame.Encryption?
      ensures v == if HashMatches(setup, frame) then Success else Unable
    {
      var toCheck: seq<Visibility> := [];
      if setup.screenLocked {
        toCheck := toCheck + [SelfShare];
      }
      toCheck := toCheck + [setup.visibility];
      if setup.recentlyUpdated {
        toCheck := toCheck + [setup.lastVisibility];
      }
      assert toCheck == VisibilitiesToCheck(setup);
      var i := 0;
      while i < |toCheck|
        invariant 0 <= i <= |toCheck|
        invariant forall j :: 0 <= j < i ==>
          !(toCheck[j] in setup.hashes && setup.hashes[toCheck[j]] == frame.secretIdHash)
      {
        if toCheck[i] in setup.hashes && setup.hashes[toCheck[i]] == frame.secretIdHash {
          return Success;
        }
        i := i + 1;
      }
      return Unable;
    }

    method VerifyPairedKeyEncryptionFrame(frame: Frame) returns (v: Verdict)
      requires frame.Encryption?
      ensures v == SignatureVerdict(setup, frame)
    {
      if setup.certificate.None? {
        return Unable;
      }
      var verifies := setup.certificate.value.verifies;
      if frame.signedData !in verifies {
        if frame.optionalSignedData.None? {
          return Fail;
        }
        if frame.optionalSignedData.value !in verifies {
          return Fail;
        }
      }
      return Success;
    }

    method ApplyResult(v: Verdict)
      modifies this`verificationResult
      ensures verificationResult == Min(old(verificationResult), v)
    {
      if verificationResult == Fail {
        return;
      }
      match v {
        case Success =>
        case Fail => verificationResult := Fail;
        case Unable => verificationResult := Unable;
      }
    }
  }

  // Two runners and the two links between them ---------------------------------------

  // `toLeft` are the frames sent by the right side that the left has not read.
  datatype System = System(left: Side, right: Side, toLeft: seq<Frame>, toRight: seq<Frame>)

  datatype Step = StartLeft | StartRight | LeftReads | RightReads

  // The reader hands out the first frame of the wanted type.
  function FirstOf(frames: seq<Frame>, encryption: bool): (i: nat)
    ensures i <= |frames|
    ensures i < |frames| ==> frames[i].Encryption? == encryption
  {
    if frames == [] || frames[0].Encryption? == encryption then 0 else 1 + FirstOf(frames[1..], encryption)
  }

  // The side after it reads the frame it awaits, and the frames left, or None when it cannot.
  function Reads(s: Setup, x: Side, frames: seq<Frame>): Option<(Side, seq<Frame>)> {
    var i := FirstOf(frames, x.phase.AwaitingEncryption?);
    if !(x.phase.AwaitingEncryption? || x.phase.AwaitingResult?) || i == |frames| then None
    else
      var rest := frames[..i] + frames[i + 1..];
      Some((if frames[i].Encryption? then GotEncryption(s, x, frames[i]) else GotResult(x, frames[i]), rest))
  }

  // The frames a side sent in a step.
  function NewlySent(before: Side, after: Side): seq<Frame> {
    if |before.sent| <= |after.sent| then after.sent[|before.sent|..] else []
  }

  function Next(l: Setup, r: Setup, y: System, step: Step): Option<System> {
    match step
    case StartLeft =>
      if !y.left.phase.Ready? then None
      else Some(y.(left := Started(l, y.left), toRight := y.toRight + [l.encryption]))
    case StartRight =>
      if !y.right.phase.Ready? then None
      else Some(y.(right := Started(r, y.right), toLeft := y.toLeft + [r.encryption]))
    case LeftReads =>
      var read := Reads(l, y.left, y.toLeft);
      if read.None? then None
      else Some(System(read.value.0, y.right, read.value.1, y.toRight + NewlySent(y.left, read.value.0)))
    case RightReads =>
      var read := Reads(r, y.right, y.toRight);
      if read.None? then None
      else Some(System(y.left, read.value.0, y.toLeft + NewlySent(y.right, read.value.0), read.value.1))
  }

  function Run(l: Setup, r: Setup, steps: seq<Step>): Option<System> {
    if steps == [] then Some(System(IDLE, IDLE, [], []))
    else
      var before := Run(l, r, Init(steps));
      if before.None? then None else Next(l, r, before.value, Last(steps))
  }

  // What a side has sent in each phase, and how many of the peer's frames it has read.
  function SentIn(s: Setup, peer: Setup, phase: Phase): seq<Frame>
    requires peer.encryption.Encryption?
  {
    match phase
    case Ready => []
    case AwaitingEncryption => [s.encryption]
    case _ => [s.encryption, Result(StatusOf(LocalVerdict(s, peer.encryption)))]
  }

  function ReadIn(phase: Phase): nat {
    match phase
    case Ready => 0
    case AwaitingEncryption => 0
    case AwaitingResult => 1
    case Finished => 2
  }

  // The verdict a side must end with.
  function Expected(s: Setup, peer: Setup): Verdict
    requires s.encryption.Encryption? && peer.encryption.Encryption?
  {
    Min(Min(HashVerdict(s, peer.encryption), LocalVerdict(s, peer.encryption)), LocalVerdict(peer, s.encryption))
  }

  ghost predicate SideInv(s: Setup, peer: Setup, x: Side, peerPhase: Phase, inbox: seq<Frame>)
    requires s.encryption.Encryption? && peer.encryption.Encryption?
  {
    && x.sent == SentIn(s, peer, x.phase)
    && ReadIn(x.phase) <= |SentIn(peer, s, peerPhase)|
    && inbox == SentIn(peer, s, peerPhase)[ReadIn(x.phase)..]
    && (x.phase.Ready? || x.phase.AwaitingEncryption? ==> x.verdict == Success)
    && (x.phase.AwaitingResult? ==>
          x.verdict == Min(HashVerdict(s, peer.encryption), LocalVerdict(s, peer.encryption)))
    && x.outcomes == if x.phase.Finished? then [Expected(s, peer)] else []
  }

  ghost predicate Inv(l: Setup, r: Setup, y: System)
    requires l.encryption.Encryption? && r.encryption.Encryption?
  {
    SideInv(l, r, y.left, y.right.phase, y.toLeft) && SideInv(r, l, y.right, y.left.phase, y.toRight)
  }

  // A side that reads keeps its own invariant, and what it sends keeps its peer's.
  lemma ReadKeepsInv(s: Setup, peer: Setup, x: Side, peerSide: Side, inbox: seq<Frame>, outbox: seq<Frame>)
    requires s.encryption.Encryption? && peer.encryption.Encryption?
    requires SideInv(s, peer, x, peerSide.phase, inbox) && SideInv(peer, s, peerSide, x.phase, outbox)
    requires Reads(s, x, inbox).Some?
    ensures var (after, rest) := Reads(s, x, inbox).value;
            && SideInv(s, peer, after, peerSide.phase, rest)
            && SideInv(peer, s, peerSide, after.phase, outbox + NewlySent(x, after))
  {
    var peerSent := SentIn(peer, s, peerSide.phase);
    assert inbox[0] == peerSent[ReadIn(x.phase)];
    var (after, rest) := Reads(s, x, inbox).value;
    assert FirstOf(inbox, x.phase.AwaitingEncryption?) == 0;
    assert rest == inbox[1..] == peerSent[ReadIn(after.phase)..];
    assert after.sent == SentIn(s, peer, after.phase);
    assert outbox + NewlySent(x, after) == SentIn(s, peer, after.phase)[ReadIn(peerSide.phase)..];
  }

  // A side that starts sends its encryption frame, the first its peer will read.
  lemma StartKeepsInv(s: Setup, peer: Setup, x: Side, peerSide: Side, inbox: seq<Frame>, outbox: seq<Frame>)
    requires s.encryption.Encryption? && peer.encryption.Encryption? && x.phase.Ready?
    requires SideInv(s, peer, x, peerSide.phase, inbox) && SideInv(peer, s, peerSide, x.phase, outbox)
    ensures var after := Started(s, x);
            && SideInv(s, peer, after, peerSide.phase, inbox)
            && SideInv(peer, s, peerSide, after.phase, outbox + [s.encryption])
  {
  }

  lemma StepKeepsInv(l: Setup, r: Setup, y: System, step: Step)
    requires l.encryption.Encryption? && r.encryption.Encryption?
    requires Inv(l, r, y) && Next(l, r, y, step).Some?
    ensures Inv(l, r, Next(l, r, y, step).value)
  {
    match step
    case StartLeft => StartKeepsInv(l, r, y.left, y.right, y.toLeft, y.toRight);
    case StartRight => StartKeepsInv(r, l, y.right, y.left, y.toRight, y.toLeft);
    case LeftReads => ReadKeepsInv(l, r, y.left, y.right, y.toLeft, y.toRight);
    case RightReads => ReadKeepsInv(r, l, y.right, y.left, y.toRight, y.toLeft);
  }

  lemma {:induction false} RunKeepsInv(l: Setup, r: Setup, steps: seq<Step>)
    requires l.encryption.Encryption? && r.encryption.Encryption? && Run(l, r, steps).Some?
    ensures Inv(l, r, Run(l, r, steps).value)
  {
    if steps != [] {
      RunKeepsInv(l, r, Init(steps));
      StepKeepsInv(l, r, Run(l, r, Init(steps)).value, Last(steps));
    }
  }

  // In every interleaving each side's callback runs at most once, and then with the minimum of
  // its own hash judgement, its own judgement and the peer's.
  lemma EveryInterleavingAgrees(l: Setup, r: Setup, steps: seq<Step>)
    requires l.encryption.Encryption? && r.encryption.Encryption? && Run(l, r, steps).Some?
    ensures var y := Run(l, r, steps).value;
            && (y.left.outcomes == [] || y.left.outcomes == [Expected(l, r)])
            && (y.right.outcomes == [] || y.right.outcomes == [Expected(r, l)])
  {
    RunKeepsInv(l, r, steps);
  }

  // Over every run: a failed local judgement on either side fails every callback that runs, and
  // a callback that reports success means that both local judgements succeeded.
  lemma FailureIsMutual(l: Setup, r: Setup, steps: seq<Step>)
    requires l.encryption.Encryption? && r.encryption.Encryption? && Run(l, r, steps).Some?
    ensures var y := Run(l, r, steps).value;
            var (outcomes, mine, theirs) :=
              (y.left.outcomes + y.right.outcomes, LocalVerdict(l, r.encryption), LocalVerdict(r, l.encryption));
            && (mine.Fail? || theirs.Fail? ==> forall o :: o in outcomes ==> o.Fail?)
            && (Success in outcomes ==> mine.Success? && theirs.Success?)
  {
    EveryInterleavingAgrees(l, r, steps);
  }

  // What the outcomes say about the two sides' setups ----------------------------------

  // The peer's hash is that of a visibility in effect: the present one, the previous one while it
  // is recent, or that of one's own devices while the screen is locked.
  predicate KnowsHash(s: Setup, peer: Setup)
    requires peer.encryption.Encryption?
  {
    exists v :: v in s.hashes && s.hashes[v] == peer.encryption.secretIdHash
      && (v == s.visibility || (s.recentlyUpdated && v == s.lastVisibility) || (s.screenLocked && v.SelfShare?))
  }

  // A certificate of the peer verifies one of its signatures, or there is one that verifies none.
  predicate Verified(s: Setup, peer: Setup)
    requires peer.encryption.Encryption?
  {
    && s.certificate.Some?
    && (peer.encryption.signedData in s.certificate.value.verifies
        || (peer.encryption.optionalSignedData.Some?
            && peer.encryption.optionalSignedData.value in s.certificate.value.verifies))
  }

  predicate Refuted(s: Setup, peer: Setup)
    requires peer.encryption.Encryption?
  {
    s.certificate.Some? && !Verified(s, peer)
  }

  predicate HiddenReceiver(s: Setup) {
    s.incoming && s.visibility.Hidden?
  }

  predicate SelectiveReceiver(s: Setup) {
    s.incoming && !s.visibility.Everyone?
  }

  // When a callback may report success, and when it must report failure; it is unable otherwise.
  predicate Succeeds(s: Setup, peer: Setup)
    requires s.encryption.Encryption? && peer.encryption.Encryption?
  {
    KnowsHash(s, peer) && Verified(s, peer) && Verified(peer, s) && !HiddenReceiver(s) && !HiddenReceiver(peer)
  }

  predicate Fails(s: Setup, peer: Setup)
    requires s.encryption.Encryption? && peer.encryption.Encryption?
  {
    || (SelectiveReceiver(s) && !KnowsHash(s, peer))
    || Refuted(s, peer) || Refuted(peer, s) || HiddenReceiver(s) || HiddenReceiver(peer)
  }

  lemma HashKnownIff(s: Setup, peer: Setup)
    requires peer.encryption.Encryption?
    ensures HashMatches(s, peer.encryption) <==> KnowsHash(s, peer)
  {
    var toCheck := VisibilitiesToCheck(s);
    forall v
      ensures v in toCheck
              <==> v == s.visibility || (s.recentlyUpdated && v == s.lastVisibility) || (s.screenLocked && v.SelfShare?)
    {
      assert s.visibility in toCheck;
    }
  }

  lemma ExpectedIs(s: Setup, peer: Setup)
    requires s.encryption.Encryption? && peer.encryption.Encryption?
    ensures Expected(s, peer).Success? <==> Succeeds(s, peer)
    ensures Expected(s, peer).Fail? <==> Fails(s, peer)
  {
    HashKnownIff(s, peer);
  }

  // Over every run: a callback reports success if and only if its side knows the peer's hash,
  // each side holds a certificate that verifies a signature of the other, and no receiver is
  // hidden. It fails if and only if a certificate verifies no signature, a receiver is hidden, or
  // its side is a receiver that is not visible to everyone and does not know the peer's hash.
  lemma OutcomesAre(l: Setup, r: Setup, steps: seq<Step>)
    requires l.encryption.Encryption? && r.encryption.Encryption? && Run(l, r, steps).Some?
    ensures var y := Run(l, r, steps).value;
            && (forall o :: o in y.left.outcomes ==> (o.Success? <==> Succeeds(l, r)) && (o.Fail? <==> Fails(l, r)))
            && (forall o :: o in y.right.outcomes ==> (o.Success? <==> Succeeds(r, l)) && (o.Fail? <==> Fails(r, l)))
  {
    EveryInterleavingAgrees(l, r, steps);
    ExpectedIs(l, r);
    ExpectedIs(r, l);
  }

  // Without a certificate on either side nobody reports success, whatever else matches.
  lemma NoSuccessWithoutCertificates(l: Setup, r: Setup, steps: seq<Step>)
    requires l.encryption.Encryption? && r.encryption.Encryption? && Run(l, r, steps).Some?
    requires l.certificate.None? || r.certificate.None?
    ensures var y := Run(l, r, steps).value; Success !in y.left.outcomes + y.right.outcomes
  {
    OutcomesAre(l, r, steps);
  }

  // The hash is the one thing that a side does not tell its peer: at the end one side reports
  // success and the other does not if and only if all else is in order and only one knows the
  // other's hash.
  lemma OnlyOneSucceedsIff(l: Setup, r: Setup, steps: seq<Step>)
    requires l.encryption.Encryption? && r.encryption.Encryption? && Run(l, r, steps).Some?
    requires var y := Run(l, r, steps).value; y.left.phase.Finished? && y.right.phase.Finished?
    ensures var y := Run(l, r, steps).value;
            (y.left.outcomes == [Success] && y.right.outcomes != [Success])
            <==> Succeeds(l, r) && !KnowsHash(r, l)
  {
    RunKeepsInv(l, r, steps);
    ExpectedIs(l, r);
    ExpectedIs(r, l);
  }

  // What is sent after the encryption frame: success for a verified peer, failure for one that is
  // refuted or that a hidden receiver turns down.
  lemma ResultsSent(l: Setup, r: Setup, steps: seq<Step>)
    requires l.encryption.Encryption? && r.encryption.Encryption? && Run(l, r, steps).Some?
    ensures var sent := Run(l, r, steps).value.left.sent;
            && (sent != [] ==> sent[0] == l.encryption)
            && (|sent| > 1 ==>
                  sent == [l.encryption, Result(if HiddenReceiver(l) || Refuted(l, r) then FailStatus
                                                else if Verified(l, r) then SuccessStatus
                                                else UnableStatus)])
  {
    RunKeepsInv(l, r, steps);
  }

  // Whatever a peer answers, its answer can only make things worse; an unknown status is taken
  // for unable.
  lemma AnswerLowers(x: Side, status: Status)
    ensures var after := GotResult(x, Result(status));
            var o := Last(after.outcomes);
            && after.phase.Finished? && Init(after.outcomes) == x.outcomes && after.verdict == o
            && (o.Success? <==> x.verdict.Success? && status.SuccessStatus?)
            && (o.Fail? <==> x.verdict.Fail? || status.FailStatus?)
  {
  }

  // A runner that is started again judges afresh.
  lemma StartsAfresh(s: Setup, x: Side, y: Side, frame: Frame, answer: Frame)
    requires frame.Encryption? && answer.Result?
    ensures Last(GotResult(GotEncryption(s, Started(s, x), frame), answer).outcomes)
         == Last(GotResult(GotEncryption(s, Started(s, y), frame), answer).outcomes)
  {
  }

  // A failed read, of either frame, makes the callback fail.
  method BrokenHandshake(runner: PairedKeyVerificationRunner, frame: Option<Frame>)
    requires runner.State() == IDLE && (frame.Some? ==> frame.value.Encryption?)
    modifies runner
    ensures runner.outcomes == [Fail] && runner.phase.Finished?
  {
    runner.Run();
    runner.OnReadPairedKeyEncryptionFrame(frame);
    if frame.Some? {
      runner.OnReadPairedKeyResultFrame(None);
    }
  }

  // The handshake cannot get stuck: when no step is possible, both callbacks have run.
  lemma StuckMeansFinished(l: Setup, r: Setup, steps: seq<Step>)
    requires l.encryption.Encryption? && r.encryption.Encryption? && Run(l, r, steps).Some?
    requires forall step :: Next(l, r, Run(l, r, steps).value, step).None?
    ensures var y := Run(l, r, steps).value;
            y.left.outcomes == [Expected(l, r)] && y.right.outcomes == [Expected(r, l)]
  {
    RunKeepsInv(l, r, steps);
    var y := Run(l, r, steps).value;
    assert Next(l, r, y, StartLeft).None? && Next(l, r, y, StartRight).None?;
    assert Next(l, r, y, LeftReads).None? && Next(l, r, y, RightReads).None?;
    assert y.left.phase.AwaitingEncryption? || y.left.phase.AwaitingResult? ==>
      FirstOf(y.toLeft, y.left.phase.AwaitingEncryption?) == |y.toLeft|;
    assert y.right.phase.AwaitingEncryption? || y.right.phase.AwaitingResult? ==>
      FirstOf(y.toRight, y.right.phase.AwaitingEncryption?) == |y.toRight|;
  }

  // And it cannot go on for ever.
  lemma {:induction false} AtMostSixSteps(l: Setup, r: Setup, steps: seq<Step>)
    requires l.encryption.Encryption? && r.encryption.Encryption? && Run(l, r, steps).Some?
    ensures var y := Run(l, r, steps).value;
            |steps| == Progress(y.left.phase) + Progress(y.right.phase) <= 6
  {
    if steps != [] {
      AtMostSixSteps(l, r, Init(steps));
    }
  }

  function Progress(phase: Phase): nat {
    match phase
    case Ready => 0
    case AwaitingEncryption => 1
    case AwaitingResult => 2
    case Finished => 3
  }
}
