/**
 How scanning and advertising are reconciled with the state of the service
 (nearby_sharing_service_impl.cc, lines 1923-2286 and 2316-2341): every task of the service
 thread ends with what is on the air matching what the registered surfaces call for.
 */
module SurfaceState {
  import opened Wrappers
  import opened Introduction

  type Surface = int

  datatype Visibility = Unspecified | AllContacts | SelectedContacts | Everyone | SelfShare | Hidden

  datatype PowerLevel = UnknownPower | LowPower | HighPower

  // What the connections manager was last told to broadcast.
  datatype Broadcast = Broadcast(power: PowerLevel, visibility: Visibility)

  predicate IsVisibleInBackground(v: Visibility) {
    !v.Hidden? && !v.Unspecified?
  }

  // Everything that decides whether to scan and to advertise.
  datatype Inputs = Inputs(
    suspended: bool, mediumsAvailable: bool, visibility: Visibility, screenLocked: bool,
    transferring: bool, sending: bool, receiving: bool, connecting: bool,
    foregroundSend: set<Surface>, backgroundSend: set<Surface>,
    foregroundReceive: set<Surface>, backgroundReceive: set<Surface>)

  function WithSurface(i: Inputs, s: Surface, foreground: bool): Inputs {
    if foreground then i.(foregroundSend := i.foregroundSend + {s}) else i.(backgroundSend := i.backgroundSend + {s})
  }

  function WithoutSurface(i: Inputs, s: Surface): Inputs {
    if s in i.foregroundSend then i.(foregroundSend := i.foregroundSend - {s})
    else i.(backgroundSend := i.backgroundSend - {s})
  }

  lemma WithThenWithout(i: Inputs, s: Surface, foreground: bool)
    requires s !in i.foregroundSend && s !in i.backgroundSend
    ensures WithoutSurface(WithSurface(i, s, foreground), s) == i
    ensures var with := WithSurface(i, s, foreground); s in with.foregroundSend || s in with.backgroundSend
  {
    assert i.foregroundSend + {s} - {s} == i.foregroundSend && i.backgroundSend + {s} - {s} == i.backgroundSend;
  }

  // A transfer has started, and one has ended.
  function Transferring(i: Inputs, isIncoming: bool): Inputs {
    i.(transferring := true, sending := i.sending || !isIncoming, receiving := i.receiving || isIncoming)
  }

  function Over(i: Inputs): Inputs {
    i.(transferring := false, sending := false, receiving := false)
  }

  // An outgoing transfer has ended.
  function Ended(i: Inputs): Inputs {
    Over(i).(connecting := false)
  }

  // An invalidation that runs later: after scanning stopped, or after a transfer, which takes
  // longer if files were sent.
  datatype Posted = ScanStopped | TransferDone(wasSending: bool)

  // What the connections manager is told so that it goes from one broadcast to another: nothing
  // if it broadcasts that already, and otherwise to stop what is on the air, and to start the other
  // one, if there is one and endpoint info to start it with.
  function Calls(before: Option<Broadcast>, wanted: Option<Broadcast>, hasInfo: bool): seq<Option<Broadcast>> {
    if before == wanted then []
    else (if before.Some? then [None] else []) + if wanted.Some? && hasInfo then [wanted] else []
  }

  datatype StatusCode = Ok | Error | OutOfOrderApiCall | InvalidArgument

  // Attachments that can be sent: there are some, and every file has a path.
  predicate Sendable(attachments: Option<Container>) {
    && attachments.Some? && HasAttachments(attachments.value)
    && forall i :: 0 <= i < |attachments.value.files| ==> HasPath(attachments.value.files[i])
  }

  predicate HasPath(file: File) {
    file.path.Some? && file.path.value != ""
  }

  // The tasks of the service thread that change this state.
  datatype Task =
    | RegisterSend(surface: Surface, foreground: bool, admissible: bool, ended: bool)
    | UnregisterSend(surface: Surface, ended: bool)
    | RegisterReceive(surface: Surface, foreground: bool, blocked: bool)
    | UnregisterReceive(surface: Surface)
    | LockChanged(locked: bool)
    | Send(attachments: Option<Container>, targetKnown: bool, initiated: bool)
    | Pair(targetKnown: bool, fileSync: bool)
    | AwaitingLocalConfirmation(incoming: bool)
    | OutgoingFinished
    | IncomingFinished
    | Invalidate
    | StopAndInvalidate
    | EnvironmentChanged(suspended: bool, mediums: bool, visibility: Visibility)

  class NearbySharingServiceImpl {
    // CreateEndpointInfo can fail, depending on the visibility.
    const hasEndpointInfo: Visibility -> bool
    const supportsAdvertisingOnLockScreen: bool

    var suspended: bool
    var mediumsAvailable: bool
    var visibility: Visibility
    var screenLocked: bool
    var transferring: bool
    var sendingFiles: bool
    var receivingFiles: bool
    var connecting: bool
    var foregroundSend: set<Surface>
    var backgroundSend: set<Surface>
    var foregroundReceive: set<Surface>
    var backgroundReceive: set<Surface>

    var scanning: bool
    var advertisingPower: PowerLevel
    var lastAdvertised: Visibility
    var advertisingOnScreenLocked: bool
    ghost var discovering: bool               // the connections manager discovers
    ghost var broadcasting: Option<Broadcast> // the connections manager advertises
    ghost var adCalls: seq<Option<Broadcast>> // its calls: to advertise, or None to stop
    ghost var scanCalls: seq<bool>            // to start discovery or to stop it
    ghost var delayedInvalidations: seq<Posted> // the tasks posted to run later

    ghost function State(): Inputs
      reads this
    {
      Inputs(suspended, mediumsAvailable, visibility, screenLocked,
             transferring, sendingFiles, receivingFiles, connecting,
             foregroundSend, backgroundSend, foregroundReceive, backgroundReceive)
    }

    // When scanning has to be on.
    predicate ShouldScan()
      reads this
    {
      !suspended && !screenLocked && mediumsAvailable && !transferring && !connecting && foregroundSend != {}
    }

    // When advertising has to be on, at which power level and with which visibility.
    predicate ShouldAdvertise()
      reads this
    {
      && !suspended && (screenLocked ==> supportsAdvertisingOnLockScreen) && mediumsAvailable && !transferring
      && (foregroundReceive != {} || backgroundReceive != {})
      && IsVisibleInBackground(visibility)
    }

    function WantedPower(): PowerLevel
      reads this
    {
      if foregroundReceive != {} then HighPower else LowPower
    }

    function WantedVisibility(): Visibility
      reads this
    {
      if screenLocked then SelfShare else visibility
    }

    ghost function Wanted(): Option<Broadcast>
      reads this
    {
      if ShouldAdvertise() then Some(Broadcast(WantedPower(), WantedVisibility())) else None
    }

    // The flags agree with what the connections manager was told.
    ghost predicate Consistent()
      reads this
    {
      && scanning == discovering
      && (advertisingPower == UnknownPower <==> broadcasting.None?)
      && (broadcasting.Some? ==>
            broadcasting.value == Broadcast(advertisingPower, lastAdvertised) && !lastAdvertised.Unspecified?)
    }

    // What holds between two tasks.
    ghost predicate Steady()
      reads this
    {
      Consistent() && (scanning ==> foregroundSend != {} && !screenLocked && !transferring && !connecting)
    }

    ghost predicate ScanningReconciled()
      reads this
    {
      Consistent() && (scanning <==> ShouldScan())
    }

    // Advertising is off when it has to be, and otherwise on as wanted, unless there is no
    // endpoint info to advertise with.
    ghost predicate AdvertisingReconciled()
      reads this
    {
      && Consistent()
      && (!ShouldAdvertise() ==> broadcasting.None?)
      && (ShouldAdvertise() && hasEndpointInfo(WantedVisibility()) ==>
            broadcasting == Some(Broadcast(WantedPower(), WantedVisibility())))
      && (broadcasting.Some? ==> broadcasting.value == Broadcast(WantedPower(), WantedVisibility()))
    }

    constructor (hasEndpointInfo: Visibility -> bool, supportsAdvertisingOnLockScreen: bool, locked: bool,
                 visibility: Visibility)
      ensures Steady() && !scanning && broadcasting.None?
      ensures this.hasEndpointInfo == hasEndpointInfo
      ensures this.supportsAdvertisingOnLockScreen == supportsAdvertisingOnLockScreen
      ensures State() == Inputs(false, false, visibility, locked, false, false, false, false, {}, {}, {}, {})
    {
      this.hasEndpointInfo := hasEndpointInfo;
      this.supportsAdvertisingOnLockScreen := supportsAdvertisingOnLockScreen;
      this.visibility, this.screenLocked := visibility, locked;
      suspended, mediumsAvailable := false, false;
      transferring, sendingFiles, receivingFiles, connecting := false, false, false, false;
      foregroundSend, backgroundSend, foregroundReceive, backgroundReceive := {}, {}, {}, {};
      scanning, advertisingPower, lastAdvertised, advertisingOnScreenLocked := false, UnknownPower, Unspecified, false;
      discovering, broadcasting, adCalls, scanCalls, delayedInvalidations := false, None, [], [], [];
    }

    method InvalidateSurfaceState()
      requires Consistent()
      modifies this`scanning, this`discovering, this`scanCalls, this`delayedInvalidations
      modifies this`advertisingPower, this`lastAdvertised, this`advertisingOnScreenLocked
      modifies this`broadcasting, this`adCalls
      ensures ScanningReconciled() && AdvertisingReconciled() && Steady() && State() == old(State())
      ensures scanCalls == old(scanCalls) + if scanning == old(scanning) then [] else [scanning]
      ensures adCalls == old(adCalls) + Calls(old(broadcasting), Wanted(), hasEndpointInfo(WantedVisibility()))
    {
      InvalidateScanningState();
      InvalidateAdvertisingState();
    }

    method InvalidateScanningState()
      requires Consistent()
      modifies this`scanning, this`discovering, this`scanCalls, this`delayedInvalidations
      modifies this`advertisingPower, this`lastAdvertised, this`advertisingOnScreenLocked
      modifies this`broadcasting, this`adCalls
      ensures ScanningReconciled() && Steady() && State() == old(State()) && Wanted() == old(Wanted())
      ensures old(AdvertisingReconciled()) ==> AdvertisingReconciled()
      ensures scanning && !old(scanning) ==> AdvertisingReconciled()
      ensures scanCalls == old(scanCalls) + if scanning == old(scanning) then [] else [scanning]
      ensures adCalls == old(adCalls) + if !scanning || old(scanning) then []
                                        else Calls(old(broadcasting), Wanted(), hasEndpointInfo(WantedVisibility()))
      ensures !scanning || old(scanning) ==> broadcasting == old(broadcasting)
      decreases if scanning then 0 else 1, 1
    {
      if suspended || screenLocked || !mediumsAvailable || transferring || connecting || foregroundSend == {} {
        var _ := StopScanning();
        return;
      }
      StartScanning();
    }

    // The recursive call finds scanning on, so the recursion ends there.
    method StartScanning()
      requires Consistent() && ShouldScan()
      modifies this`scanning, this`discovering, this`scanCalls, this`delayedInvalidations
      modifies this`advertisingPower, this`lastAdvertised, this`advertisingOnScreenLocked
      modifies this`broadcasting, this`adCalls
      ensures ScanningReconciled() && scanning
      ensures old(AdvertisingReconciled()) ==> AdvertisingReconciled()
      ensures !old(scanning) ==> AdvertisingReconciled()
      ensures scanCalls == old(scanCalls) + if old(scanning) then [] else [true]
      ensures adCalls == old(adCalls) + if old(scanning) then []
                                        else Calls(old(broadcasting), Wanted(), hasEndpointInfo(WantedVisibility()))
      ensures old(scanning) ==> broadcasting == old(broadcasting)
      decreases if scanning then 0 else 1, 0
    {
      if scanning {
        return;
      }
      scanning := true;
      discovering := true;
      scanCalls := scanCalls + [true];
      InvalidateAdvertisingState();
      InvalidateScanningState();
    }

    method StopScanning() returns (stopped: bool)
      requires Consistent()
      modifies this`scanning, this`discovering, this`scanCalls, this`delayedInvalidations
      ensures Consistent() && !scanning && stopped == old(scanning)
      ensures delayedInvalidations == old(delayedInvalidations) + if stopped then [ScanStopped] else []
      ensures scanCalls == old(scanCalls) + if stopped then [false] else []
    {
      if !scanning {
        return false;
      }
      discovering := false;
      scanCalls := scanCalls + [false];
      scanning := false;
      delayedInvalidations := delayedInvalidations + [ScanStopped];
      return true;
    }

    method InvalidateAdvertisingState()
      requires Consistent()
      modifies this`advertisingPower, this`lastAdvertised, this`advertisingOnScreenLocked
      modifies this`broadcasting, this`adCalls
      ensures AdvertisingReconciled()
      ensures broadcasting.Some? ==> advertisingOnScreenLocked == screenLocked
      ensures adCalls == old(adCalls) + Calls(old(broadcasting), Wanted(), hasEndpointInfo(WantedVisibility()))
    {
      if suspended {
        StopAdvertising();
        return;
      }
      if screenLocked && !supportsAdvertisingOnLockScreen {
        StopAdvertising();
        return;
      }
      if !mediumsAvailable {
        StopAdvertising();
        return;
      }
      if transferring {
        StopAdvertising();
        return;
      }
      if foregroundReceive == {} && backgroundReceive == {} {
        StopAdvertising();
        return;
      }
      if !IsVisibleInBackground(visibility) {
        StopAdvertising();
        return;
      }
      var wanted := visibility;
      if screenLocked && supportsAdvertisingOnLockScreen {
        if wanted != SelfShare {
          wanted := SelfShare;
        }
      }
      Advertise(wanted, if foregroundReceive != {} then HighPower else LowPower);
    }

    // Advertising that fits already is left alone; other advertising is restarted.
    method Advertise(wanted: Visibility, power: PowerLevel)
      requires Consistent() && wanted != Unspecified && power != UnknownPower
      modifies this`advertisingPower, this`lastAdvertised, this`advertisingOnScreenLocked
      modifies this`broadcasting, this`adCalls
      ensures Consistent() && advertisingOnScreenLocked == screenLocked
      ensures hasEndpointInfo(wanted) ==> broadcasting.Some?
      ensures broadcasting.Some? ==> broadcasting.value == Broadcast(power, wanted)
      ensures adCalls ==
        old(adCalls) + Calls(old(broadcasting), Some(Broadcast(power, wanted)), hasEndpointInfo(wanted))
    {
      advertisingOnScreenLocked := screenLocked;
      var fits := StopUnlessFitting(wanted, power);
      if fits || !hasEndpointInfo(wanted) {
        return;
      }
      StartAdvertising(power, wanted);
      advertisingPower := power;
      lastAdvertised := wanted;
    }

    method StopUnlessFitting(wanted: Visibility, power: PowerLevel) returns (fits: bool)
      requires Consistent() && wanted != Unspecified && power != UnknownPower
      modifies this`advertisingPower, this`broadcasting, this`adCalls
      ensures Consistent() && broadcasting == if fits then Some(Broadcast(power, wanted)) else None
      ensures fits <==> old(broadcasting) == Some(Broadcast(power, wanted))
      ensures adCalls == old(adCalls) + if fits then [] else Calls(old(broadcasting), None, false)
    {
      var needToRestart := false;
      if lastAdvertised != Unspecified && wanted != lastAdvertised {
        StopAdvertising();
        needToRestart := true;
      }
      fits := !needToRestart && advertisingPower == power;
      if !fits && advertisingPower != UnknownPower {
        StopAdvertising();
      }
    }

    // The connections manager refuses to start while it is advertising.
    ghost method StartAdvertising(power: PowerLevel, v: Visibility)
      requires broadcasting.None?
      modifies this`broadcasting, this`adCalls
      ensures broadcasting == Some(Broadcast(power, v)) && adCalls == old(adCalls) + [broadcasting]
    {
      broadcasting := Some(Broadcast(power, v));
      adCalls := adCalls + [broadcasting];
    }

    method StopAdvertising()
      requires Consistent()
      modifies this`advertisingPower, this`broadcasting, this`adCalls
      ensures Consistent() && advertisingPower == UnknownPower && broadcasting.None?
      ensures adCalls == old(adCalls) + Calls(old(broadcasting), None, false)
    {
      if advertisingPower == UnknownPower {
        return;
      }
      broadcasting := None;
      adCalls := adCalls + [None];
      advertisingPower := UnknownPower;
    }

    method OnTransferStarted(isIncoming: bool)
      requires Consistent()
      modifies this
      ensures ScanningReconciled() && AdvertisingReconciled() && Steady()
      ensures State() == Transferring(old(State()), isIncoming)
      ensures transferring && sendingFiles == (old(sendingFiles) || !isIncoming)
      ensures receivingFiles == (old(receivingFiles) || isIncoming)
    {
      transferring := true;
      if isIncoming {
        receivingFiles := true;
      } else {
        sendingFiles := true;
      }
      InvalidateSurfaceState();
    }

    method OnTransferComplete()
      requires Consistent()
      modifies this`receivingFiles, this`transferring, this`sendingFiles, this`delayedInvalidations
      ensures Consistent() && (old(Steady()) ==> Steady())
      ensures State() == Over(old(State())) && !transferring && !sendingFiles && !receivingFiles
      ensures delayedInvalidations == old(delayedInvalidations) + [TransferDone(old(sendingFiles))]
    {
      delayedInvalidations := delayedInvalidations + [TransferDone(sendingFiles)];
      receivingFiles := false;
      transferring := false;
      sendingFiles := false;
    }

    // The call is in order while scanning only. Its two checks on the state cannot fail: scanning
    // means that a send surface is registered and nothing is transferred. `targetKnown` and
    // `initiated` are what the targets manager and the session answer. A session that cannot
    // initiate is not connected, and yet the call succeeds.
    method SendAttachments(attachments: Option<Container>, targetKnown: bool, initiated: bool)
      returns (status: StatusCode)
      requires Steady()
      modifies this
      ensures Steady()
      ensures status.OutOfOrderApiCall? <==> !old(scanning)
      ensures status.InvalidArgument? <==> old(scanning) && !(Sendable(attachments) && targetKnown)
      ensures status.Error? <==>
        old(scanning) && Sendable(attachments) && targetKnown && initiated && !hasEndpointInfo(AllContacts)
      ensures status.Ok? && initiated ==> Connecting(old(State()))
      ensures !(status.Ok? && initiated) ==> State() == old(State()) && scanning == old(scanning)
    {
      if !scanning {
        return OutOfOrderApiCall;
      }
      assert foregroundSend != {} || backgroundSend != {};
      assert !transferring;
      if attachments.None? || !HasAttachments(attachments.value) {
        return InvalidArgument;
      }
      var pathless := FindPathlessFile(attachments.value.files);
      if pathless {
        return InvalidArgument;
      }
      if !targetKnown {
        return InvalidArgument;
      }
      status := Ok;
      if initiated {
        status := ConnectOutgoingSession();
      }
    }

    method FindPathlessFile(files: seq<File>) returns (found: bool)
      ensures found <==> exists i :: 0 <= i < |files| && !HasPath(files[i])
      ensures found <==> exists i :: 0 <= i < |files| && (files[i].path == None || files[i].path == Some(""))
    {
      for i := 0 to |files|
        invariant forall k :: 0 <= k < i ==> HasPath(files[k])
      {
        if files[i].path.None? || files[i].path.value == "" {
          return true;
        }
      }
      return false;
    }

    // Pairing connects without attachments, whether scanning or not.
    method InitiatePairing(targetKnown: bool, fileSync: bool) returns (status: StatusCode)
      requires Steady()
      modifies this
      ensures Steady() && !status.OutOfOrderApiCall?
      ensures status.InvalidArgument? <==> !(targetKnown && fileSync)
      ensures status.Error? <==> targetKnown && fileSync && !hasEndpointInfo(AllContacts)
      ensures if status.Ok? then Connecting(old(State())) else State() == old(State()) && scanning == old(scanning)
    {
      if !targetKnown {
        return InvalidArgument;
      }
      if !fileSync {
        return InvalidArgument;
      }
      status := ConnectOutgoingSession();
    }

    // A connection attempt has started from this state: the transfer and the connection flag are
    // set, and nothing is scanned.
    ghost predicate Connecting(before: Inputs)
      reads this
    {
      ScanningReconciled() && !scanning && State() == Transferring(before, false).(connecting := true)
    }

    // ConnectOutgoingSessionOnServiceThread, which fails without endpoint info only.
    method ConnectOutgoingSession() returns (status: StatusCode)
      requires Steady()
      modifies this
      ensures Steady()
      ensures status == if hasEndpointInfo(AllContacts) then Ok else Error
      ensures if status.Ok? then Connecting(old(State())) else State() == old(State()) && scanning == old(scanning)
    {
      if !hasEndpointInfo(AllContacts) {
        return Error;
      }
      BeginConnecting();
      return Ok;
    }

    method BeginConnecting()
      requires Steady()
      modifies this
      ensures Steady() && Connecting(old(State()))
    {
      OnTransferStarted(false);
      connecting := true;
      InvalidateScanningState();
    }

    // `admissible` tells that the surface is a foreground or background one and does not block
    // another vendor than those registered; `ended` is as for UnregisterSendSurface.
    method RegisterSendSurface(s: Surface, foreground: bool, admissible: bool, ended: bool) returns (ok: bool)
      requires Steady()
      modifies this
      ensures Steady()
      ensures ok <==> admissible && s !in old(foregroundSend + backgroundSend) && !old(receivingFiles)
      ensures ok ==> ScanningReconciled() && State() == WithSurface(old(State()), s, foreground)
      ensures !ok ==>
        var endsLast := admissible && ended && old(receivingFiles && foregroundSend == {} && backgroundSend == {});
        State() == if endsLast then Ended(old(State())) else old(State())
    {
      if !admissible {
        return false;
      }
      if s in foregroundSend || s in backgroundSend {
        return false;
      }
      ghost var before := State();
      AddSendSurface(s, foreground);
      if receivingFiles {
        TakeBackSendSurface(s, ended, before, foreground);
        return false;
      }
      InvalidateScanningState();
      return true;
    }

    // The surface just added to the state `before` is removed again.
    method TakeBackSendSurface(s: Surface, ended: bool, ghost before: Inputs, ghost foreground: bool)
      requires Steady() && State() == WithSurface(before, s, foreground)
      requires s !in before.foregroundSend && s !in before.backgroundSend
      modifies this
      ensures Steady()
      ensures State() == if ended && before.foregroundSend == {} && before.backgroundSend == {} then Ended(before)
                         else before
    {
      WithThenWithout(before, s, foreground);
      var _ := UnregisterSendSurface(s, ended);
    }

    method AddSendSurface(s: Surface, foreground: bool)
      requires Steady()
      modifies this`foregroundSend, this`backgroundSend
      ensures Steady() && State() == WithSurface(old(State()), s, foreground)
      ensures s in (if foreground then foregroundSend else backgroundSend)
    {
      if foreground {
        foregroundSend := foregroundSend + {s};
      } else {
        backgroundSend := backgroundSend + {s};
      }
    }

    // When the last surface goes, all sessions are closed; `ended` tells that one of them was in
    // a transfer, and so reports its final status.
    method UnregisterSendSurface(s: Surface, ended: bool) returns (ok: bool)
      requires Steady()
      modifies this
      ensures Steady() && ok == (s in old(foregroundSend + backgroundSend))
      ensures ok ==> ScanningReconciled() && AdvertisingReconciled()
      ensures ok ==>
        var left := WithoutSurface(old(State()), s);
        State() == if left.foregroundSend == {} && left.backgroundSend == {} && ended then Ended(left) else left
      ensures !ok ==> State() == old(State())
    {
      if s !in foregroundSend && s !in backgroundSend {
        return false;
      }
      RemoveSendSurface(s);
      if foregroundSend == {} && backgroundSend == {} {
        if ended {
          EndTransfer();
        }
      }
      InvalidateSurfaceState();
      ok := true;
    }

    // A session reports its final status.
    method EndTransfer()
      requires Consistent()
      modifies this`connecting, this`receivingFiles, this`transferring, this`sendingFiles, this`delayedInvalidations
      ensures Consistent() && (old(Steady()) ==> Steady()) && State() == Ended(old(State())) && !connecting
    {
      connecting := false;
      OnTransferComplete();
    }

    method RemoveSendSurface(s: Surface)
      requires Consistent()
      modifies this`foregroundSend, this`backgroundSend
      ensures Consistent() && State() == WithoutSurface(old(State()), s)
    {
      if s in foregroundSend {
        foregroundSend := foregroundSend - {s};
      } else {
        backgroundSend := backgroundSend - {s};
      }
    }

    // `blocked` tells that a receive surface of another vendor is registered.
    method RegisterReceiveSurface(s: Surface, foreground: bool, blocked: bool) returns (ok: bool)
      requires Steady()
      modifies this
      ensures Steady()
      ensures ok <==> s in old(if foreground then foregroundReceive else backgroundReceive)
                      || (s !in old(foregroundReceive + backgroundReceive) && !blocked)
      ensures var added := s !in old(foregroundReceive + backgroundReceive) && !blocked;
        && (added ==> AdvertisingReconciled())
        && State() == if !added then old(State())
                      else if foreground then old(State()).(foregroundReceive := old(foregroundReceive) + {s})
                      else old(State()).(backgroundReceive := old(backgroundReceive) + {s})
    {
      if s in (if foreground then foregroundReceive else backgroundReceive) {
        return true;
      }
      if s in foregroundReceive || s in backgroundReceive {
        return false;
      }
      if blocked {
        return false;
      }
      if foreground {
        foregroundReceive := foregroundReceive + {s};
      } else {
        backgroundReceive := backgroundReceive + {s};
      }
      InvalidateAdvertisingState();
      return true;
    }

    method UnregisterReceiveSurface(s: Surface)
      requires Steady()
      modifies this
      ensures Steady()
      ensures State() == if s in old(foregroundReceive)
                         then old(State()).(foregroundReceive := old(foregroundReceive) - {s})
                         else old(State()).(backgroundReceive := old(backgroundReceive) - {s})
      ensures s in old(foregroundReceive + backgroundReceive) ==> ScanningReconciled() && AdvertisingReconciled()
    {
      if s !in foregroundReceive && s !in backgroundReceive {
        return;
      }
      if s in foregroundReceive {
        foregroundReceive := foregroundReceive - {s};
      } else {
        backgroundReceive := backgroundReceive - {s};
      }
      InvalidateSurfaceState();
    }

    method OnLockStateChanged(locked: bool)
      requires Steady()
      modifies this
      ensures State() == old(State()).(screenLocked := locked)
      ensures Steady() && ScanningReconciled() && AdvertisingReconciled()
    {
      screenLocked := locked;
      InvalidateSurfaceState();
    }

    // The part of OnOutgoingTransferUpdate that changes this state.
    method OnOutgoingTransferUpdate(isFinal: bool, awaitingLocalConfirmation: bool)
      requires Steady()
      modifies this
      ensures Steady()
      ensures State() == if isFinal then Ended(old(State()))
        else if awaitingLocalConfirmation then Transferring(old(State()), false).(connecting := false)
        else old(State())
    {
      if isFinal {
        connecting := false;
        OnTransferComplete();
      } else if awaitingLocalConfirmation {
        connecting := false;
        OnTransferStarted(false);
      }
    }

    method StopAdvertisingAndInvalidateSurfaceState()
      requires Consistent()
      modifies this
      ensures Steady() && ScanningReconciled() && AdvertisingReconciled() && State() == old(State())
      ensures adCalls == old(adCalls) + Calls(old(broadcasting), None, false)
                         + Calls(None, Wanted(), hasEndpointInfo(WantedVisibility()))
    {
      if advertisingPower != UnknownPower {
        StopAdvertising();
      }
      InvalidateSurfaceState();
    }

    // The service thread runs one task after another: between any two, scanning implies a
    // foreground send surface, an unlocked screen, no transfer and no connection attempt.
    method RunTask(task: Task)
      requires Steady()
      modifies this
      ensures Steady()
      ensures task.Invalidate? || task.StopAndInvalidate? ==> ScanningReconciled() && AdvertisingReconciled()
    {
      match task {
        case RegisterSend(s, foreground, admissible, ended) =>
          var _ := RegisterSendSurface(s, foreground, admissible, ended);
        case UnregisterSend(s, ended) => var _ := UnregisterSendSurface(s, ended);
        case RegisterReceive(s, foreground, blocked) => var _ := RegisterReceiveSurface(s, foreground, blocked);
        case UnregisterReceive(s) => UnregisterReceiveSurface(s);
        case LockChanged(locked) => OnLockStateChanged(locked);
        case Send(attachments, known, initiated) => var _ := SendAttachments(attachments, known, initiated);
        case Pair(known, fileSync) => var _ := InitiatePairing(known, fileSync);
        case AwaitingLocalConfirmation(incoming) =>
          if incoming { OnTransferStarted(true); } else { OnOutgoingTransferUpdate(false, true); }
        case OutgoingFinished => OnOutgoingTransferUpdate(true, false);
        case IncomingFinished => OnTransferComplete();
        case Invalidate => InvalidateSurfaceState();
        case StopAndInvalidate => StopAdvertisingAndInvalidateSurfaceState();
        case EnvironmentChanged(asleep, mediums, v) => suspended, mediumsAvailable, visibility := asleep, mediums, v;
      }
    }

    method RunTasks(tasks: seq<Task>)
      requires Steady()
      modifies this
      ensures Steady()
    {
      for i := 0 to |tasks|
        invariant Steady()
      {
        RunTask(tasks[i]);
      }
    }
  }

  // What reconciliation amounts to, condition by condition.
  lemma OnTheAir(service: NearbySharingServiceImpl)
    requires service.ScanningReconciled() && service.AdvertisingReconciled()
    ensures service.suspended || !service.mediumsAvailable || service.transferring ==>
              !service.discovering && service.broadcasting.None?
    ensures service.screenLocked || service.connecting || service.foregroundSend == {} ==> !service.discovering
    ensures service.discovering ==> service.scanning && service.foregroundSend != {}
    ensures (!service.suspended && service.mediumsAvailable && !service.screenLocked && !service.transferring
             && !service.connecting && service.foregroundSend != {}) ==> service.discovering
    ensures service.screenLocked && service.broadcasting.Some? ==>
              service.supportsAdvertisingOnLockScreen && service.broadcasting.value.visibility == SelfShare
    ensures !service.screenLocked && service.broadcasting.Some? ==>
              service.broadcasting.value.visibility == service.visibility
    ensures service.visibility.Hidden? || service.visibility.Unspecified? ==> service.broadcasting.None?
    ensures service.foregroundReceive == {} && service.backgroundReceive == {} ==> service.broadcasting.None?
    ensures service.broadcasting.Some? ==>
              (service.broadcasting.value.power == HighPower <==> service.foregroundReceive != {})
              && (service.broadcasting.value.power == LowPower <==> service.foregroundReceive == {})
    ensures (!service.suspended && service.mediumsAvailable && !service.transferring
             && (service.screenLocked ==> service.supportsAdvertisingOnLockScreen)
             && !service.visibility.Hidden? && !service.visibility.Unspecified?
             && (service.foregroundReceive != {} || service.backgroundReceive != {})
             && service.hasEndpointInfo(if service.screenLocked then SelfShare else service.visibility)) ==>
              service.broadcasting.Some?
  {
  }
}
