# Quick Share sharing layer: verified model

A Dafny model of the sharing layer's state machines and of the two wire formats they agree on.
`dafny verify dfyconfig.toml` checks everything.

Objects whose methods update their fields are classes whose methods are proved against a
specification function (`Next`, `Process`, `Parse`, ...); what the code promises is then proved
about that function, over every run. The network, the task runner, clocks, random numbers, the
file system and the callers are inputs: a sequence of events, a function, or a parameter. Each
locked section and each task of the service thread is one step. Callback invocations and sends
are recorded in ghost logs. For the manager, the tracker, the connection attempts, a session's
statuses and deferred sending, what is in those logs and in the state is then also told from the
events alone, so that nothing is missing from them and nothing is in them besides.

- `Mailbox.dfy`, `FramesReader.dfy`: selective receive. The reader with its request queue, its
  cache of early frames and the connection's single read slot refines a mailbox ("the first
  undelivered frame of type t"). Callbacks may read again; the client is an arbitrary tape of
  decisions.
- `OutgoingTargets.dfy`: the index of discovered targets with its discovery cache.
- `Advertisement.dfy`, `AdvertisementFormat.dfy`: printer and parser of advertisements, inverse
  to each other, and the format byte by byte.
- `PayloadTracker.dfy`, `TrackerHistory.dfy`, `TrackerStart.dfy`, `PayloadRelay.dfy`,
  `PayloadHistory.dfy`: payload accounting, from the manager's listeners to the tracker's counts,
  sums and answers.
- `Introduction.dfy`, `IntroductionReceiver.dfy`, `IntroductionRefusal.dfy`,
  `IntroductionRoundTrip.dfy`: how a transfer is introduced, what the receiver makes of it, what
  a refusal leaves behind, and what both sides agree on after an acceptance.
- `ThreadTimer.dfy`: the lock-free cancel and fire protocol, in all its interleavings.
- `DeferredSending.dfy`, `ConnectLifecycle.dfy`, `ConnectHistory.dfy`, `SessionStatus.dfy`,
  `PairedKey.dfy`, `SurfaceState.dfy`: state machines with guarantees over whole runs.
- `TokenDigits.dfy`: the four-digit token in 32-bit arithmetic.

Where the code does not keep what one may expect of it, the model follows the code:

- After a request is answered the next one is taken up, with a read issued, if and only if the
  callback leaves at most one request in the queue, counting those it read and got no answer to
  (`ServesInOrderIffAtMostTwo`, `Done`). Otherwise the first one left goes behind the others, and
  if others were queued before the callback ran, the reader stalls: reads only queue up, packets
  stay at the connection, no timer runs, and even the end of the connection changes nothing until
  the reader itself goes (`Stalled`, `ReadFrame`, `Receive`, `ConnectionClosed`,
  `ReaderDestroyed`). The header asks callers to wait for their callback
  (`sharing/incoming_frames_reader.h:55-56`).
- A lost target's cache entry can be overwritten by that of another one, and the target is then
  never reported lost (`ForgottenTarget`). That happens if and only if a target is lost at an
  endpoint the cache has an entry for (`LossForgetsIff`, `SweepForgetsIff`); discoveries and
  expiries forget nobody, and nothing brings a forgotten target back (`Handle`, `HandleAll`).
- A second `Connect` to a pending endpoint is dropped with its callback, which is never invoked
  (`ConnectIsKeptIffNotPending`).
- A timed-out attempt reports the timeout if and only if its connection had been initiated when
  the timer fired (`TimeoutIsReportedIffInitiated`), and is still handed over if it is accepted
  before it ends (`AcceptedAfterTimeout`).
- The tracker counts a success twice if it is told twice (`ToldTwice`), and its sums may then
  exceed the total (`LateUpdateOvershoots`); the manager is what keeps that from happening
  (`OneTerminalPerRegistrationFor`, `TrackedCountIsExact`), as long as no listener is registered
  for a payload again (`RegisteredIsTold`).
- A file payload's id is a hash of its path. A file that is sent twice in one transfer shares its
  payload: its tracker shows 50 percent when all is sent and completes with the first success
  (`SharedPayload`). A tracker is sound if and only if no payload is shared
  (`SoundIffOwnPayloads`), that is, no path is repeated (`AcceptedTrackerSoundIffDistinctPaths`).
- Acceptance bounds the sum of file sizes only: the tracker's total is the sum of all sizes if and
  only if that fits into 64 bits (`AcceptedTrackerSoundIffSumFits`, `LongTextsWrap`). Of apps it
  sums what they declare, so that the storage needed may exceed an int64_t (`StorageFits`,
  `StorageMayNotFit`).
- One side of the paired-key handshake can report success while the other does not: a side tells
  its peer what it makes of the signature, but not whether it knows the hash
  (`OnlyOneSucceedsIff`).
- Both sides end with the same attachment map if and only if no id is that of a file and of
  another attachment with different payloads (`MapsAgree`, `EqualIdsDisagree`).
- An advertisement reads back exactly if it is printable; a version 1 advertisement, an empty
  name, a vendor id above 1 or an unknown device type does not (`RoundTripIffPrintable`).
- A refused introduction leaves in the payload map the entries of the rows before the one that
  stops it (`ProcessIntroduction`, `FirstFileStays`), and none if and only if the first row that
  comes with an entry is not read (`RefusalLeavesMapEmptyIff`).
- An attachment that comes without an id is given one that the map does not have. The receiver
  tracks every attachment if and only if all come with ids (`AllMappedIffNonzeroIds`,
  `TextWithoutIdIsUntracked`); a sender's have them (`sharing/attachment.cc:39-41`).

## Model

| member | source | states |
|---|---|---|
| Mailbox.KeptInOrder | sharing/incoming_frames_reader.cc:148-181 | within each frame type, what was delivered followed by what is still undelivered is what arrived: no decodable frame is lost, duplicated or reordered |
| Mailbox.EachRequestAnsweredOnce | sharing/incoming_frames_reader.cc:183-218 | every request's callback runs exactly once, in the order of the requests, except that of the pending one |
| Mailbox.LossBoundedByTimeouts | sharing/incoming_frames_reader.cc:143-163 | frames lost plus timeouts that have not cost a frame yet equal the timeouts |
| Mailbox.DeliveryIsEarliestMatch | sharing/incoming_frames_reader.cc:220-244 | wherever a run delivers a frame, it is of the type its request asked for, if any, and is the next of its type to have arrived; a read of any frame gets the first of all undelivered ones |
| FramesReader.Connection.Read | sharing/nearby_connection_impl.cc:57-71 | takes the oldest packet or registers the one waiting callback, never both |
| FramesReader.Connection.WriteMessage | sharing/nearby_connection_impl.cc:79-93 | hands a packet to the waiting callback or queues it last |
| FramesReader.ServesInOrderIffAtMostTwo | sharing/incoming_frames_reader.cc:196-218 | those left come next in order, with a read issued, if and only if the answered request, those queued behind it and those its callback leaves in the queue are at most two |
| FramesReader.ThreePendingRequestsStall | sharing/incoming_frames_reader.cc:196-218 | three queued requests, and two whose first callback reads again, come out reordered with no read issued |
| FramesReader.IncomingFramesReader.ReadFrame | sharing/incoming_frames_reader.cc:69-94 | with requests queued a read only joins the queue, so a stalled reader stays stalled; otherwise it is taken up |
| FramesReader.IncomingFramesReader.ProcessReadRequest | sharing/incoming_frames_reader.cc:82-124 | a request is answered from the cache or left waiting with its read issued, and the reader still refines its mailbox |
| FramesReader.IncomingFramesReader.PopCachedFrame | sharing/incoming_frames_reader.cc:220-244 | removes and returns the first cached frame that matches, if any |
| FramesReader.IncomingFramesReader.RunCallback | sharing/incoming_frames_reader.cc:196-206 | a callback that is run is logged with its frame, or without, and its client decides: with requests queued what it reads joins them, otherwise it is taken up until a decision is empty or a request is left |
| FramesReader.IncomingFramesReader.OnDataReadFromConnection | sharing/incoming_frames_reader.cc:148-181 | a frame of another type is cached and the read reissued, an undecodable one skipped, a matching one delivered |
| FramesReader.IncomingFramesReader.Done | sharing/incoming_frames_reader.cc:196-218 | with any number of requests queued: the front callback is run with the frame, and its client takes a decision; one request left is taken up, several are rotated, and the reader stalls if any had been queued before; the run stays a legal mailbox run |
| FramesReader.IncomingFramesReader.Resume | sharing/incoming_frames_reader.cc:206-217 | a single request left is processed, several are rotated with nothing else changed |
| FramesReader.IncomingFramesReader.CloseAllPendingReads | sharing/incoming_frames_reader.cc:183-194 | every queued callback, however many and in whatever order, is run once and in order with no frame; after a timeout the client takes a decision in each, and what it reads is taken up; when the connection is gone it takes none |
| FramesReader.IncomingFramesReader.OnTimeout | sharing/incoming_frames_reader.cc:143-146 | the timer of the pending request runs every queued callback as a timeout, and no other |
| FramesReader.IncomingFramesReader.Receive | sharing/nearby_connection_impl.cc:79-93 | bytes reach the reader, or stay queued; a frame is lost only to a stale read; a stalled reader stays stalled |
| FramesReader.IncomingFramesReader.ConnectionClosed | sharing/nearby_connection_impl.cc:37-55 | a registered read ends all pending ones, each callback run once and in order with no frame; without one, as in a stall, nothing happens to them |
| FramesReader.IncomingFramesReader.ReaderDestroyed | sharing/incoming_frames_reader.cc:64-67 | every queued callback is run once and in order with no frame, a stalled or reordered reader's too |
| FramesReader.IncomingFramesReader.RunEvents | sharing/incoming_frames_reader.cc:64-244 | with a client that waits for its callbacks, every sequence of packets, reads and timeouts leaves the reader quiet with at most one request, at every point; and however often any request was read, by the caller or by a callback, so often it was called back or is queued |
| FramesReader.WholeRun | sharing/incoming_frames_reader.cc:82-244 | whenever the reader is quiet, or its connection gone, for every client and every interleaving up to there: typed order is kept, each request taken up is answered once, each timeout loses at most one frame and only a request with a timeout times out, the callbacks run with a frame are the deliveries and in their order, and while a request is pending a read is registered, no packet waits and nothing undelivered matches it |
| OutgoingTargets.OutgoingTargetsManager.OnShareTargetDiscovered | sharing/outgoing_targets_manager.cc:70-116 | a target known by endpoint or device id keeps its announced id and is updated, a cached one is revived under its id, any other is discovered; exact new maps and exactly one notice |
| OutgoingTargets.OutgoingTargetsManager.FindInDiscoveryCache | sharing/outgoing_targets_manager.cc:118-152 | finds an entry by endpoint, else by device id, and removes it with its timer |
| OutgoingTargets.OutgoingTargetsManager.FindExistingTargetId | sharing/outgoing_targets_manager.cc:154-187 | the id of the session with this endpoint, else of one with this device id |
| OutgoingTargets.OutgoingTargetsManager.RemoveTarget | sharing/outgoing_targets_manager.cc:189-222 | removes endpoint and session together; the branch for an endpoint without session is unreachable |
| OutgoingTargets.OutgoingTargetsManager.OnShareTargetLost | sharing/outgoing_targets_manager.cc:228-260 | moves an inactive target to the cache with a timer of its own, keeping the invariants and traces |
| OutgoingTargets.OutgoingTargetsManager.OnExpiry | sharing/outgoing_targets_manager.cc:228-260 | a timer that fires finds its own cache entry, removes it and reports the loss |
| OutgoingTargets.OutgoingTargetsManager.AddTarget | sharing/outgoing_targets_manager.cc:262-297 | adds both map entries; no conflict for an id without session |
| OutgoingTargets.OutgoingTargetsManager.AllTargetsLost | sharing/outgoing_targets_manager.cc:309-319 | every target without an active session ends in the cache, the rest stay; the observers are told of each target that leaves, once, with receiving disabled, and of nothing else |
| OutgoingTargets.OutgoingTargetsManager.Cleanup | sharing/outgoing_targets_manager.cc:321-331 | walking the endpoint map alone empties the session map too |
| OutgoingTargets.AddKeepsInverse | sharing/outgoing_targets_manager.cc:262-297 | adding a target keeps the endpoint map and the sessions' endpoints inverse to each other |
| OutgoingTargets.MoveKeepsInverse | sharing/outgoing_targets_manager.cc:84-101 | so does moving a session to a new endpoint |
| OutgoingTargets.RemoveKeepsInverse | sharing/outgoing_targets_manager.cc:189-222 | so does removing one |
| OutgoingTargets.SessionsHaveEndpoints | sharing/outgoing_targets_manager.cc:321-331 | no session is left once the endpoint map is empty |
| OutgoingTargets.NewSessionKeeps | sharing/outgoing_targets_manager.cc:104-116 | a session for a target that is new, or revived from its cache entry, keeps maps, cache and traces consistent |
| OutgoingTargets.DiscoveryRemembers | sharing/outgoing_targets_manager.cc:70-116 | a discovery forgets no target: whatever was announced and not reported lost still has a session or a cache entry |
| OutgoingTargets.ExpiryRemembers | sharing/outgoing_targets_manager.cc:245-256 | nor does an expiry |
| OutgoingTargets.LossForgetsIff | sharing/outgoing_targets_manager.cc:228-260 | a loss forgets a target, which is then held nowhere, if and only if the cache has an entry for the lost endpoint |
| OutgoingTargets.ForgottenTarget | sharing/outgoing_targets_manager.cc:259-259 | four calls after which an announced target is held nowhere |
| OutgoingTargets.SweepForgetsIff | sharing/outgoing_targets_manager.cc:309-319 | the loss of all targets forgets one if and only if an endpoint without active session has a cache entry |
| OutgoingTargets.Handle | sharing/outgoing_targets_manager.cc:70-319 | every event keeps the invariants and forgets a target if and only if it is one of these losses; a forgotten target stays so |
| OutgoingTargets.HandleAll | sharing/outgoing_targets_manager.cc:70-319 | over every run all targets are remembered at the end if and only if no event on the way was one of these losses, and a forgotten target is never held or reported lost again |
| OutgoingTargets.LeadsOn | sharing/outgoing_targets_manager.cc:70-319 | one more event of a run, remembering or not |
| OutgoingTargets.PhasesAreShapes | sharing/outgoing_targets_manager.cc:70-116 | the phase automaton accepts exactly the notices of the form discovered, updated any number of times, at most one lost |
| OutgoingTargets.TracesWellShaped | sharing/outgoing_targets_manager.cc:70-260 | after every run each id's notices have that form, and an id reported lost is held by no session and no cache entry |
| AdvertisementCodec.HeaderFields | sharing/advertisement.cc:81-122 | version, name flag and device type are read back from the header byte, type 7 as the unknown type 0 |
| AdvertisementCodec.ParseCapabilitiesLoop | sharing/advertisement_capabilities.cc:27-40 | one file-sync capability for every byte that equals 1, in order; other bytes, 3 among them, yield none |
| AdvertisementCodec.CapabilitiesToBytes | sharing/advertisement_capabilities.cc:42-59 | the one byte for a set of capabilities, or none |
| AdvertisementCodec.ToEndpointInfo | sharing/advertisement.cc:160-208 | the buffer the method fills is the printed form |
| AdvertisementCodec.FromEndpointInfo | sharing/advertisement.cc:210-304 | the cursor parser computes the grammar's parse of every byte string, every read in bounds |
| AdvertisementCodec.ReadElements | sharing/advertisement.cc:257-295 | the element loop ends and reads the elements of the tail or fails with it |
| AdvertisementCodec.RoundTripIffPrintable | sharing/advertisement.cc:160-304 | an advertisement reads back as itself if and only if its version is 0, its name is not empty, its vendor id is 0 or 1, its device type at most 6 and its capabilities are the known one or none |
| AdvertisementCodec.ParsedIsPrintable | sharing/advertisement.cc:210-304 | every parsed advertisement is printable, whatever version the bytes name, and has known capabilities only |
| AdvertisementCodec.ParsePrintParse | sharing/advertisement.cc:160-304 | parsing, printing and parsing again is parsing once |
| AdvertisementCodec.InsertSkippedElement | sharing/advertisement.cc:257-295 | a well-formed element of a skipped type at an element boundary changes neither what the tail yields nor whether it fails |
| AdvertisementCodec.InsertSkippedInAdvertisement | sharing/advertisement.cc:210-304 | the same for whole advertisements |
| AdvertisementFormat.HeaderReads | sharing/advertisement.cc:97-122 | what each bit of a header byte means to the parser |
| AdvertisementFormat.PrintedLayout | sharing/advertisement.cc:160-208 | the printed bytes: header, salt, key, length and name, then the vendor element 2 and the capability element 3, if there are any |
| AdvertisementFormat.ParsedLayout | sharing/advertisement.cc:210-304 | every byte string is accepted exactly if its front, 17 bytes of version 0 or 1 and a name that is whole, and its tail of elements are; and where each field is taken from |
| AdvertisementFormat.ElementsDecide | sharing/advertisement.cc:257-295 | any list of elements is read if and only if each vendor element has one byte, and then the last of each kind decides |
| AdvertisementFormat.EveryTailSplits | sharing/advertisement.cc:257-295 | every tail is a list of elements and an end that is ignored, or cut short and then refused; so this is what every tail means |
| PayloadTracking.PayloadTracker.constructor | sharing/payload_tracker.cc:41-96 | the loops build the tracker that Track specifies |
| PayloadTracking.PayloadTracker.ProcessPayloadUpdate | sharing/payload_tracker.cc:110-140 | the method's new state and report are those of Process |
| PayloadTracking.PayloadTracker.OnTransferUpdate | sharing/payload_tracker.cc:142-231 | the method's report and what it records are those of Respond |
| TrackerStart.TrackerStarts | sharing/payload_tracker.cc:41-96 | attachments with a payload each: one payload per attachment, in order and with its size; the total is the sum modulo 2^64 and the tracker is sound if and only if the sum fits |
| TrackerStart.SoundIffOwnPayloads | sharing/payload_tracker.cc:41-96 | positive sizes whose sum fits: the tracker is sound if and only if no two attachments share a payload |
| TrackerStart.SharedPayload | sharing/payload_tracker.cc:53-55 | two attachments of one payload: total 20, one payload, 50 percent when all is sent, complete with the first success |
| PayloadTracking.CountIsSuccessesPlusLate | sharing/payload_tracker.cc:110-140 | over every stream the count is the number of payloads in success state plus the number of updates of payloads that had succeeded already; so it is exact if and only if there are none |
| PayloadTracking.CompleteIffAllSucceeded | sharing/payload_tracker.cc:142-151 | without late updates, completion is reported exactly when all payloads have succeeded |
| PayloadTracking.ToldTwice | sharing/payload_tracker.cc:123-151 | a success told twice completes a transfer whose other payload has not succeeded |
| PayloadTracking.NothingWraps | sharing/payload_tracker.cc:245-259 | one update: transferred is the exact sum, transferred and remaining add up to the total, percent is within 0 and 100 |
| PayloadTracking.EveryReportInRange | sharing/payload_tracker.cc:110-259 | the same for every report of every interleaving of updates within their payloads' sizes, none late |
| PayloadTracking.LateUpdateOvershoots | sharing/payload_tracker.cc:245-259 | one late update takes the percentage to 166 and makes what remains wrap around |
| PayloadTracking.ProgressNeverGoesBack | sharing/payload_tracker.cc:169-216 | if payloads run one after another with non-decreasing bytes, progress never decreases and the difference for the speed never wraps |
| TrackerHistory.SumsAre | sharing/payload_tracker.cc:110-140 | after any updates the confirmed bytes are those of all successes, modulo 2^64; the total and the payloads stay |
| TrackerHistory.PayloadIs | sharing/payload_tracker.cc:110-140 | each payload has its last status and the largest number of bytes reported for it |
| TrackerHistory.RecordsLast | sharing/payload_tracker.cc:169-231 | what is recorded is the percentage of the last report that had one, and the bytes of the last that was sampled |
| TrackerHistory.AnswerIs | sharing/payload_tracker.cc:142-259 | what each update of a tracked payload is answered, told from the updates: completion, else cancellation, else failure, else the progress unless it is as before |
| TrackerHistory.OthersAreIgnored | sharing/payload_tracker.cc:110-118 | an update of any other payload changes nothing and is not answered |
| PayloadRelay.NearbyConnectionsManagerImpl.Cancel | sharing/nearby_connections_manager_impl.cc:556-581 | the listener leaves and is told once, if it is still alive |
| PayloadRelay.NearbyConnectionsManagerImpl.OnPayloadReceived | sharing/nearby_connections_manager_impl.cc:794-820 | what is kept, and what is cancelled as unknown or repeated |
| PayloadRelay.NearbyConnectionsManagerImpl.OnPayloadTransferUpdate | sharing/nearby_connections_manager_impl.cc:845-896 | an update goes to its listener, which leaves on a terminal one, or completes an incoming message |
| PayloadRelay.NearbyConnectionsManagerImpl.ClearIncomingPayloads | sharing/nearby_connections_manager_impl.cc:583-592 | the loop removes exactly the listeners of incoming payloads |
| PayloadRelay.OneTerminalPerRegistration | sharing/nearby_connections_manager_impl.cc:541-592 | over every run, terminal updates told plus listeners standing never exceed the registrations of a payload |
| PayloadRelay.OneTerminalPerRegistrationFor | sharing/nearby_connections_manager_impl.cc:541-592 | the same for each listener: its terminal updates of a payload plus its standing registration never exceed its registrations |
| PayloadRelay.OnceRegisteredEndsOnce | sharing/nearby_connections_manager_impl.cc:845-876 | a listener registered at most once for each payload is told nothing of a payload after its terminal update, whoever else is registered for it |
| PayloadRelay.TrackedCountIsExact | sharing/nearby_connections_manager_impl.cc:556-581 | manager and tracker together: after any part of what the listener was told, the count is the number of payloads that succeeded and completion is reported exactly when all have |
| PayloadRelay.TrackedReportsInRange | sharing/nearby_connections_manager_impl.cc:845-876 | manager and tracker together: every report is in range |
| PayloadRelay.RegisteredIsTold | sharing/nearby_connections_manager_impl.cc:541-545 | after any run a registration lets its listener be told the next update, so the hypothesis is needed |
| PayloadRelay.WrittenAtMostOncePerReceipt | sharing/nearby_connections_manager_impl.cc:878-896 | an incoming message is written to a connection at most once per receipt |
| PayloadHistory.ManagerKnows | sharing/nearby_connections_manager_impl.cc:541-592 | over every run: who listens for a payload, and which payloads are received and not done, told from the events alone |
| PayloadHistory.ToldAndWrittenExactly | sharing/nearby_connections_manager_impl.cc:794-896 | over every run what listeners were told, what was written and what the service was told to cancel is exactly what the events call for, in order: a message is written once when the success of a received payload without a listener meets a connection, and nothing else is; a payload is cancelled on request, when it is unknown and not bytes, and when it is received again |
| PayloadHistory.MessageIsWritten | sharing/nearby_connections_manager_impl.cc:878-896 | a message that was received and not cleared since is written when its success arrives, whatever came before and in between |
| Introduction.OutgoingShareSession.CreateTextPayloads | sharing/outgoing_share_session.cc:206-219 | one payload per text, mapped in order |
| Introduction.OutgoingShareSession.CreateWifiCredentialsPayloads | sharing/outgoing_share_session.cc:221-240 | one payload per Wi-Fi credentials, mapped in order |
| Introduction.OutgoingShareSession.CreateFilePayloads | sharing/outgoing_share_session.cc:242-266 | sizes and payloads up to the first file whose size cannot be found, and whether there is one |
| Introduction.ToInt64 | sharing/outgoing_share_session.cc:242-266 | a file size is stored as it is if it fits into int64, and otherwise as the number in range that is the same modulo 2^64 |
| Introduction.OutgoingShareSession.InitiateSendAttachments | sharing/outgoing_share_session.cc:156-196 | succeeds exactly if all sizes are known and there is an attachment, and the state it then leaves |
| Introduction.OutgoingShareSession.FillIntroductionFrame | sharing/outgoing_share_session.cc:268-323 | there is a frame exactly if there are attachments and as many payloads, and it lists them in order |
| Introduction.OutgoingShareSession.ExtractNextPayload | sharing/outgoing_share_session.cc:488-508 | sends the texts', then the files', then the credentials' payloads, each list from its end, each once |
| IntroductionReceiver.IncomingShareSession.ProcessIntroduction | sharing/incoming_share_session.cc:88-208 | accepts exactly the acceptable frames, refuses for lack of space exactly on overflow after files and apps in order; the attachments it leaves, apps' files among them, and the row at which it stops, with the map entries of exactly those before it, and of a file that overflows |
| IntroductionReceiver.IncomingShareSession.ReadApps | sharing/incoming_share_session.cc:126-170 | an app is accepted exactly if its declared size is positive and fits, its lists match and its files have positive sizes; its files join in order with random ids; a refused app leaves its entries up to the first file without a positive size, or none |
| IntroductionReceiver.EveryAppFile | sharing/incoming_share_session.cc:126-170 | the j-th file of the i-th app is rebuilt from its own name and size, under a random id that is mapped to its own payload, after the frame's files and those of the apps before it |
| IntroductionReceiver.EveryFileRow | sharing/incoming_share_session.cc:105-124 | each file row is rebuilt from its own fields, under its id or a random one for id 0 |
| IntroductionReceiver.EveryTextRow | sharing/incoming_share_session.cc:172-184 | so is each text row |
| IntroductionReceiver.EveryWifiRow | sharing/incoming_share_session.cc:186-200 | and each row of credentials |
| IntroductionRefusal.StopIsUnique | sharing/incoming_share_session.cc:88-208 | a frame has one verdict and one row at which the reading stops |
| IntroductionRefusal.EntriesReadIff | sharing/incoming_share_session.cc:88-208 | a refusal leaves map entries if and only if the first row that comes with one, file, app file or text, is read |
| IntroductionRefusal.RefusalLeavesMapEmptyIff | sharing/incoming_share_session.cc:105-126 | a fresh session's map is empty after a refusal if and only if that row is not read |
| IntroductionRefusal.FirstFileStays | sharing/incoming_share_session.cc:105-124 | files of sizes 5 and 0 are refused, and the first one stays in the map |
| IntroductionRoundTrip.AttachmentsComeThrough | sharing/incoming_share_session.cc:105-200 | the receiver rebuilds the sender's attachments family by family and in order |
| IntroductionRoundTrip.AcceptedIff | sharing/incoming_share_session.cc:105-206 | an introduction is accepted exactly if file and text sizes are positive and the file sizes fit into int64 |
| IntroductionRoundTrip.MapsAgree | sharing/outgoing_share_session.cc:206-266 | both sides end with the same map, although they write it in different orders, if and only if no id is that of a file and of another attachment with different payloads |
| IntroductionRoundTrip.DistinctIdsAreCompatible | sharing/share_session.cc:254-257 | distinct ids are enough |
| IntroductionRoundTrip.EqualIdsDisagree | sharing/share_session.cc:254-257 | for every file and text of one id with different payloads the maps differ |
| IntroductionRoundTrip.ReceiverTracks | sharing/payload_tracker.cc:41-96 | the tracker that the receiver starts from what it has rebuilt is that of the sender's attachments and the map it was sent |
| IntroductionRoundTrip.AllMappedIffNonzeroIds | sharing/attachment.cc:38-45 | the receiver finds a payload for each attachment if and only if all came with ids, drawn ids being apart from those sent |
| IntroductionRoundTrip.TextWithoutIdIsUntracked | sharing/payload_tracker.cc:68-80 | a text that comes without an id is accepted and not tracked |
| IntroductionRoundTrip.TrackersAgree | sharing/share_session.cc:309-318 | both sides start the same tracker if their maps agree |
| IntroductionRoundTrip.AcceptedTrackerSoundIffSumFits | sharing/payload_tracker.cc:41-96 | attachments with ids and a payload each: the receiver's tracker has one payload per attachment, and its total is the sum of all sizes if and only if that is below 2^64 |
| IntroductionRoundTrip.LongTextsWrap | sharing/incoming_share_session.cc:172-184 | three texts of the largest size are accepted and wrap the total around |
| IntroductionRoundTrip.AcceptedTrackerSoundIffOwnPayloads | sharing/payload_tracker.cc:41-96 | if the sum fits, the receiver's tracker is sound if and only if no payload is shared |
| IntroductionRoundTrip.AcceptedTrackerSoundIffDistinctPaths | sharing/outgoing_share_session.cc:242-266 | that is, if hashes do not collide and drawn ids are apart, if and only if no file path is repeated |
| IntroductionRoundTrip.StorageIs | sharing/attachment_container.cc:111-120 | the storage an accepted frame needs is that of its files and of its apps' files, whatever the apps declare |
| IntroductionRoundTrip.StorageFits | sharing/incoming_share_session.cc:126-170 | it fits into int64 if accepted apps declare at least the sizes of their files |
| IntroductionRoundTrip.StorageMayNotFit | sharing/incoming_share_session.cc:126-170 | an app that declares less is accepted and makes it exceed int64 |
| IntroductionRoundTrip.Introduced | sharing/outgoing_share_session.cc:156-323 | the methods of both sides together, from fresh sessions: when the introduction succeeds, what the receiver then has, and when the maps are equal |
| ThreadTimer.StepKeepsInv | sharing/thread_timer.cc:31-74 | every atomic step of either side keeps the protocol's invariant |
| ThreadTimer.EveryInterleavingIsSafe | sharing/thread_timer.cc:31-74 | the task runs at most once, the counter is freed at most once and never touched after |
| ThreadTimer.FreedWhenBothAreThrough | sharing/thread_timer.cc:31-74 | once both sides are through the counter has been freed |
| ThreadTimer.CancelledNeverStarts | sharing/thread_timer.cc:36-67 | once a Cancel's increment has come first, the task never starts in any continuation, even before the Cancel is through |
| ThreadTimer.IsRunningMeansArmed | sharing/thread_timer.cc:31-74 | every answer of IsRunning, with the counter or without, is true if and only if the task was posted and neither its nor a Cancel's increment has come |
| ThreadTimer.CancelIsThrough | sharing/thread_timer.cc:58-67 | a Cancel returns whatever the task has done, having counted itself once, dropped its pointer and freed the counter if the task had counted first |
| ThreadTimer.QuestionIsAnswered | sharing/thread_timer.cc:69-74 | IsRunning returns with one answer and changes nothing else |
| ThreadTimer.TaskGoesOn | sharing/thread_timer.cc:31-54 | a posted task always gets to its end: it runs unless a Cancel has counted first, and otherwise frees the counter |
| ThreadTimer.GoneIsUntouched | sharing/thread_timer.cc:31-74 | once the counter is freed neither side is about to access it |
| DeferredSending.TransferManager.Send | sharing/transfer_manager.cc:60-72 | a payload is parked while waiting and forwarded otherwise |
| DeferredSending.TransferManager.StopWaitingForHighQualityMedium | sharing/transfer_manager.cc:137-148 | the draining loop forwards everything parked, in order |
| DeferredSending.SendFile | sharing/nearby_connections_manager_impl.cc:505-526 | the manager's Send followed by StartTransfer |
| DeferredSending.ForwardedThenParkedIsSubmitted | sharing/transfer_manager.cc:60-148 | over every run forwarded followed by parked is submitted, and nothing is parked once waiting ends |
| DeferredSending.WaitingNeverResumes | sharing/transfer_manager.cc:60-148 | waiting that ended never resumes |
| DeferredSending.ArmedUntilCancelled | sharing/nearby_connections_manager_impl.cc:505-526 | under the manager's calls a parked payload has an armed timer until cancelled |
| DeferredSending.WaitsUntilReleased | sharing/transfer_manager.cc:60-148 | over every run waiting ends exactly when a fast medium comes or an armed timer fires, and the timer is armed exactly from a start to that or a cancellation |
| ConnectLifecycle.NearbyConnectionsManagerImpl.ConnectTo | sharing/nearby_connections_manager_impl.cc:343-440 | a call is answered at once without a service, else kept with its timer unless one is pending |
| ConnectLifecycle.NearbyConnectionsManagerImpl.OnConnectionTimedOut | sharing/nearby_connections_manager_impl.cc:442-453 | the timeout is noted and a disconnect asked for |
| ConnectLifecycle.NearbyConnectionsManagerImpl.OnConnectionAccepted | sharing/nearby_connections_manager_impl.cc:696-730 | the connection enters the map before the callback gets it |
| ConnectLifecycle.NearbyConnectionsManagerImpl.OnDisconnectedFrom | sharing/nearby_connections_manager_impl.cc:745-776 | the pending callback, if any, leaves with the noted status |
| ConnectLifecycle.NearbyConnectionsManagerImpl.ResetAll | sharing/nearby_connections_manager_impl.cc:898-937 | all maps are emptied and every pending callback is invoked with the reset status |
| ConnectLifecycle.EventKeepsInv | sharing/nearby_connections_manager_impl.cc:343-503 | every event keeps timers and pending entries alike and settles a call exactly when it leaves |
| ConnectLifecycle.EveryConnectSettlesOnce | sharing/nearby_connections_manager_impl.cc:696-776 | over every run no callback is invoked twice, and every call is either pending or settled |
| ConnectLifecycle.ConnectIsKeptIffNotPending | sharing/nearby_connections_manager_impl.cc:343-380 | a call becomes the pending one if none is pending for its endpoint, and otherwise is neither kept nor ever answered, whatever follows |
| ConnectLifecycle.SuccessHandsOverAConnection | sharing/nearby_connections_manager_impl.cc:696-730 | a connection that is handed over is in the connection map |
| ConnectLifecycle.TimeoutIsReportedIffInitiated | sharing/nearby_connections_manager_impl.cc:442-453 | an attempt that times out and then ends with a disconnect, whatever comes between that leaves it alone, reports the timeout if and only if it had been initiated, and an unknown status otherwise |
| ConnectLifecycle.AcceptedAfterTimeout | sharing/nearby_connections_manager_impl.cc:696-730 | accepted in the meantime it is handed over with success |
| ConnectHistory.ManagerKnows | sharing/nearby_connections_manager_impl.cc:343-776 | over every run, for every endpoint: which call is pending, whether its connection was initiated and from where, the status noted, whether there is a connection and whether a disconnect is under way, told from the events alone |
| ConnectHistory.AnsweredSo | sharing/nearby_connections_manager_impl.cc:343-937 | over every run each call is answered by exactly the event that the history names, with that outcome, and nothing else is answered |
| ConnectHistory.ToldExactly | sharing/nearby_connections_manager_impl.cc:343-730 | over every run the service is asked to connect and to disconnect, and the listener given connections, exactly as the events call for: a dropped call is still passed on, and no endpoint is disconnected while that is under way |
| SessionStatus.OutgoingShareSession.UpdateTransferMetadata | sharing/share_session.cc:129-142 | an update reaches the callback unless a final one has |
| SessionStatus.OutgoingShareSession.OnDisconnect | sharing/share_session.cc:242-252 | a delayed completion is reported before the disconnect status |
| SessionStatus.AtMostOneFinalStatus | sharing/share_session.cc:129-184 | over every run only the last status reported is final |
| SessionStatus.OnlyTheLastIsFinal | sharing/share_session.cc:129-142 | all reports before the last one are among the five statuses that are not final |
| SessionStatus.StateIs | sharing/share_session.cc:152-252 | over every run: the disconnect status, the connection, the pending completion and how often the connection was asked to close, told from the events alone |
| SessionStatus.ReportedExactly | sharing/share_session.cc:129-252 | over every run the callback gets exactly the reports that the events call for, in order, up to the first final one |
| SessionStatus.ReportsOnlyGrow | sharing/share_session.cc:129-142 | nothing is added to a final status in any continuation |
| SessionStatus.PendingIffDelayStands | sharing/outgoing_share_session.cc:510-529 | a completion is pending, its timer armed, exactly while neither timer nor disconnect followed the delay |
| SessionStatus.CompleteIffDisconnectedInTime | sharing/outgoing_share_session.cc:198-204 | a transfer session reports completion exactly if a disconnect arrived while the delay stood |
| SessionStatus.DisconnectAfterDelay | sharing/outgoing_share_session.cc:510-529 | whatever happens during the delay that does not end it, report a final status or change the disconnect status: a disconnect reports completion and swallows the failure, and after the timer it reports the failure |
| PairedKey.PairedKeyVerificationRunner.OnReadPairedKeyEncryptionFrame | sharing/paired_key_verification_runner.cc:135-188 | combines the hash check and the signature check and sends the local result |
| PairedKey.PairedKeyVerificationRunner.VerifyAuthTokenHashWithPrivateCertificates | sharing/paired_key_verification_runner.cc:298-332 | the verdict of the visibilities to check, the previous one included while it is recent |
| PairedKey.PairedKeyVerificationRunner.ApplyResult | sharing/paired_key_verification_runner.cc:376-394 | keeps the lower verdict |
| PairedKey.RunKeepsInv | sharing/paired_key_verification_runner.cc:114-213 | every interleaving of the two sides keeps the handshake's invariant |
| PairedKey.EveryInterleavingAgrees | sharing/paired_key_verification_runner.cc:114-213 | each side's callback runs at most once, with the lowest of its own hash check, its own local result and the peer's |
| PairedKey.FailureIsMutual | sharing/paired_key_verification_runner.cc:376-394 | over every run a failed local result on either side fails every callback that runs, and success anywhere needs both to succeed |
| PairedKey.OutcomesAre | sharing/paired_key_verification_runner.cc:114-394 | over every run a callback reports success if and only if its side knows the peer's hash, each side holds a certificate that verifies a signature of the other, and no receiver is hidden; and failure if and only if a certificate verifies no signature, a receiver is hidden, or a receiver that is not visible to everyone does not know the hash |
| PairedKey.NoSuccessWithoutCertificates | sharing/paired_key_verification_runner.cc:334-341 | with a certificate missing on either side nobody reports success |
| PairedKey.OnlyOneSucceedsIff | sharing/paired_key_verification_runner.cc:135-188 | exactly when one side reports success and the other does not |
| PairedKey.ResultsSent | sharing/paired_key_verification_runner.cc:155-171 | over every run, what a side tells its peer |
| PairedKey.AnswerLowers | sharing/paired_key_verification_runner.cc:190-213 | an answer of any status only lowers the outcome; an unknown one counts as unable |
| PairedKey.BrokenHandshake | sharing/paired_key_verification_runner.cc:135-197 | a failed read of either frame makes the callback fail |
| PairedKey.StepKeepsInv | sharing/paired_key_verification_runner.cc:114-213 | each step of either side keeps the handshake's invariant |
| PairedKey.StuckMeansFinished | sharing/paired_key_verification_runner.cc:114-213 | a run that cannot go on has ended on both sides |
| PairedKey.AtMostSixSteps | sharing/paired_key_verification_runner.cc:114-213 | no run takes more than six steps |
| SurfaceState.NearbySharingServiceImpl.InvalidateSurfaceState | sharing/nearby_sharing_service_impl.cc:1923-1931 | afterwards scanning is on exactly as its conditions say and advertising is off, or on with the power and visibility its conditions say; what is on the air already is left alone, and otherwise the connections manager is told exactly to stop the one and to start the other |
| SurfaceState.NearbySharingServiceImpl.InvalidateScanningState | sharing/nearby_sharing_service_impl.cc:1933-1978 | scanning is reconciled and the mutual recursion ends |
| SurfaceState.NearbySharingServiceImpl.StartScanning | sharing/nearby_sharing_service_impl.cc:2214-2258 | scanning is on and, if it was off, advertising is reconciled too |
| SurfaceState.NearbySharingServiceImpl.InvalidateAdvertisingState | sharing/nearby_sharing_service_impl.cc:2030-2190 | advertising is reconciled; advertising that fits is left alone, other advertising is stopped before the wanted one starts |
| SurfaceState.NearbySharingServiceImpl.StopAdvertisingAndInvalidateSurfaceState | sharing/nearby_sharing_service_impl.cc:2288-2291 | what is on the air is stopped in any case, and the wanted advertising started anew |
| SurfaceState.NearbySharingServiceImpl.OnTransferStarted | sharing/nearby_sharing_service_impl.cc:2333-2341 | a transfer stops scanning and advertising; whether it sends or receives is noted |
| SurfaceState.NearbySharingServiceImpl.OnTransferComplete | sharing/nearby_sharing_service_impl.cc:2316-2331 | the end of a transfer reconciles again |
| SurfaceState.NearbySharingServiceImpl.SendAttachments | sharing/nearby_sharing_service_impl.cc:765-813 | the status for each way to fail, in order; success connects the session if it could be initiated, and every other outcome changes nothing; its two assertions hold |
| SurfaceState.NearbySharingServiceImpl.InitiatePairing | sharing/nearby_sharing_service_impl.cc:1012-1037 | pairing connects a known target without attachments, whether scanning or not |
| SurfaceState.NearbySharingServiceImpl.ConnectOutgoingSession | sharing/nearby_sharing_service_impl.cc:815-839 | fails exactly without endpoint info; otherwise the transfer and connection flags are set and nothing is scanned |
| SurfaceState.NearbySharingServiceImpl.RegisterSendSurface | sharing/nearby_sharing_service_impl.cc:490-603 | the surface is registered and scanning reconciled, or it is refused as inadmissible, registered already or while receiving, and the state stays, up to a transfer that the clean-up ends |
| SurfaceState.NearbySharingServiceImpl.UnregisterSendSurface | sharing/nearby_sharing_service_impl.cc:1109-1171 | the surface is removed, a transfer ends with the last one if a session was in it, and scanning and advertising are reconciled |
| SurfaceState.NearbySharingServiceImpl.OnLockStateChanged | sharing/nearby_sharing_service_impl.cc:1432-1438 | a locked screen stops scanning |
| SurfaceState.NearbySharingServiceImpl.RunTasks | sharing/nearby_sharing_service_impl.cc:765-2341 | between any two tasks scanning implies a foreground send surface, an unlocked screen, no transfer and no connection attempt |
| SurfaceState.OnTheAir | sharing/nearby_sharing_service_impl.cc:1923-2190 | what a reconciled service scans and advertises, condition by condition and in both directions |
| TokenDigits.Hash | sharing/share_session.cc:60-68 | the loop computes the hash in 32-bit arithmetic without overflow |
| TokenDigits.HashOf | sharing/share_session.cc:60-68 | the hash lies strictly between -9973 and 9973 and is congruent to the sum of signed bytes times powers of 31 |
| TokenDigits.HashDetermined | sharing/share_session.cc:62-67 | of the two residues in range the hash is the one with the sign of the sum before the last remainder |
| TokenDigits.HashStep | sharing/share_session.cc:62-67 | one step stays within range and within the class |
| TokenDigits.FourDigits | sharing/share_session.cc:69-70 | the absolute value prints as exactly four digits of that value |
| TokenDigits.TokenToFourDigitString | sharing/share_session.cc:60-70 | every token has four digits |

## Left out

- Protobuf encoding: frames are values, and a packet decodes to a frame or does not.
- Certificates, signatures and hashes of the handshake are tables; failed reads are modelled for one runner, not in the two-party system.
- SurfaceState: which vendor a surface blocks, whether a session ends with the last surface, and whether a target is known and its session could be initiated are inputs.
- Fast-initiation advertising, analytics, preferences, feature flags, logging and file deletion.
- Medium selection and `connections/core.cc`, which forwards to a router that is not part of this model.
- The contents of payloads, and the local contents of attachments (path, text body, password), which an introduction does not carry.
- PayloadTracking.OnTransferUpdate: speed and remaining time are floating point; modelled are the two integer differences they are computed from, and the percentage as an exact quotient.
- Random ids and the hash of paths are inputs; that drawn ids are apart and hashes do not collide is a hypothesis where it is used.
- OutgoingTargets: the service's own removals (RemoveTarget, Cleanup), which report nothing, are not counted as forgetting; a connection attempt enters as a change of a session's flags.
- AllTargetsLost: its call from inside StartScanning is not part of the scanning model.
- ConnectLifecycle: the transfer managers of an endpoint, which DeferredSending models alone, and bandwidth upgrades.
- FramesReader: a callback that runs because the connection or the reader is being destroyed does not read again; and a client whose callback makes several reads at once is followed up to the reordering this causes, not beyond.
- ThreadTimer: two concurrent Cancel calls, which the code does not support.
- Other concurrency: every locked section and every service-thread task is one atomic step; the worker queue is the first-in-first-out order in which a tracker reads its updates.
- Status tables, share types, bindings, QR codes, user interfaces and fakes.
