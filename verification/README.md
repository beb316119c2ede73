# ISEKAI Link: models and proofs

This project models the parts of ISEKAI Link that carry state from one event to the
next, and proves what they promise over every input, every run and every
interleaving.  `dafny verify dfyconfig.toml` checks all of it.

- `VarInt`, `Capsules`: QUIC variable-length integers (section 16 of RFC 9000), capsule
  framing (section 3.2 of RFC 9297) and the event loop's incremental parser.
- `ContextIds`: the MASQUE event loop, call by call, and the context ids it hands out.
- `Forwarders`: the two forwarding workers with their id tables, and that loop between
  them.
- `RequestSender`: the reconnecting sender, the adapter that charges a failed attempt to
  a request, and the buffer above them.
- `VideoPaths`: the multipath receive loop with its watchdog, and the two viewers that
  fold the events it reports.
- `FrameSink`, `LatestWins`: the viewer's single-slot sink with the main-actor hops behind
  it, and the camera's fan-out of frames.
- `Hop`: the datapath hop, alone and with the hook that eats the answer to a challenge.
- `Cameras`, `QrRaster`, `Hostname`, `RelayLeg`, `Attestation`: one row per camera, the QR
  raster, certificate names, ownership of a relay leg, and the signed statement.
- `Arithmetic`, `Wrappers`: facts about remainders, and an option type.

Where the source updates something in place there is a class or a method with the same
loop, and its contract ties the new state to a function of the old one; what the source
promises is then proved about that function, over whole runs.  What the network, the
clock, the scheduler or a library answers is an argument of the step, so the theorems hold
whatever it is.  An action of a state machine whose guard is false does nothing, so a run
is any list of actions.

Some promises hold only under a condition, and the exact one is stated:

- A variable-length integer survives the trip exactly below 2^62, and the encoder is
  shortest-form exactly outside [2^22, 2^30), where the code spends eight bytes.
- Context ids increase exactly until the saturating counter has saturated.
- The two workers' id tables agree at rest exactly when no id is stranded.  A retirement
  drops an address from the reader's table whether or not the loop has registered an id
  for it since, and a second registration of an address overwrites the first there only,
  so an id can stay with the forwarding side for good without any call failing:
  `Forwarders.TablesAgreeExactly`, with two such runs beside it.
- The watchdog's clock stops while the loop is inside a read, so the bound on a quiet path
  includes the time spent there: `VideoPaths.QuietPathIsGivenUp`.
- The watchdog is disarmed by the removal of any path but the relay, so traffic can be off
  the relay unwatched; exactly when is `VideoPaths.UnwatchedExactlyWhenAbandoned`.
- A hop to the main actor names no session, so one left over from before a reset can
  replace the new session's picture, also with an equal number; exactly when is
  `FrameSink.LeftoversHideTheNewSessionExactly`.
- A viewer with a move undrained can ask for the pair already in use; exactly when is
  `VideoPaths.PairInUseIsAskedForExactly`.
- The signed string keeps its fields apart exactly as far as their lines add up:
  `Attestation.StringSeparatesExactly`.
- The order of a listing shows exactly when two different rows that could be shown tie.

## Model

| member | source | states |
|---|---|---|
| `VarInt.DecodeVarInt` | rust/channel-masque/src/lib.rs:56-77 | the shift-and-add loop returns the announced number of bytes read as one big-endian number and the untouched rest, or nothing when bytes are missing; no intermediate value leaves `u64` |
| `VarInt.EncodeVarInt` | rust/channel-masque/src/lib.rs:79-104 | pushing low bytes, then the prefixed top byte, and reversing gives the prefix, six bits and low bytes of the value in big-endian order |
| `VarInt.RoundTrip` | rust/channel-masque/src/lib.rs:56-104 | for every `u64` and every suffix, decoding an encoding gives the value modulo 2^62 and that suffix |
| `VarInt.RoundTripIsExactBelowLimit` | rust/channel-masque/src/lib.rs:56-104 | the value itself comes back if and only if it is below 2^62 |
| `VarInt.TruncationIsIncomplete` | rust/channel-masque/src/lib.rs:64-69 | every proper prefix of an encoding is incomplete |
| `VarInt.DecodeIsStable` | rust/channel-masque/src/lib.rs:56-77 | more bytes never change a number that was complete |
| `VarInt.EncodeCollides` | rust/channel-masque/src/lib.rs:79-104 | two values share an encoding if and only if they are equal, or both at least 2^22 and congruent modulo 2^62 |
| `VarInt.ShortestFormExactly` | rust/channel-masque/src/lib.rs:80-88 | no byte string decoding to the value is shorter than its encoding if and only if the value is outside [2^22, 2^30) |
| `VarInt.FourForms` | rust/channel-masque/src/lib.rs:56-77 | the four forms written out byte by byte: prefix 00, 01, 10, 11 for one, two, four and eight bytes, and the big-endian sum of what is left |
| `VarInt.RfcExamples` | rust/channel-masque/src/lib.rs:56-77 | the five examples of appendix A.1 of RFC 9000 decode to their values |
| `Capsules.CapsuleReader.Front` | rust/channel-masque/src/lib.rs:1395-1425 | the header arithmetic finds exactly the first capsule or that it is incomplete; the three overflow exits are unreachable with a 64-bit `usize` |
| `Capsules.CapsuleReader.Dispatch` | rust/channel-masque/src/lib.rs:1425-1466 | a CLOSE with a readable id asks both forwarders to unregister it, in that order; every other capsule asks nothing |
| `Capsules.CapsuleReader.Receive` | rust/channel-masque/src/lib.rs:1390-1468 | one body chunk: the capsules of old buffer plus chunk are handled in order, the buffer keeps their residue, the requests are theirs, and the loop terminates without overflow |
| `Capsules.CapsuleReader.ReceiveAll` | rust/channel-masque/src/lib.rs:1201-1468 | after any list of chunks the buffer, the handled capsules and the requests are those of one parse of the joined bytes |
| `Capsules.ParseOneIsStable` | rust/channel-masque/src/lib.rs:1395-1425 | appending bytes never changes a capsule that was already complete |
| `Capsules.ParseAllConcat` | rust/channel-masque/src/lib.rs:1394-1468 | reading on from a residue equals reading the joined bytes |
| `Capsules.ResidueIsIncomplete` | rust/channel-masque/src/lib.rs:1394-1422 | what stays in the buffer is exactly an unfinished capsule |
| `Capsules.ChunkingIsIrrelevant` | rust/channel-masque/src/lib.rs:1392-1468 | however a stream is cut, feeding the pieces gives the capsules and the residue of one parse of the whole |
| `Capsules.RawReadsBackExactly` | rust/channel-masque/src/lib.rs:1504-1510 | a framed capsule reads back as itself, with any suffix left over, if and only if its type and length are below 2^62 |
| `Capsules.TruncatedCapsuleIsIncomplete` | rust/channel-masque/src/lib.rs:1394-1422 | every proper prefix of a framed capsule is incomplete, never another capsule |
| `Capsules.CapsuleRoundTrip` | rust/channel-masque/src/lib.rs:1392-1510 | any list of framed capsules followed by unfinished bytes parses to that list and leaves those bytes |
| `Capsules.AnyCuttingDeliversTheList` | rust/channel-masque/src/lib.rs:1392-1510 | the same list arrives however its bytes are cut into body chunks |
| `Capsules.BuildRawCapsule` | rust/channel-masque/src/lib.rs:1502-1510 | appending the three fields gives type, length, payload |
| `Capsules.BuildCompressionAssign` | rust/channel-masque/src/lib.rs:1512-1534 | the match on the address gives id, version byte, address octets and big-endian port, framed as type 0x11 |
| `Capsules.AddressBytesSeparate` | rust/channel-masque/src/lib.rs:1520-1532 | address fields are the same bytes if and only if they name the same family, address and port (an IPv6 flow label or scope never reaches the wire) |
| `Capsules.AssignBytesSeparate` | rust/channel-masque/src/lib.rs:1517-1534 | two ASSIGN capsules are equal if and only if they name the same endpoint and their ids share an encoding; so below 2^62 the bytes determine the id and the endpoint |
| `Capsules.CloseIsUnderstood` | rust/channel-masque/src/lib.rs:1438-1459 | a CLOSE built for an id below 2^62 is read back as the request to unregister that id from both tables |
| `Capsules.OnlyAReadableCloseAsks` | rust/channel-masque/src/lib.rs:1425-1466 | a capsule asks something if and only if its type is 0x13 and its payload starts with a complete id, and then for that id to leave the table from UDP to QUIC and then the other |
| `Capsules.OtherTypesAskNothing` | rust/channel-masque/src/lib.rs:1425-1466 | over a stream the requests are two for each readable CLOSE, in order; capsules of other types, an acknowledgement among them, ask nothing |
| `Capsules.OnTheWire` | rust/channel-masque/src/lib.rs:1502-1550 | the bytes of every capsule built here, for ids of one byte: type, length, id, version 0, 4 or 6, octets and big-endian port |
| `Capsules.OffTheWire` | rust/channel-masque/src/lib.rs:1395-1425 | a type byte, a length byte and that many bytes read as that capsule |
| `ContextIds.EventLoop.Start` | rust/channel-masque/src/lib.rs:1115-1195 | the calls of the setup are made in order as long as they are granted; at the first refusal there is no loop, the log ends with the refused call and what was done before it stays done; otherwise the loop waits with id 1 registered both ways, announced, and the application told; either way the result is what the machine of all runs reaches on those answers |
| `ContextIds.EventLoop.OnNewSocket` | rust/channel-masque/src/lib.rs:1224-1326 | one new socket: every call and every event told, with which id and address, in which order, and whether the loop goes on, for every combination of answers and both modes |
| `ContextIds.EventLoop.OnInvalidated` | rust/channel-masque/src/lib.rs:1363-1376 | the id is unregistered and then a CLOSE is sent, whatever either answers |
| `ContextIds.EventLoop.OnCloseReceived` | rust/channel-masque/src/lib.rs:1438-1459 | the id is unregistered from UDP-to-QUIC, then from QUIC-to-UDP, whatever the first answers |
| `ContextIds.EventLoop.OnSocketNotice` | rust/channel-masque/src/lib.rs:1210-1362 | a retirement goes to the reader, a connected or dead socket to the forwarding side, and the loop goes on whatever is answered |
| `ContextIds.EventLoop.OnEnd` | rust/channel-masque/src/lib.rs:1329-1492 | the four ways the loop ends, and what the application is told of each |
| `ContextIds.IdsIncreaseExactlyBeforeSaturation` | rust/channel-masque/src/lib.rs:1270 | over any run with any failures the allocated ids strictly increase if and only if the counter handed out at most 2^64-1 of them |
| `ContextIds.CallsAreWellOrdered` | rust/channel-masque/src/lib.rs:1115-1376 | over any run a first registration of an id directly follows the acknowledged registration of its socket, the second directly follows the first (for id 1 with only the start of the reader between), an ASSIGN directly follows the second, and a CLOSE directly follows the invalidation and the unregister request of its id |
| `ContextIds.EveryCallIsFollowedUp` | rust/channel-masque/src/lib.rs:1115-1459 | the converse, over any run: what a call leads to follows directly upon it, or is the very next call of the loop; a registered socket gets an id, an id registered both ways is announced, an id that is gone is unregistered and closed, and a failure is told |
| `ContextIds.WhatEachNoticeLeadsTo` | rust/channel-masque/src/lib.rs:1210-1492 | the whole arm of each notice taken by a waiting loop: all calls and told events it adds to the log |
| `ContextIds.StoppedExactlyWhenEnded` | rust/channel-masque/src/lib.rs:1204-1492 | over any run the loop has stopped if and only if a setup call or a registration of an id was refused, or shutdown, the end of the notices or the end of the body was met while it waited; a refused socket or a failed send does not stop it |
| `ContextIds.SetupInFigures` | rust/channel-masque/src/lib.rs:1115-1195 | the setup, all granted, call by call |
| `ContextIds.OneAddressPerId` | rust/channel-masque/src/lib.rs:1270-1326 | before saturation, no two calls of a run name one id with two addresses |
| `ContextIds.AnnouncementsDiffer` | rust/channel-masque/src/lib.rs:1304-1305 | with fewer than 2^62 ids, later announcements carry larger ids and different bytes |
| `Forwarders.FromQuicToUdp.RetireSource` | rust/channel-masque/src/masque/from_quic_to_udp.rs:121-140 | the source loses its socket entry and every id that names it, entry by entry, and the loop is notified |
| `Forwarders.FromQuicToUdp.NotifySocketDisconnected` | rust/channel-masque/src/masque/from_quic_to_udp.rs:378-400 | the socket entry goes and nothing else; an error exactly when there was none |
| `Forwarders.FromUdpToQuic.UnregisterContextId` | rust/channel-masque/src/masque/from_udp_to_quic.rs:261-276 | the id goes from the table and, if it is the one, from the uncompressed place |
| `Forwarders.FromUdpToQuic.RetireSocket` | rust/channel-masque/src/masque/from_udp_to_quic.rs:277-298 | the address loses its socket and its id, and nothing is reported back |
| `Forwarders.FromUdpToQuic.OnReadError` | rust/channel-masque/src/masque/from_udp_to_quic.rs:323-341 | the address loses its socket and its id; the loop hears of the socket and, if there was one, of the id |
| `Forwarders.LoopOfASession` | rust/channel-masque/src/lib.rs:1204-1492 | the loop between the two workers, over every interleaving, is a run of the loop whose ids and calls are proved about |
| `Forwarders.CallsAreGrantedByTheirWorker` | rust/channel-masque/src/lib.rs:1115-1459 | over any run a call is granted if and only if the worker it goes to is there, a notice about a socket if and only if the forwarding side has that socket, and what goes to the proxy if it can be sent |
| `Forwarders.WhatIsFoundIsRead` | rust/channel-masque/src/masque/from_udp_to_quic.rs:191-298 | over any run every socket the reader can find for a source is one it reads |
| `Forwarders.PacketsComeBackToTheirSource` | rust/channel-masque/src/masque/from_quic_to_udp.rs:448-449 | over every interleaving, with either worker leaving and any send failing: the id the reader would put on a packet of an address is one the forwarding side takes for exactly that address, and no other address has it, unless a retirement of the address is on its way |
| `Forwarders.EveryIdIsAccountedFor` | rust/channel-masque/src/masque/from_udp_to_quic.rs:261-341 | every compressed id of the forwarding side is the reader's for that address, about to become it, reported or asked to be dropped, or stranded |
| `Forwarders.TablesAgreeExactly` | rust/channel-masque/src/lib.rs:1210-1459 | with nothing in hand or queued the two tables agree if and only if no id is stranded: lost to the reader alone by a retirement or a second registration of its address, and not removed since |
| `Forwarders.EvictionOvertakesTheSocket` | rust/channel-masque/src/masque/from_quic_to_udp.rs:121-140 | a run without a failing call that strands an id: the eviction comes while the notice of the socket is queued |
| `Forwarders.ReadErrorOvertakesTheId` | rust/channel-masque/src/masque/from_udp_to_quic.rs:323-341 | another, without an eviction: the socket fails between its registration and that of its id, and the source is heard again |
| `Forwarders.QuietSessionsAgree` | rust/channel-masque/src/lib.rs:1204-1459 | as long as no source is evicted and no socket fails the tables agree whenever nothing is in hand or queued |
| `RequestSender.MasqueRequestSender.PollReady` | rust/channel-masque/src/lib.rs:569-673 | the new state and the answer for every driver and attempt result; a failed attempt is reported as ready |
| `RequestSender.MasqueRequestSender.Call` | rust/channel-masque/src/lib.rs:675-736 | the stored failure is taken first; then missing handles or missing parts of the address are told apart, or the request goes out on the current connection to the base scheme and authority with its own path |
| `RequestSender.SenderStaysConsistent` | rust/channel-masque/src/lib.rs:569-702 | in every reachable state connection and driver handle come and go together, a live connection excludes an attempt and a stored failure, and failures reported plus stored never exceed attempts failed |
| `RequestSender.RecordsAreKept` | rust/channel-masque/src/lib.rs:569-736 | every call has its outcome in order, and an attempt counts as failed exactly when it fails with no live connection to answer the poll |
| `RequestSender.CallsAreToldApart` | rust/channel-masque/src/lib.rs:675-736 | in every reachable state a call comes to exactly one of the stored failure, no connection, a missing scheme, authority or path, an unbuildable address, or the request on the standing connection, to its own path |
| `RequestSender.CallAfterReadyIsInitialized` | rust/channel-masque/src/lib.rs:676-702 | after any run, a call right after a ready poll is never refused as uninitialized, and a poll never reports the service failed |
| `RequestSender.FailRequestNotService.PollReady` | rust/channel-masque/src/lib.rs:170-185 | pending stays pending; success clears the kept failure; a failure is kept and reported as ready |
| `RequestSender.FailRequestNotService.Call` | rust/channel-masque/src/lib.rs:187-192 | a kept failure is handed to this one request without touching the inner service; otherwise the inner service is called |
| `RequestSender.LatchesExactlyOnReadinessFailure` | rust/channel-masque/src/lib.rs:1604-1632 | a buffer directly over a service is failed if and only if some turn was told the service is not ready |
| `RequestSender.FailedForever` | rust/channel-masque/src/lib.rs:108-117 | a failed buffer stays failed with its first error, answers everything with it and never asks the service again |
| `RequestSender.AdaptedNeverLatches` | rust/channel-masque/src/lib.rs:119-131 | with the adapter in between, the buffer never fails, whatever any inner service reports |
| `RequestSender.AdaptedServes` | rust/channel-masque/src/lib.rs:161-193 | with the adapter in between a request in hand is answered by a ready service, and told its own failure by one that is not |
| `RequestSender.CallFailsExactlyByItsOwnPoll` | rust/channel-masque/src/lib.rs:161-193 | after any polls and calls, the next call fails with a kept failure if and only if that is what readiness last said, with neither a call nor a success since; otherwise the inner service answers |
| `RequestSender.ChannelNeverLatches` | rust/channel-masque/src/lib.rs:247-260 | over every sequence of requests, departures, driver endings and attempts the channel never latches, every answer is about a connection or an address, and reported failures never exceed failed attempts |
| `RequestSender.LiveRequestReachesTheConnection` | rust/channel-masque/src/lib.rs:598-736 | after any run the next live request is sent on the standing connection, or on the new one the moment an attempt succeeds, to the base scheme and authority and its own path |
| `RequestSender.QueueIsServedInOrder` | rust/channel-masque/src/lib.rs:247-260 | after any run, n turns on which attempts come to an end answer exactly the n oldest live requests in order; the one at place i is sent, to its own path, if the attempt of turn i succeeds, whatever became of those before it |
| `RequestSender.DifferentPathsStayApart` | rust/channel-masque/src/lib.rs:705-735 | two live requests for different paths are sent to different addresses, each with its own path |
| `RequestSender.AnswersComeInOrder` | rust/channel-masque/src/lib.rs:119-131 | over any run, whoever gave up, the answers come in the order of the requests and those not reached wait in that order |
| `RequestSender.FailedAttemptChargesOneRequest` | rust/channel-masque/src/lib.rs:1634-1669 | a failed attempt is answered to one request; those behind it keep their places and nothing of it is kept |
| `RequestSender.EveryFailureHasItsAttempt` | rust/channel-masque/src/lib.rs:134-143 | over any run the connection failures told are, in order, those of the failed attempts, one each; each was begun for the request that was told, or left behind by a request since dropped, and those left behind cost no more failures than there were such requests |
| `RequestSender.NextAttemptIsFresh` | rust/channel-masque/src/lib.rs:549-563 | after a failed attempt nothing is in flight, and the next live request begins an attempt of its own and is charged only with that |
| `RequestSender.EveryRequestIsAccountedFor` | rust/channel-masque/src/lib.rs:119-131 | every request ever made is exactly once waiting, in hand, answered, or discarded because its caller left |
| `RequestSender.GivenUpIsNeverAnswered` | rust/channel-masque/src/lib.rs:134-143 | once a caller has gone its request is never answered, however the run goes on |
| `RequestSender.H3Channel.Work` | rust/channel-masque/src/lib.rs:249-260 | the worker over the adapter over the sender takes exactly the composed step |
| `RequestSender.H3Channel.NextMessage` | rust/channel-masque/src/lib.rs:131-136 | the search loop drops the requests whose callers left and stops at the first live one |
| `VideoPaths.VideoReceiver.OnTick` | rust/camera-core/src/video.rs:507-542 | the new state of a tick, which `VideoPaths.TickGivesUpExactly` says without naming the test |
| `VideoPaths.TickGivesUpExactly` | rust/camera-core/src/video.rs:507-542 | over any run a tick gives up an armed path if and only if five seconds have gone by since the last frame's stream or the move; then the watch is disarmed, and the relay active and reported if that preference succeeds; any other tick changes nothing |
| `VideoPaths.VideoReceiver.OnPathValidated` | rust/camera-core/src/video.rs:544-556 | any validated pair but the relay is reported |
| `VideoPaths.VideoReceiver.OnPathAdded` | rust/camera-core/src/video.rs:560-582 | any added pair but the relay is held under its id |
| `VideoPaths.VideoReceiver.OnPathRemoved` | rust/camera-core/src/video.rs:583-594 | the pair is forgotten by address, and any removal but the relay's disarms the watch |
| `VideoPaths.VideoReceiver.OnMoveAsked` | rust/camera-core/src/video.rs:606-631 | a move that succeeds is reported and arms the watch unless it is to the relay |
| `VideoPaths.VideoReceiver.OnStreamAccepted` | rust/camera-core/src/video.rs:635-639 | a stream restarts an armed watch, and the loop is inside the read from then on |
| `VideoPaths.VideoReceiver.OnReadEnded` | rust/camera-core/src/video.rs:642-646 | the read over, the loop polls its arms again, or ends if it failed |
| `VideoPaths.ReportsAreWhatHappened` | rust/camera-core/src/video.rs:475-631 | the reports are the relay and then exactly the validated paths and successful moves, in order |
| `VideoPaths.RunsUntilItEnds` | rust/camera-core/src/video.rs:501-648 | the loop runs until shutdown, the end of the connection's events or streams, or a failed read, and ends for nothing else |
| `VideoPaths.Paths.Apply` | rust/isekai-client-ffi/src/lib.rs:167-179 | the FFI fold, event by event |
| `VideoPaths.Paths.Migrate` | rust/isekai-client-ffi/src/lib.rs:192-198 | the pair asked for is the direct one on the relay and the relay otherwise; told true exactly when a request went out |
| `VideoPaths.MyApp.DrainPathEvents` | rust/camera-client/src/main.rs:519-534 | draining the queue applies every event in order and leaves it empty |
| `VideoPaths.DrainingInBatches` | rust/camera-client/src/main.rs:519-534 | it makes no difference how the events are split over drains |
| `VideoPaths.ViewersTellTheTruth` | rust/camera-core/src/video.rs:475-648 | after any run both folds agree, know the relay, never take it for the direct path, and say "on the relay" if and only if the last preferred pair is the relay |
| `VideoPaths.MovesGoElsewhere` | rust/isekai-client-ffi/src/lib.rs:192-198 | however many of the reports a viewer has drained, both viewers ask for the same pair, never the one they believe carries the traffic, and for the relay exactly when they believe it does not; what they believe is so unless a move is undrained |
| `VideoPaths.PairInUseIsAskedForExactly` | rust/isekai-client-ffi/src/lib.rs:192-198 | a viewer asks for the pair already in use if and only if a move is undrained, the last one crossed to or off the relay from what the viewer believes, and one off the relay went to the path it last saw validated |
| `VideoPaths.LaggingViewerAsksForThePairInUse` | rust/isekai-client-ffi/src/lib.rs:192-198 | a run with such a viewer: the direct path seen validated, the move to it not |
| `VideoPaths.WatchdogOnlyOffRelay` | rust/camera-core/src/video.rs:490-493 | in every reachable state an armed watch means the active pair is not the relay |
| `VideoPaths.UnwatchedExactlyWhenAbandoned` | rust/camera-core/src/video.rs:524-541 | traffic is off the relay unwatched if and only if some step removed a non-relay path or failed to fall back while armed, and no path was preferred since |
| `VideoPaths.AnotherPathsRemovalUnwatches` | rust/camera-core/src/video.rs:589-593 | a run on which the converse fails: removing another path disarms the watch on the one in use |
| `VideoPaths.ArmedMeansRecentTraffic` | rust/camera-core/src/video.rs:507-541 | whatever holds the loop up, an armed watch means a frame's stream or the move itself less than the five seconds of grace plus the longest time without a handled tick ago |
| `VideoPaths.LongestGapIsReached` | rust/camera-core/src/video.rs:505-507 | the longest time without a tick in that bound is one the run really had |
| `VideoPaths.QuietPathIsGivenUp` | rust/camera-core/src/video.rs:485-541 | when, reads not counted, a tick is handled every second or at most `late` after, that is less than six seconds plus `late` plus the most time spent inside reads between two ticks |
| `VideoPaths.MostHeldIsReached` | rust/camera-core/src/video.rs:635-646 | and so is the time inside reads |
| `VideoPaths.StalledReadHoldsTheWatchdog` | rust/camera-core/src/video.rs:485-488 | for any length of time there is a run with a timer that is never late in which one unfinished read keeps the watch armed that long |
| `VideoPaths.PathMapIsTheHistory` | rust/camera-core/src/video.rs:560-588 | a pair is held under an id if and only if its last mention that the loop handled added it with that id, and never the relay |
| `FrameSink.ViewerSink.OnFrame` | ios/IsekaiCameraClient/App/ViewerSink.swift:19-31 | the locked section: the newest frame replaces what waited, and only a caller that found no drain starts one |
| `FrameSink.ViewerSink.TakePending` | ios/IsekaiCameraClient/App/ViewerSink.swift:61-68 | the locked section of the drain: the waiting frame is taken, or the drain ends |
| `FrameSink.ViewerModel.PresentFrame` | ios/IsekaiCameraClient/App/ViewerModel.swift:554-563 | a frame that decoded and is not older than the screen replaces it; any other changes nothing |
| `FrameSink.ViewerModel.Connect` | ios/IsekaiCameraClient/App/ViewerModel.swift:246-256 | the reset of counter, frame and phase |
| `FrameSink.InterleavingsKeepInv` | ios/IsekaiCameraClient/App/ViewerSink.swift:19-75 | over every interleaving at most one drain is dispatched, queued or running, the flag is set exactly then, an idle slot is empty, and decoded frames are a strictly increasing subsequence of the submitted ones |
| `FrameSink.QuiescenceDecodedTheLatest` | ios/IsekaiCameraClient/App/ViewerSink.swift:19-75 | no lost wakeup: with nothing left to do, the last submitted frame has been decoded |
| `FrameSink.DrainsMakeProgress` | ios/IsekaiCameraClient/App/ViewerSink.swift:59-75 | in any reachable state that is not idle a drain step is possible, every one brings idleness closer, and at most five remain |
| `FrameSink.ScreenShowsTheMaximum` | ios/IsekaiCameraClient/App/ViewerModel.swift:554-563 | in whatever order hops land, the screen ends at the largest delivered number and shows a frame as soon as one decodes |
| `FrameSink.PicturesAreCounted` | ios/IsekaiCameraClient/App/ViewerModel.swift:554-563 | the counter grows by the number of pictures shown, and the first one turns a connected session into a streaming one |
| `FrameSink.ScreenNeverGoesBack` | ios/IsekaiCameraClient/App/ViewerModel.swift:558-559 | the displayed number never decreases |
| `FrameSink.ScreenEndsOnTheNewestFrame` | ios/IsekaiCameraClient/App/ViewerSink.swift:59-75 | end to end, hops of earlier sessions included: once everything has run in any order the screen is at the largest number decoded or left over; when numbers go up and the last frame decodes, the screen shows it if and only if it outlasts every leftover, and always when there is none |
| `FrameSink.LeftoversHideTheNewSessionExactly` | ios/IsekaiCameraClient/App/ViewerModel.swift:246-252 | after a reset the picture the screen ends on is the new session's if and only if one of its frames outlasts every leftover that decodes: numbered higher, or the same and landed later |
| `FrameSink.ScreenShowsTheLastOfTheLargest` | ios/IsekaiCameraClient/App/ViewerModel.swift:554-563 | the picture shown is the last to land among those with the largest number |
| `FrameSink.EqualLeftoverReplacesThePicture` | ios/IsekaiCameraClient/App/ViewerModel.swift:558-561 | a leftover with the same number that lands second replaces the new session's picture and is counted |
| `LatestWins.ClientsSendSelections` | rust/camera-core/src/video.rs:149-187 | over every interleaving each client sends a strictly increasing selection of what was published since it joined |
| `LatestWins.LatestWinsAlways` | rust/camera-core/src/video.rs:219-234 | a waking client always picks the newest frame, and one with nothing unseen has picked up the last frame published since it joined, even after the server stopped |
| `LatestWins.OverExactlyWhenEnded` | rust/camera-core/src/video.rs:205-234 | over every interleaving a client is over if and only if a push of its in flight failed, or it woke with nothing unseen after the publisher had gone |
| `LatestWins.ClientGoesOn` | rust/camera-core/src/video.rs:149-234 | while the server is open and its pushes succeed a client goes on: its next wake with a frame unseen picks the newest, and a push that succeeds is recorded |
| `LatestWins.PushFrames.NextFrame` | rust/camera-core/src/video.rs:225-234 | the loop does what the wakes do to this client, and returns the newest value of the first wake that has one; none only when the publisher is gone or nothing woke it |
| `LatestWins.PushFrames.Pushed` | rust/camera-core/src/video.rs:210-215 | the frame in hand is recorded as sent; the client goes on after a success and is over after an error, as `LatestWins.OverExactlyWhenEnded` has it |
| `Hop.Run` | rust/isekai-p2p-core/src/datapath.rs:136-214 | the loop computes the fold of all results up to the one that ends it; exactly the first send failure is said out loud |
| `Hop.DiallerIsTheFirstOther` | rust/isekai-p2p-core/src/datapath.rs:168-191 | the dialler is the first source that is not the target, and never the target |
| `Hop.DiallerIsFixed` | rust/isekai-p2p-core/src/datapath.rs:178-184 | once known, the dialler never changes |
| `Hop.EndsOnlyWhenTold` | rust/isekai-p2p-core/src/datapath.rs:136-160 | the hop ends at shutdown or a receive that fails and at nothing else, a connection reset included |
| `Hop.SaidWhenOneFailed` | rust/isekai-p2p-core/src/datapath.rs:196-212 | a send failure is said out loud if and only if there has been one |
| `Hop.EachReceiptOnce` | rust/isekai-p2p-core/src/datapath.rs:151-212 | every receipt has exactly one outcome, decided by the first other source so far, the hook and the socket |
| `Hop.BothWaysInOrder` | rust/isekai-p2p-core/src/datapath.rs:136-214 | the target gets exactly the dialler's passed packets and the dialler exactly the target's since it dialled, in order and unchanged; nobody else gets anything |
| `Hop.EatTheAnswer.Outbound` | rust/camera-core/examples/validation_loss.rs:117-126 | everything passes, and a packet of 1000 bytes or more sets the flag |
| `Hop.EatTheAnswer.Inbound` | rust/camera-core/examples/validation_loss.rs:128-144 | nothing is dropped before the flag; after it, one per unit of budget |
| `Hop.EatsExactlyTheFirstAnswers` | rust/camera-core/examples/validation_loss.rs:116-145 | composed with the hop, a packet is lost if and only if it is among the first k the target sends after the first big one from the dialler |
| `Hop.EatsAsManyAsItMay` | rust/camera-core/examples/validation_loss.rs:116-145 | so min(k, n) of n are lost, and the hook's own count says so |
| `Cameras.OnePerCameraInPlace` | rust/camera-core/src/cameras.rs:32-42 | sorting and then retaining with the set of seen owners computes the specified rows |
| `Cameras.StableSortIsUnique` | rust/camera-core/src/cameras.rs:34-38 | any sorted list that keeps the order within each key is the sort used here, whatever algorithm the library has |
| `Cameras.OneRowPerOwner` | rust/camera-core/src/cameras.rs:32-42 | exactly one row per owner, none of whose rows has a later deadline or the same with a smaller id, in that order |
| `Cameras.LatestDeadlineIsShown` | rust/camera-core/src/cameras.rs:34-41 | the row shown has its owner's latest deadline and, among those, the smallest listener id; rows come with later deadlines first, then smaller ids |
| `Cameras.StrLessInFigures` | rust/camera-core/src/cameras.rs:34-38 | that order of strings, by the first place where two part |
| `Cameras.OnePerCameraIsIdempotent` | rust/camera-core/src/cameras.rs:32-42 | a second pass changes nothing, for every input |
| `Cameras.ListingOrderIsIrrelevantExactly` | rust/camera-core/src/cameras.rs:85-102 | every permutation of a listing gives the same rows if and only if no two different rows that could be shown share deadline and id |
| `Cameras.PartialListingsCombine` | rust/camera-core/src/cameras.rs:32-42 | reducing two listings and then both together equals reducing them at once, for every two listings, ties included |
| `Cameras.ShownOfKey` | rust/camera-core/src/cameras.rs:34-41 | of the rows with one deadline and id, those shown are the first listed of each owner that has nothing further up |
| `QrRaster.QrImage` | rust/camera-server/src/main.rs:359-384 | every write is in bounds and every pixel is black if and only if a dark module covers it |
| `QrRaster.EveryPixelInFigures` | rust/camera-server/src/main.rs:359-384 | the image is 6 (width + 8) pixels wide and high, and a pixel is black if and only if its place divided by 6 lies four modules in and that module is dark |
| `QrRaster.DrawModule` | rust/camera-server/src/main.rs:371-377 | the two inner loops draw exactly one module's square |
| `QrRaster.PixelsOfAModule` | rust/camera-server/src/main.rs:370-376 | all thirty-six pixels of a square show its module |
| `QrRaster.QuietZoneIsWhite` | rust/camera-server/src/main.rs:355-361 | the four-module border is white |
| `QrRaster.SamplingRecoversTheCode` | rust/camera-server/src/main.rs:359-384 | reading one fixed place of every square returns the module grid |
| `QrRaster.ImagesTellCodesApart` | rust/camera-server/src/main.rs:359-384 | one image belongs to one code of its width |
| `Hostname.DnsMatchesIsTheLabelRule` | rust/isekai-p2p-core/src/hostname.rs:100-116 | for every pattern and host, the text comparison holds if and only if the trimmed names are not empty and match label by label, a leading star standing for one label that is not empty |
| `Hostname.EqIgnoreCaseIsCaseOnly` | rust/isekai-p2p-core/src/hostname.rs:100-116 | two texts count as equal if and only if they differ at most in the case of ASCII letters |
| `Hostname.WildcardCoversOneLabel` | rust/isekai-p2p-core/src/hostname.rs:95-98 | a wildcard match has exactly one label more than what follows the star |
| `Hostname.CertificateMatches` | rust/isekai-p2p-core/src/hostname.rs:33-87 | accepted if and only if an entry of the kind the host calls for matches; the refusals are told apart and list everything presented in order |
| `Hostname.KindsAreKeptApart` | rust/isekai-p2p-core/src/hostname.rs:51-87 | address hosts are held against address entries of four or sixteen octets only, every other host against DNS entries only |
| `Hostname.RefusalListsWhatWasPresented` | rust/isekai-p2p-core/src/hostname.rs:51-87 | a refusal lists every DNS entry as it stands and every address as it prints, and nothing else |
| `Hostname.BracketsComeOff` | rust/isekai-p2p-core/src/hostname.rs:33-50 | a host in brackets is taken without them, any other as it is |
| `Hostname.SearchNames` | rust/isekai-p2p-core/src/hostname.rs:51-87 | the loop with its early return decides exactly that |
| `RelayLeg.Open` | rust/isekai-p2p-core/src/bind.rs:601-741 | one whole call, and the steps of the leg it takes: its objects are in the state those steps lead to, past arming its token is cancelled or the returned handle's, and a handle is returned if and only if every stage succeeded |
| `RelayLeg.AwaitWord` | rust/isekai-p2p-core/src/bind.rs:718-741 | the wait for the worker: a handle exactly if it said established; dropped, refused or ended without a word, the token is cancelled |
| `RelayLeg.WhatTheCallComesTo` | rust/isekai-p2p-core/src/bind.rs:601-741 | with every stage granted, an established leg with one held handle; with any other word from the worker a cancelled token and no handle |
| `RelayLeg.RelayHandle.Close` | rust/isekai-p2p-core/src/bind.rs:395-436 | closing cancels, takes what it waits for, gives up on it exactly if it does not stop in time, and ends in the state of the leg those steps lead to |
| `RelayLeg.RelayHandle.Drop` | rust/isekai-p2p-core/src/bind.rs:438-442 | dropping cancels, as the step of the leg does |
| `RelayLeg.DropGuard.Drop` | rust/isekai-p2p-core/src/bind.rs:640-648 | an armed guard cancels when dropped, a disarmed one does not |
| `RelayLeg.NoUnownedLeg` | rust/isekai-p2p-core/src/bind.rs:847-985 | over every interleaving, an armed token is the guard's until the call ends and then cancelled or held by exactly one live handle; a leg starting or running can always still be stopped or has been told to |
| `RelayLeg.HandlesMeanEstablished` | rust/isekai-p2p-core/src/bind.rs:718-741 | a handle exists exactly for a call that returned, only after the leg reported itself established, and once dropped or closed its leg is cancelled |
| `RelayLeg.CancelledStaysCancelled` | rust/isekai-p2p-core/src/bind.rs:823-827 | cancelling is never undone |
| `Attestation.HexEncode` | rust/isekai-p2p-core/src/endpoint.rs:150-157 | the loop writes two digits per byte, high nibble first |
| `Attestation.HexInFigures` | rust/isekai-p2p-core/src/endpoint.rs:150-157 | the digits are those of 0123456789abcdef, high nibble first |
| `Attestation.EndpointIdsTellDigestsApart` | rust/isekai-p2p-core/src/endpoint.rs:103-107 | two keys share an Endpoint ID if and only if their digests are equal |
| `Attestation.StringSeparatesExactly` | rust/isekai-p2p-core/src/attestation.rs:67-74 | for all fields whatsoever: the fields are equal if and only if the strings are and the first three fields break into lines equally often |
| `Attestation.CanonicalStringSeparatesFields` | rust/isekai-p2p-core/src/attestation.rs:67-74 | with an Endpoint ID and a key digest of one line each, and either dates or host names of one line, whatever the other holds: equal strings if and only if equal fields |
| `Attestation.LineBreaksWouldMergeFields` | rust/isekai-p2p-core/src/attestation.rs:67-74 | a host name that ends in a further line shares its string with the one without that line, if a digest or a date on the other side takes in the line behind it |
| `Attestation.FiveLines` | rust/isekai-p2p-core/src/attestation.rs:34-74 | cut at its line breaks, what is signed is the domain, the Endpoint ID, the host, the digest and the date |
| `Attestation.BelievedExactlyAsSigned` | rust/isekai-p2p-core/src/attestation.rs:77-146 | a signature, whatever is put around it and whatever the host names hold, is believed if and only if the statement, the Endpoint, the host, the key digest and the date are the signed ones and the date is still to come; digests are of one line, and so are the signed date and every date that can be read (or else the host names) |
| `Attestation.RefusedForTheFirstReason` | rust/isekai-p2p-core/src/attestation.rs:119-146 | what is not believed is refused for the first that holds of another Endpoint, other words, an unreadable date, a date that has come |

## Left out

- msquic, h3 and tokio: their answers are arguments; a watch channel is the number of values published and seen.
- `tower::Buffer`: the worker is modelled as the comments and tests beside the adapter describe it; its bound of 1024 waiting requests and the wakers are not modelled.
- `isekai_p2p::direct_path::prefer_path`: a boolean in the event; the active pair is the last one it succeeded for.
- RequestSender.H3Channel.Work: `H3Connection` and its boxed service only forward and are not separate objects.
- ContextIds.EventLoop.Start: the request and the response before the first registration only add error returns; the wording of errors is not modelled.
- Forwarders: packets themselves, queued datagrams, blackholes and which source a limit or the sweep picks; any source may be evicted and any read socket may fail, which covers them. The channels hold any number of notices, so a worker waiting for room in one is not modelled.
- Forwarders.PacketsComeBackToTheirSource: while fewer than 2^64-2 ids have been handed out; past that the counter repeats its last id.
- Capsules.CapsuleReader.Receive: `usize` has 64 bits; on a narrower target the overflow exits could be taken.
- VideoPaths: a receiver of path events that has gone away, RTT samples, logging and the stalled-read watcher are not modelled.
- VideoPaths.ArmedMeansRecentTraffic: assumes that time does not run backwards.
- FrameSink: `ViewerModel` beyond `present` and the reset in `connect`; late session results there are not guarded and have no invariant to state.
- FrameSink.ViewerSink.OnFrame: the JPEG bytes are only whether they decode.
- LatestWins.PushFrames.NextFrame: waiting is given as the list of what the slot is at each wake.
- Hop.Run: binding, the stop token and the handle's drop guard; the counting hook of the hop's own tests has the same budget arithmetic as the hook that is modelled.
- Cameras.OnePerCameraInPlace: the library's sort is an insertion sort here; `Cameras.StableSortIsUnique` is why that does not matter. String order is by code point.
- QrRaster.QrImage: the `qrcode` crate is assumed to hand over a square of modules; `ColorImage` is its pixel vector.
- Hostname.CertificateMatches: parsing DER, reading an address and printing one are arguments; the wording of a refusal is not modelled.
- RelayLeg.Open: headers, connectors and the H3 client are success or failure; what a leg carries is not modelled.
- Attestation: SHA-256, JWK thumbprints, base64 and ECDSA are ideal; the RFC 3339 date parser is an argument, assumed only to read single lines.
- `paired::decide`, MTU constants, header lists and token caching: each is settled by one branch and would only add easy members.
- Screens, capture, keychain, sign-in, QR scanning and measurement harnesses: input and output.
