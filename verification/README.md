# MyIperf measurement pipeline: a Dafny model and its proofs

MyIperf measures a connection in two phases. In phase 1 the client sends numbered data packets to the server, in phase 2
the server sends them back. Both directions carry control messages between the data packets. Each side builds a result
from the receive counters of both phases. TestRunner reads that result, from a JSON file or as a fallback from the log
text, and ResultPipeVerifier reads the progress events from a pipe.

The project models that pipeline from the bytes on the wire to the two verdicts, and proves what it is for:

* **Framing.** The incremental parser invents, reorders and repeats nothing on any input. It undoes the encoder at every
  prefix and for every chunking. Chunks do not matter if and only if the oversized-payload clear is not reached before
  the last byte of the stream. On any bytes the failures counted are exactly the discarded places that hold a packet with
  a wrong checksum, so a changed payload byte fails its phase.
* **Rendezvous.** Under every interleaving of waiters, deliveries, timers, cancellation and clears, the control-message
  bus resolves each wait at most once. Apart from clear and cancelAll it is one FIFO queue per message type.
* **Protocol.** Two sessions run over two lossless FIFO byte streams, cut into any chunks and interleaved in any way. For
  every configuration and in every reachable state, the result of a side is a success if and only if that side has
  finished and what was asked for can be received (17 <= packetSize <= 17 + 131072, or a packet count of 0, with which
  nothing is asked for), the two phases are never mixed up, both sides agree on the statistics they store, and nothing
  but a timeout makes a side fail. Runs end unless there are packets to send without a count, and are free of deadlock
  if and only if packetSize does not exceed the bound or the count is 0. Up to the bound a finishing run exists from
  every state without a failure, and a run without timeouts that cannot go on has finished on both sides, successfully
  whenever that is possible.
* **Delivery of results.** The result is finalised once. The events come in their order and survive failing writes and
  arbitrary reads. TestRunner's verdict is that of the run, except that it wants a packet to have been received, and its
  fallback reads back every printed counter.

## Layout

| file | content |
|---|---|
| `Protocol.dfy`, `TestTypes.dfy`, `Wrappers.dfy` | header layout, checksum, payloads; configuration and statistics; Option |
| `PacketStreamParser.dfy`, `StreamCodec.dfy` | the parser object and chunk independence; soundness and round trip |
| `DiscardedBytes.dfy`, `FaultReports.dfy` | what is discarded and counted on arbitrary bytes; a damaged payload fails its phase |
| `PacketGenerator.dfy`, `PacketReceiveStats.dfy`, `PacketReceiver.dfy` | sending, accounting, receive loop and dispatch |
| `ControlMessageBus.dfy`, `ControlMessageBusClass.dfy` | the bus as atomic steps; the bus as objects, each method one step |
| `Sessions.dfy`, `SessionInvariant.dfy`, `SessionTheorems.dfy` | both sessions over packets |
| `SessionInbox.dfy`, `SessionLinks.dfy` | the steps of the sessions are those of the bus, the generator and the receiver |
| `Network.dfy`, `AnySize.dfy` | both sessions over bytes: refinement of the packet level, and what holds for every packet size |
| `OversizedStream.dfy`, `OversizedSessions.dfy` | data above the bound of the parsers: what comes out of such a stream, and the sessions over it |
| `SentStatistics.dfy` | the sender statistics both sides store |
| `EndToEnd.dfy`, `Deadlock.dfy`, `SessionAssumptions.dfy` | verdicts, progress and termination of whole runs; when they deadlock; the assumptions can be met |
| `TestController.dfy`, `ResultEvents.dfy`, `SessionEvents.dfy` | verdict, once-only finalisation, events of a run |
| `ResultEventSink.dfy`, `PipeReader.dfy`, `EventVerifier.dfy` | event queue, line splitter, event check |
| `TestRunner.dfy`, `TextSearch.dfy`, `IpeftcOutputParser.dfy`, `PartialLog.dfy`, `ControlFraming.dfy` | second verdict, fallback parser, logs that lack a summary, control framing |

Objects of the program that update their fields are classes here. Each method is proved equal to a function on values,
and the theorems are about those functions. The two-party system is a state with a step function.

## Assumptions

* A session step is atomic: after a send, the session runs on to its next send or wait. Statistics are reset after
  `CONFIG_ACK` and `CLIENT_READY` have been handed to the network (ServerTestSession.cpp:57-63,
  ClientTestSession.cpp:97-101), and this reset belongs to the same step as the send.
* The bus is modelled at the granularity of its lock, with at most one wait per message type (a second registration
  would overwrite the first, ControlMessageBus.cpp:73). A session is sequential, so it never has two. The sessions use an
  inbox from which a wait takes the oldest message of its type; `SessionInbox` shows that the bus behaves so.
* Timers may fire at any moment or never.
* Each call on the controller is one step. In the source a phase result that has passed its test of the sink can be
  queued between the `publish` of `final_result` and the `stop` behind it (TestController.cpp:536-537), when
  `stopTest` runs beside the session; then `final_result` is not the last line. No such interleaving is modelled.
* The network loses and reorders nothing. A send reports any positive number of bytes. Connecting, failed sends and
  `stopTest` are not steps of the session system.
* JSON is a lossless encoding of at most 131072 bytes for configurations and for statistics whose counters are
  non-negative 64-bit values. The fields of a configuration that the protocol does not depend on, and duration and
  throughput, are left out. `SessionAssumptions.LosslessExists` shows that such an encoding exists.
* Counters are unbounded integers, except the 32-bit packet counter and checksum, which wrap. The invariant shows that no
  sent counter leaves its 64-bit range.
* The write of an event line is all or nothing.

## Findings

* The oversized-payload branch (PacketStreamParser.cpp:38-45) is the only one that breaks chunk independence, and it does
  so exactly when it is reached before the last byte of the stream: holding that byte back leaves it in the buffer
  (`LastByteSurvives`).
* The checksum is a sum of bytes, so exchanging two payload bytes is never noticed by it (`ExchangeUndetected`); only the
  content comparison can notice.
* A `cancelAll` or a timer that comes between `await_ready` and the registration of a wait does not reach that wait
  (`CancelReachesRegistered`, `TimerNeedsRegistration`). The timer is then spent.
* A result is a success if and only if its side has finished and either 17 <= packetSize <= 17 + 131072 or the packet
  count is 0 (`EndToEnd.EndToEndVerdict`), although `Config` accepts every positive size. Below 17 no packet is sent.
  With a packet count both results say so; without one both are a success, although nothing was measured, and only
  TestRunner, which wants at least one packet, reports a failure (`TestRunner.SameVerdict`, `EndToEnd.RunnersPass`).
* Above the bound the receiver's parser throws all data away. What else it can receive is the TEST_FIN behind the data,
  or nothing (`OversizedStream.Drain`), so the sessions stay in step (`EndToEnd.PhasesNeverMix`,
  `EndToEnd.StoredAgree`). Both can still finish, and then both fail (`Deadlock.OversizedRunFinishes`).
* Above the bound, for every positive packet count, a run can also deadlock: a TEST_FIN received together with the end
  of the data is thrown away with it, and then both sides wait for a TEST_FIN until a timeout
  (`Deadlock.OversizedRunStops`). With packet count 0 the client never stops sending (`Deadlock.UnlimitedRunsOn`),
  and there is no TEST_FIN.
* `stop` tries each line still queued once, so a success is accepted on the other side of the pipe if and only if each
  of those writes succeeds (`SessionEvents.ClientDelivered`, `ServerDelivered`).
* A line pushed by a `publish` that had tested the running flag before `stop` cleared the queue stays there, and is the
  first line of the next run (`EventSink.ResultEventSink.Start`).
* The header comment gives 0 as the id of the server and 1 as that of the client (Protocol.h:114), but the ids are the
  values of `Config::TestMode`. The model follows the code.
* The log-text fallback agrees with the result file on every counter, but it judges the role's own receiving phase only,
  while the file's verdict needs both phases and the final state. `VerdictsAgree` says exactly when the two verdicts are
  the same, and `VerdictsDiffer` gives a run on which they are not.
* The empty control message is sent but reads back as the end of the session, so messages come back exactly when each has
  1 to 65536 bytes (`FramingRoundTrip`).

## Model

| member | source | states |
|---|---|---|
| Protocol.DecodeEncodeHeader | MyIperf/include/myiperf/Protocol.h:106-127 | a header read from the front of any buffer is the header that was written there |
| Protocol.EncodeDecodeHeader | MyIperf/include/myiperf/Protocol.h:106-127 | the packed layout has no slack: 17 bytes and a header determine each other |
| Protocol.HeaderLayout | MyIperf/include/myiperf/Protocol.h:106-127 | the seven fields at their places, each the little-endian number of its bytes, read independently of the decoder |
| Protocol.CalculateChecksum | MyIperf/include/myiperf/Protocol.h:138-144 | the loop computes the sum of all bytes modulo 2^32 |
| Protocol.SumOfParts | MyIperf/include/myiperf/Protocol.h:138-144 | the byte sum is additive over joined parts, and that of one byte is the byte (SumOfByte), which together determine it |
| Protocol.VerifyPacket | MyIperf/include/myiperf/Protocol.h:152-155 | accepts exactly the start code together with a matching checksum |
| Protocol.SingleByteChangeDetected | MyIperf/include/myiperf/Protocol.h:138-155 | changing any single payload byte always changes the checksum |
| Protocol.ExchangeUndetected | MyIperf/include/myiperf/Protocol.h:138-155 | exchanging two payload bytes never changes the checksum |
| Protocol.PayloadTells | MyIperf/include/myiperf/Protocol.h:169-174 | from 17 bytes on, the payload is "Packet ", decimal digits that read back to the counter, and dots |
| Protocol.PayloadFront | MyIperf/include/myiperf/Protocol.h:169-174 | a shorter payload is the front of a longer one of the same counter |
| Protocol.PayloadsDiffer | MyIperf/include/myiperf/Protocol.h:169-174 | payloads of the same size from 17 bytes on differ whenever their counters do |
| StreamParser.PacketStreamParser.Append | MyIperf/src/myiperf/PacketStreamParser.cpp:22-25 | the buffer grows by the received bytes, nothing else changes |
| StreamParser.PacketStreamParser.DrainPackets | MyIperf/src/myiperf/PacketStreamParser.cpp:27-98 | the loop with its wait, clear, skip and emit branches computes Parse: packets, checksum failures, left-over buffer and failure streak; what these are on arbitrary bytes is DiscardedBytes.FailuresExactly |
| StreamParser.PacketStreamParser.Reset | MyIperf/src/myiperf/PacketStreamParser.cpp:17-20 | back to an empty buffer and a zero streak |
| StreamParser.ParseExtend | MyIperf/src/myiperf/PacketStreamParser.cpp:27-98 | draining a front part first and the rest later gives what one drain gives, unless the front part reaches the clear |
| StreamParser.ChunkIndependence | MyIperf/src/myiperf/PacketStreamParser.cpp:22-98 | all splits of a stream into appends and drains give the packets, failures, buffer and streak of a single one if and only if the stream without its last byte does not reach the clear |
| StreamParser.LastByteSurvives | MyIperf/src/myiperf/PacketStreamParser.cpp:38-45 | the split that shows the difference whenever the clear is reached early |
| StreamCodec.EmissionSound | MyIperf/src/myiperf/PacketStreamParser.cpp:35-95 | on any bytes in any chunks the stream is discarded bytes and encoded packets alternating and then the leftovers; every emitted packet has start code, bounded payload and matching checksum |
| StreamCodec.RoundTrip | MyIperf/src/myiperf/PacketStreamParser.cpp:27-98 | any prefix of any encoded packet list, in any chunks, yields exactly the packets that have fully arrived, no checksum failure, and the bytes of the unfinished packet |
| StreamCodec.PartialSettled | MyIperf/src/myiperf/PacketStreamParser.cpp:31-55 | a packet that has not fully arrived keeps the parser waiting without consuming anything |
| DiscardedBytes.FailuresExactly | MyIperf/src/myiperf/PacketStreamParser.cpp:27-98 | on any bytes: what is discarded are the places that hold something whole but no packet, the drain ends at something unfinished or claiming too much, the checksum failures are exactly the discarded places with a start code, a whole payload within the bound and a checksum that differs, and the streak is the length of the last discarded stretch modulo 100 |
| DiscardedBytes.DamageCounted | MyIperf/src/myiperf/PacketStreamParser.cpp:77-83 | a whole packet with a wrong checksum, whatever follows it, makes a drain count one failure and go on one byte later |
| DiscardedBytes.DamageCountedInChunks | MyIperf/src/myiperf/PacketStreamParser.cpp:27-98 | the same behind any good packets and in any chunks: at least one failure is counted |
| FaultReports.ReportedMeaning | MyIperf/src/myiperf/PacketReceiver.cpp:55-87 | after any receive history each reported number is that of what came out of the parser: packets, total size, checksum failures, breaks in the numbering, altered payloads |
| FaultReports.DamageReported | MyIperf/src/myiperf/TestController.cpp:188-231 | once any payload byte of any packet has changed, in any chunks and whatever follows, the phase is not a success and its reason names the checksum errors with their number |
| Generator.PacketGenerator.CreatePacket | MyIperf/src/myiperf/PacketGenerator.cpp:31-63 | the bytes are the encoding of the data packet with the current counter, which then wraps up by one; nothing when the header does not fit. For the payload see Protocol.PayloadTells |
| Generator.DataPacketValid | MyIperf/src/myiperf/PacketGenerator.cpp:31-63 | every data packet is exactly packetSize bytes and acceptable to a receiver with that bound |
| Generator.DataPacketAddressed | MyIperf/src/myiperf/PacketGenerator.cpp:42-50 | a data packet carries the counter, the DATA_PACKET type and the ids of its sender and the other side, 0 for the client and 1 for the server |
| Generator.UpperHalfContinues | MyIperf/src/myiperf/PacketGenerator.cpp:69-74 | a counter from 2^31 on is negative for the comparison and never ends a run |
| Generator.PacketGenerator.GetStats | MyIperf/src/myiperf/PacketGenerator.cpp:80-95 | reports exactly the packet and byte totals of the sends, and nothing received |
| Generator.PacketGenerator.SendPackets | MyIperf/src/myiperf/PacketGenerator.cpp:118-179 | the coroutine makes exactly the sends and keeps exactly the totals of RunSends, which GetStats then reports, for every answer of the network and every stop |
| Generator.SendsNumbered | MyIperf/src/myiperf/PacketGenerator.cpp:69-74 | the packets sent are 0, 1, 2, ..., never more than requested, and exactly the requested number when no send fails and nobody stops; the byte total is the sum of the reports |
| ReceiveStats.PacketReceiveStats.OnDataPacket | MyIperf/src/myiperf/PacketReceiveStats.cpp:23-44 | one packet changes bytes, packets, sequence errors, mismatches and the expected counter as OnData says |
| ReceiveStats.CountersMeaning | MyIperf/src/myiperf/PacketReceiveStats.cpp:23-44 | sequence errors are the number of places where the numbering breaks, mismatches the number of altered payloads, bytes the total size |
| ReceiveStats.ErrorFreeIffPristine | MyIperf/src/myiperf/PacketReceiveStats.cpp:23-44 | no sequence error and no mismatch if and only if the packets are 0, 1, 2, ... with their expected payloads |
| ReceiveStats.ExchangeCounted | MyIperf/src/myiperf/PacketReceiveStats.cpp:23-44 | exchanging the payloads of two packets of an undisturbed run is counted as exactly two mismatches and no sequence error |
| Receiver.Dispatch | MyIperf/src/myiperf/PacketDispatcher.cpp:11-45 | data packets reach the statistics and all others the bus, both in order |
| Receiver.PacketReceiver.ReceiverLoop | MyIperf/src/myiperf/PacketReceiver.cpp:55-87 | over any receives, stops between them and a throwing receive, statistics, bus and parser are what feeding the received chunks, counting all failures and dispatching all packets gives; the loop ends exactly at an empty receive, a stop or an exception |
| Receiver.PacketReceiver.Start | MyIperf/src/myiperf/PacketReceiver.cpp:22-37 | starts from a reset parser and zero statistics, and changes nothing when already running |
| Receiver.PacketReceiver.constructor | MyIperf/src/myiperf/PacketReceiver.cpp:12-16 | the bound given to the parser is the one the session theorems use, 131072 bytes |
| MessageBus.NextValid | MyIperf/src/myiperf/ControlMessageBus.cpp:25-174 | every step keeps the invariant: a type with a pending wait has an empty buffer, each registered wait is unresolved and suspended, each wait has at most one outcome and resume |
| MessageBus.StepIsFifo | MyIperf/src/myiperf/ControlMessageBus.cpp:25-77 | in one step, arrivals go to the back of the queue of their type and at most one wait is given the message at its front |
| MessageBus.RunIsFifo | MyIperf/src/myiperf/ControlMessageBus.cpp:25-174 | over every interleaving without clear and cancelAll, buffered and delivered messages of a type are exactly those given to its waits, in order, followed by those still buffered |
| MessageBus.AtMostOnce | MyIperf/src/myiperf/ControlMessageBus.cpp:38-76 | from an empty bus every wait gets at most one of message, timeout and cancellation, one resume if it had suspended and none if served at once, and keeps its outcome in every continuation |
| MessageBus.CancelReachesRegistered | MyIperf/src/myiperf/ControlMessageBus.cpp:118-139 | cancelAll cancels an unresolved wait if and only if it is registered; one between await_ready and registration registers afterwards |
| MessageBus.TimerNeedsRegistration | MyIperf/src/myiperf/ControlMessageBus.cpp:38-58 | a timer has an effect if and only if its wait is registered |
| MessageBus.ClearForgets | MyIperf/src/myiperf/ControlMessageBus.cpp:112-116 | clear empties every queue and every registration and resolves nobody; the timers of the waits are without effect afterwards |
| MessageBusObjects.ControlMessageBus.TryTakeBufferedMessage | MyIperf/src/myiperf/ControlMessageBus.cpp:141-152 | takes the front of the queue of the type, if there is one |
| MessageBusObjects.ControlMessageBus.AwaitReady | MyIperf/src/myiperf/ControlMessageBus.cpp:25-30 | is one Take step of the bus |
| MessageBusObjects.ControlMessageBus.AwaitSuspend | MyIperf/src/myiperf/ControlMessageBus.cpp:64-76 | is one Suspend step: it takes a message that came meanwhile or registers the wait |
| MessageBusObjects.ControlMessageBus.TimerFires | MyIperf/src/myiperf/ControlMessageBus.cpp:44-56 | is one Expire step |
| MessageBusObjects.ControlMessageBus.Deliver | MyIperf/src/myiperf/ControlMessageBus.cpp:97-110 | is one Hand step: ignore data, buffer, or hand over and resume |
| MessageBusObjects.ControlMessageBus.CancelAll | MyIperf/src/myiperf/ControlMessageBus.cpp:118-139 | is one CancelEvery step: every registered wait is cancelled and resumed once, both maps are emptied |
| SessionInbox.WaitTakesFirst | MyIperf/src/myiperf/ControlMessageBus.cpp:25-77 | a wait on a bus that holds an inbox takes the first message of its type and leaves the rest |
| SessionInbox.DeliveryFillsInbox | MyIperf/src/myiperf/ControlMessageBus.cpp:160-174 | a delivery extends the inbox, or serves the registered wait with its first message |
| SessionInvariant.StepKeepsInv | MyIperf/src/myiperf/ClientTestSession.cpp:11-125 | every step of either session, stream or timer keeps the invariant that fixes, for each pair of program points, what is in transit, what the counters hold and what has been stored |
| SessionTheorems.OneControlInFlight | MyIperf/src/myiperf/ServerTestSession.cpp:61-129 | packet-level system: in every reachable state at most one control message is in transit or unconsumed, counting both directions |
| SessionTheorems.WaitsMatchPhase | MyIperf/src/myiperf/ClientTestSession.cpp:68-117 | packet-level system: a wait for a type used in both phases takes the message sent for its own phase, with the peer's statistics of that phase |
| SessionTheorems.NeverThrows | MyIperf/src/myiperf/ServerTestSession.cpp:48-80 | no received configuration or statistics payload fails to parse |
| SessionTheorems.Agreement | MyIperf/src/myiperf/ServerTestSession.cpp:72-128 | packet-level system, also with timeouts: both sides store equal statistics for every phase both completed, and a finished server means that the client completed both phases and sent SHUTDOWN_ACK |
| SessionTheorems.Progress | MyIperf/src/myiperf/ClientTestSession.cpp:11-21 | packet-level system, where every packet is delivered whole: while no side has failed and not both have finished, some step other than a timeout is possible; over bytes see Deadlock.ProgressIffFits |
| SessionTheorems.MeasureDecreases | MyIperf/src/myiperf/PacketGenerator.cpp:135-167 | unless there are packets to send without a count, every step uses up a session step, or keeps them and shortens a stream |
| SessionTheorems.ClientVerdict | MyIperf/src/myiperf/TestController.cpp:442-492 | packet-level system: the client's result is a success if and only if it has finished and either packetSize >= 17 or the packet count is 0, whatever became of the server, with every packet and byte received in both phases |
| SessionTheorems.ServerVerdict | MyIperf/src/myiperf/TestController.cpp:442-492 | the same for the server |
| SessionLinks.ClientSendsAsGenerator | MyIperf/src/myiperf/PacketGenerator.cpp:118-179 | over any reports of the network, the run of the client's steps at its data sends puts exactly the packets of the generator's loop on the upstream, with its totals, and leaves the data sends exactly when the loop returns |
| SessionLinks.ServerSendsAsGenerator | MyIperf/src/myiperf/PacketGenerator.cpp:118-179 | the same for the server on the downstream |
| SessionLinks.ChunkCounts | MyIperf/src/myiperf/PacketReceiver.cpp:73-80 | one received chunk changes the counters of the session system as the receive loop changes the statistics |
| SessionLinks.DispatchFillsInbox | MyIperf/src/myiperf/PacketDispatcher.cpp:11-45 | dispatching any packets to the bus gives the inbox of the session system, and wakes the waiting session with the first message of its type |
| Network.ChunkDelivers | MyIperf/src/myiperf/PacketReceiver.cpp:55-87 | a received chunk of any size completes some whole number of the packets in transit and leaves the others intact |
| Network.Refines | MyIperf/src/myiperf/PacketReceiver.cpp:55-87 | every step over byte streams is a session step or a run of packet deliveries of the packet-level system |
| Network.EndToEndProgress | MyIperf/src/myiperf/ServerTestSession.cpp:11-19 | deadlock freedom over byte streams in every state that represents one of the packet level |
| AnySize.StepKeepsAnyInv | MyIperf/src/myiperf/PacketReceiver.cpp:55-87 | for every packet size: the handshake fixes both configurations before data flows, counters stay within the parsers' bound per packet, and no side sends past the packet count |
| OversizedStream.Drain | MyIperf/src/myiperf/PacketStreamParser.cpp:27-98 | from any place in a stream of data above the bound, with or without a TEST_FIN behind it, and for any end of what has arrived: no checksum failure, and either nothing comes out and a tail is kept, or only the TEST_FIN comes out and nothing is left |
| OversizedStream.DataBarren | MyIperf/src/myiperf/PacketGenerator.cpp:31-63 | at no place in a data packet above the bound can a packet that the parser accepts begin |
| OversizedSessions.StepKeepsFlooded | MyIperf/src/myiperf/ClientTestSession.cpp:61-117 | above the bound every event keeps the invariant that fixes, for each pair of program points, what each link and inbox can hold (nothing, one control message, or data with or without a TEST_FIN), and what has been stored; only timeouts make a side fail |
| EndToEnd.OnlyTimeoutsFail | MyIperf/src/myiperf/ServerTestSession.cpp:48-80 | over any run over bytes without timeouts, for every packet size, neither side fails: each payload that a wait takes can be parsed |
| SentStatistics.SendersStored | MyIperf/src/myiperf/ClientTestSession.cpp:75-86 | over bytes, with timeouts or not and for every packet size: whoever is past a phase has stored for its sender exactly the packets asked for, the sum of what the network reported for them, nothing received and no error |
| EndToEnd.EndToEndVerdict | MyIperf/src/myiperf/TestController.cpp:442-492 | in every state any run over bytes reaches, with timeouts or not and for every configuration: a result is a success if and only if its side has finished and either 17 <= packetSize <= 17 + 131072 or the packet count is 0, and then in both phases the sender sent and the receiver received numPackets packets, and packetSize*numPackets bytes arrived; without a packet count no side finishes that has a packet to send |
| EndToEnd.EndToEndTermination | MyIperf/src/myiperf/ClientTestSession.cpp:61-117 | for every packet size, unless there are packets to send without a count, each event of a run uses up a session step or bytes in transit, so every run is finite |
| EndToEnd.PhasesNeverMix | MyIperf/src/myiperf/ClientTestSession.cpp:68-117 | over bytes, with timeouts or not and for every packet size: every ready wait has exactly the message of its own phase and nothing else, and in whatever chunks the bytes in transit arrive, at most one control message is unconsumed or still comes out, counting both directions; up to the bound it is one of the packets in transit |
| EndToEnd.StoredAgree | MyIperf/src/myiperf/ServerTestSession.cpp:72-128 | over bytes, with timeouts or not and for every packet size: both sides store equal statistics for every phase both completed, and a finished server means a finished client |
| EndToEnd.FinishingRun | MyIperf/src/myiperf/ClientTestSession.cpp:11-21 | up to the bound, from every state of a run without a failure there is a run without timeouts to both sessions FINISHED, unless there are packets to send without a count |
| EndToEnd.MaximalRunSucceeds | MyIperf/src/myiperf/TestController.cpp:394-428 | up to the bound, a run without timeouts that cannot go on has finished on both sides, and either result is a success if and only if what was asked for can be received |
| EndToEnd.RunnersPass | TestRunner/Message.cpp:203-258 | after such a run TestRunner, reading either result and expecting its configuration, reports success for either role if and only if packetSize >= 17 |
| Deadlock.OversizedRunStops | MyIperf/src/myiperf/PacketStreamParser.cpp:38-45 | for every packetSize > 17 + 131072 and every positive packet count there is a run without timeouts that throws all data and the TEST_FIN away and leaves both sessions with nothing possible but a timeout |
| Deadlock.OversizedRunFinishes | MyIperf/src/myiperf/TestController.cpp:394-428 | for the same sizes and counts there is also a run without timeouts on which both sessions finish, and neither result is a success |
| Deadlock.UnlimitedRunsOn | MyIperf/src/myiperf/PacketGenerator.cpp:69-74 | with packet count 0 and packetSize >= 17 there are runs without timeouts longer than any bound |
| Deadlock.ProgressIffFits | MyIperf/src/myiperf/PacketStreamParser.cpp:38-45 | no run without timeouts ever gets stuck before both sessions have finished if and only if packetSize <= 17 + 131072 or the packet count is 0 |
| SessionAssumptions.LosslessExists | MyIperf/src/myiperf/ControlProtocol.cpp:34-46 | there is an encoding of configurations and statistics as the session theorems assume it |
| SessionAssumptions.OversizedNeverComplete | MyIperf/src/myiperf/PacketReceiver.cpp:12-16 | for any bytes at all: with packetSize > 17 + 131072 no packets the parser can emit make a phase complete; for runs of the sessions see EndToEnd.EndToEndVerdict |
| Controller.ValidateReceiver | MyIperf/src/myiperf/TestController.cpp:188-231 | the reason put together check by check is ValidateReceiverStats |
| Controller.ReasonEmptyIffComplete | MyIperf/src/myiperf/TestController.cpp:188-231 | the reason is empty if and only if the counts match what was asked for and no error was counted |
| Controller.ReasonNames | MyIperf/src/myiperf/TestController.cpp:188-231 | each check that fails is named in the reason, with the numbers it compared |
| Controller.ReasonListed | MyIperf/src/myiperf/TestController.cpp:178-231 | the reason is the texts of the failing checks in their order, joined by "; " |
| Controller.VerdictMeaning | MyIperf/src/myiperf/TestController.cpp:442-492 | success if and only if finished and both receivers complete; a result that is no success has a reason |
| Controller.ResultCarries | MyIperf/src/myiperf/TestController.cpp:442-492 | each phase carries the stored statistics of its sender and receiver; the caller's reason comes first, and that of each failing phase is contained |
| Controller.ReasonsInOrder | MyIperf/src/myiperf/TestController.cpp:474-490 | the reason of a result is the caller's text, the state when it is not FINISHED and the failing phases, in this order, joined by "; " |
| Controller.StatesNamed | MyIperf/src/myiperf/TestController.cpp:35-76 | different states have different names |
| Controller.SignedDiffers | MyIperf/src/myiperf/TestController.cpp:188-231 | different numbers are printed differently |
| ResultEvents.TestController.BuildCurrentResult | MyIperf/src/myiperf/TestController.cpp:442-492 | assembles the result of the current state step by step |
| ResultEvents.TestController.StartTest | MyIperf/src/myiperf/TestController.cpp:299-326 | resets everything, starts the sink and publishes run_started as the first event of the run |
| ResultEvents.TestController.PublishPhaseResult | MyIperf/src/myiperf/TestController.cpp:558-582 | publishes a phase once, with the stored statistics, through the sink |
| ResultEvents.TestController.FinalizeResultOnce | MyIperf/src/myiperf/TestController.cpp:516-542 | the first call fixes result and warning, publishes final_result and stops the sink, and then everything announced has reached the pipe if and only if each write made while stopping succeeds; later calls only signal completion |
| ResultEvents.TestController.StopTest | MyIperf/src/myiperf/TestController.cpp:354-381 | finalises with its own reason once, and only if a test has started |
| ResultEvents.CallsKeepOrder | MyIperf/src/myiperf/TestController.cpp:516-582 | from any ordered state, in whatever order and however often atomic calls come: run_started first, each phase at most once, final_result once and last, and the first finalised result stays |
| ResultEvents.StartedKeepsOrder | MyIperf/src/myiperf/TestController.cpp:299-326 | a controller started with a result pipe: after any atomic calls its events are in that order, beginning with its run_started, and a finalised result and its events never change |
| ResultEvents.FinalizedAtOnceFails | MyIperf/src/myiperf/TestController.cpp:299-326 | a run finalised before any state has been reached is no success, for every configuration, and gives its reason |
| SessionEvents.MovesOn | MyIperf/src/myiperf/TestController.cpp:558-582 | what one session step makes the controller announce takes it from the events of one program point to those of the next |
| SessionEvents.ClientAnnounces | MyIperf/src/myiperf/ClientTestSession.cpp:83-125 | over any run over byte streams, for every packet size, the client's events are run_started, the phases it has completed, and one final result, and the phases announced are those of that result |
| SessionEvents.ServerAnnounces | MyIperf/src/myiperf/ServerTestSession.cpp:78-121 | the same for the server |
| SessionEvents.ClientVerified | ResultPipeVerifier/src/main.cpp:913-973 | over any run over byte streams, for every configuration and in every state of the sink: what has reached the client's pipe, read in any chunks, is accepted if and only if no line is queued or given up and the result is a success, that is, if the client has finished and what was asked for can be received |
| SessionEvents.ServerVerified | ResultPipeVerifier/src/main.cpp:913-973 | the same for the server |
| SessionEvents.ClientDelivered | MyIperf/src/myiperf/ResultEventSink.cpp:69-121 | after the sink has been stopped: accepted if and only if the result is a success and each write made while stopping succeeds |
| SessionEvents.ServerDelivered | MyIperf/src/myiperf/ResultEventSink.cpp:69-121 | the same for the server |
| EventSink.ResultEventSink.Publish | MyIperf/src/myiperf/ResultEventSink.cpp:57-67 | without interference, appends a line while running and otherwise changes nothing |
| EventSink.ResultEventSink.Push | MyIperf/src/myiperf/ResultEventSink.cpp:62-66 | the second half of publish appends its line whether or not the sink has been stopped since |
| EventSink.ResultEventSink.Start | MyIperf/src/myiperf/ResultEventSink.cpp:40-55 | a new run begins with exactly the lines pushed after an earlier stop had cleared the queue, and with none after a run it had to stop itself |
| EventSink.ResultEventSink.WriteFront | MyIperf/src/myiperf/ResultEventSink.cpp:105-121 | the front line is written, put back in front when the write fails while running, or given up during shutdown; lines pushed meanwhile, also late ones, come after it |
| EventSink.ResultEventSink.WorkerLoop | MyIperf/src/myiperf/ResultEventSink.cpp:90-123 | for every pattern of pushes, stops and write failures: which lines were written or given up, what was pushed and whether the worker left is what WorkPlan says; while running written ++ queued is what was pushed; without stops and failed writes each round that finds a line writes one; the worker leaves only when stopped with every line tried |
| EventSink.RunningWrites | MyIperf/src/myiperf/ResultEventSink.cpp:90-123 | while the sink runs no line is given up and the worker does not leave, and with successful writes the rounds write at least the lines queued at the start |
| EventSink.EachWrites | MyIperf/src/myiperf/ResultEventSink.cpp:105-109 | with successful writes and no stop, each round that finds a line writes exactly one, whatever is pushed meanwhile |
| EventSink.CaughtUp | MyIperf/src/myiperf/ResultEventSink.cpp:90-123 | a worker that has written all lines but those pushed during its last write has exactly these queued |
| EventSink.StoppedLeaves | MyIperf/src/myiperf/ResultEventSink.cpp:92-104 | after a stop, enough rounds make the worker leave with every line tried |
| EventSink.ResultEventSink.Stop | MyIperf/src/myiperf/ResultEventSink.cpp:69-85 | tries every queued line once, in order, gives up the lines pushed before the final clear, and leaves an empty queue; without such lines everything has been written if and only if each of those tries succeeds |
| EventSink.WrittenIsSubsequence | MyIperf/src/myiperf/ResultEventSink.cpp:90-123 | what reached the pipe is always a subsequence of what was published |
| PipeReading.PiecesMeaning | ResultPipeVerifier/src/main.cpp:614-631 | the pieces contain no newline and joined by newlines give the text |
| PipeReading.PipeReader.ConsumeChunk | ResultPipeVerifier/src/main.cpp:614-632 | the loop adds the cleaned non-empty complete pieces and keeps the unfinished one |
| PipeReading.PipeReader.FlushPending | ResultPipeVerifier/src/main.cpp:634-642 | adds what is left, without a trailing carriage return, and forgets it |
| PipeReading.SplitterIgnoresChunks | ResultPipeVerifier/src/main.cpp:599-642 | for every chunking, consuming all chunks and flushing gives exactly the non-empty newline-separated pieces of the whole text without one trailing carriage return |
| PipeReading.LinesComeBack | ResultPipeVerifier/src/main.cpp:599-642 | lines that are not empty, hold no newline and end in no carriage return are read back exactly |
| PipeReading.LineEndings | ResultPipeVerifier/src/main.cpp:614-642 | a line is read without its newline or carriage return and newline, whichever ends it, and empty lines are passed over |
| EventVerifier.VerifyEvents | ResultPipeVerifier/src/main.cpp:913-973 | adds no error if and only if the lines are the four events in order, of this run and role, with a successful FINISHED result |
| EventVerifier.AcceptedIffSuccess | ResultPipeVerifier/src/main.cpp:951-972 | all four events are accepted if and only if the result is a FINISHED success |
| EventVerifier.AcceptedExactly | ResultPipeVerifier/src/main.cpp:913-973 | of any events whatever exactly these are accepted: run_started, phase 1, phase 2 and a successful FINISHED result, all of this run and role; the phase number is read as a 32-bit integer |
| TestRunner.AnalyzeTestResult | TestRunner/Message.cpp:203-258 | pass flag and reason accumulated check by check |
| TestRunner.PassedIffNoFaults | TestRunner/Message.cpp:203-258 | passed if and only if no check added a reason, and only then does the reason read as success |
| TestRunner.ParsedExactly | TestRunner/ProcessManager.cpp:840-895 | a result file is read exactly when the run id is given and is its own; each role takes the counters of the phase it received in, or if it did not receive there those of what it sent, the verdict, and a reason that contains that of the file and the export warning |
| TestRunner.SameVerdict | TestRunner/ProcessManager.cpp:840-895 | reading the exported result and analysing it reports success for either role if and only if the run's own result was a success and the role received a packet, which a success with a packet count implies |
| OutputParser.BlockCutOut | TestRunner/IpeftcOutputParser.cpp:17-44 | from printed summaries between unrelated log text, the slices are exactly the block of the receiving side |
| OutputParser.BlockFields | TestRunner/IpeftcOutputParser.cpp:58-103 | from such a block every counter is read back as it was printed |
| OutputParser.TextAgreesWithFile | TestRunner/IpeftcOutputParser.cpp:116-157 | for non-negative counters the log text and the result file give the same bytes, packets, sequence, checksum and mismatch counters for either role |
| OutputParser.TextVerdict | TestRunner/IpeftcOutputParser.cpp:116-157 | analysing the log text passes if and only if the receiving phase of that role was complete and received a packet |
| OutputParser.VerdictsAgree | TestRunner/ControlClient.cpp:193-209 | the verdicts from the log text and from the result file are the same if and only if the role's own receiving phase failed or received nothing, or the run finished with the other phase complete too |
| OutputParser.VerdictsDiffer | TestRunner/IpeftcOutputParser.cpp:150-156 | a run on which the text passes and the file fails |
| PartialLog.OnlyPhase1 | TestRunner/IpeftcOutputParser.cpp:116-157 | from a log that ends after the phase 1 summary the client reads what it has sent and the server what it has received, with all error counters, and the verdict is whether that is at least one packet |
| PartialLog.OnlyPhase2 | TestRunner/IpeftcOutputParser.cpp:116-157 | the mirror image for a log that holds only the phase 2 summary |
| PartialLog.NoSummary | TestRunner/IpeftcOutputParser.cpp:139-145 | from a text without a summary nothing is read, and the result fails and names the role |
| PartialLog.FallsBack | TestRunner/IpeftcOutputParser.cpp:72-103 | a total that does not occur in a block is replaced by the other direction's, an error counter that does not occur keeps its value, and without a byte or a packet total the block is not used |
| PartialLog.ErrorsCarryOver | TestRunner/IpeftcOutputParser.cpp:126-137 | error counters of a first block that is given up stay where the second block has none |
| ControlFraming.SendAll | TestRunner/ControlClient.cpp:31-40 | all bytes are sent in order under every pattern of short sends, or the connection broke after a front part |
| ControlFraming.RecvAll | TestRunner/ControlServer.cpp:43-52 | the buffer is filled with the next bytes under every pattern of short receives, or the connection broke or ended |
| ControlFraming.SendMessage | TestRunner/ControlClient.cpp:252-266 | puts one length-prefixed frame on the connection, and nothing for a message over 65536 bytes |
| ControlFraming.FrameLayout | TestRunner/ControlClient.cpp:252-266 | a frame is four bytes of length, highest first, and the message; nothing over 65536 bytes |
| ControlFraming.ReceiveMessage | TestRunner/ControlServer.cpp:402-418 | takes one frame off the connection; empty for a zero or too large length, an error, or the end |
| ControlFraming.ReceiveSession | TestRunner/ControlServer.cpp:226-228 | receiving until the empty answer gives the messages on the connection, and a front part of them if it breaks |
| ControlFraming.ReadCut | TestRunner/ControlServer.cpp:402-418 | a connection cut after any number of bytes yields exactly the messages that arrived whole |
| ControlFraming.FramingRoundTrip | TestRunner/ControlClient.cpp:252-285 | a list of messages is read back exactly if and only if every message has 1 to 65536 bytes |

## Left out

- Sockets, epoll and IOCP, process launch, files, pipes, the command line, the logger, version strings and tables.
- Connecting, accepting, failed sends and `stopTest` as steps of the two-session system; `stopTest` appears in `ResultEvents`.
- Interleavings of several threads inside one session step, and lock-free reads of counters.
- Liveness of timeouts: the timer starts before the wait is registered, so only at-most-once is claimed.
- Recovery after corruption: a garbage header can trigger the clear, so for corrupt input only `EmissionSound` holds.
- Two waits on one message type at the same time, and the ownership of coroutine frames.
- Clocks, duration, throughput, the floating-point fields of results, and their reading by `ExtractDouble`.
- What the network reports for a send: any positive number. The byte totals of a sender are the sums of these reports.
- JSON text, its printing and parsing, and the error texts of the JSON library.
- Numbers too large for `std::stoll` in the log text; printed counters are 64-bit values.
- The role, port and version members of TestRunner messages, and the order of its control session beyond the framing.
- The test for an invalid socket before a control message is sent or received; a connection is given.
- ResultEvents.TestController.StopTest: the cancelling of waits and the stopping of generator, receiver and network are
  not part of it.
- ResultEvents.CallsKeepOrder: each call is one step, so a phase event that a concurrent call queues behind
  `final_result` is outside it (see the assumptions).
- ResultEvents.StartedKeepsOrder: the same.
- EventVerifier.VerifyEvents: a member of the final result that has the wrong JSON type makes the original throw; here it
  reads as its default value.
- OutputParser.TextAgreesWithFile: duration and throughput must be printed as digits and a point, as for any finite value.
