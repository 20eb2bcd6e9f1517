# GioNet reliability layer: a verified model

GioNet sends packets over UDP and adds a reliability layer: reliable packets get cyclic 16-bit ids, are kept until
the peer acknowledges them, are sent again when an acknowledgement reports them missing, and are released to the
application in order. Every packet carries an `ackId` and a bit set that reports on the four ids before it.

The project models that layer and the byte format under it in Dafny 4.11 and proves what it guarantees, under any
interleaving of threads on both sides and over a network that loses, duplicates and reorders, together with the
exact limits of those guarantees. `dafny verify dfyconfig.toml` verifies everything.

| file | content |
|---|---|
| `Ids.dfy` | ids that skip 0, positions in a stream, the half-range comparison |
| `Packets.dfy` | the packet record and its header byte |
| `Encoding.dfy` | the wire format as functions: round trips, prefix-freeness, the layout byte by byte, the buffer as a queue of typed values |
| `Buffers.dfy` | the class `Buffer`, its reads and writes proved against the wire format |
| `Connections.dfy` | what each critical section does (functions), and the classes `PacketStream` and `Connection` proved to do it |
| `AckWindow.dfy` | acknowledgement headers: encoding and decoding are exact; which packets are sent again |
| `Endpoints.dfy` | an endpoint with any number of threads, lock by lock; mutual exclusion, progress |
| `Sequential.dfy` | a call that runs undisturbed does what the class method does |
| `Invariants.dfy`, `AckSoundness.dfy`, `Maximality.dfy` | what every step of an endpoint keeps |
| `Network.dfy`, `Theorems.dfy` | two endpoints and the network; the main results over all runs |
| `Calls.dfy` | what each whole undisturbed call does in the system; runs that show something possible are built from them |
| `Lookups.dfy` | the header a packet departs with, whatever happens between its load and its lookups |
| `Conservation.dfy` | nothing is made up, doubled or dropped on the ways through an endpoint |
| `Bursts.dfy`, `Sharpness.dfy` | runs that show the bounds on in-order and on maximal delivery cannot be raised |
| `Recovery.dfy`, `Stalls.dfy`, `Losses.dfy` | retransmission: which lost packets get through after all, which never do, and runs that end with such losses |
| `Laps.dfy` | one receiver over any number of laps of the id space: exactly when delivery stays right |
| `LongRuns.dfy` | the whole system over any number of laps, while first copies arrive in order |
| `Datagrams.dfy` | the system over byte strings refines the system over packets, and conversely |

## How the model is put together

An id is an integer below 65536 with the source's wrap-around written out. Proofs use unwrapped *positions*: the n-th
reliable packet of a stream has position n, and `IdAt(start, n)` is its id when the sequence number starts at `start`.

The functions in `Connections.dfy` give the effect of each critical section on a value (`Conn`, `Stream`). They are
used twice: the methods of `Connection` are proved to compute them, and the steps of the threads in `Endpoints.dfy`
apply them one at a time. A thread inside `Received` holds the incoming lock and takes the outgoing lock once for
each of the five ids it visits; a thread inside `PopReadyOutgoingPacket` pops, loads the acknowledged id without a
lock and makes four separately locked lookups. `Sequential.dfy` closes the circle.

A system is two endpoints. Whatever has departed from one may be received by the other at any time, any number of
times, in any order, or never. A run is any list of actions of any threads; the results hold after every run.
`Content()` is a packet without its acknowledgement: header, id and payload.

Two limits of the code shape the statements. The received map is never pruned, so ids of an earlier lap still
answer; in-order delivery is therefore claimed for fewer than 65535 reliable packets in a direction, and
`Sharpness.LapBoundIsSharp` shows that 65535 are too many. And the bit set, although 32 bits wide, covers
`sizeof(ackBitset)` = 4 ids, so a packet is sent again only while it is at most four ids behind the peer's
acknowledged id; the Readme's promise that reliable packets are guaranteed to arrive holds only that far, and
`AckWindow.ResentIff` says so for one acknowledgement and `Stalls.RepairableIff` for whole runs: when both sides have
fallen silent and the network has dropped everything, a lost packet still gets through if and only if it is one of
those four. While the peer has acknowledged nothing its acknowledged id is 0, and the ids behind it are the last of the
cycle, 65532 to 65535; then, and only then, repairing one of those makes the ids behind it reachable in turn. So the
lost end of a burst is not sent again, nor is a first burst lost as a whole if its ids are below 65528, or below 65532
with none of the last four in use. `Losses.dfy` has runs that end in each of these states.

## Model

| member | source | states |
|---|---|---|
| Theorems.InOrderExactlyOnce | GioNet/src/Connection.cpp:24-69 | in every reachable state with fewer than 65535 reliable packets scheduled, from any matching start numbers, what the application gets is a prefix of what the peer scheduled: same header, id, payload, no gap, no repeat, retransmissions included |
| Sharpness.LapBoundIsSharp | GioNet/src/Connection.cpp:165-185 | that bound is exact: from any start numbers there is a run with 65535 scheduled packets after which the application has not got a prefix |
| Sharpness.HalfLapBoundIsSharp | GioNet/src/Connection.cpp:132-163 | the bound of `Theorems.DeliveryIsMaximal` is exact: from any start number up to 32767 there is a run with 32768 scheduled packets after which a packet beyond the ack id has been received |
| Theorems.NothingForgotten | GioNet/src/Connection.cpp:187-215 | in every reachable state, with any number of packets, each scheduled id is still kept by the sender or has been received by the peer |
| Theorems.NoPacketForgotten | GioNet/src/Connection.cpp:187-227 | within a lap the very packet scheduled is kept, or has been received up to its acknowledgement |
| Theorems.DepartedAcksSound | GioNet/src/Connection.cpp:108-125 | although the header is put together without one lock, every departed packet names by its ack id and each bit only ids its sender has received |
| Lookups.DepartedAcksComplete | GioNet/src/Connection.cpp:108-125 | whatever other threads do between the load of the ack id and the last lookup, exactly one packet departs: the one popped, with the ack id that was loaded, the bit of every id of its window received before the load, and only bits of ids received by the end |
| Conservation.OnlyPoppedDeparts | GioNet/src/Connection.cpp:38-48 | after every run the packets departed and those popped and not yet sent are exactly the packets popped, each as often, up to the acknowledgement: nothing else is ever sent |
| Conservation.OnlyGivenIsReady | GioNet/src/Connection.cpp:24-36 | after every run the packets given to `Schedule` are exactly those not got to yet, those scheduled as reliable and the unreliable ones made ready, each as often |
| Conservation.UnreliableWasGiven | GioNet/src/Connection.cpp:24-36 | every unreliable packet ever made ready is one that some call of `Schedule` was given |
| Conservation.OnlyHeardIsQueued | GioNet/src/Connection.cpp:50-69 | after every run the unreliable packets given to `Received` are exactly those still inside a call and those queued for the application, each as often |
| Theorems.AssertionsNeverFail | GioNet/src/Connection.cpp:57-63 | the assertion on the id of a received reliable packet never fails, and the releasing loop never has the invalid id as its goal |
| Theorems.NoDeadlock | GioNet/src/Connection.cpp:50-55 | in every reachable state with an unfinished call on a side, some call on that side can move |
| Theorems.CallsFinish | GioNet/src/Connection.cpp:7-74 | threads that only continue their calls make boundedly many steps, and when none can move every call has returned |
| Theorems.RetransmissionFidelity | GioNet/src/Connection.cpp:217-227 | every reliable packet made ready, popped or departed, first copy or retransmission, has the header, id and payload scheduled under its id |
| Stalls.RepairableIff | GioNet/src/Connection.cpp:108-227 | in every reachable state, once all calls have returned, nothing reliable waits and the network drops everything under way, some run without further reliable packets brings a kept packet to the peer that lacks it if and only if it is one of the four ids behind the peer's ack id, or the ack id is still 0 and it is one of the four behind a kept packet among 65532 to 65535 |
| Stalls.TailStaysLost | GioNet/src/Connection.cpp:187-209 | so packets scheduled after the one the peer acknowledges, if lost, stay kept and no such run delivers them |
| Stalls.FirstBurstStaysLost | GioNet/src/Connection.cpp:187-227 | while the peer has acknowledged nothing, a lost packet with an id below 65528, or below 65532 when no later id is in use, stays kept and no such run delivers it |
| Losses.FirstBurstCanBeLost | GioNet/src/Connection.cpp:187-227 | from any start number there is, for any number of packets that stays below id 65532, a run that ends in that loss |
| Losses.TailCanBeLost | GioNet/src/Connection.cpp:187-209 | from any start number there is, for any number of packets up to 65531, a run in which the first arrives and all others are lost for good |
| Losses.EndOfCycleIsRepaired | GioNet/src/Connection.cpp:187-209 | of five lost packets 65531 to 65535 the first still gets through although the ack id 0 does not report on it, because 65535 can get through before it |
| Recovery.LostPacketIsRepaired | Readme.md:33-36 | from any reachable state with both sides free and everything under way lost, there is a run without further reliable packets after which a reported packet has arrived as scheduled, and has been made ready for the application if it was the one awaited |
| Theorems.ErasedStaysErased | GioNet/src/Connection.cpp:211-227 | once an acknowledged packet is erased, no continuation of the run within the lap keeps it again or makes another copy ready |
| Theorems.IncomingQueueConserved | GioNet/src/Connection.cpp:50-74 | consumed followed by ready holds every unreliable packet received once, in order of arrival, and its reliable packets are the delivered prefix |
| Theorems.DeliveryIsMaximal | GioNet/src/Connection.cpp:132-185 | with at most 32767 packets, whenever no `Received` is in its critical section, exactly the longest contiguous prefix received has been released, the ack id is the furthest received, and once all have arrived all are released |
| Theorems.IdStream | GioNet/src/Connection.cpp:24-36 | the n-th reliable packet made ready has id ((start + n - 1) mod 65535) + 1, never 0, whatever unreliable packets are interleaved; packets are made ready in the order scheduled and otherwise unchanged |
| Theorems.IdStreamDistinct | GioNet/src/Connection.cpp:97-106 | any 65535 consecutive reliable packets have distinct ids |
| LongRuns.InOrderRunsDeliver | GioNet/src/Connection.cpp:50-69 | over runs of the whole system of any length and any interleaving, if first copies are taken in in order and duplicates are at most 32767 positions old, the application has at every moment a prefix of what was scheduled, and outside the critical section of `Received` exactly what has arrived |
| LongRuns.CourseStep | GioNet/src/Connection.cpp:57-63 | every step of every receiving thread keeps the receiver, or the receiver with one packet tracked and stored, at exactly the positions that have arrived |
| Laps.ExactIffGapsInFirstLap | GioNet/src/Connection.cpp:165-185 | over runs of any length, with loss, duplicates and reordering, each arrival in the tracking range of the furthest and less than a lap past the first gap, the application always has exactly the longest contiguous prefix if and only if no first missing position was ever beyond the first lap |
| Laps.InOrderRunsAreExact | GioNetTests/src/ReliabilityTests.cpp:187-221 | if first copies arrive in order and duplicates are at most 32767 positions old, every packet is delivered exactly once, over any number of wraparounds |
| Laps.DuplicateHarmlessIff | GioNet/src/Connection.cpp:132-163 | after a complete prefix, a duplicate less than a lap old leaves delivery right exactly when it is in the tracking range or the first lap is not complete |
| Laps.ArrivalStep | GioNet/src/Connection.cpp:57-63 | one arrival in that range keeps delivery right if nothing is missing afterwards or the first gap is in the first lap, and otherwise releases a stale packet |
| Laps.ReleasedUpTo | GioNet/src/Connection.cpp:165-185 | the loop never passes the acknowledged position and stops before it only at a missing id, in any lap |
| Ids.UpdateTracksMaxIff | GioNet/src/Connection.cpp:132-163 | one comparison follows the maximum of the unwrapped positions exactly within [max-32767, max+32766], one step more when the ids wrap in between |
| Ids.TrackingRefinesMaximumIff | GioNet/inc/Connection.h:69-75 | over runs of any length the ack id is always the id of the furthest arrival if and only if every arrival was in that range |
| Ids.SameIdIffWholeLaps | GioNet/inc/Packet.h:15-16 | two positions share an id exactly when they are whole laps of 65535 apart |
| Ids.SuccIdAt | GioNet/src/Connection.cpp:97-106 | counting up and skipping 0 reaches the id of the next position, which is not 0 |
| AckWindow.WindowInPositions | GioNet/src/Connection.cpp:108-125 | an acknowledgement reports on the four positions before the acknowledged one, but on three only when its id is at most 4, because the plain subtraction runs through the invalid id |
| AckWindow.AckRoundTrip | GioNet/src/Connection.cpp:187-209 | processing a header built over what the peer has received drops exactly the ack id and the received ids of the window, makes ready exactly the kept, unreceived packets of the window, nearest first, and changes nothing else |
| AckWindow.AckEffect | GioNet/src/Connection.cpp:187-227 | the same for any header, whoever built it |
| AckWindow.HeaderBits | GioNet/src/Connection.cpp:108-125 | a finished header has the ack id, bit j set exactly if j < 4 and the j-th id before it was received, and the packet's content untouched |
| AckWindow.ResentIff | Readme.md:23-30 | a packet the peer lacks is sent again exactly when it is still kept and at most four ids behind the peer's ack id |
| AckWindow.UnmentionedIsNeverResent | Readme.md:7-7 | a lost packet that no later acknowledgement reports on is kept for ever and never sent again |
| AckWindow.LostBehindTheWindow | GioNet/src/Connection.cpp:187-227 | concretely: of six packets the first is lost; when the peer's ack id is 6 it stays outstanding and nothing is sent |
| AckSoundness.NamedIsReceived | GioNet/src/Connection.cpp:86-90 | while a lookup can hold the incoming lock shared, every id announced by the ack id has been stored |
| AckSoundness.AckSideStep | GioNet/src/Connection.cpp:38-69 | every step of every thread keeps acknowledgements sound, those being assembled and those departed |
| AckSoundness.CoveredStep | GioNet/src/Connection.cpp:187-215 | a step drops a kept packet only if the peer has received it |
| Maximality.AckAdvances | GioNet/src/Connection.cpp:127-163 | among at most 32767 positions the ack id never falls behind the old one or the new packet |
| Maximality.DrainReachesGap | GioNet/src/Connection.cpp:165-185 | the loop ends at the first position missing from everything received |
| Invariants.DrainContinuesPrefix | GioNet/src/Connection.cpp:165-185 | within a lap, whatever the ack id is, the loop releases the packets that come next in the stream |
| Invariants.SendSideStep | GioNet/src/Connection.cpp:24-48 | every step keeps the id of each scheduled packet and the genuineness of every packet kept, ready, popped or departed |
| Invariants.RecvSideStep | GioNet/src/Connection.cpp:50-74 | every step keeps the delivered prefix and the genuineness of what is stored |
| Invariants.ErasedStep | GioNet/src/Connection.cpp:24-36 | a step neither keeps an erased id again nor makes a copy of its packet ready |
| Endpoints.LocksStep | GioNet/src/Connection.cpp:86-90 | each lock is held by exactly the threads inside its critical sections, one exclusive owner or any number of lookups |
| Endpoints.DeadlockFree | GioNet/src/Connection.cpp:211-227 | incoming before outgoing is the only nesting, so some unfinished call can always move |
| Endpoints.BlockedIffConflict | GioNet/src/Connection.cpp:86-90 | a thread inside a call is held up exactly while another thread is inside a conflicting critical section; lookups do not hold up each other |
| Stalls.StallLasts | GioNet/src/Connection.cpp:132-227 | while no reliable packet is added, the sender sends only what the peer's ack ids report on, the ack id moves at most from 0 to one of the last four ids, and nothing else arrives |
| Sequential.SoloReceive | GioNet/src/Connection.cpp:50-69 | the steps of an undisturbed `Received` end in the state the method computes |
| Sequential.SoloSend | GioNet/src/Connection.cpp:38-48 | the steps of an undisturbed `PopReadyOutgoingPacket` pop the oldest packet and send it with the finished header |
| Sequential.SoloSendNothing | GioNet/src/Connection.cpp:11-12 | with an empty queue the undisturbed steps change nothing and send nothing |
| Sequential.SoloSchedule | GioNet/src/Connection.cpp:24-36 | the steps of an undisturbed `Schedule` end in the state the method computes |
| Sequential.SoloPopIncoming | GioNet/src/Connection.cpp:71-74 | the steps of an undisturbed `PopReadyIncomingPacket` hand over the oldest ready packet |
| Calls.CallSchedules | GioNet/src/Connection.cpp:24-36 | from a free thread of either side, a whole call in the system makes the packet ready last, a reliable one under the next id, and keeps it |
| Calls.CallSends | GioNet/src/Connection.cpp:38-48 | a whole call sends the oldest ready packet with the header of the moment |
| Calls.CallSendsNothing | GioNet/src/Connection.cpp:38-48 | a whole call with nothing ready changes nothing |
| Calls.CallReceives | GioNet/src/Connection.cpp:50-69 | a whole call on a departed packet does to the connection what the method does |
| Calls.CallPops | GioNet/src/Connection.cpp:71-74 | a whole call hands over the oldest ready packet, and nothing else changes; with nothing ready nothing changes |
| Calls.AllIsConsumed | GioNet/src/Client.cpp:105-111 | everything enqueued can be consumed, in order |
| Connections.ReleasedPositions | GioNet/src/Connection.cpp:165-185 | the packets released are those of the following positions, all present; the loop stops only at the ack id or before a missing id |
| Connections.DistanceShrinks | GioNet/src/Connection.cpp:170-175 | each turn of the loop is one step nearer to the ack id on the cycle, so it terminates for any map |
| Connections.PacketStream.PopNextReadyPacket | GioNet/src/Connection.cpp:7-17 | pops the oldest ready packet, or nothing, and leaves the rest in order |
| Connections.Connection.Schedule | GioNet/src/Connection.cpp:24-36 | numbers and keeps a reliable packet, queues any packet, touches nothing else |
| Connections.Connection.GetIndexForNextPacket | GioNet/src/Connection.cpp:97-106 | the next id of the cycle without 0 |
| Connections.Connection.PopReadyOutgoingPacket | GioNet/src/Connection.cpp:38-48 | the oldest ready packet with the header of this moment; the incoming side is untouched |
| Connections.Connection.AddAckHeader | GioNet/src/Connection.cpp:108-125 | the header over the ack id and the received map, changing no state |
| Connections.Connection.HasReceivedPacket | GioNet/src/Connection.cpp:86-90 | true exactly for ids in the received map |
| Connections.Connection.UpdateAckId | GioNet/src/Connection.cpp:132-163 | the ack id after the wrapped comparison |
| Connections.Connection.EnqueueProcessablePackets | GioNet/src/Connection.cpp:165-185 | terminates for any map contents and releases the run of packets characterised by `ReleasedPositions` |
| Connections.Connection.ProcessAcks | GioNet/src/Connection.cpp:187-209 | makes the five visits whose joint effect is `AckEffect` |
| Connections.Connection.PacketAcked | GioNet/src/Connection.cpp:211-215 | erases the id from the kept packets only |
| Connections.Connection.ReschedulePacket | GioNet/src/Connection.cpp:217-227 | queues a copy of a kept packet, or does nothing |
| Connections.Connection.Receive | GioNet/src/Connection.cpp:50-69 | acknowledgements first, then the ack id, the stored packet and the release, or the unreliable packet straight to the queue |
| Connections.Connection.PopReadyIncomingPacket | GioNet/src/Connection.cpp:71-74 | hands over the oldest ready packet and keeps everything else |
| Datagrams.BytesRefinePackets | GioNet/src/Client.cpp:79-96 | every run over serialised datagrams, of any sizes, moves the endpoints as a run over packets does |
| Datagrams.PacketsRefineBytes | GioNet/src/Client.cpp:113-125 | with payloads of at most 499 bytes every run over packets is matched action by action over datagrams |
| Datagrams.InOrderExactlyOnceOverBytes | GioNet/src/Client.cpp:90-96 | in-order exactly-once delivery holds through serialisation and parsing |
| Datagrams.DatagramIsDeparted | GioNet/inc/Core.h:18-18 | a datagram on the wire reads as a packet that has departed, and can be received exactly if its payload has at most 499 bytes |
| Encoding.PacketRoundTrip | GioNet/src/Buffer.cpp:114-134 | reading an encoded packet followed by anything gives the packet and exactly what followed; the encoding has 13 + payload bytes |
| Encoding.PacketPrefixFree | GioNet/src/Buffer.cpp:114-134 | two packets whose encodings start the same bytes are equal, and so is what follows |
| Encoding.PacketLayout | GioNet/src/Buffer.cpp:114-122 | the bytes of a packet: the header, the id, the ack id and the 32 ack bits with bit j worth 2 to the power j, lowest byte first, then the payload behind its signed 32-bit length |
| Encoding.ReadLayout | GioNet/src/Buffer.cpp:124-134 | a packet read has the fields laid out so in the bytes, and leaves what follows them |
| Encoding.BlockRoundTrip | GioNet/src/Buffer.cpp:57-112 | strings and nested buffers read back exactly, including empty ones |
| Encoding.LittleEndianRoundTrip | GioNet/inc/Buffer.h:52-57 | fixed-size values of any width read back exactly |
| Encoding.BitsRoundTrip | GioNet/inc/Packet.h:17-17 | the 32 ack bits survive their encoding as a number |
| Encoding.BytesRefineQueue | GioNet/inc/Buffer.h:45-68 | for any interleaving of writes and type-matching reads each read gives the oldest unread value, the bytes are the encodings of the rest, and they are empty exactly when all is read |
| Buffers.Buffer.CopyBytesIntoPayload | GioNet/src/Buffer.cpp:36-45 | appends the bytes behind what is there |
| Buffers.Buffer.ExtractBytesFromPayload | GioNet/src/Buffer.cpp:47-55 | takes bytes off the front, losing none |
| Buffers.Buffer.ReadText | GioNet/src/Buffer.cpp:66-79 | four bytes give the length, lowest first; so many bytes follow if it is positive, none otherwise; the rest is left |
| Buffers.Buffer.WriteBuffer | GioNet/src/Buffer.cpp:90-96 | appends the length in four bytes, lowest first, and the contents |
| Buffers.Buffer.ReadBuffer | GioNet/src/Buffer.cpp:98-112 | a new buffer with the block at the front, laid out as for text; a negative length reads as empty |
| Buffers.Buffer.WritePacket | GioNet/src/Buffer.cpp:114-122 | appends 13 bytes and the payload: byte 0 the header, 1-2 the id, 3-4 the ack id, 5-8 the ack bits, 9-12 the payload's length, from 13 on the payload |
| Buffers.Buffer.ReadPacketFields | GioNet/src/Buffer.cpp:124-134 | the packet whose fields stand at those places at the front, leaving what follows |
| Buffers.Buffer.Equals | GioNet/src/Buffer.cpp:23-29 | true exactly for equal contents |
| Buffers.Buffer.Copy | GioNet/src/Buffer.cpp:31-34 | appends the other buffer's bytes without a length |
| Buffers.WriteThenRead | GioNetTests/src/BufferSerializationTests.cpp:111-134 | a packet, a string and raw bytes written to one buffer read back in order |
| Packets.HeaderRoundTrip | GioNet/src/Packet.cpp:20-52 | the type and the flags given to the constructor come back, without disturbing each other, and a flag test sees exactly the common flags |
| Packets.HeaderBytes | GioNet/inc/Packet.h:19-31 | the header bytes in numbers: connect 0x00, data 0x01, ping 0x02, reliable 0x10 more; a received packet is reliable exactly if bit 4 is set |

## Left out

- Sockets, address resolution, thread start and stop, logging, `NetSystem`: I/O; the network is the set of what has departed.
- The server's peer table, broadcast, delegates, the Chat and NetworkingWin programs: plumbing around one connection for each peer.
- `Packet::SetFlags(flag, false)`: no code calls it; only the enabling path of the constructor is modelled.
- `ToString`, `Peer`, `Message`, `NetAddress` and a connection's address: nothing is stated about them.
- Byte order: fixed to little-endian; the source copies the bytes of the host.
- Endpoints.Continue: the load and the store of the ack id in `UpdateAckId` are one step, because only the owner of the incoming lock stores it; the loop of `EnqueueProcessablePackets` is one step for the same reason.
- Connections.Connection.Receive: requires a valid id of a reliable packet, which the source asserts; `Theorems.AssertionsNeverFail` shows the assertion holds in every run.
- Buffers.Buffer.ReadPacketFields: requires enough bytes, which the source asserts; malformed datagrams from third parties are not modelled, only the wire between the two endpoints.
- Connections.Connection: the class has no locks; they are in `Endpoints.dfy`, and the 32-bit bit set is modelled as its 32 bits, lowest first.
- Buffers.Buffer.WriteBuffer: excludes writing a buffer into itself, where the source reads the memory it is resizing.
- Datagrams longer than 512 bytes: the source's `ReceiveFrom` closes the socket on one (GioNet/src/Socket.cpp:144-148); here such a datagram is not received and the system goes on.
- Theorems.DeliveryIsMaximal: no claim that a packet is delivered eventually; the network may drop every copy, and `Stalls.RepairableIff` says which packets can be.
