# Verification of the turningpoint-convex link layer

The robot talks to its Raspberry Pi over a serial line. Packets travel in frames of the Serial
Framing Protocol (SFP): octet stuffing and a 16-bit check sequence as in RFC 1662 (section 4.2
and Appendix C.2), a three-way handshake, six-bit sequence numbers, and retransmission from a
ring of the last eight packets whenever the receiver sends a NAK. On top of it run a message
codec and a small publish/subscribe RPC server. This project models these four files and proves
what they promise:

- `src/serial_framing_protocol.c` and `src/potringbuffer.c`: `Octets`, `Crc`, `CrcOrder`, `Frames`,
  `Protocol`, `Answers`, `Framing`, `Wire`, `RingBuffer`, `SfpContext`, `Duplex`, `Recovery`, `Stall`,
  `Window`, `Pacing`, `Handshake`, `HalfOpen`, `History`
- `src/messages.c`: `Messages`, `EndToEnd`
- `src/rpc.c`: `RpcSpec`, `Publications`, `Rpc`

The files come in layers. `Protocol` says what each frame does to one peer (connection state,
sequence numbers, history) as functions on values; `Framing` says what octets mean as frames.
`SfpContext` is the C struct with its buffers and indices, updated in place, and each of its
methods is proved to do exactly what those functions say, on state, wire and deliveries alike.
The theorems about runs of two peers are then about the functions: in `Duplex` two peers are
joined by first-in first-out channels that may lose, damage or make up a frame at any moment, in
`Handshake` by channels that lose nothing, in `HalfOpen` by a quiet line. A frame reaching a peer
acts as `Protocol.Arrive` says, which `Framing.FrameAtRest` proves of its octets, whatever its size.
In `Duplex` every frame carries an index that counts packets from the first one written; it lets
the invariant speak of packets where the protocol has numbers modulo 64, and
`Duplex.StepsIgnoreIndices` shows that no step depends on it. `Rpc` and `Messages` relate to
`RpcSpec` and the codec functions in the same way.

Two ends that share a mistake still understand each other, so what another implementation sees is
stated apart from the functions that compute it: `Wire` gives octets of frames and what the preset
of the check sequence is for, `Messages.Holds` the place of every field of a message, `Answers` what
a peer answers in each state, and `Publications` what the server's messages say, all in the numbers
that the protocol itself gives to them.

Some facts about the code came out that its documentation does not say:

- `sfpWritePacket` takes packets of up to 256 octets, but a receiver delivers a packet if and only
  if it has at most 254 (`Framing.DeliveredIffFits`): the check sequence needs room in the same
  buffer. One longer packet stops delivery until the next reset (`Recovery.OversizedBlocks`), and
  one of 256 octets keeps both ends exchanging NAKs and retransmissions (`Recovery.NeverAtRest`).
- Delivery in order depends on when packets are written. When the history is full, a write pushes
  out its oldest packet; if the other end can still ask for that packet, the sender silently
  renumbers. `Duplex.MayWrite` is the condition on a write, and `Window.WindowExact` shows that it
  is exactly the right one: a write keeps all later deliveries correct if and only if it holds.
- `MayWrite` speaks of both ends. A rule that each end can follow by itself is to be ahead of what
  it has been delivered by no more than a credit of its own: every write is then in the window if
  and only if the two credits add up to eight at most (`Pacing.PacedDelivery`,
  `Pacing.CreditsExact`). With credits of eight and none, one end only answers.
- The loss of the last packets shows when the next packet is written. Where the window is shut,
  that is when the last eight packets written were all lost, there can be no next packet, and over a
  perfect line the missing ones never come (`Stall.CatchUpExact`).
- A packet written by a waiting end to one that waits after SYN0 gets both connected, but is itself
  erased; a packet that happens to bear the number expected is taken although its writer is not
  connected, and neither end notices (`HalfOpen.OneWriteHeals`).

Smaller ones: a message can be accepted although its value runs past the end of its packet, exactly
when it announces more than 255 octets and more than there are (`Messages.AcceptedInsideExactly`); more than eight packets written
before the handshake completes are not all sent again (`History.EarlyWritesResent`); the check for a
request id already in use never fires, so unsubscribing undoes a subscription only under the
condition of `RpcSpec.UnsubscribeUndoes`.

The write and deliver callbacks are logs of what they were handed. They do not call back into the
context. Motor readings, the clock and the packet writer's presence are inputs.

## Model

| member | source | states |
|---|---|---|
| Crc.GoodExactly | src/serial_framing_protocol.c:248-252 | the receiver's check passes for exactly those octet sequences that end in the complemented check sequence of the rest, low octet first |
| Crc.UpdatePairInjective | src/serial_framing_protocol.c:17-23 | two octets fed to one register value leave different values unless they are equal |
| Crc.UpdateLinear | src/serial_framing_protocol.c:17-23 | the update is linear: differences of inputs become differences of check sequences |
| Crc.BurstsDetected | src/serial_framing_protocol.c:17-23 | equally long sequences that differ within sixteen consecutive bits, anywhere, never both pass |
| Crc.OddErrorsDetected | src/serial_framing_protocol.c:17-23 | a good sequence with an odd number of bits flipped never passes |
| CrcOrder.UpdateIsTurns | src/serial_framing_protocol.c:17-23 | the octet-wise update is eight steps of division by the generator polynomial, one for each bit |
| CrcOrder.PeriodExactly | src/serial_framing_protocol.c:17-23 | zero bits bring the register back to where it was after 32767 of them and not before |
| CrcOrder.TwoErrorsDetected | src/serial_framing_protocol.c:17-23 | two flipped bits, however far apart in 4095 octets, never go unnoticed |
| CrcOrder.FewErrorsDetected | src/serial_framing_protocol.c:17-23 | a good sequence of up to 4095 octets with one, two or three bits flipped, anywhere, never passes |
| Frames.HeaderRoundTrip | src/serial_framing_protocol.c:212-223 | header octets and pairs of frame type and sequence number correspond one to one |
| Wire.HeaderOctets | src/serial_framing_protocol.c:212-223 | headers of user, retransmitted, NAK and SYN frames are the sequence number plus 0, 64, 128 and 192 |
| Wire.PresetExactly | include/serial_framing_protocol.h:31 | the preset, and no other, makes the check sequence that of the octets with the first sixteen bits complemented |
| Wire.ControlFramesOnWire | src/serial_framing_protocol.c:607-661 | the octets of SYN0, SYN1, SYN2, DIS and a NAK for zero |
| Wire.UserFrameOnWire | src/serial_framing_protocol.c:505-527 | the octets of a user frame with a FLAG and an ESC in its payload |
| Wire.RepeatedOctets | src/serial_framing_protocol.c:141-153 | back-to-back FLAGs are ignored, and repeated ESCs act as one |
| Framing.StuffSafe | src/serial_framing_protocol.c:505-527 | stuffed octets contain no FLAG, every ESC is followed by an octet that is not reserved, and the length at most doubles |
| Framing.RxStepKeepsValid | src/serial_framing_protocol.c:151-171 | any octet but FLAG keeps the receiver invariant: length within bounds, a fresh register between frames, and within a frame the check sequence of header and buffer |
| Framing.DeliverAll | src/serial_framing_protocol.c:135-174 | the receiver invariant holds after every octet stream, handshakes and overflows included |
| Framing.StuffedFills | src/serial_framing_protocol.c:505-527 | stuffed octets fill an idle receiver's header and buffer with exactly the octets stuffed |
| Framing.ReceiverUnstuffs | src/serial_framing_protocol.c:151-171 | between two FLAGs any octets, stuffed or not, fill the receiver with the octets unstuffed |
| Framing.UnstuffStuff | src/serial_framing_protocol.c:152-159 | unstuffing gives back exactly the octets stuffed |
| Framing.FrameRoundTrip | src/serial_framing_protocol.c:607-661 | from any receiver state, a transmitted frame of at most 254 payload octets reaches the handler as exactly that frame |
| Framing.FrameAtRest | src/serial_framing_protocol.c:480-494 | a frame of up to 254 octets is handled, one of 255 vanishes and one of 256 draws a NAK |
| Framing.FramesThroughOctets | src/serial_framing_protocol.c:135-174 | a receiver at rest handles a stream of encoded frames, of all sizes, exactly as the frames one by one |
| Framing.DamageIsNaked | src/serial_framing_protocol.c:236-252 | a frame with a burst of up to sixteen bits, up to three bits or an odd number of bits flipped before stuffing is answered by a NAK for the expected number and delivers nothing |
| Framing.WireDamageIsNaked | src/serial_framing_protocol.c:236-252 | the same for up to three or an odd number of bits flipped on the line, as long as they make or destroy no FLAG or ESC |
| Framing.BadBodyNaked | src/serial_framing_protocol.c:239-252 | a frame too short for a check sequence, or ending in anything but the right one, is answered by a NAK |
| Framing.OverflowResets | src/serial_framing_protocol.c:480-494 | one octet more than header and buffer hold makes the receiver forget the frame |
| Framing.RestOfFrame | src/serial_framing_protocol.c:98-110 | after a reset in the middle of a control frame its rest is the frame itself, a frame too short, or nothing |
| Framing.DeliveredIffFits | src/serial_framing_protocol.c:480-494 | an expected user packet is delivered if and only if it has at most 254 octets, draws a NAK if and only if it has 256, and changes nothing with 255 |
| Answers.NakAnswered | src/serial_framing_protocol.c:382-457 | a NAK for a number that an entry of the history bears sends that entry and the later ones again under their numbers; for any other number but the next, the whole history goes out under the numbers from that one on |
| Answers.SynAnswered | src/serial_framing_protocol.c:340-431 | what each SYN number does in each connection state, to a peer with anything written and delivered |
| Answers.RefusalAnswered | src/serial_framing_protocol.c:300-309 | outside a connection user frames, retransmissions and NAKs draw DIS, SYN0 or SYN1 by the state, and change nothing |
| Answers.DataAnswered | src/serial_framing_protocol.c:319-335 | in a connection the expected number is delivered, another draws a NAK if it came in a user frame |
| Answers.ConnectAnswered | src/serial_framing_protocol.c:98-110 | sfpConnect forgets everything in any state and sends SYN0 |
| RingBuffer.PotRingbuffer.Init | src/potringbuffer.c:21-26 | a new ring is empty |
| RingBuffer.PotRingbuffer.Size | src/potringbuffer.c:37-41 | the masked index difference is the number of elements, also when full |
| RingBuffer.PotRingbuffer.Empty | src/potringbuffer.c:44-48 | equal indices mean no elements |
| RingBuffer.PotRingbuffer.Full | src/potringbuffer.c:51-55 | indices half a turn apart mean as many elements as the capacity |
| RingBuffer.PotRingbuffer.At | src/potringbuffer.c:58-62 | reads the element that many places from the front |
| RingBuffer.PotRingbuffer.ReverseAt | src/potringbuffer.c:65-69 | reads the element that many places from the end |
| RingBuffer.PotRingbuffer.Front | src/potringbuffer.c:72-76 | the first element |
| RingBuffer.PotRingbuffer.Back | src/potringbuffer.c:79-83 | the last element |
| RingBuffer.PotRingbuffer.Incr | src/potringbuffer.c:129-140 | an index steps forward, wrapping at twice the capacity |
| RingBuffer.PotRingbuffer.Decr | src/potringbuffer.c:142-146 | an index steps back although the step is added as a huge unsigned number |
| RingBuffer.PotRingbuffer.PushBack | src/potringbuffer.c:86-94 | appends, giving up the first element of a full ring |
| RingBuffer.PotRingbuffer.PushFront | src/potringbuffer.c:97-105 | prepends, giving up the last element of a full ring |
| RingBuffer.PotRingbuffer.PopFront | src/potringbuffer.c:108-112 | removes the first element |
| RingBuffer.PotRingbuffer.PopBack | src/potringbuffer.c:115-119 | removes the last element |
| RingBuffer.PotRingbuffer.Clear | src/serial_framing_protocol.c:470-476 | popping until empty ends, with nothing left |
| RingBuffer.ViewWithLast | src/potringbuffer.c:86-94 | writing the slot after the last element of a ring that is not full appends to its contents and disturbs no other element |
| RingBuffer.ViewWithFirst | src/potringbuffer.c:97-105 | writing the slot before the first element of a ring that is not full prepends to its contents |
| SfpLink.SfpContext.Init | src/serial_framing_protocol.c:72-95 | a new context is disconnected, at sequence number zero, with an idle receiver |
| SfpLink.SfpContext.SetDeliverCallback | src/serial_framing_protocol.c:118-123 | whether packets are handed to a callback changes nothing else |
| SfpLink.SfpContext.BufferedWrite | src/serial_framing_protocol.c:671-686 | whatever spills, flushed and waiting output together grow by exactly the octet written |
| SfpLink.SfpContext.WriteNoCrc | src/serial_framing_protocol.c:505-527 | writes the escaped octet and counts what it wrote |
| SfpLink.SfpContext.TransmitFrameWithHeader | src/serial_framing_protocol.c:607-661 | the wire gets exactly the encoding of the frame, which Wire gives in octets; the length reported is right and the buffer ends empty |
| SfpLink.SfpContext.WritePacket | src/serial_framing_protocol.c:176-189 | the packet goes on the wire under the next number and into the history |
| SfpLink.SfpContext.TransmitHistory | src/serial_framing_protocol.c:459-468 | the whole history goes on the wire, numbered upwards |
| SfpLink.SfpContext.TransmitHistoryFromSeq | src/serial_framing_protocol.c:433-457 | keeps and sends what a number borne by an entry asks for, and otherwise the whole history under new numbers |
| SfpLink.SfpContext.Connect | src/serial_framing_protocol.c:97-110 | resets everything and sends SYN0 |
| SfpLink.SfpContext.HandleSyn | src/serial_framing_protocol.c:340-431 | answers each SYN frame in each connection state as the frame-level function says |
| SfpLink.SfpContext.HandleUsr | src/serial_framing_protocol.c:295-338 | delivers the packet with the expected number, asks for it when another user frame comes, refuses outside a connection |
| SfpLink.SfpContext.HandleNak | src/serial_framing_protocol.c:382-406 | retransmits from the number asked for unless it is the next one |
| SfpLink.SfpContext.HandleFrame | src/serial_framing_protocol.c:236-280 | checks length and check sequence, then acts on the frame |
| SfpLink.SfpContext.CopyOutPacket | src/serial_framing_protocol.c:282-293 | copies the packet, or refuses and leaves the buffer alone if it is too small |
| SfpLink.SfpContext.DeliverOctet | src/serial_framing_protocol.c:135-174 | one octet changes state, wire and deliveries as the octet-level function says, and the result and the caller's buffer tell of a packet |
| SfpLink.SfpContext.DeliverAllOctets | src/server.c:131-134 | a stream of octets read from the line has the effect of the octet-level function on the whole stream |
| Duplex.SeqUnambiguous | src/serial_framing_protocol.c:319-321 | within the window, six-bit numbers agree only for the same packet |
| Duplex.StepsIgnoreIndices | src/serial_framing_protocol.c:236-280 | the indices that frames carry in the model influence no step |
| Duplex.TakeData | src/serial_framing_protocol.c:319-335 | a data frame is delivered exactly when it carries the next packet and that has at most 254 octets; what else it draws is a NAK for that packet or nothing |
| Duplex.TakeNak | src/serial_framing_protocol.c:401-457 | a NAK shrinks the history to the packets from the one asked for on and sends all of them again with their old numbers |
| Duplex.StepKeepsGood | src/serial_framing_protocol.c:236-280 | writing in the window, receiving, and losing, damaging and making up frames keep the link invariant in both directions |
| Duplex.InOrderDelivery | src/serial_framing_protocol.c:295-338 | in every run from a fresh connection each end has been delivered exactly the first packets written at the other, none from one too long on, and lags by at most eight |
| Recovery.NakRecovers | src/serial_framing_protocol.c:382-406 | handling one NAK and receiving what is then on its way delivers everything before the first packet too long, so all of it if and only if none from the one asked for on is too long |
| Recovery.NextWriteRepairs | src/serial_framing_protocol.c:321-325 | once the line is quiet, one more packet in the window makes up for all earlier losses if and only if no packet is too long; one of 255 octets does nothing |
| Recovery.OversizedBlocks | src/serial_framing_protocol.c:480-494 | in no run is anything delivered from a packet too long on |
| Recovery.NeverAtRest | src/serial_framing_protocol.c:401-457 | with packets of 256 octets from the next one on, each NAK handled leaves as many as there are of them: with one, the link is in the same state for ever |
| Stall.CatchUpExact | src/serial_framing_protocol.c:319-335 | a quiet link with packets missing gets them over a perfect line if and only if its sender may write one more and no packet is too long |
| Pacing.PacedDelivery | src/serial_framing_protocol.c:295-338 | if each end stays within a credit ahead of what it has been delivered, and the credits add up to eight at most, everything is delivered in order |
| Pacing.CreditsExact | src/serial_framing_protocol.c:586-603 | all runs within given credits keep to the window if and only if the credits add up to eight at most |
| Window.StaleNakHandled | src/serial_framing_protocol.c:442-454 | a NAK for the packet just pushed out renumbers the whole history |
| Window.OutsideWindowFails | src/serial_framing_protocol.c:586-603 | with packets that fit, after a write outside the window some run delivers a wrong packet |
| Window.WindowExact | src/serial_framing_protocol.c:586-603 | a write in the window keeps every later run correct, and with packets that fit no other write does |
| Window.LongPacketShields | src/serial_framing_protocol.c:433-457 | a write outside the window does no harm when the packet after the one given up is too long, as nothing is delivered again |
| Handshake.ReceiveTable | src/serial_framing_protocol.c:340-406 | what each SYN frame, a NAK and the rest of a cut frame do to an end with nothing written or delivered |
| Handshake.CutIsRest | src/serial_framing_protocol.c:98-110 | the octets of a control frame that are left when its receiver is reset act as the cut signal of the model |
| Handshake.ReceiveDecreases | src/serial_framing_protocol.c:340-380 | receiving a frame answers an end that was waiting or leaves less to happen |
| Handshake.HandshakeConverges | src/serial_framing_protocol.c:98-110 | after any interleaving of receptions and connect calls, also in the middle of a frame, every continuation falls quiet, and then both ends are connected at number zero |
| Handshake.QuietSoon | src/serial_framing_protocol.c:340-406 | with n frames on the way the line is quiet after at most 18 n + 2 receptions, and then both ends are connected |
| Handshake.JoinedIsFresh | src/serial_framing_protocol.c:353-380 | a completed handshake is the starting point of reliable delivery |
| HalfOpen.ForgottenIsEnded | src/serial_framing_protocol.c:300-303 | a disconnected peer answers a packet by ending the connection at the writer, whatever state that was in |
| HalfOpen.LostSyn0Heals | src/serial_framing_protocol.c:304-306 | at a peer waiting after SYN0 a packet restarts the handshake, which completes; the writer's packets are lost, the waiting peer's arrive |
| HalfOpen.LostSyn2Heals | src/serial_framing_protocol.c:307-309 | at a peer waiting after SYN1 a packet draws another SYN1, which connects both and brings each what it misses, or ends the connection if the writer is disconnected |
| HalfOpen.ExpectedPacketTaken | src/serial_framing_protocol.c:327-335 | a packet with the expected number is delivered whatever the writer's state, and heals nothing |
| HalfOpen.UnexpectedPacketHeals | src/serial_framing_protocol.c:382-398 | a packet with another number than a connected peer expects draws a NAK, which an unconnected writer answers with DIS, SYN0 or SYN1 |
| HalfOpen.OneWriteHeals | src/serial_framing_protocol.c:295-338 | one packet over a quiet line brings any two ends not both connected into the same state if and only if it does not bear the number a connected peer expects, and which state that is |
| HalfOpen.Syn0HealedIsGood | src/serial_framing_protocol.c:340-351 | after a lost SYN0 has healed, delivery in order goes on without the writer's packets |
| HalfOpen.Syn2HealedIsGood | src/serial_framing_protocol.c:353-380 | after a lost SYN1 or SYN2 has healed early on, both ends have all packets and delivery in order goes on |
| HalfOpen.LostInTheBuffer | src/serial_framing_protocol.c:480-494 | a packet of 255 octets changes nothing at the other end, whatever its state |
| History.HistoryIsNumbered | src/serial_framing_protocol.c:433-468 | in every run the frame that entry i of the history last went out in carried that packet, under the number that counting back from the next one gives |
| History.EarlyWritesResent | src/serial_framing_protocol.c:353-380 | completing the handshake sends again the packets written since the reset, from zero on: all of them if and only if they are at most eight, and for n more the last eight, or n modulo 64 if that is less |
| Messages.Serialize | src/messages.c:133-205 | writes every field at its place, numbers most significant octet first, and the value after them, or refuses and leaves the buffer alone if opcode or room is wrong |
| Messages.Deserialize | src/messages.c:207-309 | reads the buffer as the parsing function does, every field from its place |
| Messages.BigEndian | src/messages.c:160-166 | the order of octets is undone by reading in both directions |
| Messages.OctetsValue | src/messages.c:241-256 | two and four octets are read as the number they are with the most significant first |
| Messages.SerializedLayout | src/messages.c:141-198 | the opcode, offset and octet order of every field of every kind of message |
| Messages.ParsedLayout | src/messages.c:215-304 | every field of an accepted message was read from its place |
| Messages.SerializedParses | src/messages.c:207-309 | deserialising a serialised message gives it back, whatever octets follow |
| Messages.ParsedSerializes | src/messages.c:207-309 | an accepted message that lies inside its octets serialises to exactly those it was read from |
| Messages.AcceptsExactly | src/messages.c:213-307 | accepted are exactly the known opcodes with all the octets they announce, and those announcing more than 255 |
| Messages.AcceptedInsideExactly | src/messages.c:225-239 | an accepted value runs past the octets given if and only if more than 255 and more than there are were announced; with at most 255 octets given, the announcement alone decides |
| EndToEnd.MessageArrives | src/messages.c:133-309 | a message of at most 254 octets, serialised, framed, sent octet by octet and deserialised at a receiver expecting its number, arrives as itself |
| RpcSpec.UnsubscribeUndoes | src/rpc.c:657-689 | unsubscribing restores the table from before the subscription if and only if no slot before the first free one had the request id |
| RpcSpec.RoundsSettle | src/rpc.c:49-56 | after a publish round only servable subscriptions are left, none of those has changed, and another round removes nothing |
| RpcSpec.PairsReachReadings | src/rpc.c:144-160 | the pairs listed bring a copy of the old cache to the readings, and the list of changes is empty only if nothing changed |
| RpcSpec.RoundKeepsMirror | src/rpc.c:49-56 | a client that applies every message of a publish round keeps a copy equal to the motor cache, whatever the readings do meanwhile |
| RpcSpec.ReadKeepsMirror | src/rpc.c:413-453 | so it does applying the answer to a motor read |
| RpcSpec.RoundReachesReadings | src/rpc.c:142-160 | with stable readings and some subscription to all motors a round leaves the cache at the readings |
| RpcSpec.ListingReadsBack | src/rpc.c:333-353 | the listing has five octets for each active slot and reads back as exactly those slots in order |
| Publications.PublishDue | src/rpc.c:81-194 | what each subscription gets in its turn, field by field: the time, exactly the changed motors, both, nothing, or a refusal with its error |
| Publications.AllDue | src/rpc.c:170-186 | a subscription to everything gets the time, then exactly the changed motors, if any |
| Publications.ChangesListed | src/rpc.c:144-157 | the list holds exactly the motors whose reading differs, in order, each with its reading |
| Publications.RoundIsDue | src/rpc.c:49-56 | the messages of a round are those due to each slot in turn, with the motor cache following from slot to slot |
| Publications.TurnLeaves | src/rpc.c:86-103 | the slot is cleared if its subscription cannot be served, and the cache changes exactly where motors were read |
| Publications.MotorAnswered | src/rpc.c:413-453 | a motor read is answered with the reading, with all indices and readings in order, or with an error |
| Publications.TableAnswered | src/rpc.c:296-394 | a read of the table is answered with the slot, the number of active slots, of inactive ones, of all, the list, or all of them |
| Publications.ListingListed | src/rpc.c:333-353 | the listing holds exactly the active slots in order, each with index, request id, topic and subtopic at their places |
| Rpc.RpcServer.constructor | src/server.c:24-25 | a new server, its storage all zero, has sent nothing, and its client's copy starts equal to its motor cache |
| Rpc.RpcServer.Reset | src/server.c:156-174 | a reset empties the table and starts the clock, keeps the motor cache, and the client's copy starts from it |
| Rpc.RpcServer.Send | src/rpc.c:691-704 | a message goes out if and only if there is a writer and it fits |
| Rpc.RpcServer.SubFind | src/rpc.c:742-758 | finds the first active slot with the id, and nothing without a place to put it |
| Rpc.RpcServer.SubFree | src/rpc.c:760-778 | the number of free slots and the first of them |
| RpcSpec.FreeIffFirst | src/rpc.c:666-670 | no slots are counted as free exactly when there is no first free one |
| Rpc.RpcServer.RecvSubscribe | src/rpc.c:657-673 | the first inactive slot gets the request id, topic and subtopic, and no other changes; with none inactive the table stays and the refusal says it is full; the client's motor copy stays right |
| Rpc.RpcServer.RecvUnsubscribe | src/rpc.c:675-689 | zeroes exactly the first active slot with the id and announces its end, or announces an error and an end for the id; the client's motor copy stays right |
| Rpc.RpcServer.CollectChanges | src/rpc.c:144-157 | the cache ends at the readings, and exactly the changed motors are listed, in order |
| Rpc.RpcServer.PublishMotor | src/rpc.c:123-168 | polls the motors named, sends exactly the changes or a refusal, and the client's copy follows the cache |
| Rpc.RpcServer.PublishAll | src/rpc.c:170-194 | the subscription lent out to clock and motors comes back as it was, and gets the time and the changed motors |
| Rpc.RpcServer.Publish | src/rpc.c:81-103 | sends exactly what the slot is due, keeps it if it can be served and zeroes it if not, and changes no other slot |
| Rpc.RpcServer.PublishRound | src/rpc.c:49-56 | takes every slot in turn with what it is due; the client's copy equals the cache at the end |
| Rpc.RpcServer.RecvReadMotor | src/rpc.c:413-453 | a read polls, caches and reports every motor asked for, field by field, and the client's copy stays equal to the cache |
| Rpc.RpcServer.List | src/rpc.c:334-351 | the listing loop fills the buffer with the listing, at most fifty octets |
| Rpc.RpcServer.RecvReadPubsub | src/rpc.c:296-394 | the answers to each read of the table, value by value; the table stays unchanged |

## Left out

- Duplex.InOrderDelivery: runs in which a write is made outside the window are excluded, because delivery in order fails there; Window.WindowExact states when.
- Window.WindowExact: the half that says other writes do harm supposes packets of at most 254 octets, as a longer one can prevent the harm by stopping delivery (Window.LongPacketShields); which mixtures of longer packets do so is not stated.
- Handshake.HandshakeConverges: covers lossless channels that carry no packets; losses of single handshake frames are treated in HalfOpen for a quiet line, and packets written early in History.EarlyWritesResent. A call to sfpConnect while packets are under way is not part of the model.
- HalfOpen.OneWriteHeals: supposes packets of at most 254 octets; one of 255 does nothing (HalfOpen.LostInTheBuffer), one of 256 draws a NAK and is not followed further. The ends take turns in receiving all that is on the way.
- Framing.WireDamageIsNaked: damage on the line that makes or destroys a FLAG or ESC splits, joins or shifts a frame; no check sequence catches all of that, and Crc.GoodExactly says what then passes. In Duplex such damage is frames damaged, lost and made up.
- Rpc.RpcServer.Publish: values the clock publishes are an input; the time stamp of a message is a field that the environment sets.
- Callbacks that call back into the context, as serverWrite can through serverCheckConnection, are not modelled.
- Null write callbacks are not modelled: every context writes to its log.
- Masks and the flipped capacity bit of the ring indices are arithmetic modulo powers of two; size_t has 32 bits as on the Cortex.
- rpcRecv and rpcRecvRead only choose a handler; ping, network information, clock reads and battery messages are easy members.
- rpcRecvWriteMotor ends in foreign motor calls.
- Cassette requests depend on vendor flash, and their write index overlaps the length octet.
- The server thread, the UART, the LCD, the motor subsystems and the autonomous modes are not part of this model.
