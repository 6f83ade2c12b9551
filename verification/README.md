# Verified model of a Socket.IO implementation in Go

The project models the parts of the library whose correctness is hard to see by reading one function, and proves what
they promise over every input, every run or every interleaving. `dafny verify dfyconfig.toml` checks it (Dafny 4.11).

| files | what they model |
|---|---|
| `ValueTree`, `Deconstruct`, `Reconstruct` | the binary codec: Binary leaves leave a value tree as numbered attachments and are put back |
| `SocketHeader`, `HeaderRoundTrip`, `JsonName`, `Decimal` | the text frame of a Socket.IO packet ("Packet encoding" of the Socket.IO protocol, revision 5) |
| `FrameParser`, `Codec` | packets put together from frames that arrive one at a time, and the codec end to end |
| `AckRace`, `AckOutcome`, `AckPaths`, `AckProgress`, `SendBuffer` | the race between registration, timeout and acknowledgement packets for one callback, and the buffer its timeout cleans |
| `RoomIndex`, `SessionRecovery`, `ReplayedFrames` | the two-way room index, broadcasts that change it while they run, and the replay after a lost connection, as packets and as frames |
| `Upgrade`, `PacketQueue`, `RetryQueue`, `RetryOutcome` | the transport upgrade, the two signalled queues and the client's retry queue |
| `WireFormat` | the characters, constants and sample frames that the protocols fix, stated without the functions that encoders and decoders share |
| `EnginePacket`, `Base64`, `PayloadBatching`, `WebTransport` | Engine.IO packets ("Packet encoding" of the Engine.IO protocol, revision 4), payloads, payload sizes and stream framing |
| `Backoff`, `Reconnect`, `CloseRace` | the delays, the chain of reconnection attempts, and a Close beside it |

How the model is built:

- Operations that change state in place are classes and methods with loops; each is proved against a specification
  function or a property of the new state, and the theorems are lemmas about those functions.
- Concurrency is a state machine. Each critical section and each unprotected callback is one action. An action that is
  not enabled does nothing, so a statement about every list of actions is a statement about every interleaving. What a
  run was given (packets sent, broadcast, added or queued, replies, timeouts) is read off its list of actions, and the
  theorems compare it with where the run ends.
- Maps list their entries in iteration order, and the receiver's tree is any tree with the same content, so statements
  about every tree cover every map order and every choice of Go types.
- Serializers, clocks, expiry, generated IDs, dial outcomes and out-of-range float conversions are parameters or inputs.

## What turned out not to hold everywhere

Each of these keeps the code as it is, gives a concrete case, and states when the code does meet the property.

- A tree comes back if and only if the receiver's tree is `Fillable`; a list inside a map is extracted and never
  restored (`RoundTrip`, `ListInMapIsExtracted`, `ListInMapIsLost`).
- `hasBinary` misses a Binary that the extraction reaches exactly when all such are `Hidden` behind a third wrapper
  (`TraversalsAgree`, `HiddenExactly`, `TraversalsDisagree`).
- A map that holds a Binary itself panics in the extraction (`DoneExactly`, `BinaryMapFails`).
- A header comes back if and only if it is `Unambiguous`; an event name if and only if it does not end in a backslash
  (`HeaderRoundTrip`, `EventNameRoundTrip`).
- A packet refused for its attachment count stays open in the parser (`RefusedPacketIsDelivered`).
- Overlapping broadcasts can be delivered in the order opposite to the log's; recovery is exact if and only if no
  delivery overtakes another (`RecoveryIsExact`, `OverlappingBroadcastsRepeat`).
- The live delivery overwrites the logged header and Binaries, so the replay of a broadcast with a Binary sends its text
  frame without the attachments; the frames are right if and only if no replayed broadcast carries binary data
  (`RecoveredFrames`, `EncodedAgain`, `TextFrameAlone`).
- A retry encodes the same arguments again, which fails for a Binary among them (`ExtractedAgain`,
  `ArgumentExtractsOnce`).
- The timeout of an acknowledgement panics, so that its callback never runs, if and only if its packet has several frames
  in the send buffer and the last item is one of them (`RemoveTimedOut`, `ExactlyOnceWithTimeout`, `TimeoutPanics`).
- A Close beside the reconnection chain can leave the manager connected or Reconnecting (`CloseDecides`, `CloseAtOnce`).
- `pollQueue` loses a signal that falls between a poll's check and its wait (`LostWakeupExactly`, `WakeupCanBeLost`).
- A forced drain that meets a pending head puts one packet in flight twice (`OneInFlightExactly`, `CollisionLosesAPacket`).
- A payload after the first cut can exceed `maxPayload`, because the packet that opens it is not counted
  (`LimitKeptExactly`, `SendsStayNear`, `LaterSendOvershoots`).
- A WebTransport frame of 65536 bytes or more is read with the wrong length (`StreamRoundTrip`, `FrameIsLost`).
- The wrapped 64-bit delay saturates if and only if it does not lapse (`SaturatesExactly`, `DelayCanDrop`).

## Model

| member | source | states |
|---|---|---|
| `Deconstruct.DeconFill` | parser/json/binary.go:52-125 | filling the placeholders of the extracted tree with the extracted buffers gives the content of the original tree, for any starting counter and any tree without placeholders |
| `Deconstruct.DeconFillAt` | parser/json/binary.go:178-248 | the same for one slice element, struct field or map value, with each container's own unwrapping |
| `Deconstruct.DeconFillBinary` | parser/json/binary.go:127-176 | the same for one Binary leaf, whether it is overwritten or replaced through its interface |
| `Deconstruct.DoneExactly` | parser/json/binary.go:52-176 | extraction succeeds, from any counter, on exactly the extractable trees: no byte slice behind a pointer, every Binary assignable or in an assignable interface, no Binary directly in a map |
| `Deconstruct.BinaryMapFails` | parser/json/binary.go:217-230 | map[string]Binary panics, for every key and payload |
| `Deconstruct.DeconLeaves` | parser/json/binary.go:48-248 | the placeholders of the result are n, n+1, ... in traversal order, each once, and as many Binaries left the tree |
| `Deconstruct.DeconMet` | parser/json/binary.go:48-248 | the buffers are always, in order, the data of the Binaries met, with an empty one for each plain byte slice, and the counter grows by the Binaries |
| `Deconstruct.DeconPlain` | parser/json/binary.go:80-97 | buffers exceed the counter by exactly the number of plain byte slices met |
| `Deconstruct.ExtractedAgain` | parser/json/binary.go:127-176 | what an extraction leaves can be extracted again if and only if no Binary was replaced through its interface |
| `Deconstruct.ArgumentExtractsOnce` | client_packet_queue.go:135-135 | a Binary among the arguments of an event cannot: the second extraction, which a retry makes, fails |
| `Deconstruct.HiddenExactly` | parser/json/binary.go:551-613 | of the trees with a Binary to reach, hasBinary misses exactly those in which each lies behind a field or map value under three wrappers |
| `Deconstruct.TraversalsAgree` | parser/json/binary.go:551-613 | a successful extraction counts something exactly when it reaches a Binary, and hasBinary agrees with it if and only if not all it reaches is hidden, so on every tree without a third wrapper |
| `Deconstruct.FoundIsReached` | parser/json/binary.go:551-613 | what hasBinary finds the extraction reaches, and conversely without a third wrapper |
| `Deconstruct.TraversalsDisagree` | parser/json/binary.go:178-202 | a struct field behind three pointers holds a Binary that is extracted and not found |
| `Reconstruct.ReconFills` | parser/json/binary.go:314-364 | on a fillable tree the walk yields exactly the filled document, or exactly the out-of-range error |
| `Reconstruct.ReconFillsAt` | parser/json/binary.go:419-549 | the same for struct fields and map values, untyped placeholders included |
| `Reconstruct.ReconFillsBinary` | parser/json/binary.go:366-417 | the same for one Binary: attachment num + 1, range check, and the ways to write it back |
| `Reconstruct.ReconFinds` | parser/json/binary.go:314-549 | a walk that succeeds and leaves no placeholder behind had a fillable tree |
| `Reconstruct.ReconstructExactly` | parser/json/binary.go:304-549 | with all numbers in range, the walk puts every attachment back if and only if the tree is fillable |
| `Reconstruct.ExtractedDocument` | parser/json/binary.go:48-248 | for an extractable tree without plain byte slices: placeholders 0..n-1 in order, as many buffers, which are the data met, and filling them restores the content |
| `Reconstruct.RoundTrip` | parser/json/binary.go:48-549 | reconstruction undoes deconstruction, for every extractable tree and any receiving tree with the same content, if and only if that tree is fillable |
| `Reconstruct.ReconstructPacket` | parser/json/binary.go:304-312 | the loop over the arguments succeeds exactly when each does, with their results, and otherwise gives the first error |
| `Reconstruct.ArgumentsRoundTrip` | parser/json/binary.go:264-312 | the same for the separate arguments of a handler decoded from the extracted list, the event name left out, if and only if all are fillable |
| `Reconstruct.ListInMapIsExtracted` | parser/json/binary.go:204-248 | a Binary in a list that is a map value is taken out |
| `Reconstruct.ListInMapIsLost` | parser/json/binary.go:517-540 | and the walk leaves its placeholder there |
| `Reconstruct.ContentTells` | parser/json/binary.go:48-549 | two values of one shape with the same content are the same value, so a round trip that keeps the content keeps the data |
| `Reconstruct.UntypedExactly` | parser/json/binary.go:459-510 | a decoded two-key map is taken for placeholder k exactly when it says {"_placeholder":true,"num":k}, in either order |
| `Reconstruct.PlaceholderContent` | parser/json/binary.go:43-46 | and such a map means the place of attachment k |
| `JsonName.ReadQuoted` | parser/json/decode.go:176-186 | reading a JSON string literal (section 7 of RFC 8259) undoes escaping, and stops at its closing quote |
| `JsonName.SingleStringOfQuoted` | parser/json/decode.go:176-186 | a one-element list holding an escaped name reads as that name |
| `SocketHeader.EncodeString` | parser/json/encode.go:63-108 | the frame is type, count, namespace, ID and payload in that order, with the trailing newline removed; `WireFormat.FrameLayout` fixes each part as text |
| `SocketHeader.FromChar` | parser/packet.go:25-46 | inverse of ToChar, and fails on every other byte |
| `SocketHeader.ScanNamespace` | parser/json/decode.go:96-111 | the loop finds the first comma, or runs out of the slice when there is none |
| `SocketHeader.ScanId` | parser/json/decode.go:113-130 | the loop takes the longest run of digits as the ID |
| `SocketHeader.FindQuote` | parser/json/decode.go:133-142 | the first quote |
| `SocketHeader.FindEndQuote` | parser/json/decode.go:149-169 | the first later quote with no backslash before it |
| `SocketHeader.Bracketed` | parser/json/decode.go:156-164 | the literal copied between brackets |
| `SocketHeader.ScanEventName` | parser/json/decode.go:132-187 | the event name, or which error, as specified |
| `SocketHeader.ParseHeader` | parser/json/decode.go:60-191 | the whole parser equals its part-by-part specification, errors included |
| `WireFormat.TypeCharacters` | parser/packet.go:12-39 | "0" to "6" are connect, disconnect, event, ack, connect error, binary event, binary ack, in that order, and no other byte is a type |
| `WireFormat.FirstCharacter` | parser/packet.go:25-29 | the first character of every frame is the place of its type in that list |
| `WireFormat.FrameLayout` | parser/json/encode.go:63-108 | after the type, for every header: count and "-" for the binary types only, namespace and "," unless it is "" or "/", ID in decimal, payload |
| `WireFormat.DigitAt` | parser/json/encode.go:63-108 | numerals are decimal, most significant digit first, without a leading zero |
| `WireFormat.EventText` | parser/json/encode.go:63-108 | an event as text |
| `WireFormat.AckText` | parser/json/encode.go:63-108 | an acknowledgement with an ID as text |
| `WireFormat.DisconnectText` | parser/json/encode.go:63-108 | a disconnection from a namespace as text |
| `WireFormat.BinaryEventText` | parser/json/encode.go:63-108 | a binary event with count, namespace and ID as text |
| `WireFormat.EventRead` | parser/json/decode.go:60-191 | every event without arguments whose name needs no escape is read back from its text with header and name |
| `WireFormat.EventTextRead` | parser/json/decode.go:60-191 | what the parser reads in the text of the event |
| `WireFormat.AckTextRead` | parser/json/decode.go:60-191 | in the text of the acknowledgement |
| `WireFormat.DisconnectTextRead` | parser/json/decode.go:60-191 | in the text of the disconnection |
| `WireFormat.BinaryEventTextRead` | parser/json/decode.go:60-191 | in the text of the binary event |
| `WireFormat.EscapeTable` | parser/json/decode.go:176-186 | how each byte of a name is written in a JSON string (section 7 of RFC 8259, with "<", ">" and "&" escaped as encoding/json does) |
| `HeaderRoundTrip.CountComesBack` | parser/json/decode.go:74-94 | the decimal attachment count is read back, for counts below 2^63 |
| `HeaderRoundTrip.NamespaceComesBack` | parser/json/decode.go:96-111 | the namespace is read back, "" as "/" |
| `HeaderRoundTrip.IdComesBack` | parser/json/decode.go:113-130 | the ID is read back whenever the payload does not start with a digit |
| `HeaderRoundTrip.FrameComesBack` | parser/json/decode.go:60-191 | the frame of an unambiguous packet parses to it |
| `HeaderRoundTrip.FrameIsLost` | parser/json/decode.go:60-191 | the frame of any other packet never does |
| `HeaderRoundTrip.HeaderRoundTrip` | parser/json/encode.go:63-108 | parseHeader inverts encodeString if and only if the packet is unambiguous and its name can be read |
| `HeaderRoundTrip.EventNameRoundTrip` | parser/json/decode.go:132-187 | the quote scan recovers any escaped name if and only if it does not end in a backslash |
| `FrameParser.Parser.Add` | parser/json/decode.go:23-58 | the next state, the finish call and the error are those of the step function |
| `FrameParser.AddKeepsBalance` | parser/json/decode.go:23-58 | one Add keeps buffers + remaining = 1 + attachments for the open packet |
| `FrameParser.AddFailsExactly` | parser/json/decode.go:23-58 | the limit error is given exactly when a positive limit is below the count of a first frame, a header error exactly when the header cannot be read, and nothing else fails |
| `FrameParser.EveryRunBalances` | parser/json/decode.go:23-58 | on any frames at all the open packet balances and every finished packet is complete |
| `FrameParser.FramesAreConserved` | parser/json/binary.go:258-262 | frames in = buffers of finished packets + buffers still held |
| `FrameParser.FeedAttachments` | parser/json/binary.go:258-262 | attachments are collected in order until the last one finishes the packet |
| `FrameParser.RefusedPacketIsDelivered` | parser/json/decode.go:30-40 | after the attachment-limit error the packet is still open, and the frames that follow finish it |
| `FrameParser.StreamReassembly` | parser/json/decode.go:23-58 | the frames of any sequence of packets finish once per packet, in order, with header, name and buffers intact |
| `Codec.EncodesExactly` | parser/json/encode.go:47-57 | a binary encoding succeeds if and only if the value is extractable, holds no plain byte slice, and stays within the limit |
| `Codec.EncodesOthers` | parser/json/encode.go:29-61 | which arguments are refused, and that an argument without binary data is one frame under an unchanged header |
| `Codec.NoArgument` | parser/json/encode.go:29-46 | no argument is a frame of the header alone, which a receiver reads back with an empty payload, unless it is an event's, which is refused for want of a name |
| `Codec.WireShape` | parser/json/encode.go:110-134 | the text frame first, then the extracted buffers, under the binary type and their number; without binary data one frame and an unchanged header |
| `Codec.MismatchMeansPlainBytes` | parser/json/encode.go:117-119 | errNumBuffers is reported exactly when the extraction meets a plain byte slice |
| `Codec.WireIsSendable` | parser/json/encode.go:110-134 | what Encode produces is a packet the reader can read back |
| `Codec.StreamEndToEnd` | parser/json/encode.go:29-61 | any sequence of events and acknowledgements, binary or not, encoded and fed to one parser, is reported once each, in order, with header, name and buffers |
| `Codec.EncodedAgain` | parser/json/encode.go:47-57 | encoding what Encode left behind gives the same frames if and only if the message carries no binary data, and the text frame alone otherwise |
| `Codec.TextFrameAlone` | parser/json/decode.go:23-58 | a parser that gets that frame alone is left open, waiting for every attachment |
| `Codec.EndToEnd` | parser/json/encode.go:29-61 | encoding, reassembly and reconstruction give back header, name and what each argument said, if and only if the receiver's arguments are fillable |
| `AckRace.AckHandler.Fire` | handler.go:110-116 | the timer's critical section |
| `AckRace.AckHandler.Begin` | handler.go:134-141 | the critical section of call |
| `SendBuffer.Buffer.RemoveTimedOut` | client_socket.go:739-750 | the range loop over the buffer it shortens panics if and only if the last item matches and is not the only one, and otherwise leaves every item that follows a removed one unexamined |
| `SendBuffer.LoopIs` | client_socket.go:744-749 | the same of the loop as a function of backing array, length and turn |
| `SendBuffer.ClearedExactly` | client_socket.go:744-749 | without a panic all items of the packet are gone if and only if no two of them were adjacent |
| `SendBuffer.OnePacket` | client_socket.go:858-865 | for a packet of k frames: a panic if and only if k is at least 2 and the packet is the last, and otherwise half of its frames, rounded down, stay |
| `AckRace.DoKeepsInv` | client_socket.go:622-668 | every step of registration, timer, buffer and reply keeps the invariant that names who may still run the callback |
| `AckOutcome.AtMostOnce` | handler.go:103-162 | in every interleaving each callback runs at most once |
| `AckOutcome.JammedExactly` | client_socket.go:743-750 | the buffer's lock is left held exactly in the runs in which a removal panics |
| `AckOutcome.PanickedExactly` | handler.go:118-122 | a timer ends without its callback exactly when its own removal panics |
| `AckOutcome.ExactlyOnceWithTimeout` | handler.go:103-162 | with a timeout, once the race is settled the callback has run exactly once, with the reply or the timeout according to which of them came first in the run, if and only if its removal did not panic; otherwise it has not run |
| `AckOutcome.WinnerExactly` | handler.go:103-162 | in every interleaving the flags of a handler say which came first, the call with its decoded reply or its timer |
| `AckOutcome.RunByTheWinner` | handler.go:103-162 | a callback that has run was run by the winner, once; if the reply won it has run or its thread is about to run it |
| `AckPaths.RegistrationIsFound` | client_socket.go:716-768 | from every reachable state a registration gets an unused ID under which a reply finds it, and touches no other |
| `AckPaths.ReplyRunsCallback` | client_socket.go:622-668 | from every reachable state a decodable reply whose handler is there and not timed out runs the callback with the reply and uses the handler up |
| `AckPaths.UndecodedReply` | client_socket.go:642-663 | a reply that cannot be decoded uses the handler up and changes nothing else |
| `AckPaths.LateReply` | client_socket.go:622-641 | a reply whose handler was used up or has timed out does nothing |
| `AckPaths.TimeoutRunsCallback` | client_socket.go:733-751 | from every reachable state a timer that fires first removes handler and packet and runs the callback with the timeout, unless the removal panics or the buffer is jammed |
| `AckPaths.SecondGivesUp` | handler.go:103-162 | whoever comes second, call or timer, leaves the callback alone |
| `AckPaths.StoredThenFlushed` | client_socket.go:830-868 | packets are stored behind one another, and a flush leaves none |
| `AckOutcome.TimeoutPanics` | client_socket.go:739-750 | an event with one attachment emitted while disconnected: its timeout panics, and in every continuation its callback never runs and the lock stays held |
| `AckOutcome.NeverStuck` | client_socket.go:716-768 | until a callback with a timeout has run, a step that leads to it is enabled if and only if its timer has not panicked and does not wait for a lock left held; in runs without a panic always |
| `AckProgress.WorkShrinks` | client_socket.go:716-768 | each step of a registration lowers its remaining work, and no other action raises it |
| `AckProgress.SettlesInNineSteps` | handler.go:103-162 | in every interleaving a registration takes at most nine steps of its own, and in runs without a panic one that leads to its callback is enabled until it has run |
| `RoomIndex.Adapter.AddAll` | adapter/adapter_memory.go:39-61 | membership grows by exactly the given rooms, and the two maps stay inverse with no empty room |
| `RoomIndex.Adapter.Delete` | adapter/adapter_memory.go:63-73 | membership loses exactly one pair, same invariant |
| `RoomIndex.Adapter.DeleteFromRoom` | adapter/adapter_memory.go:75-83 | the room loses the socket, and goes with its last one |
| `RoomIndex.Adapter.DeleteAll` | adapter/adapter_memory.go:85-100 | membership loses exactly one socket, same invariant |
| `RoomIndex.Adapter.VisitRoom` | adapter/adapter_memory.go:188-200 | every matching socket that was in the room is called once, although the callback changes the room being ranged over |
| `RoomIndex.Adapter.Apply` | adapter/adapter_memory.go:172-217 | the callback runs exactly once for each target as of the call, and has exactly its effect on those, in any visiting order |
| `RoomIndex.Adapter.ComputeExceptSids` | adapter/adapter_memory.go:220-236 | the sockets in some excepted room |
| `RoomIndex.Adapter.AddSockets` | adapter/adapter_memory.go:152-156 | membership becomes R union targets x rooms |
| `RoomIndex.Adapter.DelSockets` | adapter/adapter_memory.go:158-164 | membership becomes R minus targets x rooms |
| `RoomIndex.ShouldIncludePacket` | adapter/adapter_session_aware.go:140-159 | the two loops decide whether the rooms meet `Rooms`, or it is empty, and miss `Except` |
| `RoomIndex.LiveIffReplayed` | adapter/adapter_session_aware.go:140-159 | a stored, indexed socket is a live target exactly when replay would include the packet for its rooms |
| `SessionRecovery.SessionAdapter.Log` | adapter/adapter_session_aware.go:161-178 | only events without an acknowledgement are logged, with the header and arguments that are then encoded, the ID as last argument |
| `SessionRecovery.SessionAdapter.PersistSession` | adapter/adapter_session_aware.go:88-96 | the session is stored under its private ID, and no other is touched |
| `SessionRecovery.SessionAdapter.RestoreSession` | adapter/adapter_session_aware.go:98-138 | restores exactly for a known, unexpired session and a logged offset, with the packets missed since |
| `SessionRecovery.FindPacket` | adapter/adapter_session_aware.go:114-120 | the first packet with the offset's ID, or -1 when there is none |
| `SessionRecovery.Replay` | adapter/adapter_session_aware.go:125-131 | the packets after the offset, filtered by the saved rooms, in order |
| `SessionRecovery.DoKeepsInv` | adapter/adapter_session_aware.go:161-180 | every action keeps distinct packets, our rooms, and no more received than sent |
| `SessionRecovery.ExecOnTrack` | adapter/adapter_session_aware.go:161-180 | live deliveries follow the log, with what is in flight as the rest of it, exactly in the runs where none overtakes another |
| `SessionRecovery.LogIsBroadcasts` | adapter/adapter_session_aware.go:161-178 | in every run the log grows by exactly the broadcasts, in order |
| `SessionRecovery.AllDelivered` | adapter/adapter_session_aware.go:161-180 | delivering what is in flight sends a live socket everything in it that is meant for it, in order |
| `SessionRecovery.SavedExactly` | server_socket.go:346-384 | a session is there to recover exactly when it was saved while the socket was still in its rooms |
| `SessionRecovery.Leaves` | server_socket.go:384-399 | after the socket has left, nothing more is sent to it and no session of it is saved |
| `SessionRecovery.ReplayExactly` | adapter/adapter_session_aware.go:114-131 | held packets plus replay equal the filtered log if and only if the held ones are the filtered log up to the offset |
| `SessionRecovery.ExactEverywhere` | adapter/adapter_session_aware.go:114-131 | recovery is exact wherever the connection is lost if and only if what was sent is a prefix of the filtered log |
| `SessionRecovery.RecoveryIsExact` | adapter/adapter_session_aware.go:88-180 | over every run: the packets the client received, wherever it was cut off, followed by those chosen for replay are every broadcast of the run meant for it, once each and in order, if and only if no live delivery overtook another; a socket still live has been sent them all but those in flight |
| `ReplayedFrames.ReplayedExactly` | server_socket.go:85-94 | a replay sends the frames of the live delivery if and only if the broadcast carries no binary data, and its text frame alone otherwise |
| `ReplayedFrames.RecoveredFrames` | server_socket.go:85-94 | in every run without overtaking: frames received followed by frames replayed are the frames of every broadcast of the run meant for the client if and only if no replayed broadcast carries binary data |
| `SessionRecovery.OverlappingBroadcastsRepeat` | adapter/adapter_session_aware.go:165-179 | two broadcasts delivered in the opposite order make replay repeat a packet |
| `Upgrade.PollQueue.Add` | engine.io/transport/polling/poll_queue.go:41-56 | packets are appended |
| `Upgrade.PollQueue.Get` | engine.io/transport/polling/poll_queue.go:59-65 | everything is taken |
| `Upgrade.ServerSocket.Send` | engine.io/server_socket.go:189-193 | packets go to the current transport and to no other |
| `Upgrade.ServerSocket.Discard` | engine.io/transport/polling/server.go:200-208 | the first use, and only it, starts the NOOP |
| `Upgrade.ServerSocket.UpgradeTo` | engine.io/server_socket.go:105-124 | what was queued goes out on the new transport, in order, without its NOOPs |
| `Upgrade.DoKeepsInv` | engine.io/server_socket.go:105-124 | every step keeps delivered + moving + queued equal to sent |
| `Upgrade.AcceptedIsSent` | engine.io/server_socket.go:189-193 | every Send that is not kept waiting by the upgrade is accepted whole, in order |
| `Upgrade.UpgradeAtOnce` | engine.io/server_socket.go:105-124 | the steps of an undisturbed upgrade do what UpgradeTo does, and the NOOP then ends the open poll |
| `Upgrade.UpgradeLosesNothing` | engine.io/server_socket.go:105-124 | in every interleaving of sends, polls and the upgrade, what polls and the new transport deliver and what is still on the way is exactly what the run's Send calls were given, in order; after the upgrade nothing is left on the way |
| `PacketQueue.Queue.Append` | packet_queue.go:65-74 | packets are appended |
| `PacketQueue.Queue.Signal` | packet_queue.go:75-78 | the token is there afterwards |
| `PacketQueue.Queue.Get` | packet_queue.go:57-63 | everything is taken |
| `PacketQueue.Queue.Perform` | packet_queue.go:31-79 | each operation takes the step of the state machine that has its name |
| `PacketQueue.FirstInFirstOut` | packet_queue.go:31-79 | polled batches, none empty, followed by the queue are the packets of the run's adds in order |
| `PacketQueue.NoLostWakeup` | packet_queue.go:31-55 | a poller waiting on a non-empty queue has its token or an adder about to set it, and can always go on to take the whole queue |
| `PacketQueue.LostWakeupExactly` | engine.io/transport/polling/poll_queue.go:25-56 | with the unbuffered channel and any number of poll requests, one sleeps on a non-empty queue if and only if in the run a signal fell between its check and its wait, found nobody waiting, and nobody has taken the packets since |
| `PacketQueue.PollConserves` | engine.io/transport/polling/poll_queue.go:25-65 | responses followed by the queue are the packets of the run's adds in order, whatever wakeups are lost |
| `PacketQueue.WokenIsAnswered` | engine.io/transport/polling/poll_queue.go:25-56 | a waiting poll that a signal wakes is answered with the whole queue |
| `PacketQueue.WakeupCanBeLost` | engine.io/transport/polling/poll_queue.go:25-38 | a run in which the poll times out with nothing while the packet waits |
| `RetryQueue.ClientPacketQueue.Drain` | client_packet_queue.go:113-136 | sends the head, marking it, unless disconnected, empty, or pending without force |
| `RetryQueue.ClientPacketQueue.AddToQueue` | client_packet_queue.go:107-110 | a new packet goes to the end under a new number, then a drain |
| `RetryQueue.ClientPacketQueue.ReplacementAck` | client_packet_queue.go:58-89 | the packet leaves, and its callback runs, on success or after its last try, then a drain; on an empty queue leaving panics |
| `RetryQueue.DoKeepsInv` | client_packet_queue.go:58-136 | every step that is not a colliding forced drain keeps the queue's invariant |
| `RetryOutcome.CountsExactly` | client_packet_queue.go:58-136 | in every run without a collision the try counter of a packet is the number of its emissions, and each run of its callback is counted |
| `RetryOutcome.ExecJustified` | client_packet_queue.go:58-89 | a packet is taken out, or about to be, only if it was acknowledged or no try is left; an acknowledged one is taken out next |
| `RetryOutcome.AckAtOnce` | client_packet_queue.go:58-89 | the steps of an undisturbed replacement ack do what ReplacementAck does, from every state |
| `RetryOutcome.AddAtOnce` | client_packet_queue.go:107-110 | the steps of an undisturbed addToQueue do what AddToQueue does |
| `RetryOutcome.DrainEmits` | client_packet_queue.go:113-136 | a drain emits exactly the head, while connected and when nobody holds it, and the drain of a new connection in any case |
| `RetryOutcome.ConnectedExactly` | client_packet_queue.go:113-118 | whether a drain may send is decided by the last report on the connection |
| `RetryOutcome.NeverStalls` | client_packet_queue.go:58-136 | without collisions every goroutine can take its next step, and without drains while disconnected one is at work as long as a packet is queued |
| `RetryOutcome.RetrySafety` | client_packet_queue.go:58-136 | without collisions: as many packets as were queued, in order, once each, only the head in flight and once; a packet leaves because a reply without error came in or after exactly Retries + 1 emissions, an acknowledged one is next to leave; the callback runs once for each packet that leaves and for no other |
| `RetryOutcome.OneInFlightExactly` | client_socket.go:415-417 | one emission at a time throughout a run if and only if no forced drain meets a pending head |
| `RetryOutcome.CollisionDoubles` | client_packet_queue.go:121-135 | such a drain puts the head in flight twice |
| `RetryOutcome.CollisionLosesAPacket` | client_packet_queue.go:77-79 | two acknowledgements then remove two packets, the second never emitted |
| `Base64.DecodeEncode` | engine.io/parser/packet.go:81-112 | decoding undoes encoding for all bytes (section 4 of RFC 4648) |
| `Base64.EncodeAlphabet` | engine.io/parser/packet.go:81-112 | the output stays within the base64 alphabet, so it never holds the separator |
| `WireFormat.Alphabet` | engine.io/parser/packet.go:81-112 | the letters are those of table 1 of RFC 4648 |
| `WireFormat.OneByteVector` | engine.io/parser/packet.go:81-112 | test vector of section 10 of RFC 4648 with two padding characters |
| `WireFormat.TwoByteVector` | engine.io/parser/packet.go:81-112 | with one |
| `WireFormat.SixByteVector` | engine.io/parser/packet.go:81-112 | with none |
| `EnginePacket.FromChar` | engine.io/parser/packet.go:24-42 | inverse of ToChar, and fails on every other byte |
| `WireFormat.EngineCharacters` | engine.io/parser/packet.go:11-38 | "0" to "6" are open, close, ping, pong, message, upgrade, noop, in that order, and no other byte is a type |
| `EnginePacket.Encode` | engine.io/parser/packet.go:68-112 | the output is as long as EncodedLen says |
| `WireFormat.EnginePacketText` | engine.io/parser/packet.go:68-112 | for every packet: type digit and data for text, "b" and base64 for binary in text, the bare bytes for binary in a frame |
| `WireFormat.PayloadText` | engine.io/parser/payload.go:26-46 | a payload of three packets as text, byte 30 between them |
| `EnginePacket.DecodeEncode` | engine.io/parser/packet.go:81-168 | a packet comes back, with and without binary support, if and only if it is valid |
| `EnginePacket.EncodedPayloadsLen` | engine.io/parser/payload.go:10-24 | the loop gives the exact length of the payload |
| `EnginePacket.EncodePayloads` | engine.io/parser/payload.go:26-46 | the loop joins the packets with the separator between them |
| `EnginePacket.SplitByte` | engine.io/parser/payload.go:48-69 | the loop splits at every separator, and there is always one piece |
| `EnginePacket.DecodePayloads` | engine.io/parser/payload.go:71-88 | every piece is decoded in order, or the first error is returned |
| `EnginePacket.CountOfJoined` | engine.io/parser/payload.go:26-46 | the payload holds just the joining separators exactly when no text data holds one |
| `EnginePacket.PayloadRoundTrip` | engine.io/parser/payload.go:10-88 | a payload comes back if and only if it is not empty, all packets are valid, and no text holds the separator |
| `PayloadBatching.CutIntoSends` | engine.io/client_socket.go:370-400 | the sends concatenate to the packets and each is as long as the size check allows; len(packets) - i is part of the termination measure |
| `PayloadBatching.WriteWritablePackets` | engine.io/client_socket.go:370-403 | the same, and one send or none when the size is not checked |
| `PayloadBatching.OnlyOneGreedyCut` | engine.io/client_socket.go:380-395 | packets and limit leave only one such cut, so the contract determines every send |
| `PayloadBatching.OneSendExactly` | engine.io/client_socket.go:380-395 | everything leaves in one send if and only if the counted size is within the limit |
| `PayloadBatching.PayloadSize` | engine.io/client_socket.go:382-385 | the bytes of a payload are what was counted plus one for each packet without data |
| `PayloadBatching.KeptMeansFull` | engine.io/client_socket.go:386-396 | the limit is kept exactly when the cut is also that of a loop that counts every packet |
| `PayloadBatching.OnlyOneFullCut` | engine.io/client_socket.go:380-395 | there is only one such cut |
| `PayloadBatching.LimitKeptExactly` | engine.io/client_socket.go:370-403 | for every list of packets, exactly when every payload of several packets keeps the limit, as counted and in bytes, as a condition on the packets alone |
| `PayloadBatching.SendsStayNear` | engine.io/client_socket.go:386-396 | a first send of several packets exceeds the limit by its packets without data at most, a later one also by its opening packet and a separator |
| `PayloadBatching.LaterSendOvershoots` | engine.io/client_socket.go:386-393 | for every limit, three packets that fill it alone are cut so that two leave as one payload, which reaches the bound |
| `WebTransport.NextPacket` | engine.io/transport/webtransport/packet.go:42-94 | the state loop equals its specification, short reads included |
| `WireFormat.LengthBytes` | engine.io/transport/webtransport/packet.go:14-40 | the length takes 1, 3 or 9 bytes, big-endian, with the bounds 126 and 65536 of section 5.2 of RFC 6455 |
| `WireFormat.FrameBytes` | engine.io/transport/webtransport/packet.go:14-40 | short frames byte by byte: the top bit of the first byte marks binary |
| `WebTransport.ShortFrame` | engine.io/transport/webtransport/packet.go:14-40 | the reader finds the length the writer put there, below 65536 |
| `WebTransport.LongFrame` | engine.io/transport/webtransport/packet.go:82-89 | above, it finds the length divided by 2^32 |
| `WebTransport.FrameComesBack` | engine.io/transport/webtransport/packet.go:14-94 | a valid packet below 65536 bytes comes back and exactly its frame is used up |
| `WebTransport.FrameIsLost` | engine.io/transport/webtransport/packet.go:82-91 | any other packet does not come back |
| `WebTransport.StreamRoundTrip` | engine.io/transport/webtransport/packet.go:14-94 | a stream of frames is read back packet by packet, with nothing left, if and only if all packets are valid and below 65536 bytes |
| `Backoff.Backoff.Attempts` | backoff.go:33-38 | the counter |
| `Backoff.DelayIs` | backoff.go:40-61 | up to 62 attempts the delay is the wrapped product when that is positive and within the limit, and the limit otherwise |
| `Backoff.Backoff.Reset` | backoff.go:63-67 | the counter is zero |
| `Backoff.SaturatesExactly` | backoff.go:40-61 | up to 62 attempts the wrapped product and the float64 minimum give min(max, min * 2^n) if and only if the product does not lapse into a short positive value |
| `Backoff.BeyondTheRange` | backoff.go:40-61 | from 63 attempts on both conversions of an out-of-range float give the limit |
| `Backoff.BackoffSaturates` | backoff.go:40-61 | min * max <= 2^63 and max <= 2^53 make every delay min(max, min * 2^n), for any number of attempts |
| `Backoff.DelaysNeverDecrease` | backoff.go:40-61 | under the same bounds delays never decrease and never pass the limit |
| `Backoff.DefaultDelays` | client_manager.go:102-106 | the defaults give 1, 2, 4 and then 5 seconds |
| `Backoff.DelayCanDrop` | backoff.go:40-61 | without the bound the delay can fall from the limit to 2^24 nanoseconds |
| `Reconnect.Manager.Connect` | client_manager_conn.go:30-121 | state and events of one dial, accepted or refused |
| `Reconnect.Manager.Try` | client_manager_conn.go:165-198 | state, counter and events of one attempt |
| `Reconnect.Manager.OnReconnect` | client_manager.go:265-269 | the event carries the counter, which is then reset |
| `Reconnect.Manager.Reconnect` | client_manager_conn.go:123-204 | events, state and counter of the whole chain; limit minus counter is the termination measure |
| `Reconnect.RunIs` | client_manager_conn.go:123-204 | the chain in closed form: k refused attempts, then what ended them |
| `Reconnect.ReconnectChain` | client_manager_conn.go:123-204 | for every sequence of dial outcomes the attempts are numbered 1..m within the limit, and the chain ends once, connected exactly when a dial within the limit is accepted and failed exactly when all are refused, always with the counter at zero |
| `Reconnect.GivesUpExactly` | client_manager_conn.go:123-163 | a chain gives up after exactly the configured number of refusals, and with none configured only after 4294967295 |
| `CloseRace.DoKeepsInv` | client_manager.go:299-339 | every step of the chain, of Close and of a connection it ends keeps what each place of the chain implies for state, flag and counter |
| `CloseRace.UndisturbedChain` | client_manager_conn.go:123-204 | for every sequence of dial outcomes, the chain's steps without a Close end in the state, counter and event of the whole chain |
| `CloseRace.FateIsKept` | client_manager_conn.go:123-204 | once Close is over no step changes where state, counter and final event will end |
| `CloseRace.CloseDecides` | client_manager.go:319-339 | for every interleaving, by the place of the chain at Close's last step: connected if and only if it was about to dial and the dial is accepted, left Reconnecting if and only if it claims the state again, and the counter at one if and only if it counts again |
| `CloseRace.CloseAtOnce` | client_manager.go:319-339 | final state, counter and event for a Close that runs at once at each place of the chain; disconnected with the counter at zero during the delay and the handlers |
| `CloseRace.CloseWhileDialling` | client_manager.go:332-337 | the same for a Close during a dial, which waits with its last step for the answer |

## Left out

- Deconstruct.Decon, Reconstruct.Recon: values are rebuilt, not overwritten in place, so aliasing between parts of one tree is not captured; unexported struct fields are left out.
- ValueTree.Content: bytes, placeholders and JSON values are kept apart; the text a serializer makes of them, and Binary text that is JSON but no placeholder, are outside the model, as are negative placeholder numbers.
- JsonName.ReadQuoted: surrogate pairs, invalid UTF-8 and the optional escaping of U+2028 and U+2029 are not modelled.
- HeaderRoundTrip.IdComesBack: the ID is a 64-bit number; acknowledgement IDs that wrap around in one connection are not modelled.
- SessionRecovery.RecoveryIsExact: takes fresh packet IDs, fixed rooms, an unexpired session and no broadcast in flight at the moment of joining; the cleaner pass, whose expiry test is inverted, and the clock are left out. The client's habit of taking any trailing string as the offset is left out.
- ReplayedFrames.RecoveredFrames: takes the live encoding of every replayed broadcast to be over; a replay that encodes first is not modelled.
- SessionRecovery.SessionAdapter.RestoreSession: broadcasts between the restoration and the rejoining of rooms are not modelled.
- RoomIndex.Adapter.AddSockets: a socket that is closing is still stored and indexed for up to ten seconds while its Join does nothing; such sockets are not modelled.
- RoomIndex.Adapter.Apply: other goroutines that change the index during the loop are not modelled; the callback's own changes are.
- AckOutcome.ExactlyOnceWithTimeout: a callback that itself panics counts as run; the frames that a removal leaves in the buffer are sent later without their packet's first frame, which is not followed further.
- RetryQueue.ClientPacketQueue.ReplacementAck: after the panic the queue's lock stays held, which is not modelled.
- RetryOutcome.RetrySafety: each emission gets one outcome, which is what the acknowledgement handlers guarantee with a timeout whose removal does not panic; an emission that cannot be encoded again gets its outcome from the timeout; without AckTimeout a lost reply leaves the head pending until the next forced drain.
- Upgrade.UpgradeLosesNothing: a transport closed during the upgrade is not modelled.
- PacketQueue.FirstInFirstOut: reset and close, and waitForDrain, are left out.
- Backoff.DelayIs: jitter is zero.
- CloseRace.CloseDecides: one chain and one Close; other callers of connect and reconnect, and the closing of an older connection, are left out.
- Reconnect.Manager.Connect: handler registration, packet queues and the first connection are left out; only the path from reconnect is modelled.
- The Redis adapter: its index repeats the in-memory one.
- HTTP, WebSocket and WebTransport plumbing, namespaces, middleware, emitters, event registration and debugging: they would add only easy members.
- handlerStore and eventHandlerStore: removal of several handlers is left out; it has the shape of the send buffer's loop.
