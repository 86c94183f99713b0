# Verified models of the PQUIC transport core

PQUIC is a QUIC implementation whose protocol operations can be replaced, at run time, by pluglets. This project
models the parts of it that keep state over many packets, in Dafny 4.11, and proves what they are for:

- `SplayTree`: the splay tree, with its parent pointers and rotations.
- `Varint`, `StreamFrame`, `AckFrame`, `PacketNumber`: what is written on the wire and read back.
- `Streams`, `Reassembly`, `ReceiveFlow`: the receiving side of streams: reordering, delivery, flow control, final size.
- `PluginStream`: the streams that carry plugins, in both directions.
- `SendFlow`, `Scheduler`: the sending side: queue, frame encoding, flow control, round-robin choice, sending loop.
- `Conservation`, `ConnectionRun`: flow control of a connection over all its streams, in both directions, and its runs.
- `Sack`, `AckProcess`: received packet numbers and the retransmission queue.
- `EndToEnd`, `AckExchange`: the two directions put together, over any loss, reordering and repetition.
- `Protoop`: the protocol operation dispatcher, a reentrant call mechanism on shared argument buffers.
- `Pool`, `MemCopy`: the block allocator and the copy routines that plugins get.
- `CcCommon`, `BandwidthFilter`, `Bbr`, `CubicRoot`, `NewReno`: congestion control.
- `Wrappers`, `Sequences`: an option type, return codes, insertion and removal.

Code that updates memory step by step is modelled by classes, arrays and loops. Each such method is tied to a
specification on values, and the lemmas beside it prove what the specification means. Ghost fields hold what the
application saw or asked for (bytes delivered, bytes queued, values in order, measurements by round).

`dafny verify dfyconfig.toml` checks everything.

## Where the code differs from its description

- `my_realloc` is documented to return NULL for an invalid pointer without changing anything; the code does not look
  at the pointer, which it returns or frees (picoquic/memory.c:171-190). The model follows the code.
- The dispatcher's comment says that all of the argument arrays are saved; the code saves the entries in use
  (picoquic/plugin.c:1288-1303). The model saves those, and proves that this is enough.
- Section 4.5 of RFC 9000 makes a FIN fix the final size at the end of its frame, and a FIN below data already
  received an error. The code accepts such a FIN and keeps the larger size: `ReceiveFlow.FinFixesFinalSize` gives the
  exact condition and `ReceiveFlow.LowFinAccepted` an input. `ReceiveFlow.ResetFixesFinalSize` and
  `ReceiveFlow.DataAfterResetAccepted` do the same for data after a reset.
- The source keeps two bytes for the length field of a STREAM frame. `SendFlow.BodyFits` gives the exact condition
  under which that is enough, which holds for all buffers up to 16384 bytes, and `SendFlow.LargeBufferOverrun` an input
  on which the routine writes beyond its buffer. Packets have at most 1350 bytes (picoquic/picoquic_internal.h:63), so
  this does not happen in the program.
- Unlike a STREAM frame, a plugin frame carries a FIN only along with data; a FIN requested after the last byte was
  sent is marked as sent without being written. `PluginStream.PreparePlugin` gives the exact condition and
  `PluginStream.LostFin` an input.
- The sample code in Appendix A.3 of RFC 9000 resolves the half-window tie upwards, this code downwards:
  `PacketNumber.DiffersOnlyAtTie`.
- The BBR window keeps its minimum only for packets of at least 900 bytes: `Bbr.WindowFloor`, with a run below it in
  `Bbr.BelowMinimum`. Paths start with packets of 1232 or 1300 bytes (picoquic/picoquic_internal.h:65-66).

## Model

| member | source | states |
|---|---|---|
| `SplayTree.MarkGp` | picoquic/picosplay.c:274-285 | the node takes its parent's place below the grandparent and becomes its parent's parent; no other link changes |
| `SplayTree.Rotate` | picoquic/picosplay.c:256-272 | for any linked tree, a rotation keeps parent and child links consistent and the in-order sequence as it was |
| `SplayTree.RotatedLinked` | picoquic/picosplay.c:256-285 | the link changes of a rotation keep every node's interval of the in-order sequence consistent with its neighbours |
| `SplayTree.RotationGrows` | picoquic/picosplay.c:42-59 | a rotation strictly enlarges the subtree of the node that rises, which is why splaying ends |
| `SplayTree.ZigZig` | picoquic/picosplay.c:69-72 | two rotations on the same side keep the sequence and bring the node up two levels |
| `SplayTree.ZigZag` | picoquic/picosplay.c:77-80 | two rotations on alternate sides keep the sequence and bring the node up two levels |
| `SplayTree.SplayStep` | picoquic/picosplay.c:42-59 | one round of the loop picks zig, zig-zig or zig-zag and strictly enlarges the subtree of the node |
| `SplayTree.Tree.Splay` | picoquic/picosplay.c:42-59 | splaying ends with the node at the root and leaves the in-order sequence unchanged |
| `SplayTree.Tree.constructor` | picoquic/picosplay.c:83-96 | a new tree is empty, with size zero |
| `SplayTree.Tree.Descend` | picoquic/picosplay.c:101-138 | the descent ends at the empty link that lies after every value not greater and before every greater one |
| `SplayTree.Tree.Insert` | picoquic/picosplay.c:101-138 | the value goes right after all values not greater than it, the new node becomes the root, the sequence stays sorted |
| `SplayTree.AttachedLinked` | picoquic/picosplay.c:127-131 | hanging a leaf on that empty link inserts it at that place of the in-order sequence |
| `SplayTree.Tree.Search` | picoquic/picosplay.c:141-161 | the loop finds a node exactly when some value compares equal |
| `SplayTree.Tree.Find` | picoquic/picosplay.c:141-161 | succeeds iff a match exists; the match becomes the root and the values do not change |
| `SplayTree.Tree.PromoteChild` | picoquic/picosplay.c:174-180 | removing a root with at most one child takes exactly that node out of the sequence |
| `SplayTree.SpliceOut` | picoquic/picosplay.c:182-193 | the in-order successor takes the place of a root with two children |
| `SplayTree.SplicedLinked` | picoquic/picosplay.c:182-193 | those link changes leave a consistent tree whose sequence lacks exactly the old root |
| `SplayTree.Tree.PromoteSuccessor` | picoquic/picosplay.c:182-193 | removing a root with two children takes exactly that node out of the sequence |
| `SplayTree.Tree.DeleteHint` | picoquic/picosplay.c:170-197 | a node given by pointer, and nothing else, leaves the tree; null changes nothing; size follows |
| `SplayTree.Tree.Delete` | picoquic/picosplay.c:164-167 | removes exactly one value that compares equal, if there is one, and otherwise nothing |
| `SplayTree.Tree.EmptyTree` | picoquic/picosplay.c:199-206 | ends with no node and size zero |
| `SplayTree.Tree.First` | picoquic/picosplay.c:208-210 | the first node of the sequence, or null |
| `SplayTree.Tree.Last` | picoquic/picosplay.c:225-227 | the last node of the sequence, or null |
| `SplayTree.Next` | picoquic/picosplay.c:217-223 | the in-order successor, found by pointers alone, or null after the last node |
| `SplayTree.Leftmost` | picoquic/picosplay.c:287-294 | the first node of the subtree's part of the sequence |
| `SplayTree.Rightmost` | picoquic/picosplay.c:296-303 | the last node of the subtree's part of the sequence |
| `SplayTree.WalkIsOrder` | picoquic/picosplay.c:243-250 | the recursive left-node-right walk of the pointers is the sequence all contracts speak of |
| `SplayTree.DeletionCounts` | picoquic/picosplay.c:164-167 | a deletion lowers by one the number of values equal to the given one, and no other count |
| `SplayTree.Run` | picoquic/picosplay.c:42-285 | after any sequence of operations with a total preorder the tree is consistent, sorted, and holds exactly the expected bag of values |
| `Varint.Encode` | picoquic/intformat.c:62-98 | writes the encoding when it fits and reports its length, else 0; all other bytes keep their values |
| `Varint.EncodingBytes` | picoquic/intformat.c:62-98 | the bytes written are the tag and the shifted low-order bytes of the number |
| `Varint.Decode` | picoquic/intformat.c:108-127 | reads the announced number of bytes with the tag cleared; 0 when they are not all there |
| `Varint.RoundTrip` | picoquic/intformat.c:62-127 | for every 64-bit number decoding the encoding gives it back modulo 2^62, so exactly iff it is below 2^62 |
| `Varint.Shortest` | picoquic/intformat.c:136-147 | whatever decodes to a number is at least as long as its encoding |
| `Streams.Find` | picoquic/frames.c:217-234 | returns the stream with the identifier, or reports that there is none |
| `Streams.Link` | picoquic/frames.c:173-184 | a new stream keeps the list strictly ascending by identifier |
| `Streams.NewStream` | picoquic/frames.c:138-190 | a new stream starts with nothing sent, received, requested or signalled, and with the limits its kind and its initiator call for |
| `Streams.FindStream` | picoquic/frames.c:217-234 | the stream with the identifier, created iff there was none; nothing else joins the list |
| `Streams.FindPluginStream` | picoquic/frames.c:261-338 | the same for plugin streams, with the limits of the side that is not the sender at zero; null iff there is none and it may not be created |
| `Reassembly.Queue` | picoquic/frames.c:806-867 | stores exactly the first missing gap of the frame and reports it; when nothing is stored every byte was already there; the chunks stay sorted, disjoint, non-empty and beyond what was consumed |
| `Reassembly.GapFound` | picoquic/frames.c:806-867 | the gap the two scans find starts at the first byte of the frame that is missing and ends where the next chunk starts |
| `Reassembly.SignalFin` | picoquic/frames.c:765-803 | the fin event fires at most once, when all bytes up to the final size are consumed |
| `Reassembly.DeliverFirst` | picoquic/frames.c:765-803 | the part of the first chunk that was not consumed yet is handed over and the chunk dropped |
| `Reassembly.Deliver` | picoquic/frames.c:765-803 | hands over exactly the contiguous bytes at the consumed offset, and afterwards the first chunk left is not contiguous |
| `Reassembly.Receive` | picoquic/frames.c:806-917 | what is held or delivered grows by exactly the first missing gap of the frame, by nothing iff all was there; all of it stays equal to the stream it was cut from; a frame that spans the consumed offset always advances delivery |
| `Reassembly.SpanningGap` | picoquic/frames.c:806-867 | the gap stored of a frame that spans the consumed offset starts there, and a frame not stored whole uses up a chunk |
| `Reassembly.ReceiveAll` | picoquic/frames.c:765-917 | for any order, duplication or overlap of frames cut from one stream the bytes delivered are exactly its prefix up to the consumed offset, and nothing is there that no frame carried; for pieces of a partition all that they carry is there |
| `Reassembly.WholeStored` | picoquic/frames.c:806-867 | of a frame of which nothing is there the one gap stored is all of it |
| `Reassembly.ReceiveEverything` | picoquic/frames.c:765-917 | the pieces of a partition of the data, in any order and each at least once, deliver all of it and leave nothing held |
| `Reassembly.Retransmit` | picoquic/frames.c:806-917 | although one gap is stored at a time, repeating a frame once per chunk held and once more delivers all of it |
| `ReceiveFlow.FlowControlCheck` | picoquic/frames.c:342-366 | fails exactly when a limit would be exceeded, and then changes nothing; otherwise charges the connection for the growth of the stream |
| `ReceiveFlow.CheckIsExact` | picoquic/frames.c:342-366 | an offset is accepted iff it is within the stream limit and its new bytes are within the connection limit |
| `ReceiveFlow.Admit` | picoquic/frames.c:869-917 | final size and flow control of a data frame, with its error cases |
| `ReceiveFlow.Input` | picoquic/frames.c:869-917 | a data frame is accepted iff the account accepts it; then what is there grows by exactly its first gap, delivery keeps to the committed size, and the fin event fired at most once, at the final size |
| `ReceiveFlow.ResetInput` | picoquic/frames.c:459-489 | a reset is accepted iff it does not contradict a received FIN or a limit; the reset event follows |
| `ReceiveFlow.StepSound` | picoquic/frames.c:342-489 | an accepted frame charges the connection exactly for the growth of its stream, keeps both limits and never forgets a FIN |
| `ReceiveFlow.RunSound` | picoquic/frames.c:342-489 | the same over any accepted run of data and reset frames; an accepted FIN fixes the highest offset for good |
| `ReceiveFlow.FinFixesFinalSize` | picoquic/frames.c:881-894 | a first FIN fixes the final size at the end of its frame iff no data beyond it was seen before (section 4.5 of RFC 9000) |
| `ReceiveFlow.LowFinAccepted` | picoquic/frames.c:881-894 | a FIN at offset 3 after ten bytes is accepted, and the size stays ten |
| `ReceiveFlow.ResetFixesFinalSize` | picoquic/frames.c:459-489 | after a reset without FIN, data leaves the size alone iff it does not end beyond it |
| `ReceiveFlow.DataAfterResetAccepted` | picoquic/frames.c:881-894 | data up to offset 20 after a reset at ten is accepted, and the size becomes twenty |
| `ReceiveFlow.AnnounceLimit` | picoquic/frames.c:3367-3432 | a larger limit is announced exactly when one is due and the end of the stream is not known |
| `ReceiveFlow.WindowGrows` | picoquic/frames.c:3367-3375 | an announced stream limit is always larger than the one before |
| `PluginStream.CopyFirst` | picoquic/frames.c:4032-4059 | copying a chunk from its first byte is right, since no chunk begins before the consumed offset |
| `PluginStream.DeliverPlugin` | picoquic/frames.c:4027-4076 | collects exactly the contiguous bytes, and processes the plugin whenever it is complete |
| `PluginStream.Input` | picoquic/frames.c:4081-4127 | a plugin frame is accepted iff the account accepts it; then what is there grows by exactly its first gap, and the plugin is processed at most once and only when complete, although the callback does not check that |
| `PluginStream.ParseLayout` | picoquic/frames.c:3964-4025 | parsing inverts the layout of a plugin frame, whatever follows |
| `PluginStream.WriteLength` | picoquic/frames.c:1430-1449 | how much of the data is sent along with a length field, exactly, and that both fit |
| `PluginStream.PreparePlugin` | picoquic/frames.c:1369-1503 | exactly the bytes that room, queue and limits allow are written as the layout of the next slice, with FIN iff it is requested and all is sent; a FIN is marked as sent with nothing written iff only it is left and the header fits |
| `PluginStream.LostFin` | picoquic/frames.c:1369-1503 | a stream with its three bytes sent and the FIN requested afterwards: with 1000 bytes of room nothing is written, and the FIN is marked as sent |
| `PluginStream.PrepareThenParse` | picoquic/frames.c:1369-1503 | parsing the buffer gives a frame iff bytes were sent; it is exactly the slice sent, with its FIN, and connection and stream are charged for it within both limits |
| `StreamFrame.Parse` | picoquic/frames.c:707-763 | the data announced by an accepted header lies within the bytes given |
| `StreamFrame.ParseLayout` | picoquic/frames.c:707-763 | parsing inverts the STREAM layout of section 19.8 of RFC 9000 for every identifier, offset, data and FIN, with and without a length field |
| `SendFlow.AddToStream` | picoquic/sender.c:106-170 | appends to the bytes queued, except in the three error cases, and records the FIN request |
| `SendFlow.WriteHead` | picoquic/frames.c:1187-1208 | writes type, identifier and offset exactly when they and three more bytes fit |
| `SendFlow.PadFront` | picoquic/frames.c:1284-1289 | moves the header up by one byte behind a PADDING byte |
| `SendFlow.WriteLength` | picoquic/frames.c:1272-1299 | chooses between no length field, a PADDING byte in front, and a length field; the end of the body is exact, whether it fits or not |
| `SendFlow.WriteFrame` | picoquic/frames.c:1272-1334 | the buffer then holds the frame layout for the data and FIN flag, and what is implicit in length ends the room given |
| `SendFlow.Take` | picoquic/frames.c:1300-1322 | takes bytes off the queue: they are the next of the bytes queued, and stream and connection are charged alike |
| `SendFlow.PrepareData` | picoquic/frames.c:1160-1354 | writes iff there is something to send, room for the header and three bytes, and a byte allowed or an empty queue; sends exactly what room, queue and limits allow; what it writes is the layout of that slice, with FIN iff it is requested and all is sent; the return code and the end are exact |
| `SendFlow.PrepareThenParse` | picoquic/frames.c:707-763 | whenever the frame fits, parsing the buffer behind the PADDING byte, if there is one, gives back stream, offset, data slice and FIN, in all three encodings |
| `SendFlow.BodyFits` | picoquic/frames.c:1272-1299 | the body fits the space left iff the length field needs no more than the two bytes kept for it |
| `SendFlow.SmallBufferFits` | picoquic/frames.c:1272-1299 | in a buffer of at most 16384 bytes every frame fits |
| `SendFlow.LargeBufferOverrun` | picoquic/frames.c:1160-1354 | given 16389 bytes, the routine writes 16391 for a new stream with 16385 bytes queued |
| `SendFlow.ProcessMaxData` | picoquic/frames.c:3282-3291 | the connection limit is raised, never lowered |
| `SendFlow.ProcessMaxStreamData` | picoquic/frames.c:3350-3365 | the stream is created if need be, and only its limit changes, upwards |
| `Conservation.SumInserted` | picoquic/frames.c:173-184 | a stream that joins the list adds what it counts for to the sum |
| `Conservation.TotalMoved` | picoquic/frames.c:1300-1322 | when one stream moves, the sum over all streams moves by as much |
| `Conservation.SendStream` | picoquic/frames.c:1160-1354 | a STREAM frame of exactly the bytes due keeps the connection balanced: sent and received bytes are the sums over application and plugin streams, all limits hold, every stream is in order |
| `Conservation.SendPlugin` | picoquic/frames.c:1369-1503 | a PLUGIN frame does too |
| `Conservation.Queue` | picoquic/sender.c:106-170 | so does queueing data or a FIN |
| `Conservation.TakeMaxData` | picoquic/frames.c:3282-3291 | and MAX_DATA, which raises the limit or does nothing |
| `Conservation.TakeMaxStreamData` | picoquic/frames.c:3350-3365 | and MAX_STREAM_DATA, which may create the stream it names |
| `Conservation.Open` | picoquic/frames.c:217-234 | and the creation of a stream |
| `Conservation.OpenPlugin` | picoquic/frames.c:302-338 | and that of a plugin stream, whose receiving half a server closes |
| `Conservation.Receive` | picoquic/frames.c:459-489 | a STREAM, PLUGIN or RESET_STREAM frame is accepted iff the account of its stream accepts it, and then keeps the balance and a known end |
| `Conservation.RaiseData` | picoquic/frames.c:3207-3237 | raising the announced limit keeps the balance |
| `Conservation.RaiseStream` | picoquic/frames.c:3367-3432 | and so does raising that of a stream |
| `ConnectionRun.Locate` | picoquic/frames.c:236-259 | a frame for a stream that does not exist is refused iff the peer may not open it, or not yet |
| `ConnectionRun.Arrive` | picoquic/frames.c:869-917 | a frame is refused iff its stream does not exist and may not be opened, or its account, the initial one for a new stream, refuses; else the stream learns exactly what the frame tells, and no other stream changes |
| `ConnectionRun.ForWriting` | picoquic/sender.c:48-79 | a stream to write to is missing iff it does not exist and is not one of this side |
| `ConnectionRun.Write` | picoquic/sender.c:106-170 | exactly the stream written to gets the data, unless it is refused, and the request for its end |
| `ConnectionRun.Emit` | picoquic/frames.c:1160-1503 | exactly the stream that a frame is written for moves, by the bytes due |
| `ConnectionRun.Announce` | picoquic/frames.c:3367-3432 | exactly the stream that an announcement is for gets the larger limit, if one is due |
| `ConnectionRun.TakeStreamLimit` | picoquic/frames.c:3350-3365 | exactly the stream that a limit is for has it raised |
| `ConnectionRun.Step` | picoquic/frames.c:342-366 | each of these, as any stream sees it: what it is told, given and limited to, the bytes taken from it, and whether its frame is accepted |
| `ConnectionRun.Run` | picoquic/frames.c:342-366 | over any interleaving of all of these, up to the first refused frame, the connection stays balanced and its two limits are what the run announced and was granted; every stream has exactly the bytes and the end given to it, the limit its peer set, and the size, the end and the reset its peer told, and keeps its size once its end is known; only a received frame ends the run |
| `Scheduler.FindReady` | picoquic/frames.c:966-1014 | returns null iff no stream is eligible, else the first eligible one cyclically after the last visited identifier |
| `Scheduler.NobodyOvertakesTwice` | picoquic/frames.c:966-1014 | while a stream stays eligible and waits, no other stream is served twice |
| `Scheduler.WaitIsBounded` | picoquic/frames.c:966-1014 | a stream that stays eligible is served after fewer sends than there are streams |
| `Scheduler.Serve` | picoquic/frames.c:1160-1354 | a stream chosen for its data fills part of any packet with twenty bytes of room, and becomes the one visited last |
| `Scheduler.Watch` | picoquic/frames.c:966-1014 | a ready stream, in one packet, is served and sends data or its end, or waits on unchanged and stays ready while there is credit |
| `Scheduler.Loop` | picoquic/frames.c:966-1014 | choosing and sending in turn stops early only when no stream is ready; with as many packets as streams every stream that was ready has sent data or its end, unless the credit of the connection is used up |
| `Sack.Visit` | picoquic/sacks.c:66-175 | one round of the walk records the part of the range at one item and moves down with what is left |
| `Sack.SackList.Update` | picoquic/sacks.c:66-175 | the list stays descending and separated, holds exactly the old numbers and the new range, and a duplicate is reported iff all were there |
| `Sack.SackList.AlreadyReceived` | picoquic/sacks.c:38-59 | true iff the number is in the list |
| `Sack.SackList.AckOfAck` | picoquic/frames.c:2133-2165 | removes or shrinks the item that an acknowledged acknowledgement covers |
| `Sack.PrunedIsSafe` | picoquic/frames.c:2133-2165 | only numbers of that range are forgotten, never the largest number of the list, and the list stays well formed |
| `AckFrame.WriteAckHead` | picoquic/frames.c:2745-2786 | largest number, delay, room for the count and first range are written exactly when they fit |
| `AckFrame.WriteBlock` | picoquic/frames.c:2791-2818 | a gap and a length are written both or not at all |
| `AckFrame.WriteBlocks` | picoquic/frames.c:2791-2818 | as many blocks as fit, at most 512, describe the next items of the list in order |
| `AckFrame.PrepareAck` | picoquic/frames.c:2717-2918 | something is written iff there is a number to acknowledge, 14 bytes of room, and the head fits; the frame encodes a prefix of the list, and stops early only at 512 blocks or when the next one does not fit |
| `AckFrame.BlocksInverse` | picoquic/frames.c:2648-2703 | the gap arithmetic of the receiver inverts that of the sender for every well-formed list, never going below zero |
| `AckFrame.RangesBelowWellFormed` | picoquic/frames.c:2648-2703 | the ranges of any accepted frame, whoever sent it, are descending and separated |
| `AckFrame.ParseAckBytes` | picoquic/frames.c:2511-2598 | parsing the bytes of a frame gives the frame and leaves what follows it |
| `AckFrame.AckRoundTrip` | picoquic/frames.c:2511-2598 | prepare, parse and gap arithmetic give back exactly the ranges announced (sections 19.3 and 19.3.1 of RFC 9000) |
| `AckProcess.PacketContext.Acknowledge` | picoquic/sender.c:820-886 | one packet leaves the queue, its length is credited and its bytes in transit are taken off, not below zero |
| `AckProcess.PacketContext.ProcessAckRange` | picoquic/frames.c:2423-2498 | exactly the queued packets with numbers in the range leave the queue, each credited once |
| `AckProcess.PacketContext.TopPacket` | picoquic/frames.c:2021-2050 | starting past the packets above the largest number loses none |
| `AckProcess.PacketContext.ProcessBlock` | picoquic/frames.c:2648-2703 | a block is refused iff it would go below zero, and otherwise removes exactly its range |
| `AckProcess.PacketContext.ProcessBlocks` | picoquic/frames.c:2648-2703 | the blocks up to the first that would go below zero are processed, or to the oldest packet; the early break leaves nothing of the later blocks undone |
| `AckProcess.PacketContext.ProcessAck` | picoquic/frames.c:2601-2715 | an ACK of a number never sent changes nothing; a valid one removes precisely the queued packets inside its ranges; of a malformed one exactly the blocks before the first bad one count, and it is accepted iff the last of these left no packet at or below its numbers |
| `AckProcess.DescendingUnique` | picoquic/frames.c:2423-2498 | the queue left over is determined by which packets are in it: order and copies cannot differ |
| `AckExchange.Record` | picoquic/sacks.c:177-199 | after packets in any order and number the list holds exactly the numbers received, and a packet was a duplicate iff it came before |
| `AckExchange.Exchange` | picoquic/frames.c:2601-2715 | from arrivals to the sender's queue: a frame is sent iff something arrived and the head fits; no packet that did not arrive is dropped; exactly those of the ranges announced are, and these are all ranges when at most 513 packets arrived and the buffer has 27 bytes and 16 more for each |
| `AckExchange.Handle` | picoquic/frames.c:2133-2165 | an arrival, an acknowledgement that is processed, or one that was itself acknowledged, on both sides |
| `AckExchange.Run` | picoquic/frames.c:2601-2715 | over any order of these the list holds only numbers that arrived, and all of them but those covered by acknowledged acknowledgements; only packets that arrived are ever dropped; after an acknowledgement with room for the list no packet of the list is left; delivered and queued bytes are conserved |
| `EndToEnd.SendOne` | picoquic/frames.c:1160-1354 | in a packet of twenty bytes there is a frame for the next byte, given credit, and for a requested end |
| `EndToEnd.Send` | picoquic/frames.c:1160-1354 | packets of any sizes carry frames that partition exactly the bytes sent, at most one each; every packet of at least twenty bytes carries a byte while one is due; with as many of these as bytes, at least one, and limits that suffice, all bytes are sent, and the end if requested |
| `EndToEnd.ReceivePiece` | picoquic/frames.c:869-917 | a piece of the data within the granted credit is never refused |
| `EndToEnd.ReceivePieces` | picoquic/frames.c:765-917 | pieces in any order and number are all there afterwards, and the end is known iff one of them carried it |
| `EndToEnd.ExactlyDelivered` | picoquic/frames.c:765-917 | whatever arrived, all that is delivered was carried by a frame that arrived, and a frame that arrived is delivered whole once its first byte is reached |
| `EndToEnd.AllDelivered` | picoquic/frames.c:765-917 | once every frame has arrived all bytes sent, and the end, have been delivered |
| `EndToEnd.Transfer` | picoquic/frames.c:765-917 | the frames partition the bytes sent; whichever of them arrive, in any order and number, the receiver has exactly what they carry up to the first gap, a prefix of the bytes queued, and sees the end exactly when it arrived and all bytes did; once every frame has arrived it has all bytes sent, and with enough packets and credit these are all bytes, and the end |
| `Protoop.Copy` | picoquic/plugin.c:1302-1304 | a copy of the arguments changes just their places |
| `Protoop.Context.Act` | picoquic/picoquic_internal.h:1031-1042 | what a body does to the shared buffers is what it does to its own view |
| `Protoop.Context.Enter` | picoquic/plugin.c:1302-1316 | the callee sees its own inputs and no outputs |
| `Protoop.Context.Exec` | picoquic/plugin.c:1367-1375 | running a body, nested calls included, shows it only its own view throughout and leaves the call stack as it was |
| `Protoop.Context.Observe` | picoquic/plugin.c:1367-1375 | the observers of a list run in order, each for its own plugin and anchor |
| `Protoop.Context.Perform` | picoquic/plugin.c:1377-1396 | the replacing pluglet runs for its plugin, else the core for none; with neither the call does not complete |
| `Protoop.Context.Serve` | picoquic/plugin.c:1367-1410 | pre observers, implementation and post observers, in this order, share one view |
| `Protoop.Context.Restore` | picoquic/plugin.c:1429-1449 | the caller's inputs, outputs, counts, plugin, operation and anchor are back |
| `Protoop.Context.Run` | picoquic/plugin.c:1279-1452 | a call completes iff its tree reaches only entries it may run and none twice along a path; then the caller's view and the call stack are restored, the outputs are those its own bodies saved, and every body saw what a semantics without shared state shows it |
| `Protoop.InnerCompletes` | picoquic/plugin.c:1358-1365 | each call nested in a completing one completes with its caller added to the stack |
| `Protoop.NestingIsBounded` | picoquic/plugin.c:1358-1365 | nested calls reach distinct entries, so nesting is never deeper than the number of registered entries |
| `Pool.Manager.constructor` | picoquic/memory.c:192-210 | the pool starts with every block free and none threaded |
| `Pool.Manager.Initialize` | picoquic/memory.c:86-91 | threads the first unused block onto the end of the free list |
| `Pool.Manager.Successor` | picoquic/memory.c:94-102 | the header of the first free block leads to the next one |
| `Pool.Manager.Take` | picoquic/memory.c:93-107 | the first free block leaves the list and is marked |
| `Pool.Manager.Malloc` | picoquic/memory.c:72-112 | succeeds iff the size fits in a block and fewer than all blocks are live; the block is aligned, in range and not live; no payload changes |
| `Pool.Manager.Free` | picoquic/memory.c:120-144 | the block goes to the front of the list; no payload changes |
| `Pool.Manager.Realloc` | picoquic/memory.c:171-190 | the same pointer when the size fits, whatever it points to, else the block is given back |
| `Pool.Manager.Write` | picoquic/memory.c:72-144 | a plugin that writes in its block disturbs neither the list nor another block |
| `Pool.Extended` | picoquic/memory.c:86-91 | threading a block keeps the list, the split into live and free, and the marks |
| `Pool.Popped` | picoquic/memory.c:93-102 | after taking the first block its header names the head of the rest, if any block is left |
| `Pool.Pushed` | picoquic/memory.c:131-143 | giving a block back keeps the list threaded |
| `Pool.Manager.FreeIsTheRest` | picoquic/memory.c:72-144 | the threaded list and the blocks never used are exactly the blocks not live, and are counted |
| `Pool.Run` | picoquic/memory.c:72-144 | after any client run the pointers lead to distinct blocks, as many as promised, and reading gives what was last written since the allocation |
| `MemCopy.Forward` | picoquic/memcpy.c:66-89 | copying upwards, bytes to an aligned address, then words, then bytes, leaves the source's old bytes at the destination |
| `MemCopy.Backward` | picoquic/memcpy.c:90-111 | the same downwards |
| `MemCopy.CopyWord` | picoquic/memcpy.c:86-108 | a word moves between aligned addresses only |
| `MemCopy.MemCopy` | picoquic/memcpy.c:51-114 | for every source, destination and length the destination receives the source's original bytes and all other memory stays |
| `MemCopy.SetEdges` | picoquic/memcpy.c:137-144 | the first and last bytes, at most four of each, are set |
| `MemCopy.MemSet` | picoquic/memcpy.c:128-165 | exactly the n bytes are set, to the low byte of the value |
| `CcCommon.RttFilter.Filter` | picoquic/cc_common.c:43-69 | sample minimum and maximum are those of the last seven measurements, or of all until there are seven |
| `CcCommon.RttFilter.Push` | picoquic/cc_common.c:43-58 | the ring holds exactly the latest samples |
| `CcCommon.LossTest` | picoquic/cc_common.c:72-102 | a new loss is reported iff it timed out or the smoothed rate is above the threshold |
| `CcCommon.RateBounded` | picoquic/cc_common.c:72-102 | the smoothed rate stays between zero and one over any run of losses |
| `CcCommon.SparseLossesIgnored` | picoquic/cc_common.c:72-102 | losses at least five packets apart never reach the threshold |
| `CcCommon.DenseLossesDetected` | picoquic/cc_common.c:72-102 | seven losses in a row at most four packets apart always exceed it |
| `BandwidthFilter.BandwidthFilter.MoveUp` | picoquic/bbr.c:330-340 | the array shifts by one place, and the maximum of what is kept is computed on the way |
| `BandwidthFilter.BandwidthFilter.Shift` | picoquic/bbr.c:326-341 | a new round forgets the one ten rounds back |
| `BandwidthFilter.BandwidthFilter.Take` | picoquic/bbr.c:343-348 | a sample joins the current round |
| `BandwidthFilter.BandwidthFilter.Update` | picoquic/bbr.c:309-349 | the bottleneck bandwidth is the maximum of the accepted samples of the current and the nine previous rounds |
| `BandwidthFilter.FilterIsWindow` | picoquic/bbr.c:309-349 | the maximum of the ten filter places is the maximum over the samples they stand for |
| `Bbr.Quantum` | picoquic/bbr.c:241-255 | at least one packet or 3000 bytes, and never above 64000 bytes or two packets |
| `Bbr.Bbr.Inflight` | picoquic/bbr.c:257-267 | the initial window without a round trip time, and otherwise at least three quanta, exactly three without bandwidth |
| `Bbr.Bbr.constructor` | picoquic/bbr.c:275-292 | the controller starts in startup with the initial window |
| `Bbr.Bbr.AdvanceCyclePhase` | picoquic/bbr.c:381-395 | the place in the gain cycle stays below eight and the gain is that table entry |
| `Bbr.Bbr.CheckCyclePhase` | picoquic/bbr.c:363-403 | the gain cycle moves one place, exactly when bandwidth is probed and the phase has lasted |
| `Bbr.Bbr.CheckFullPipe` | picoquic/bbr.c:405-419 | the pipe counts as full exactly at the third round in a row without a quarter of growth |
| `Bbr.Bbr.CheckDrain` | picoquic/bbr.c:437-446 | a full pipe ends startup, and draining ends when what is in transit is down to the estimate |
| `Bbr.Bbr.UpdateRtProp` | picoquic/bbr.c:353-361 | the propagation time is the new sample when that is not larger or the old one expired |
| `Bbr.Bbr.HandleProbeRtt` | picoquic/bbr.c:507-534 | probing the round trip time ends exactly when a round and 200 ms have passed, in startup or bandwidth probing according to the pipe, with the earlier window |
| `Bbr.Bbr.CheckProbeRtt` | picoquic/bbr.c:536-550 | round trip probing starts exactly when the estimate expired and the path was not idle, ends exactly when a round and 200 ms have passed, and is not left in the step that enters it |
| `Bbr.Bbr.UpdateModelAndState` | picoquic/bbr.c:552-561 | the sample joins the filter iff the window was the limit; phase, full pipe, place in the gain cycle, round trip time and window afterwards are exact functions of the state before and the new bandwidth estimate |
| `Bbr.Bbr.SetPacingRate` | picoquic/bbr.c:563-569 | the pacing rate never falls before the pipe is full |
| `Bbr.Bbr.ModulateForRecovery` | picoquic/bbr.c:577-593 | losses are taken off the window, down to one packet, and packet conservation raises it to what is in flight |
| `Bbr.Bbr.SetCwnd` | picoquic/bbr.c:605-627 | the new window follows the target, the losses, the deliveries and the probing limit |
| `Bbr.WindowFloor` | picoquic/bbr.c:605-627 | the window keeps at or above its minimum for all measurements iff packets have at least 900 bytes |
| `Bbr.FloorKept` | picoquic/bbr.c:605-627 | whatever the packet size, a measurement leaves the window at or above the least of its floor and three packets |
| `Bbr.BelowMinimum` | picoquic/bbr.c:744-820 | a new controller with packets of 800 bytes, after a timeout and any one measurement, has a window of 2400 bytes, below the minimum |
| `Bbr.Bbr.UpdateOnAck` | picoquic/bbr.c:655-662 | these, and pacing rate, quantum, target and window, exactly; so the window is at most the target once the pipe is full, at most four packets while the round trip time is probed, and at or above its floor |
| `Bbr.Bbr.NotifyCongestion` | picoquic/bbr.c:701-737 | filters repeated signals, which change nothing, and otherwise halves the window or resets it to the minimum and ends startup |
| `Bbr.Bbr.Notify` | picoquic/bbr.c:744-820 | every notification, for any packet size, keeps the run invariant: gains fit the phase, drain and bandwidth probing imply a full pipe and startup the contrary, the long round trip startup is never entered, the window keeps its floor; acknowledged bytes, losses and measurements have exactly the effect of their kind |
| `Bbr.Bbr.OnLoss` | picoquic/bbr.c:764-773 | a loss is acted upon iff it is new, timed out or at a high loss rate, and not filtered; otherwise window and phase stay |
| `Bbr.IgnoreSparseLosses` | picoquic/bbr.c:764-773 | repeats of packets at least five numbers apart are ignored, however many there are |
| `Bbr.Run` | picoquic/bbr.c:744-820 | over any run the phases follow the allowed edges, change only at measurements and losses, and never go back to startup once the pipe was full; acknowledged bytes, losses and the floor of the window are counted exactly, and the window stays at or above 2700 bytes or three of the smallest packets measured |
| `Bbr.LargePacketsKeepFloor` | picoquic/bbr.c:744-820 | packets of at least 900 bytes leave the floor at 2700 bytes |
| `CubicRoot.NewtonAbove` | picoquic/cubic.c:117-121 | a Newton step never ends below the root |
| `CubicRoot.NewtonBelow` | picoquic/cubic.c:117-121 | a step from at most c times x (in cubes) ends at most k times x whenever (2c + 1)^3 <= 27 k c^2 |
| `CubicRoot.CubicRoot` | picoquic/cubic.c:102-124 | over the reals the doubling loop ends and the result y has x <= y^3, and y^3 <= 1.04 x for x >= 1 |
| `NewReno.NewReno.constructor` | picoquic/newreno.c:45-57 | slow start with the initial window |
| `NewReno.NewReno.EnterRecovery` | picoquic/newreno.c:61-84 | threshold and window after a loss or a timeout, never below the minimum |
| `NewReno.NewReno.Notify` | picoquic/newreno.c:107-146 | acknowledgements grow the window as specified, losses reduce it at most once per round trip, spurious ones only raise it; the carried part stays below the window |
| `NewReno.GrowthIsPaid` | picoquic/newreno.c:119-125 | the credit of the acknowledgements bounds the growth from above at the smallest window and from below at the largest |
| `NewReno.GrowthBounded` | picoquic/newreno.c:119-125 | acknowledgements of at most one window, however split, grow the window by at most one packet, and by nearly as much (section 3.1 of RFC 5681) |
| `NewReno.NewReno.Avoid` | picoquic/newreno.c:119-125 | the same for the controller over any run of acknowledgements in congestion avoidance |
| `PacketNumber.Truncated` | picoquic/packet.c:370-379 | the loop yields the number spelled by the bytes and the mask of all higher bits |
| `PacketNumber.ExpandIsClosest` | picoquic/packet.c:297-320 | the result is congruent to the received number and within half a window of the expected one, unless that would be negative |
| `PacketNumber.TruncationRecovered` | picoquic/packet.c:297-320 | any number within half a window of the expected one is recovered from its truncation |
| `PacketNumber.DiffersOnlyAtTie` | picoquic/packet.c:297-320 | the result differs from the sample algorithm in Appendix A.3 of RFC 9000 exactly at the half-window tie |
| `PacketNumber.Decode` | picoquic/packet.c:297-320 | decoding the low bytes of a number near the expected one gives that number, and no other |

## Left out

- Integer widths: counters, offsets and times are unbounded, except where wrapping is written out (the 64-bit time
  differences, the 64-bit doubling of the New Reno threshold, the 32-bit conversion in the BBR cycle, packet numbers, varints).
  The size field of the splay tree, a 32-bit integer, is unbounded too.
- Floating point: BBR, the loss rate and the cube root use exact reals, so rounding is not modelled.
- Allocation failure, logging, TLS, packet protection, sockets, multipath, version negotiation.
- The splay tree's sanity printer and `picosplay_contents`; the comparator is a total preorder on values, and nodes are
  not handed out through callbacks.
- Streams: the update of the local stream identifier limit, and the removal of streams.
- ConnectionRun.Run: a RESET_STREAM of this side, which drops queued data, and the application's polling are not among
  its actions; frames are written into at most 16384 bytes.
- `prepare_stream_frame`: the reset and STOP_SENDING frames in front of the data path, and the active polling path, where the
  application writes into the buffer.
- SendFlow.PrepareData: an active stream is one whose FIN is requested; the path on which it polls the application is
  left out.
- PluginStream.Input: processing a complete plugin is an event; unpacking and injecting it is not modelled.
- The choice among plugin streams (`find_ready_plugin_stream`).
- ReceiveFlow.Input: the frame is for an existing stream, and frame offset plus length does not wrap.
- Scheduler.NobodyOvertakesTwice: is about successful sends of data; a STOP_SENDING that stays pending on a finished stream is not covered.
- ACK frames with ECN counters; the delay is any number given; duplicate detection of acknowledged stream frames; RTT updates.
- AckProcess.PacketContext.Acknowledge: removes the packet and credits its length; what acknowledged frames in it set off is not modelled.
- AckProcess.PacketContext.ProcessAck: one path, and no error from a hook.
- Protoop.Context.Run: an operation with neither the parameter nor a default entry does not complete in the model; in the source
  there is no entry to unmark there. A fatal exit of the process is a call that does not complete. At most 16 outputs are saved,
  as the array has 16 places.
- Protoop.Context.Perform: errors of the virtual machine that runs a pluglet; a pluglet is any list of acts.
- Injection and removal of plugins, and their rollback.
- Pool.Manager.Free: frees of pointers that are not live blocks, which the source reports and performs.
- Pool.Manager.Realloc: a size that does not fit for a pointer that is not a live block, which the source frees.
- The dynamic memory manager, `my_calloc`, and the debugging variants.
- Bbr.Bbr.Notify: the branches of the long round trip startup, which is never entered; the idle restart on transmission and the
  recovery functions that nothing calls; the pacing data of the path. Round trip times are below 2^31 times 100 ms.
- `picoquic_hystart_test` and `picoquic_hystart_increase`, and the rest of the Cubic controller around its cube root.
- NewReno.NewReno.Notify: the measurement ring that ends the first slow start, and the overflow of the product of acknowledged bytes
  and packet size.
- Hash tables, queues, FNV hashing, byte order conversion and the FEC plugins, which would only add easy members.
