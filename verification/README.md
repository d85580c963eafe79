# librim: a Dafny model of its state machines

librim wraps Boost.ASIO sockets. Its own logic is a handful of state machines, and this project models
those and proves what they keep over all runs:

- **Receiving.** One growable buffer per TCP connection is filled by reads of any size, cut into frames by a
  loop that asks a user function for each frame's length, compacted in place and regrown.
- **Sending.** Any number of threads take buffers from a fixed pool, fill them and post them to a strand; the
  strand queues them in a ring and keeps at most one gather write outstanding; its completion recycles the batch.
  UDP is the same machine with batches of one and a target in every buffer.
- **Both together.** What a receiver delivers is what the senders on the other side posted.
- **The dispatcher**, whose handlers work on the received bytes in place while the receive loop walks them.
- **The logger**: producers append under a lock, a worker swaps two buffers and writes outside the lock, the
  destructor writes the rest; and the file format.
- **Connections of a server**: five causes race to close a socket; the live set, the disconnect callback, the
  read timer and broadcasts.

`dafny verify dfyconfig.toml` checks everything.

## How the modules fit

| module | role |
|---|---|
| `Streams`, `Framing` | concatenation of messages; `Parse`, the reference cut of a byte stream; `Feed`, a receiver seen from outside |
| `Dispatcher`, `FrameReceiver` | the classes of the receive side, proved against `Parse`, `Feed` and `CallsFor` |
| `SendPipeline` | the send path as labelled steps: `Enabled`, `Apply`, `Exec` |
| `PipelineInvariants`, `PipelineTheorems`, `PipelineHistory` | what holds in every reachable state; what the events of a run alone say of its state and of the next step |
| `Progress`, `Starvation` | the measure behind back-pressure; when a thread that spins on the pool can be helped and when it never is |
| `Gathering`, `Batching`, `LockStep`, `Datagrams` | any batch limit against one buffer to a write: on all runs, in lock step until a failure, and why not beyond; UDP |
| `Channels`, `UdpChannels`, `TcpClients`, `TcpServers` | the classes of the send side; each method of a connection is a step, and every state of one is a reachable state of `SendPipeline`; the server's handlers are steps of `Lifecycle` |
| `EndToEnd`, `Broadcast`, `BlockedBroadcast`, `BroadcastProgress` | senders, network and receiver in one system; one broadcasting thread over many connections, when it is blocked, and that it gets through otherwise |
| `RimLog`, `AsyncLog`, `LoggerHistory`, `LoggerClass` | log format, logger as labelled steps, what its events alone say, logger class |
| `Lifecycle`, `ReadLoop` | accept, close and destruction; reads, timer and the client's flag, with time |

In `SendPipeline` a write holds pointers and lengths, and what the network takes is read from memory at the
moment it takes it. Filling a buffer is not atomic either: `Scribble` puts arbitrary contents into it first. So
the wire theorems depend on nobody touching a queued buffer, which is proved and not built in.

Every machine is also held against its events: `PipelineHistory`, `LoggerHistory`, `Lifecycle` and `ReadLoop` define, from
the list of events alone, what the state is and what can happen next, and prove that the machine agrees on all runs.

## Assumptions

- TCP hands over a prefix of the bytes written, in order. A write that fails or is aborted has transmitted some
  prefix of its batch; a closed socket transmits nothing more.
- Handlers of one strand run one at a time, posted handlers in FIFO order; `dispatch` from the strand runs inline.
- The lock-free pool is an atomic set; a push may fail, and the buffer is then deleted.
- The framing function is pure, and it or the header size makes progress: `headerSize >= 1`, or a header of no
  bytes announces at least one. `ProductiveIsExact` shows that the slice loop needs exactly this.
- A handler writes only within the struct it is given; what it writes may depend on everything handled before.
  A callback may close its own connection. Callbacks do not throw.
- The framing function, `header_size`, `max_message_size`, the 65536 bytes of slack, the pool and ring sizes
  (8192) and the batch limit (512, or 1 for UDP) are parameters; results need ring >= pool and batch >= 1.
- `connect` is called once per client.

## Where code and comments differ

The model follows the code.

- `tcp_client.hpp:159-160` says a congested `send` allocates; it spins on the pool (lines 175-179).
- `tcp_client.hpp:334` says the timer fires when no complete message arrives in time; it is re-armed after any
  bytes arrive, complete or not (line 329).
- `message_dispatcher.hpp:114` says `dispatch` returns true if handled; it returns true for a registered type
  whose handler was skipped because the message is too short (lines 132-136).
- The repository's README describes a two-phase read of header and payload; there is one read for any number of
  frames.

## What does not hold, and exactly when

- A thread that spins in `send` is not always served: it can spin for ever after a failed write, exactly in the
  states of `RefillIsExact`, and such a state is reachable with two buffers and two threads (`StarvationIsExact`).
- One connection in such a state blocks a broadcast for ever and cuts off the open connections behind it
  (`GoingOnIsExact`, `RestIsCutOff`, `BlockingIsExact`).
- A writer of single buffers can show all that a gathering one shows (`SeenUnbatched`), but after a failed write not
  with the same handlers on its strand at every moment (`LockStepEndsAtFailure`).
- A callback that sends on its own connection hangs its strand with the first message for which no buffer is free
  (`CallbackSendsAreExact`).
- The slice loop ends on every input only under the condition of `ProductiveIsExact`.
- Records survive the 32-bit length field only up to the capacity of `CapacityIsExact`, and buffers survive the ring
  only under the condition of `RingSizeIsExact`.

## Model

The first 52 rows are the main results; what they are built from, step by step and method by method, follows.

| member | source | states |
|---|---|---|
| `EndToEnd.DeliveredIsPrefixOfPosted` | include/librim/tcp_client.hpp:165-331 | with valid frames posted, the frames delivered are always a prefix of the posts, the receiver never fails, and a payload read to its last byte has been delivered |
| `EndToEnd.PostedCanBeDelivered` | include/librim/tcp_server.hpp:165-276 | from every open state, strand, writer and reader alone can deliver exactly what is posted |
| `EndToEnd.PostedIsDelivered` | include/librim/tcp_server.hpp:165-276 | from every open state, however strand, network and reader are scheduled, they stop after boundedly many moves, and then exactly the posts are delivered |
| `EndToEnd.AllDelivered` | include/librim/tcp_client.hpp:165-331 | the frames delivered are exactly the posts once all bytes are read |
| `EndToEnd.HandlersFollowPosts` | include/librim/message_dispatcher.hpp:116-138 | the handlers called are those of a prefix of the posts, in order |
| `PipelineInvariants.ReachableInvariant` | include/librim/tcp_server.hpp:109-204 | in every state of every interleaving: buffers conserved, ring and posted handlers holding the unrecycled payloads, the write on the oldest of them, the wire up to where it stands, and each thread's messages in its own order |
| `PipelineTheorems.WireIsPrefixOfLog` | include/librim/tcp_client.hpp:186-259 | the wire is always a prefix of the payloads in post order, across failures, closes and posts after a close |
| `PipelineTheorems.ExclusiveOwnership` | include/librim/tcp_server.hpp:69-75 | each of the constructor's buffers is in exactly one place and never in two threads' hands |
| `PipelineTheorems.RingSizeIsExact` | include/librim/tcp_server.hpp:311-312 | buffers are conserved on all runs if and only if the ring is at least as large as the pool |
| `PipelineTheorems.InFlightStability` | include/librim/tcp_client.hpp:220-234 | an outstanding write refers to the oldest `active_writes_` buffers, between 1 and the limit, and until its completion no step changes them, their order or what will be read from them |
| `PipelineTheorems.NoMessageForgotten` | include/librim/tcp_server.hpp:128-135 | a write outstanding has something to write; a ring nobody writes is left over from a failed write on a closed socket |
| `PipelineTheorems.ProgramOrder` | include/librim/tcp_server.hpp:109-137 | two messages of one thread stand in the log in the order of its calls |
| `PipelineHistory.PastIsTold` | include/librim/tcp_server.hpp:109-203 | threads, log and authors, handlers run, bytes transmitted, buffers lost and the socket are in every run what the events alone say |
| `PipelineHistory.GuardsAreExact` | include/librim/tcp_server.hpp:109-203 | in every state of every run a step can be taken if and only if the events so far, the ring and the outstanding write allow it: any free buffer can be popped, any part of the write transmitted, any of its buffers refused, and so on |
| `Gathering.SeenUnbatched` | include/librim/tcp_client.hpp:220-258 | every state reached with any batch limit, failures, closes and later posts included, looks like one that is reached writing one buffer at a time: same threads, memory, posted handlers, log, wire and socket |
| `Gathering.GatheringIsInvisible` | include/librim/tcp_client.hpp:220-258 | every run with any batch limit is followed step by step by such a run: after each step all the same but what waits on the strand |
| `LockStep.LockStepEndsAtFailure` | include/librim/tcp_server.hpp:181-203 | a run with three buffers and a failed write of two that no run of single buffers matches after every step with the strand included |
| `Progress.StarvationIsBounded` | include/librim/tcp_server.hpp:117-121 | in any interleaving at most `Work` helpful steps pass before a buffer is back |
| `Progress.PoolRefills` | include/librim/tcp_server.hpp:179-203 | from every open state with a buffer alive at most `Work` helpful steps do bring one back, deleting none |
| `Starvation.RefillIsExact` | include/librim/tcp_server.hpp:117-203 | the empty pool can be refilled by some continuation if and only if a write is outstanding or the ring is empty, and a buffer is not deleted; failures and closes included |
| `Starvation.StarvationIsExact` | include/librim/tcp_server.hpp:117-203 | a thread can come to spin for ever, with no buffer deleted, if and only if there are two buffers and two threads or more |
| `Starvation.CallbackSendsAreExact` | include/librim/tcp_server.hpp:109-137 | a callback on the strand can send `k` messages if and only if so many buffers are free when it starts |
| `Framing.ChunkingIndependence` | include/librim/tcp_server.hpp:217-276 | any list of non-empty reads delivers the frames, and the failure, of one parse of their concatenation |
| `Framing.ParsePrefix` | include/librim/tcp_server.hpp:239-265 | valid frames received up to any byte give a prefix of them, never fail, and no fully received frame is missing |
| `Framing.ParseUnique` | include/librim/tcp_server.hpp:235-276 | no other list of valid frames with such a rest makes up the stream |
| `Framing.ProductiveIsExact` | include/librim/tcp_server.hpp:239-265 | every turn of the slice loop, of which `Parse` is made, shortens what is left if and only if the header size or the length announced by an empty header is at least 1 |
| `FrameReceiver.ReadAll` | include/librim/tcp_server.hpp:209-276 | over a whole chain of reads, of any sizes that fit the buffer as it has grown: frames, failure and handler calls of one parse; the buffer never exceeds max(header, maximum, 1) + slack - 1; only a bad length or a callback that closes ends it early, and reads that want no more than the slack get all they want |
| `FrameReceiver.StreamReceiver.OnReadComplete` | include/librim/tcp_server.hpp:219-229 | a read acts as `Feed` on the receiver and logs the handler calls of the frames completed by it; an error closes and ends the chain of reads; the connection is open after it exactly if it was, no length was bad and the callback closed it on none of these frames |
| `Dispatcher.MessageDispatcher.Dispatch` | include/librim/message_dispatcher.hpp:116-138 | in terms of buffer, table and extractor: true exactly for a whole header of a registered type; exactly if the message is also long enough the handler is called with its first bytes; only these change, to what the handler, given all calls before, writes |
| `Datagrams.DatagramsInOrder` | include/librim/udp_endpoint.hpp:245-308 | datagrams leave in post order with their own target and bytes, one per write, at most one sent and not yet recycled |
| `AsyncLog.NothingLostOrReordered` | include/librim/async_logger.hpp:135-188 | file, unwritten flush buffer and active buffer together are always the old file and all accepted records in lock order |
| `LoggerHistory.RunsAreExact` | include/librim/async_logger.hpp:82-190 | the runs of the logger are exactly those the events so far allow, and active buffer, flush buffer and file hold the encodings of the records these events kept, stole and wrote |
| `AsyncLog.FileHoldsWholeRecords` | include/librim/async_logger.hpp:82-99 | the file always ends on a record boundary, and holds every accepted record after the destructor |
| `AsyncLog.FileDecodes` | include/librim/async_logger.hpp:127-183 | a fresh file decodes to a prefix of the accepted records at any time and to all of them at the end |
| `LoggerHistory.ClosedFileLogsNothing` | include/librim/async_logger.hpp:64-68 | a logger whose file did not open lets no call in, on any run: nothing is accepted and the file is not touched |
| `RimLog.RoundTrip` | include/librim/async_logger.hpp:127-148 | a log of records that fit decodes to them |
| `RimLog.CapacityIsExact` | include/librim/async_logger.hpp:130-144 | every record the logger may accept survives if and only if the capacity is below 2^32 + 16 |
| `RimLog.RecordLayout` | include/librim/async_logger.hpp:127-135 | byte by byte: id, length and timestamp most significant byte first, then the payload |
| `Lifecycle.LiveSetIsExact` | include/librim/tcp_server.hpp:408-433 | between its handlers a connection is in the live set exactly while its socket is open |
| `Lifecycle.DisconnectsOnce` | include/librim/tcp_server.hpp:142-159 | however many causes race, one closes the socket and the disconnect callback runs once |
| `Lifecycle.RunsAreExact` | include/librim/tcp_server.hpp:142-159 | the runs of accepts, references, closes and destructions are exactly those the events so far allow, and every connection is in the state these say |
| `Lifecycle.QueuedClosesRun` | include/librim/tcp_server.hpp:142-159 | between handlers a queued close can run if and only if fewer have run than users asked for, and then the socket is closed: none is lost |
| `Broadcast.BroadcastsKeepOrder` | include/librim/tcp_server.hpp:370-385 | on every connection that accepted two broadcasts of one thread, the first stands first in the log that the wire is a prefix of |
| `Broadcast.OpenConnectionGetsIt` | include/librim/tcp_server.hpp:370-385 | a broadcast the thread is through with is in the log of every connection of its snapshot that is still open |
| `BroadcastProgress.BroadcastFinishes` | include/librim/tcp_server.hpp:370-385 | a broadcast that is not blocked, with a buffer left on every open connection, can get through all its items with no connection closed on the way, and every open one has them all |
| `BlockedBroadcast.GoingOnIsExact` | include/librim/tcp_server.hpp:117-121 | a broadcast that waits for a buffer of one connection can go on if and only if that connection's writer is usable and one of its buffers is not deleted |
| `BlockedBroadcast.BlockingIsExact` | include/librim/tcp_server.hpp:370-385 | a broadcast can block for ever, with no buffer deleted, if and only if there are two buffers and two threads or more |
| `ReadLoop.OneReadOneWait` | include/librim/tcp_server.hpp:209-294 | at most one read and one timer wait; an open started connection always has a read out; a client flag left set on a closed socket is cleared by a completion still to come |
| `ReadLoop.RunsAreExact` | include/librim/tcp_server.hpp:209-294 | the runs of reads, timer and closes are exactly those the events so far allow, and deadline, outstanding read, flag and socket are what these say |
| `ReadLoop.DeadlineIsExact` | include/librim/tcp_server.hpp:281-294 | the wait can end if and only if it was not ended and the time since the start or the last read, by the ticks of the run, has reached the timeout |
| `ReadLoop.PunctualPeerIsNotTimedOut` | include/librim/tcp_server.hpp:281-294 | if the peer of the open connection is never silent for the timeout, counted from the start and each read, the timer never closes it |
| `ReadLoop.IdlePeerIsTimedOut` | include/librim/tcp_server.hpp:281-294 | once it has been silent for the timeout, the timer's own steps close it |
| `Framing.ParseSound` | include/librim/tcp_server.hpp:235-276 | the frames and the rest are the whole stream, each frame announces its own length within the limits, and the cut stops only at a bad length or an incomplete frame |
| `Framing.ParseAppend` | include/librim/tcp_server.hpp:267-275 | cutting can be resumed with the left-over bytes; a bad length stays bad |
| `Framing.RestIsShort` | include/librim/tcp_server.hpp:239-272 | fewer than max(header, maximum, 1) bytes are left after a pass |
| `Framing.HeadDecides` | include/librim/tcp_server.hpp:239-265 | what the announced length decides: both limits are allowed, beyond them the stream is bad at once, and a frame is delivered with its last byte |
| `Framing.SameStreamSameFrames` | include/librim/tcp_client.hpp:272-331 | two ways of cutting a stream into reads cannot be told apart |
| `Dispatcher.OneFrame` | include/librim/message_dispatcher.hpp:116-138 | in terms of extractor and table: a type is registered exactly if the table has it, and the handler gets the first bytes of the frame, as many as its struct has, exactly if the frame has so many |
| `Dispatcher.FramesReachTheTable` | include/librim/message_dispatcher.hpp:116-161 | a frame cut with the dispatcher's own size function is never too short to route, has the size its extractor says, and runs the handler exactly if its header alone names a registered type and announces at least its struct |
| `Dispatcher.CallsForAppend` | include/librim/message_dispatcher.hpp:116-138 | the handler calls for a list of frames are those for its parts, in order |
| `FrameReceiver.StreamReceiver.StartReceive` | include/librim/tcp_server.hpp:209-217 | needs that no read is outstanding; keeps the pending bytes and has the slack free behind them, in a new buffer only if the old one is too small |
| `FrameReceiver.StreamReceiver.ProcessBuffer` | include/librim/tcp_server.hpp:235-276 | delivers the frames of the parse, keeps its rest at the front, arms the timer and reads again; a bad length closes, arms nothing and starts no read |
| `FrameReceiver.StreamReceiver.CutFrames` | include/librim/tcp_server.hpp:237-265 | the slice loop hands over exactly the frames of the parse of the bytes that were there before any handler changed them, also after the callback has closed the connection |
| `FrameReceiver.StreamReceiver.HandOver` | include/librim/tcp_server.hpp:253-259 | the callback gets the frame's original bytes and the active bytes behind the frame are untouched |
| `FrameReceiver.StreamReceiver.Compact` | include/librim/tcp_server.hpp:267-272 | the overlapping move brings the left-over bytes to the front unchanged |
| `PipelineInvariants.ConservedStep` | include/librim/tcp_server.hpp:117-135 | every step keeps each buffer in exactly one of pool, thread, posted handler, ring, deleted |
| `PipelineInvariants.HistoryStep` | include/librim/tcp_server.hpp:124-135 | every step keeps the ring and the posted handlers holding exactly the logged payloads that are not recycled, in order |
| `PipelineInvariants.WriterStep` | include/librim/tcp_server.hpp:165-203 | every step keeps an outstanding write on the oldest buffers of the ring with their lengths, and an unwritten ring only after a failure |
| `PipelineInvariants.WireStep` | include/librim/tcp_server.hpp:179-203 | every step keeps the wire equal to the recycled payloads and the transmitted part of the batch, or cut short by a failure |
| `PipelineInvariants.RingHasRoom` | include/librim/tcp_server.hpp:128-130 | a pushed buffer finds room and goes to the end |
| `PipelineHistory.WritesGatherAll` | include/librim/tcp_server.hpp:165-177 | a write begins with as many buffers as the limit allows and the ring has; the ring holds what handlers have pushed and no completion recycled |
| `PipelineHistory.AnythingInHand` | include/librim/tcp_server.hpp:123-125 | until it is filled a buffer in a thread's hand may hold anything |
| `PipelineTheorems.NoOverwrite` | include/librim/tcp_server.hpp:128-130 | the ring never overwrites a queued buffer |
| `PipelineTheorems.WireIsLogWhenDrained` | include/librim/tcp_client.hpp:236-258 | with nothing posted or queued and no failure the wire is everything posted |
| `PipelineTheorems.CompletionRecyclesTheBatch` | include/librim/tcp_client.hpp:238-248 | completion takes exactly that batch off the ring and returns or deletes each of its buffers |
| `PipelineTheorems.CompletionEndsOnBoundary` | include/librim/tcp_server.hpp:179-194 | after every successful write the wire is exactly the payloads recycled so far, none cut short and no byte of the next |
| `PipelineTheorems.ClosedWireIsFrozen` | include/librim/tcp_server.hpp:142-159 | after a close no run transmits anything more |
| `PipelineTheorems.LeftoverIsStranded` | include/librim/tcp_server.hpp:195-202 | what a failed write leaves in the ring is never written or recycled by any later run, and the pool only shrinks |
| `Progress.WorkStep` | include/librim/tcp_server.hpp:117-135 | while the pool is empty every helpful step lowers the measure and no other error-free step raises it |
| `Progress.HelpIsEnabled` | include/librim/tcp_server.hpp:117-121 | while the pool is empty and a buffer alive, a holder, the strand or the writer can always take a helpful step |
| `Progress.StrandHelps` | include/librim/tcp_server.hpp:128-203 | anything posted or queued on an open connection can go on, with less work left |
| `Starvation.StarvationHappens` | include/librim/tcp_server.hpp:117-203 | such a run, from the constructor on, for any two threads: a write fails with buffers queued behind it while both are past the open check |
| `Batching.MimicStep` | include/librim/tcp_client.hpp:220-258 | one step that is no failed completion is matched by a run that keeps the unbatched writer ahead in recycling, inside the same batch, with the same handlers posted |
| `Batching.LockStepUntilFailure` | include/librim/tcp_client.hpp:220-258 | up to and with the first failed write the two can look the same after every step, posted handlers included |
| `Gathering.FollowStep` | include/librim/tcp_client.hpp:220-258 | one step, of any kind, is answered by a run that keeps the line of queued and posted buffers a suffix of the batched one's, and after a failure its ring empty |
| `Channels.TcpChannel.Send` | include/librim/tcp_server.hpp:109-137 | refused without effect on a closed socket; left spinning on an empty pool; otherwise the thread's four steps, logging the data once |
| `Channels.TcpChannel.Retry` | include/librim/tcp_server.hpp:117-137 | one more look at the pool by a spinning thread: nothing changes, or a buffer is taken, filled and posted, on a closed socket too |
| `Channels.TcpChannel.DoWrite` | include/librim/tcp_server.hpp:165-177 | the gather loop collects the oldest buffers up to the limit with their lengths |
| `Channels.TcpChannel.RunPosted` | include/librim/tcp_server.hpp:128-135 | is the strand's step |
| `Channels.TcpChannel.RecycleBatch` | include/librim/tcp_server.hpp:184-193 | the pop loop takes exactly the batch off and gives the pool what it does not refuse |
| `Channels.TcpChannel.OnWriteComplete` | include/librim/tcp_server.hpp:181-203 | is the completion step: recycles, then writes on or closes |
| `Channels.TcpChannel.NetworkTakes` | include/librim/tcp_server.hpp:179-181 | the network reads the next bytes of the gather list from the vectors |
| `TcpClients.TcpClient.Send` | include/librim/tcp_client.hpp:165-195 | refused without effect exactly if the handshake is not done or the socket closed; otherwise logged once, or left spinning on an empty pool |
| `TcpClients.TcpClient.Close` | include/librim/tcp_client.hpp:200-214 | closes the socket and clears the flag, even on a socket already closed |
| `TcpClients.TcpClient.OnWriteComplete` | include/librim/tcp_client.hpp:236-258 | is the completion step; a failure also clears the flag |
| `UdpChannels.UdpChannel.SendTo` | include/librim/udp_endpoint.hpp:231-259 | refused without effect on a closed socket; left spinning on an empty pool; otherwise logs one datagram with its target |
| `UdpChannels.UdpChannel.Retry` | include/librim/udp_endpoint.hpp:236-259 | one more look at the pool by a spinning thread |
| `UdpChannels.UdpChannel.RunPosted` | include/librim/udp_endpoint.hpp:250-257 | is the strand's step |
| `UdpChannels.UdpChannel.DoWrite` | include/librim/udp_endpoint.hpp:283-289 | sends the front item to that item's target |
| `UdpChannels.UdpChannel.NetworkTakes` | include/librim/udp_endpoint.hpp:287-288 | the datagram put on the wire is the oldest one posted and not recycled, though item and target were overwritten in place |
| `UdpChannels.UdpChannel.RecycleFront` | include/librim/udp_endpoint.hpp:290-298 | the front item leaves the ring and returns to the pool unless refused |
| `UdpChannels.UdpChannel.OnSendComplete` | include/librim/udp_endpoint.hpp:289-308 | is the completion step for one item |
| `RimLog.ReadBackExact` | include/librim/async_logger.hpp:128-131 | a big-endian field gives its value back if and only if the value fits |
| `RimLog.NetworkOrder` | include/librim/async_logger.hpp:129-131 | byte `i` of a field of any width is the one of weight 256^(width - 1 - i) |
| `RimLog.WordLayout` | include/librim/async_logger.hpp:129-130 | the four bytes of a 32-bit field, weighted from the first on, are the value |
| `RimLog.DecodedIsEncoding` | include/librim/async_logger.hpp:28-33 | bytes that decode are the encoding of what they decode to |
| `RimLog.LengthCastIsExact` | include/librim/async_logger.hpp:130-130 | a record survives if and only if its length survives the cast to 32 bits |
| `AsyncLog.InvariantStep` | include/librim/async_logger.hpp:118-190 | every step of producers, worker and destructor keeps contents, bounds and counts |
| `AsyncLog.Accounting` | include/librim/async_logger.hpp:139-188 | both buffers stay within the capacity, every swap hands over an empty buffer, and calls = accepted + dropped + in progress |
| `AsyncLog.DropsAreExact` | include/librim/async_logger.hpp:139-148 | a record is dropped exactly if it does not fit behind what waits, and then leaves no byte |
| `LoggerClass.AsyncLogger.Log` | include/librim/async_logger.hpp:118-149 | ignored when stopped or empty; otherwise the producer's two steps, appending header and payload or counting a drop |
| `LoggerClass.AsyncLogger.EnterLog` | include/librim/async_logger.hpp:118-124 | ignored when stopped or empty; otherwise the producer's step before the lock |
| `LoggerClass.AsyncLogger.CommitLog` | include/librim/async_logger.hpp:127-149 | the producer's step under the lock: header and payload appended, or a drop counted and nothing appended |
| `LoggerClass.AsyncLogger.SwapBuffers` | include/librim/async_logger.hpp:165-173 | is the swap step and leaves the producers an empty buffer |
| `LoggerClass.AsyncLogger.FlushStolen` | include/librim/async_logger.hpp:177-188 | the stolen bytes are appended to the file once |
| `LoggerClass.AsyncLogger.ProcessLoop` | include/librim/async_logger.hpp:159-190 | over any number of turns, with calls of any threads interleaved before the worker wakes up and between its swap and its write: each event and each turn happens as the machine says, and file and active buffer are the old file and every accepted record in lock order |
| `LoggerClass.AsyncLogger.Shutdown` | include/librim/async_logger.hpp:82-99 | wherever the worker is and whatever calls are in progress when the destructor starts, the worker runs to its end, every call still in progress is dealt with, and the file ends up with the old contents and every accepted record |
| `Lifecycle.CloseTakesEffect` | include/librim/tcp_server.hpp:142-159 | a close that runs, queued by a user or inline in a handler, leaves the socket closed; the first finds the object alive and its cause is recorded, later ones change nothing |
| `Lifecycle.InlineOvertakes` | include/librim/tcp_server.hpp:142-159 | the close of a handler overtakes those still queued: its cause stays the recorded one in every continuation |
| `Lifecycle.DestroyIsExact` | include/librim/tcp_server.hpp:142-159 | an object goes exactly when its callback has run and as many references have been given up as were made, the acceptor's included |
| `Lifecycle.DestroyedIsClosed` | include/librim/tcp_server.hpp:414-418 | an open connection is never destroyed |
| `TcpServers.TcpServer.Accept` | include/librim/tcp_server.hpp:412-424 | the new open connection joins the live set and the books, nothing else changes |
| `TcpServers.TcpServer.OnDisconnect` | include/librim/tcp_server.hpp:414-418 | restores the exactness of the live set after a close |
| `TcpServers.TcpServer.CloseConnection` | include/librim/tcp_server.hpp:142-159 | a close that finds the socket open takes the connection out of the live set and runs its callback; any other changes nothing |
| `TcpServers.TcpServer.OnWriteComplete` | include/librim/tcp_server.hpp:181-203 | a failed write closes the connection like any other close; a successful one leaves the books alone |
| `TcpServers.AcceptSimulates` | include/librim/tcp_server.hpp:412-424 | the accept handler is two steps of `Lifecycle`, making the connection and inserting it |
| `TcpServers.CloseSimulates` | include/librim/tcp_server.hpp:142-159 | a handler's close, whatever its cause, is the inline close of `Lifecycle` and, if the socket was open, the callback that ends it |
| `TcpServers.TcpServer.Broadcast` | include/librim/tcp_server.hpp:370-385 | posts the message once on every live connection up to one whose pool is empty, where it spins with the rest untouched |
| `TcpServers.TcpServer.ResumeBroadcast` | include/librim/tcp_server.hpp:370-385 | goes on from there once a buffer is back: posts once on every remaining connection that is still open, none on those closed meanwhile |
| `Broadcast.OpenConnectionsGetAll` | include/librim/tcp_server.hpp:370-385 | two broadcasts the thread is through with stand in broadcast order in the log of a connection that got both and is still open |
| `BroadcastProgress.BroadcasterIsExact` | include/librim/tcp_server.hpp:370-385 | at an item the broadcaster calls `send` exactly if the connection is open and is refused exactly if not; it returns exactly when its thread is through |
| `BlockedBroadcast.RestIsCutOff` | include/librim/tcp_server.hpp:381-384 | once a broadcast cannot go on, no later item of it is ever accepted by any connection, open or not |
| `BlockedBroadcast.BlockingHappens` | include/librim/tcp_server.hpp:370-385 | a run to such a state from the start, with every other connection open |
| `ReadLoop.ReadMovesDeadline` | include/librim/tcp_server.hpp:274-285 | after a read the wait can end exactly when the timeout has passed since that read |

The specification functions behind these rows follow the same lines: `SendPipeline.Apply` is the send path
(tcp_server.hpp:109-203, tcp_client.hpp:165-259, udp_endpoint.hpp:231-308), `Framing.Parse` and `Framing.Feed`
the receive path (tcp_server.hpp:209-276), `AsyncLog.Apply` the logger (async_logger.hpp:82-190),
`Lifecycle.Apply` accept and close (tcp_server.hpp:142-159, 406-433), `ReadLoop.Apply` reads and timer
(tcp_server.hpp:97-101, 209-294, tcp_client.hpp:121-154, 200-214, 264-350).

## Left out

- TcpServers.TcpServer.CloseConnection: a close queued by a user off the strand is `RunClose` in `Lifecycle`; to the server it is the same lambda.
- TcpServers.TcpServer.Broadcast: other handlers run between its calls only where it spins; arbitrary interleavings are in module `Broadcast`.
- FrameReceiver.StreamReceiver.ProcessBuffer: counts how often the timer is armed; what the timer does is in `ReadLoop`.
- LoggerClass.AsyncLogger.Shutdown: whether a sleeping worker wakes up at all is not claimed, since `running_` is cleared without the mutex.
- AsyncLog.FileHoldsWholeRecords: file writes succeed and no `log` call outlives the destructor.
- The two halves of `TcpConnection` and `TcpClient`, receiving and sending, are separate classes here; they share only the socket.
- Progress.PoolRefills: lets the strand run its handlers, so it is not about a callback that sends; `Starvation.CallbackSendsAreExact` is.
- Batching.LockStepUntilFailure: ends with the first failed write, for the reason `LockStep.LockStepEndsAtFailure` shows; `Gathering` covers all runs.
- Boost.ASIO, sockets, name resolution, multicast, the thread pool, spdlog, file names and clocks: foreign calls, reduced to the assumptions above.
- `expected`, `Factory` and `RimApplication`: wiring without state of its own.
- `UdpEndpoint` destruction and its receive chain, reconnecting a client, `size_t` overflow of the drop counter, struct padding and C++ memory orderings.
