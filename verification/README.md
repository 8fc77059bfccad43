# WebSocketCpp: a verified model

WebSocketCpp is a small WebSocket server and client library in C++. This project models how it turns bytes into
messages, and proves properties of the model with Dafny. `dafny verify dfyconfig.toml` checks everything.

The model has seven parts.

- **Threads and slots** (`SlotProtocol`, `SlotControl`, `SlotSockets`, `SlotBuffers`, `SlotBytes`, `SlotTheorems`,
  `SlotDescriptors`, `SlotProgress`, `SlotEvents`, `SlotLeaving`, `SlotDelivery`, `ServerSocket`). A reactor accepts, reads and closes; one worker
  per slot drains a queue of tasks; a request thread parses and dispatches. Every atomic action of every thread is a
  step of one transition system, with a program counter per thread, the open descriptors, the pool's regions and
  bytes, and the real request queue. The theorems hold for every interleaving: clients stay isolated when slots and
  descriptors are reused, each buffer has one holder, callbacks come in order, no wakeup is lost, the reactor gets
  back to its events, what was read is delivered, and a client that goes away is disconnected and its slot freed.
- **The server's stream** (`RequestQueue`, `ClientStream`, `WebSocketServer`, `ServerRuns`, `Exchange`). Bytes arrive
  in any pieces and are parsed whenever the request thread gets to it. What is dispatched is always an in-order,
  exactly-once prefix of what was sent, and all of it after two passes. The library's own client is one such sender.
  A run is safe if every parse stays within its buffer; the theorems are about safe runs, and it is proved which
  runs are.
- **Frames** (`Frame`, `RequestWebSocket`): the encoder and decoder of sections 5.2 and 5.3 of RFC 6455.
- **The memory pool** (`MemoryPool`): first fit over a sorted vector of regions, as steps on sets of byte intervals.
- **SHA-1 and Base64** (`Sha1Spec`, `Sha1Words`, `Sha1`, `Base64`): 64-bit registers against the 32-bit definition of
  FIPS 180-4, and the codec of section 4 of RFC 4648.
- **Routes** (`Route`, `RouteMatching`, `RouteCompiler`, `RoutePrinting`, `RouteTypes`, `RouteOptional`): the pattern compiler
  and the greedy matcher against a declarative meaning.
- **HTTP text and the handshake** (`StringUtil`, `HttpHeader`, `HttpHeaderText`, `Request`, `RequestText`, `Numbers`,
  `Response`, `ResponseText`, `Handshake`, `HandshakeAnswers`, `WireText`): parsing that resumes, print and parse,
  chunked bodies, the agreement of the library's client with its server, and the exact texts both send.

Code that works step by step is a method over fields or arrays, proved equal to a function of the old state; the
theorems are about those functions. Bytes are 8-bit vectors, offsets stand for pointers, `size_t` and `uint16_t`
arithmetic wraps where the source's can.

## Where the code does something else than its documentation

- The repository's README.md puts variables into optional parts, as in `/ws[/{user}/]`. The compiler gives up at the
  closing bracket of such a part (`RoutePrinting.BracketsHoldTextOnly`), the constructor ignores that, and the text
  between the variable and the bracket is never matched (`RoutePrinting.BracketedVariableIsCut`,
  `RouteOptional.CutPatternMatches`).
- It also lets `*` stand for any value of any length. A wildcard stops at the first place where the next token
  matches and does not go back (`RouteMatching.WildcardStopsAtFirst`). Nor does an optional text: it is taken wherever it
  stands (`RouteOptional.BracketedMatchIsExact`).
- A client that has sent a single byte when `CheckData` runs sends the search for a line break past the end of the
  buffer, because its bound is unsigned: exactly then (`ServerRuns.CheckIsSafe`, `ServerRuns.OneByteLeavesTheBuffer`).
  The client does the same on an answer of which it has read one to three bytes (`Handshake.OneReadDecides`).
- Section 5.5 of RFC 6455 allows control frames without a payload, and section 5.4 messages in fragments. A frame that
  is empty, has no FIN bit or is over a limit never parses, and since parsing starts at it again, the stream behind it
  stalls for good, exactly then (`ServerRuns.StreamStalls`, `Frame.RefusedFrames`).
- A handshake answer that could not be written is not retried on its own (`ServerRuns.FailedAnswerIsNotRetried`). An
  answer that refuses the handshake completes it for the server (`Exchange.RefusedIsStillServed`).
- The client takes an answer only if one read delivers exactly the answer (`Handshake.OneReadDecides`).
- A response for a slot is written to a descriptor that may be another client's by then: the reactor closes a
  descriptor before the worker stores `m_fd = -1` (`SlotDescriptors.TwoSlotsOneDescriptor`), and `SlotDescriptors.AnswerReaches`
  says exactly when it is not.
- `SetHeader` on an existing name changes nothing (`HttpHeader.SetKeepsOthers`).
- A chunk that claims more data than there is ends the decoding, and `Response::Parse` still returns true
  (`ResponseText.OverlongChunkIsSilent`).
- The client takes a status code modulo 65536 (`ResponseText.StatusRoundTrip`), and refuses an answer that announces a
  body (`HandshakeAnswers.AnswerIsJudged`).
- A read that would block never gives its buffer back (`SlotTheorems.BlockedReadLeaks`).

## Model

| member | source | states |
|---|---|---|
| `SlotTheorems.ClientsGetTheirOwnMessages` | src/utils/ServerSocket.cpp:650-741 | From end to end, on every interleaving of reactor, workers and request thread: what is dispatched for a connection is a prefix of the messages its own client sent, even when the slot had other clients before. |
| `SlotTheorems.Isolation` | src/utils/ServerSocket.cpp:700-741 | While a connection has an entry in the queue, its slot holds a socket, the entry is exactly where a prefix of the bytes read from that socket puts it, and its dispatched messages are a prefix of the messages in those bytes. |
| `SlotDescriptors.SocketsAreDistinct` | src/utils/ServerSocket.cpp:370-413 | Slots in use have sockets of different accepts, and their descriptors differ as long as the reactor has not closed them. |
| `SlotDescriptors.TwoSlotsOneDescriptor` | src/utils/ServerSocket.cpp:347-365 | Two slots can hold one descriptor number: the first is closed and its worker has not stored `m_fd = -1` when the number is accepted again. What is then written for the first slot goes to the second slot's client. |
| `SlotDescriptors.AnswerReaches` | src/utils/ServerSocket.cpp:221-265 | What `Write` sends on a descriptor it looked up for a slot earlier reaches the client the slot had then exactly when the slot still has that client and the reactor has not closed its descriptor. |
| `SlotDescriptors.NoDescriptorLeaks` | src/utils/ServerSocket.cpp:467-485 | A descriptor is open exactly while the slot that is watched for it, or the reactor that has just accepted it, keeps it, under the socket it stands for. |
| `SlotSockets.SocketsStep` | src/utils/ServerSocket.cpp:370-485 | Every step keeps sockets of different accepts apart and every open descriptor with its owner. |
| `SlotTheorems.CallbacksGetWhatWasRead` | src/utils/ServerSocket.cpp:415-465 | The bytes handed to `OnData` since the last `OnConnect` are a prefix of the bytes read from the slot's socket, whatever other buffers the pool holds. |
| `SlotTheorems.CallbacksInOrder` | src/utils/ServerSocket.cpp:700-741 | The callbacks of a slot are a prefix of (connect data* disconnect)*, each with the slot's own index. |
| `SlotTheorems.OneWorkerAtATime` | src/utils/ServerSocket.cpp:694-698 | At most one worker of a slot is running, and it is the one the slot can join. |
| `SlotTheorems.OldWorkerStopsFirst` | src/utils/ServerSocket.cpp:719-729 | A worker about to clear `m_running` does so while the slot is free and the reactor is no further than the `join`, so it can never clear the flag of its successor. |
| `SlotTheorems.JoinIsShort` | src/utils/ServerSocket.cpp:650-663 | When the reactor waits in `join`, the worker it waits for has at most two stores left and no callback, so the reactor is never stuck behind one. |
| `SlotProgress.ReactorComesBack` | src/utils/ServerSocket.cpp:310-368 | Whatever the other threads do, the reactor is back at its events after at most as many steps, its own and those of a worker it joins, as there are slots, and nine. |
| `SlotProgress.ReactorIsNeverStuck` | src/utils/ServerSocket.cpp:310-368 | From every reachable state the reactor can be brought back to its events, within that bound. |
| `SlotProgress.StepBrings` | src/utils/ServerSocket.cpp:650-663 | While the reactor is busy its own steps and those of a worker it joins bring it nearer to its next event, and no other step takes it further away. |
| `SlotTheorems.ReassignedSlotIsClean` | src/utils/ServerSocket.cpp:650-663 | A slot that is being reassigned has no queued task, no running worker, no entry in the request queue, no dispatched message and a socket nothing was read from. |
| `SlotTheorems.BuffersAreOwned` | src/utils/ServerSocket.cpp:415-465 | Every live pool region has exactly one holder (reactor, one queued task, one worker, or a blocked read), only live regions are held, and regions do not overlap. |
| `SlotTheorems.BlockedReadLeaks` | src/utils/ServerSocket.cpp:455-462 | A read that would block loses its buffer: however the run goes on, the region stays live and nobody but the leak ever holds it again. |
| `SlotEvents.EndCloses` | src/utils/ServerSocket.cpp:345-357 | From every reachable state: when a read reports the end of the stream or an error, three steps of the reactor later it is idle, the slot's descriptor is closed and no longer watched, a disconnection stands behind the slot's other tasks, the buffer is free, no other buffer is, and nothing else has changed. |
| `SlotEvents.HangUpCloses` | src/utils/ServerSocket.cpp:353-357 | A hang-up closes the slot in the same way, and takes no buffer. |
| `SlotEvents.ReadableReads` | src/utils/ServerSocket.cpp:415-424 | For data that epoll reports the reactor takes the least buffer that is free and reads into it; with the pool exhausted it closes the slot. |
| `SlotEvents.BytesAreSubmitted` | src/utils/ServerSocket.cpp:442-446 | Bytes that were read are queued for the slot in the buffer they were read into, count as read from its own client, and nothing else changes. |
| `SlotEvents.BlockedReadLosesBuffer` | src/utils/ServerSocket.cpp:452-462 | A read that would block changes nothing but that its buffer is lost. |
| `SlotLeaving.ClosedClientIsDisconnected` | src/utils/ServerSocket.cpp:445-465 | From every reachable state in which a read reports the end of the stream there is a way on that ends with every byte that was read handed on, `OnDisconnect` as the last callback and `m_fd` at -1. |
| `SlotLeaving.WorkerFreesSlot` | src/utils/ServerSocket.cpp:700-741 | The worker of a closed slot, running on by itself, hands on every byte that was read, calls `OnDisconnect` last and frees the slot. |
| `SlotLeaving.SlotIsFreedInTime` | src/utils/ServerSocket.cpp:700-741 | Whatever the other threads do, it is through after at most seven steps for each queued task, and six. |
| `SlotTheorems.NoLostWakeup` | src/WebSocketServer.cpp:234-263 | While the request thread waits and some entry holds data, the signal is pending or some worker is still between `PutToQueue` and `SendSignal`. |
| `SlotTheorems.WakesOnSignal` | src/WebSocketServer.cpp:251-263 | The other way round: once it waits and no signal is pending, the request thread stays where it is until some worker sends one. |
| `SlotTheorems.EveryStateIsGood` | src/utils/ServerSocket.cpp:310-465 | Control, buffer, socket, byte, queue and wakeup invariants hold in every reachable state. |
| `SlotControl.ControlStep` | src/utils/ServerSocket.cpp:650-741 | Every step of every thread keeps the control invariant of every slot. |
| `SlotControl.VacantReacts` | src/utils/ServerSocket.cpp:650-663 | The reactor's steps on a free slot: join, then store the socket. |
| `SlotControl.OccupiedReacts` | src/utils/ServerSocket.cpp:650-692 | The reactor's steps on a slot in use, from `Assign` to `Disconnect`. |
| `SlotControl.VacantWorks` | src/utils/ServerSocket.cpp:721-729 | The last steps of a worker whose slot is already free. |
| `SlotControl.OccupiedWorks` | src/utils/ServerSocket.cpp:700-741 | The steps of a worker during a session, up to `m_fd = -1`. |
| `SlotControl.WorkerHangsUp` | src/utils/ServerSocket.cpp:719-729 | After `OnDisconnect` nothing is queued any more and the reactor is not at the slot. |
| `SlotControl.EventIsOpen` | src/utils/ServerSocket.cpp:310-368 | Only a slot in an open session is reported by epoll, under the socket it holds. |
| `SlotBuffers.BuffersStep` | src/wrappers/posix/MemoryPool.cpp:15-64 | Every step keeps the balance between live regions and holders. |
| `SlotBuffers.ExactlyOneHolder` | src/utils/ServerSocket.cpp:665-735 | In a balanced state a region is live exactly when somebody holds it, and no two places hold it. |
| `SlotBuffers.WorkShare` | src/utils/ServerSocket.cpp:730-735 | A worker's step changes what its slot holds only by freeing. |
| `SlotBuffers.ReactShare` | src/utils/ServerSocket.cpp:665-670 | A reactor's step changes what its slot holds only by submitting. |
| `SlotBytes.IntegrityStep` | src/utils/ServerSocket.cpp:415-465 | Every step keeps, for every slot, bytes read = bytes delivered + bytes in hand + bytes queued + bytes being submitted, in order. |
| `SlotBytes.NotOurs` | src/utils/ServerSocket.cpp:437-453 | The region the reactor reads into is apart from every other buffer. |
| `SlotBytes.WorkKeepsTotal` | src/utils/ServerSocket.cpp:700-741 | A worker's step moves bytes towards the callbacks and loses none. |
| `SlotBytes.ReactKeepsTotal` | src/utils/ServerSocket.cpp:665-692 | A reactor's push keeps the bytes in their order. |
| `SlotTheorems.QueueStep` | src/WebSocketServer.cpp:187-206 | Every step keeps each queue entry in agreement with the callbacks of its slot. |
| `SlotTheorems.WakeupStep` | src/WebSocketServer.cpp:251-263 | Every step keeps the wakeup invariant. |
| `SlotTheorems.WakeupWork` | src/WebSocketServer.cpp:187-191 | A worker's step keeps it: bytes come with the promise of a signal, and the promise is kept by sending it. |
| `SlotDelivery.Refines` | src/WebSocketServer.cpp:187-428 | With all threads running the queue, what each client has sent, what was dispatched for it and where the request thread stands are those after a run of `ServerRuns`: every check is safe and in the order of `RequestThread`. |
| `SlotDelivery.HandedOnIsDelivered` | src/WebSocketServer.cpp:234-249 | Once what a client sent has been handed to `OnData`, two checks of the request thread, with the processing they ask for, dispatch exactly the messages in it. |
| `SlotDelivery.ClientsGetAllTheirMessages` | src/utils/ServerSocket.cpp:415-465 | From the socket to the dispatched messages, past every thread: if a client's request and frames were read and its slot has settled, exactly its messages are dispatched. |
| `SlotDelivery.PassIsServed` | src/WebSocketServer.cpp:234-249 | The steps of the request thread from one look for data to the next do to the queue, the signal and the dispatched messages what one pass of its loop does. |
| `ServerSocket.Connection.Assign` | src/utils/ServerSocket.cpp:650-663 | Run without interruption, `Assign` does what its steps do in turn. |
| `SlotControl.OccupiedPushes` | src/utils/ServerSocket.cpp:665-692 | A task pushed by `Assign`, `Submit` or `Disconnect` stands where it was announced: what a slot still has to call back stays connect, data, disconnect in that order. |
| `ServerSocket.Connection.Turn` | src/utils/ServerSocket.cpp:700-741 | One turn of the worker's loop does what its steps do in turn, for every kind of task. |
| `ServerSocket.FindFreeConnection` | src/utils/ServerSocket.cpp:402-413 | The first free slot, or -1. |
| `ServerSocket.ScanFindsFirst` | src/utils/ServerSocket.cpp:370-413 | The scan, one slot at a time, ends at the first free slot, which epoll then watches for the new socket, or gives the socket up. |
| `ServerRuns.DispatchedIsPrefix` | src/WebSocketServer.cpp:265-400 | For every order of critical sections and every cutting of the bytes in which no check meets a client with a single byte sent, what has been dispatched for a connection is an in-order, exactly-once prefix of the messages in the bytes sent so far. |
| `ServerRuns.ChunkingDoesNotMatter` | src/WebSocketServer.cpp:294-400 | If a client sends a printed opening request and FIN frames with payloads within the limits, nothing but those messages is dispatched, in order, each at most once, in every safe run. |
| `ServerRuns.TwoPassesDeliver` | src/WebSocketServer.cpp:234-249 | Once a client has stopped sending and its answer could be written, two checks of the request thread with the processing they ask for deliver everything it sent, in every safe run. |
| `ServerRuns.AllDelivered` | src/WebSocketServer.cpp:234-249 | The same for a client's request and frames: exactly its messages. |
| `ServerRuns.EntriesTrackStreams` | src/WebSocketServer.cpp:284-428 | At every point of every run the queue has at most one entry per connection, and each entry is where its client's bytes put it. |
| `ServerRuns.AgreesAfter` | src/WebSocketServer.cpp:265-428 | Each critical section keeps that agreement for every connection. |
| `ServerRuns.MessagesOfClient` | src/RequestWebSocket.cpp:170-243 | A stream of a printed request and encoded frames holds exactly the payloads that were encoded. |
| `ServerRuns.StreamStalls` | src/RequestWebSocket.cpp:70-130 | A frame stalls the stream for good, whatever is sent behind it, exactly when it has no FIN bit, is empty or is over a limit; its header tells. |
| `ServerRuns.UnacceptableFrameStalls` | src/WebSocketServer.cpp:341-358 | Once a complete frame is in and two passes have run, it and all behind it are missing from what was dispatched exactly when it is such a frame. |
| `ServerRuns.NothingBehindRefused` | src/WebSocketServer.cpp:341-358 | In no safe run is anything dispatched beyond the frames before it. |
| `Frame.HeaderDecides` | src/RequestWebSocket.cpp:24-130 | A frame with a given header parses exactly when it is complete, has the FIN bit, is not empty and is within both limits. |
| `Frame.RefusedFrames` | src/RequestWebSocket.cpp:70-130 | Every fragment without FIN is refused; of whole frames, exactly the empty ones and those over a limit. |
| `Exchange.ClientReachesServer` | src/WebSocketClient.cpp:46-170 | From the client's `Open` and `Send`s to the server's dispatched messages, for every path without a query, key and list of messages within the limits, in every safe run. |
| `Exchange.ExchangeHappens` | src/WebSocketServer.cpp:234-249 | Runs as that theorem needs them, safe ones, exist for every client. |
| `Exchange.RoutesDecide` | src/WebSocketServer.cpp:430-482 | From the text of the route patterns to the client's state: with default processing on and no callbacks, the handshake completes exactly when the path asked for can be rendered from one of the patterns. |
| `Exchange.RefusedIsStillServed` | src/WebSocketServer.cpp:367-373 | A refusal completes the handshake for the server: the client has closed, and every message it had sent is still dispatched. |
| `Exchange.ClientRequestOpens` | src/WebSocketClient.cpp:82-90 | The client's own request announces no body, so the server takes off exactly what was printed. |
| `ServerRuns.CheckIsSafe` | src/utils/StringUtil.cpp:22-28 | `CheckData` stays within its buffers exactly when no client has sent exactly one byte. |
| `ServerRuns.SafeExactly` | src/utils/StringUtil.cpp:22-28 | So a run is safe exactly when no check of it meets such a client. |
| `ServerRuns.OneByteLeavesTheBuffer` | src/utils/StringUtil.cpp:22-28 | The smallest run that is not safe: one byte, then a check. |
| `ServerRuns.FailedAnswerIsNotRetried` | src/WebSocketServer.cpp:294-319 | However long the request thread goes on: as long as no check finds news of another connection, a handshake answer that could not be written is never tried again, and the thread does not even wait. |
| `ServerRuns.NothingBeforeTheAnswer` | src/WebSocketServer.cpp:360-400 | In no run is anything dispatched for a connection before an answer of it could be written. |
| `ServerRuns.AnsweredIfWritten` | src/WebSocketServer.cpp:367-373 | Processing an unanswered entry completes its handshake exactly if the answer is written, and changes nothing about it otherwise. |
| `ServerRuns.RequestIsTheClients` | src/WebSocketServer.cpp:321-339 | What waits to be answered is the opening request of the client's own bytes, as a `WEBSOCKET` request, in every run. |
| `Exchange.ServerAnswersTheClient` | src/WebSocketServer.cpp:321-339 | For the library's own client it is that client's request, with its path and key, whatever was sent behind it. |
| `ServerRuns.NotDueNotReady` | src/WebSocketServer.cpp:234-249 | Between two passes of the request thread nothing is left to dispatch for a connection whose answers are written. |
| `ServerRuns.PassesAdvance` | src/WebSocketServer.cpp:294-400 | Every check and every processing moves a quiet connection forward, and nothing moves it back. |
| `ClientStream.FramesExtend` | src/WebSocketServer.cpp:341-358 | Parsing a longer buffer gives the frames of the shorter one first, then those of what was left and the rest. |
| `ClientStream.MessagesExtend` | src/WebSocketServer.cpp:294-358 | More bytes only ever add messages at the end. |
| `ClientStream.TracksPut` | src/WebSocketServer.cpp:265-276 | `PutToQueue` keeps an entry where its stream puts it. |
| `ClientStream.TracksHeader` | src/WebSocketServer.cpp:321-339 | `CheckWsHeader` makes an entry ready exactly when the stream holds a whole opening request. |
| `ClientStream.TracksFrames` | src/WebSocketServer.cpp:341-358 | The loop over `CheckWsFrame` takes in every frame that is there, and makes the entry ready exactly when there was one. |
| `ClientStream.TracksProcess` | src/WebSocketServer.cpp:360-400 | `ProcessRequests` hands out the listed messages once and in order. |
| `ClientStream.TracksPrefix` | src/WebSocketServer.cpp:360-400 | What has been handed out is a prefix of what the stream holds. |
| `ClientStream.WaitingIsParsable` | src/utils/StringUtil.cpp:28 | A request that waits for its header has at least four bytes buffered. |
| `RequestQueue.ViewPut` | src/WebSocketServer.cpp:265-276 | `PutToQueue` changes one connection's entry and no other. |
| `RequestQueue.ViewInit` | src/WebSocketServer.cpp:284-292 | `InitConnection` adds an entry only where there is none. |
| `RequestQueue.ViewRemove` | src/WebSocketServer.cpp:416-428 | `RemoveFromQueue` takes out one connection's entry and no other. |
| `RequestQueue.ViewCheck` | src/WebSocketServer.cpp:294-319 | `CheckData` treats every connection on its own. |
| `RequestQueue.ViewProcess` | src/WebSocketServer.cpp:360-400 | `ProcessRequests` treats every connection on its own. |
| `RequestQueue.ViewDispatch` | src/WebSocketServer.cpp:375-396 | The calls made for a connection are its own listed messages. |
| `WebSocketServer.WebSocketServer.PutToQueue` | src/WebSocketServer.cpp:265-276 | The bytes go to the first entry of the connection; without one nothing changes. |
| `WebSocketServer.WebSocketServer.InitConnection` | src/WebSocketServer.cpp:284-292 | A fresh entry, unless there is one. |
| `WebSocketServer.WebSocketServer.RemoveFromQueue` | src/WebSocketServer.cpp:416-428 | The first entry of the connection goes. |
| `WebSocketServer.WebSocketServer.HasData` | src/WebSocketServer.cpp:402-414 | True exactly when some entry holds bytes or is ready. |
| `WebSocketServer.WebSocketServer.CheckData` | src/WebSocketServer.cpp:294-319 | Every entry is checked, and the answer says whether one became ready. |
| `WebSocketServer.WebSocketServer.CheckWsHeader` | src/WebSocketServer.cpp:321-339 | The opening request is parsed on and, when whole, taken off the buffer. |
| `WebSocketServer.WebSocketServer.CheckWsFrame` | src/WebSocketServer.cpp:341-358 | One frame is taken off the buffer and listed, exactly when one parses. |
| `WebSocketServer.WebSocketServer.ProcessRequests` | src/WebSocketServer.cpp:360-400 | Handshakes are answered and listed messages handed out, in order, and the entries updated. |
| `WebSocketServer.WebSocketServer.Pass` | src/WebSocketServer.cpp:234-249 | The body of the request thread's loop: it waits only where no entry holds anything, checks every entry, and processes exactly when one became ready. |
| `WebSocketServer.WebSocketServer.DispatchFinal` | src/WebSocketServer.cpp:377-391 | The loop that erases while it iterates hands out the final messages and keeps the others. |
| `Frame.FrameRoundTrip` | src/RequestWebSocket.cpp:15-138 | Parsing what was sent, with anything behind it, gives back opcode, payload and size exactly when the payload is not empty and within the limits. |
| `Frame.UnmaskedRoundTrip` | src/RequestWebSocket.cpp:15-138 | The same for frames without a mask, which the server takes as well. |
| `Frame.HelloIsSpelled` | src/RequestWebSocket.cpp:170-243 | The examples of section 5.7 of RFC 6455: `Hello` in one frame, with and without a mask, byte for byte. |
| `Frame.LongHeadsAreSpelled` | src/RequestWebSocket.cpp:24-68 | The other examples there: the heads of 256 and of 65536 bytes, byte for byte. |
| `Frame.PrefixDoesNotParse` | src/RequestWebSocket.cpp:15-138 | No proper prefix of a sent frame parses. |
| `Frame.MoreBytesSameFrame` | src/RequestWebSocket.cpp:15-138 | A frame that parses stays the same frame when more bytes follow. |
| `Frame.HeadFields` | src/RequestWebSocket.cpp:24-68 | What the decoder reads from an encoded head, for all three length forms. |
| `Frame.MaskTwice` | src/RequestWebSocket.cpp:104-110 | Masking twice gives the payload back. |
| `RequestWebSocket.MirrorReads` | src/RequestWebSocket.cpp:37-62 | Copying length bytes backwards into a union reads them in network order. |
| `RequestWebSocket.RequestWebSocket.Parse` | src/RequestWebSocket.cpp:15-138 | Everything `Parse` changes, in every outcome; the payload buffer only grows by a whole frame. |
| `RequestWebSocket.RequestWebSocket.Send` | src/RequestWebSocket.cpp:170-243 | The bytes sent are the encoded frame. |
| `RequestWebSocket.RequestWebSocket.ReadLength` | src/RequestWebSocket.cpp:24-68 | The payload length in its three forms. |
| `RequestWebSocket.RequestWebSocket.ApplyMask` | src/RequestWebSocket.cpp:104-110 | The masking loop. |
| `MemoryPool.RunsRefineIntervals` | src/wrappers/posix/MemoryPool.cpp:15-64 | Over every run of calls regions stay sorted, disjoint and in bounds, and each call is a step on a set of byte intervals. |
| `MemoryPool.AllocationIsLeastFit` | src/wrappers/posix/MemoryPool.cpp:15-45 | `allocate` returns the least offset that fits, and null only for size 0 or when nothing fits. |
| `MemoryPool.FreeUndoesAllocate` | src/wrappers/posix/MemoryPool.cpp:47-64 | `free` right after `allocate` restores the region vector exactly. |
| `MemoryPool.AllocationAddsItsBytes` | src/wrappers/posix/MemoryPool.cpp:15-45 | An allocation adds exactly its bytes, which were free. |
| `MemoryPool.ReleaseReturnsItsBytes` | src/wrappers/posix/MemoryPool.cpp:47-64 | A release gives back exactly its region's bytes. |
| `MemoryPool.UsedSizeCountsBytes` | include/wrappers/posix/MemoryPool.h:55-79 | `m_used_size` counts the occupied bytes, so empty and full mean what they say. |
| `MemoryPool.Pool.Allocate` | src/wrappers/posix/MemoryPool.cpp:15-45 | The scan computes the specified allocation, and no unsigned subtraction wraps. |
| `MemoryPool.Pool.Free` | src/wrappers/posix/MemoryPool.cpp:47-64 | The scan that erases while it runs removes the one region. |
| `MemoryPool.Pool.Reset` | include/wrappers/posix/MemoryPool.h:80-85 | Everything is free again. |
| `MemoryPool.Pool.Usage` | include/wrappers/posix/MemoryPool.h:48-79 | The accessors. |
| `Sha1.Sha1.Transform` | src/utils/Sha1.cpp:151-251 | For every block and chaining value, whatever the upper halves of the 64-bit words hold, the low halves after `transform` are the compression function of section 6.1.2 of FIPS 180-4. |
| `Sha1.NextWordIsScheduled` | src/utils/Sha1.cpp:11-11 | The rolling 16-word schedule computes the 80-word one. |
| `Sha1Words.LineIsRound` | src/utils/Sha1.cpp:14-28 | A round macro with renamed registers is one round of the standard. |
| `Sha1Words.ChIsF` | src/utils/Sha1.cpp:14-19 | The boolean form of Ch is the standard's. |
| `Sha1Words.MajIsF` | src/utils/Sha1.cpp:23-25 | The boolean form of Maj is the standard's. |
| `Sha1.Sha1.Update` | src/utils/Sha1.cpp:41-54 | Any split over `update` calls hashes the same message; less than a block is carried. |
| `Sha1.Sha1.Prepare` | src/utils/Sha1.cpp:56-85 | Padding feeds exactly the padded blocks of section 5.1.1, in one or two blocks. |
| `Sha1.PadTwoBlocks` | src/utils/Sha1.cpp:73-84 | The two-block case of the padding. |
| `Sha1.Sha1.Digest` | src/utils/Sha1.cpp:105-123 | The digest is the hash of the message, and the object starts anew. |
| `Sha1.DigestOfParts` | src/utils/Sha1.cpp:41-54 | A message in any number of pieces has the digest of the whole message. |
| `Sha1.Sha1Digest` | src/utils/Data.cpp:112-117 | The digest of a string. |
| `Sha1Words.TotalBitsIsBitLength` | src/utils/Sha1.cpp:58-59 | The bit count in 64-bit arithmetic. |
| `Base64.RoundTrip` | src/utils/Data.cpp:16-110 | Decoding an encoding gives back the bytes, although the decoder fills missing sextets with 255. |
| `Base64.PaddingAtEnd` | src/utils/Data.cpp:16-58 | The length is 4 * ceil(n / 3), with padding only at the end. |
| `Base64.CapitalsAreSpelled` | src/utils/Data.cpp:6-9 | The sextets 0 to 25 are written `ABCDEFGHIJKLMNOPQRSTUVWXYZ`. |
| `Base64.SmallAreSpelled` | src/utils/Data.cpp:6-9 | The sextets 26 to 51 are written `abcdefghijklmnopqrstuvwxyz`. |
| `Base64.RestIsSpelled` | src/utils/Data.cpp:6-9 | The sextets 52 to 63 are written `0123456789+/`. |
| `Base64.Base64Encode` | src/utils/Data.cpp:16-58 | The encoder's loop computes section 4 of RFC 4648. |
| `Base64.Base64Decode` | src/utils/Data.cpp:65-110 | The decoder's loop stops at the first character outside the alphabet. |
| `RouteMatching.MatchIsSound` | src/Route.cpp:22-95 | A path that matches splits into consecutive pieces, each in its token's language or skipped where optional; every argument set is a maximal run of its class. |
| `RouteMatching.PlainMatchIsExact` | src/Route.cpp:22-95 | On plain patterns a path matches exactly when it can be rendered from the pattern. |
| `RouteMatching.RenderedPathMatches` | src/Route.cpp:22-95 | Rendering and matching gives back exactly the rendered values. |
| `RouteMatching.ReadingIsUnique` | src/Route.cpp:22-95 | A plain pattern can be read in one way only. |
| `RouteMatching.ArgumentsRoundTrip` | src/Route.cpp:82-90 | `GetArg` returns what was rendered for each variable. |
| `RouteMatching.GroupTakesThePiece` | src/Route.cpp:355-371 | A prefix-free group takes the alternative that was rendered. |
| `RouteTypes.TypedVariableTakes` | src/Route.cpp:318-435 | A variable of type `any`, `alpha`, `numeric`, `string`, `upper` or `lower`, written in any case, takes a text exactly when the text is not empty and all its characters lie in that type's ranges, and is set to it. |
| `RouteTypes.UntypedVariableTakes` | src/Route.cpp:189-203 | A variable without a type takes letters, digits, `.`, `_` and `-`, exactly. |
| `RouteTypes.GroupTakesLongest` | src/Route.cpp:355-371 | A group, in whatever order it is written and whether or not its alternatives begin with each other, takes the longest alternative the text starts with, and fails exactly when there is none. |
| `RouteMatching.WildcardStopsAtFirst` | src/Route.cpp:37-71 | A wildcard before a literal, anywhere behind a plain front, stops at the literal's first occurrence and does not go back: the path matches exactly when the rest of the pattern matches right behind it. |
| `RouteMatching.WildcardMissesRepetition` | src/Route.cpp:37-71 | So a path that repeats a last literal is missed, though it can be read. |
| `Route.Matcher.IsMatch` | src/Route.cpp:22-95 | The method is compared first; then the path is walked and its arguments set. |
| `Route.Matcher.MatchPath` | src/Route.cpp:33-94 | The loop over tokens computes the specified walk and sets its arguments, also when it fails further on. |
| `Route.Matcher.TokenIsMatch` | src/Route.cpp:293-382 | One token against a position. |
| `Route.AnyMatch` | src/WebSocketServer.cpp:436-457 | The loop over the routes finds out whether any of them takes the request. |
| `Route.Matcher.Search` | src/Route.cpp:47-60 | The inner loop of a wildcard finds the first place where the next token matches. |
| `RoutePrinting.CompilerInvertsPrinting` | src/Route.cpp:137-274 | Printing a token list in the pattern syntax and compiling it gives back exactly that list. |
| `RoutePrinting.CompiledRouteMatches` | src/Route.cpp:9-95 | From pattern to arguments: a plain pattern that was printed and compiled matches what is rendered from it. |
| `RoutePrinting.BracketsHoldTextOnly` | src/Route.cpp:152-203 | A pattern with an optional part anywhere in it compiles exactly when that part holds no variable, no group and no optional part of its own. |
| `RoutePrinting.BracketedVariableIsCut` | src/Route.cpp:162-203 | A pattern of the README's shape `/ws[/{user}/]` is cut at the closing bracket, and the text before it is lost. |
| `RouteOptional.BracketedMatchIsExact` | src/Route.cpp:22-95 | With optional literals and variables among the tokens, a path matches exactly when it can be rendered with no optional text left out where the path goes on with that very text. |
| `RouteOptional.EagerReadingMatches` | src/Route.cpp:22-95 | Matching what is rendered so gives back exactly the rendered values. |
| `RouteOptional.OptionalMayBeLeftOut` | src/Route.cpp:152-203 | From the text of a pattern `front[text]back`: with the optional text it always matches, without it exactly when `back` does not start with that text, and nothing else matches. |
| `RouteOptional.CutPatternMatches` | src/Route.cpp:9-20 | A pattern of the README's shape, which is cut but used all the same, matches the front, then perhaps the text in the brackets, then perhaps a value, and nothing else: `/ws/name/` is not matched, and `/wsname` is. |
| `RoutePrinting.BadVariableIsRefused` | src/Route.cpp:170-214 | A variable that is not closed, has no name or has another one inside makes the pattern fail, anywhere in it. |
| `RoutePrinting.UnbalancedIsRefused` | src/Route.cpp:144-274 | So does an optional part or a group that is not closed, and a bracket or brace that closes nothing. |
| `RouteCompiler.SortGroupSorts` | include/Route.h:95-104 | Sorting a group is a sorted rearrangement, and leaves a sorted group alone. |
| `RouteTypes.NoPrefixInFront` | include/Route.h:95-104 | In a sorted group no alternative stands behind a proper prefix of itself. |
| `RouteCompiler.GreaterAtFirstDifference` | include/Route.h:97-103 | Of two alternatives of one length the one with the greater character comes first. |
| `RouteCompiler.BeforeOrders` | include/Route.h:97-103 | The order of alternatives is a strict total order. |
| `RouteCompiler.PatternCompiler.Parse` | src/Route.cpp:137-274 | The loop returns what the state machine says, and leaves its tokens in either case. |
| `RouteCompiler.PatternCompiler.Feed` | src/Route.cpp:144-264 | The switch over one character. |
| `RouteCompiler.PatternCompiler.AddToken` | src/Route.cpp:276-291 | An empty token is not added; clearing one leaves its optional mark. |
| `RequestText.RequestRoundTrip` | src/Request.cpp:148-221 | Parsing a printed request gives back method, path, version and headers in order, and a size equal to the bytes printed. |
| `RequestText.NoFieldsNoRequest` | src/Request.cpp:13-36 | A request without headers is never complete. |
| `RequestText.LineRoundTrip` | src/Request.cpp:38-65 | The request line. |
| `RequestText.LineParses` | src/Request.cpp:38-65 | A request line parses with its method in any case and any target; the path is what `Url` takes out of the target. |
| `RequestText.LineNeedsThreeWords` | src/Request.cpp:38-65 | A line of another number of words is no request line, and a first word that spells no method makes it a bad one. |
| `RequestText.PathEndsAtQuery` | src/Url.cpp:132-136 | What precedes the first question mark of a target is its path. |
| `RequestText.PathEndsAtFragment` | src/Url.cpp:161-172 | Without a question mark, what precedes the first number sign is. |
| `RequestText.BodyIsCounted` | src/Request.cpp:132-136 | A body that the first Content-Length announces, in any spelling of the name, is waited for and belongs to the request. |
| `Request.Resumable` | src/Request.cpp:13-36 | Parsing a prefix first changes nothing about parsing the whole, for any bytes, neither buffer being a single byte. |
| `Request.ResumableOverManyCalls` | src/Request.cpp:13-36 | The same for any number of earlier calls on growing prefixes, none a single byte. |
| `Request.OpeningLonger` | src/Request.cpp:132-136 | A whole request stays the same request when more bytes follow. |
| `Request.Request.Parse` | src/Request.cpp:13-36 | `Parse` on the object, from any state. |
| `Request.Request.ParseRequestLine` | src/Request.cpp:38-65 | Every field the request line changes, in every outcome: an unknown method leaves the method undefined, any other failure leaves everything. |
| `Request.CompleteStays` | src/Request.cpp:132-136 | The head of a complete request lies within the buffer, and more bytes change nothing about it. |
| `Request.Request.Send` | src/Request.cpp:148-190 | The bytes written, with the headers that were added. |
| `HttpHeaderText.HeaderRoundTrip` | src/HttpHeader.cpp:13-45 | A printed header is parsed back field for field. |
| `HttpHeaderText.HeaderParses` | src/HttpHeader.cpp:102-131 | On top of fields that were there already, every printed field is set in turn. |
| `HttpHeaderText.LookupFindsFirst` | src/HttpHeader.cpp:179-190 | A lookup in a parsed header finds the value that was printed first under that name, however the name is spelled on either side. |
| `HttpHeaderText.LineReads` | src/HttpHeader.cpp:102-131 | A line is a name, a colon and a value with any blanks around both; without a name it is skipped. |
| `HttpHeaderText.LineWithoutColon` | src/HttpHeader.cpp:111-114 | A line without a colon is skipped. |
| `HttpHeaderText.NoFieldsNoHeader` | src/HttpHeader.cpp:13-29 | A header without fields is never complete. |
| `HttpHeader.SetKeepsOthers` | src/HttpHeader.cpp:148-160 | Setting a field keeps the first value of its name and every other lookup. |
| `HttpHeader.ParsedLonger` | src/HttpHeader.cpp:13-29 | Once complete, more bytes change nothing. |
| `HttpHeader.HttpHeader.Parse` | src/HttpHeader.cpp:13-29 | All fields or none. |
| `HttpHeader.HttpHeader.ParseHeaders` | src/HttpHeader.cpp:102-131 | The fields of the lines, in order. |
| `HttpHeader.HttpHeader.SetHeader` | src/HttpHeader.cpp:148-160 | An existing name changes nothing: the source assigns to a copy. |
| `HttpHeader.HttpHeader.GetHeader` | src/HttpHeader.cpp:179-190 | The value of the first field with that name, letter by letter equal or the other case; empty if there is none. |
| `HttpHeader.HttpHeader.GetBodySize` | src/HttpHeader.cpp:58-80 | The announced size, or that of the chunks. |
| `HttpHeader.HttpHeader.ToByteArray` | src/HttpHeader.cpp:37-46 | The printed header. |
| `StringUtil.SearchFindsFirst` | src/utils/StringUtil.cpp:13-47 | A search finds the first match inside its interval, or there is none. |
| `StringUtil.SearchPosition` | src/utils/StringUtil.cpp:13-47 | The search loop; the interval must have room for the pattern. |
| `StringUtil.Split` | src/utils/StringUtil.cpp:49-92 | The pieces between delimiters; nothing follows a delimiter at the very end. |
| `StringUtil.TrimTakesBlanks` | src/utils/StringUtil.cpp:236-251 | Trimming takes the blanks off both ends and nothing else. |
| `StringUtil.TrimString` | src/utils/StringUtil.cpp:236-251 | The two trimming loops. |
| `StringUtil.Compare` | src/utils/StringUtil.cpp:480-494 | Two names are the same exactly when they have the same length and at every place equal bytes, or a capital letter and the same small one, on either side. |
| `StringUtil.SameNameMeans` | src/utils/StringUtil.cpp:480-494 | Folding both names to lower case and comparing gives just that. |
| `ResponseText.ChunksRoundTrip` | src/Response.cpp:313-337 | Decoding coded chunks gives back their data, whatever line breaks it holds. |
| `ResponseText.ChunkedResponseParses` | src/Response.cpp:216-309 | A whole chunked response parses to its status line and the data of its chunks. |
| `ResponseText.LengthResponseParses` | src/Response.cpp:289-305 | A response whose first Content-Length announces a body parses exactly when as many bytes follow, and its body is those bytes. |
| `ResponseText.OverlongChunk` | src/Response.cpp:313-337 | With at most a line break behind its data, a chunk ends the decoding exactly when it announces more than there is. |
| `ResponseText.OverlongChunkIsSilent` | src/Response.cpp:261-287 | `Parse` returns true in any case; a chunk with less data than it announces is left out of the body, exactly then (unless it announces none). |
| `ResponseText.StatusRoundTrip` | src/Response.cpp:390-429 | A printed status line is parsed back, with a phrase of any number of words; of the code the low sixteen bits. |
| `ResponseText.HeadParses` | src/Response.cpp:216-248 | What a client holds after the head of a response. |
| `Response.Response.Parse` | src/Response.cpp:216-309 | `Parse` on the object; the result of the chunk decoder is ignored. |
| `Response.Response.DecodeChunks` | src/Response.cpp:313-337 | The chunk loop, every index in bounds. |
| `Response.Response.ParseStatusLine` | src/Response.cpp:390-429 | The status line. |
| `Numbers.StoiReads` | src/utils/StringUtil.cpp:253-266 | Plain digits are read as the number they write. |
| `Numbers.StoiReadsFirst` | src/utils/StringUtil.cpp:253-266 | What `std::stoi` makes of a number between blanks and anything else: sign and digits, or an exception when an `int` cannot hold it. |
| `Numbers.StoiReadsPrefixed` | src/utils/StringUtil.cpp:253-266 | In base 16, also behind `0x`. |
| `Numbers.UintReads` | src/utils/StringUtil.cpp:268-285 | What `String2uint64` makes of blanks, a sign and digits: the number, taken from 2^64 behind a minus, or nothing above that. |
| `Numbers.UintRefuses` | src/utils/StringUtil.cpp:268-285 | Anything behind the digits is refused. |
| `Numbers.ToTextReads` | src/Response.cpp:683-687 | A printed number is its digits. |
| `Handshake.HandshakeAgrees` | src/WebSocketClient.cpp:46-116 | For every key, query-free path and host, the server's 101 answer delivered in one read takes the client to `BinaryMessage` with its buffer emptied. |
| `Handshake.OneReadDecides` | src/WebSocketClient.cpp:202-270 | The client completes the handshake exactly when one read delivers exactly the answer, no part of it and nothing behind it; on one to three bytes, and only there, it leaves its buffer. |
| `HandshakeAnswers.AnswerIsJudged` | src/WebSocketClient.cpp:211-270 | For any head with any printable fields, read at once: the client completes the handshake exactly when the code is 101, the head is all the response announces, the first `Upgrade` and `Connection` values are `websocket` and `upgrade` in any case, and the first `Sec-WebSocket-Accept` value is the Base64 text whose decoding is the hash of the key and the GUID. |
| `HandshakeAnswers.UnpaddedKeyDecodes` | src/WebSocketClient.cpp:231-234 | Decoding to that hash alone is not enough: without its padding the value still does, and the client refuses it. |
| `Handshake.RefusalCloses` | src/WebSocketClient.cpp:211-270 | Any other code, up to its low sixteen bits, closes the client, whatever follows the head. |
| `Handshake.DefaultDecides` | src/WebSocketServer.cpp:430-482 | With no callback, the answer read at once completes the client's handshake exactly when some route takes the request and default processing is on. |
| `Handshake.RequestArrives` | src/WebSocketClient.cpp:75-90 | The server reads the client's key out of its request. |
| `Handshake.OpenSets` | src/WebSocketClient.cpp:82-87 | The headers of a fresh request. |
| `Handshake.WebSocketClient.Open` | src/WebSocketClient.cpp:75-116 | The bytes `Open` hands to the connection are the printed opening request. |
| `WireText.RequestOnTheWire` | src/WebSocketClient.cpp:82-90 | That request as text, line by line, for every path, host and key. |
| `WireText.AnswerOnTheWire` | src/WebSocketServer.cpp:459-475 | The server's 101 answer as text, line by line. |
| `WireText.RefusalsOnTheWire` | src/WebSocketServer.cpp:436-482 | The answers that refuse the handshake as text, line by line. |
| `Handshake.BuildAnswer` | src/WebSocketServer.cpp:459-475 | The answer's bytes. |
| `Handshake.WebSocketClient.OnDataReady` | src/WebSocketClient.cpp:202-270 | The handshake branch. |

## Left out

- Sockets, epoll, files, logging and clocks: a read is any byte sequence, a timed wait may wake at any time, a write is a success flag.
- Everything under `WITH_OPENSSL` and `WITH_ZLIB`: foreign libraries, and with them content encodings of a response body.
- Shutdown (`ServerSocket::Cleanup`, `Connection::Free`): the slot theorems are about runs before it. An exhausted pool, which also stops the reactor, may go on accepting in the model; that only adds runs.
- `ServerSocket::Write`: its loop over partial sends; the model has the descriptor it looks up and the client that descriptor stands for when it sends (`SlotDescriptors.AnswerReaches`).
- The memory ordering of the atomics: a step of `SlotProtocol` is atomic and a function of values; `ServerSocket.Connection` ties the object's methods, run without interruption, to the steps.
- `RequestData` is a value in the queue, not an object: aliasing between an entry and a request handed to a callback is not modelled.
- `ProcessWsRequest` and the callbacks themselves: a dispatched message is the end of the model; `SetArg` is modelled in the matcher only.
- The answers of route callbacks in `ProcessRequest`: whatever they write reaches the client as any other response (`Handshake.RefusalCloses`).
- What the searches read behind a buffer that is too short: `Request.Parsed` leaves a state as it is there, the theorems about runs and resumed parsing exclude it, and `ServerRuns.CheckIsSafe` says when it happens.
- Two wildcards in a row: the source reads a position that was never set, so it is a precondition of the matcher.
- The query and the fragment of a request target: `Url` decoding and encoding do not invert each other.
- `ResponseWebSocket`: its extended lengths are copied without the byte swap its own encoder applies.
- `HttpHeader::Parse` from offset 0 and negative chunk sizes: the source computes ranges outside its buffer there; both are preconditions.
- `SHA1::final`, `from_file` and the hex form of the digest: formatting around the same computation.
- The lookup tables for header types, MIME types and status phrases, and error strings.
- `Session`, `ThreadPool`, `ThreadWorker`, `Config`: repeats of the queue-and-worker pattern, and plain records.
- The sample programs, among them a small game.
