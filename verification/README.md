# Verified model of the IOCP room server

Below its Winsock calls the server is a handful of small stateful protocols. This project
models them in Dafny 4.11 and proves what the comments and documents of the repository argue
informally. `dafny verify dfyconfig.toml` checks everything.

| file | module | what it is |
|---|---|---|
| `Wire.dfy` | `Wire` | the byte format, an encoder and the reference parser |
| `RecvBuffer.dfy`, `SessionReceive.dfy` | `Receiving`, `SessionReceiving` | the receive buffer, the receive loop, and the stream theorem |
| `SendBuffer.dfy`, `ClientParser.dfy` | `Sending`, `ClientParsing` | the encoder's chunk and the client's parser |
| `ObjectPool.dfy`, `SharedChunks.dfy`, `ServiceManager.dfy`, `ChunkBooks.dfy` | `Pooling`, `SharedChunks`, `ServiceManaging`, `ChunkBooks` | pooled, shared send chunks under any number of threads, `MakeSendPacket`, and that no chunk leaks |
| `Basics.dfy`, `StepRuns.dfy` | `Basics`, `StepRuns` | facts about sequences and sets; what a run of a state machine is, shared by the state machines |
| `SendToken.dfy` | `SendToken` | the per-session send token |
| `SendMemory.dfy` | `SendMemory` | the send token over the shared chunks: which bytes the kernel is given |
| `WaitQueue.dfy` | `WaitQueue` | the accept wait queue |
| `JobQueue.dfy` | `JobDraining` | the room's job queue and the stop gate |
| `Movement.dfy`, `MoveRun.dfy` | `Movement`, `MoveRun` | where a moving user is, and one move as it is broadcast |
| `RoomSpec.dfy` | `RoomSpec` | the room as a value: every job and the tick as functions |
| `RoomBooks.dfy`, `RoomViews.dfy`, `RoomMoves.dfy`, `RoomNotices.dfy`, `RoomSpawns.dfy`, `RoomRun.dfy`, `RoomSights.dfy`, `RoomJobs.dfy` | same names | theorems about every run of the room: ids, client views, ticks and map safety, who hears what, spawn entries, one move among all jobs, what clients are told of it, and what each job does and who is a member after any jobs |
| `Packets.dfy`, `Room.dfy` | `Packets`, `Rooms` | the counted-array packets and the room object, statement by statement, proved to compute `RoomSpec` |
| `EndToEnd.dfy` | `EndToEnd` | room, send protocol, chunks and client put together |

The source's objects are Dafny classes with the source's fields, and its loops are loops. Each
method is proved equal to a function of the old state, and the theorems are about those
functions. Where threads meet, the atomic actions (one critical section, or one touch of data
outside a lock) are the steps of a state machine, and a theorem is about every interleaving of
any number of threads. In `SendToken`, `WaitQueue` and `JobDraining` each critical section is
one function: the step of the machine uses it, and the section's method in the class beside the
machine has it as its postcondition. A whole call is likewise one function: the method has it as
its postcondition, and a lemma whose name ends in `Run` gives the steps of the machine that the
call consists of and shows that they compute the same.

What the model takes from outside: which `MakeSendPacket` calls succeed (`alloc`, by call
number), the square root (`root`), the clock, the packet handler's verdict (`accepts`), and
whether the kernel takes a `WSASend` or `WSARecv`. Nothing is assumed about them except what a
theorem says in its `requires`. `Movement.Clock` is the one assumption in a type: the top bit
of `GetTickCount64` is clear.

## What the code does not do

* README.md:291 says that a spawn, too, goes through `MovePosition` first. `Enter` sends the
  stored positions. `RoomSpawns.SpawnsCurrentExactly` says exactly when these are current, and
  `RoomSpawns.StaleRun` gives a run in which they are not: somebody enters between two ticks
  while another member walks.
* The comment at RoomManager.cpp:57-58 says that raising the gate before stopping keeps late
  producers out. A producer between the gate and the push is not kept out:
  `JobDraining.AbandonedRun` is such a run, `JobDraining.AbandonedExactly` says that there is no
  other way, and `JobDraining.GateHolds` bounds how many there can be.
* TestClient/RESULTS.md:664-681 argues that the send token cannot be held twice and that the
  empty branch of `Send` is dead. Both are theorems (`SendToken.TokenExclusive`), failed sends
  included. But an immediately refused `WSASend` gives the token back without another look at
  the queue: `SendToken.StrandedExactly` and `SendToken.StrandedRun`. And a completion that
  reports failure keeps the token: `SendToken.StuckExactly` and `SendToken.StuckRun`.
* A body over 4092 bytes makes the server forget its whole buffer, while the client's parser
  goes on: `SessionReceiving.FramingExact` and `ClientParsing.ParsersAgree` are therefore
  equivalences with a condition on the announced sizes, and `SessionReceiving.OversizedRun`
  gives the streams in which the server takes the inside of such a body for a packet.

## Model

| member | source | states |
|---|---|---|
| Wire.DecodeEncoded | jhshin_Server/jhshin_Server/PacketStruct.h:41-57 | decoding undoes encoding, whatever bytes follow |
| Wire.Layout | jhshin_Server/jhshin_Server/PacketStruct.h:41-57 | kind and size, two bytes each and low byte first, then the body |
| Wire.CompleteExactly | TestClient/MoveTest.cpp:174-263 | a whole packet has arrived exactly when some packet's encoding is a beginning of the bytes |
| Wire.EncodeDecoded | TestClient/MoveTest.cpp:174-263 | encoding undoes decoding: no byte is invented or lost, and the rest is never a whole packet |
| Wire.DecodeUnique | TestClient/MoveTest.cpp:174-263 | a stream can be read as packets plus an incomplete rest in one way only |
| Wire.DecodeAppend | TestClient/MoveTest.cpp:174-263 | a stream may be cut anywhere: decoding the kept rest with what comes next gives the decoding of the whole |
| Receiving.RecvBuffer.Clear | jhshin_Server/jhshin_Server/Buffer.cpp:73-105 | compaction keeps the unread bytes, or forgets all when the header can never be satisfied; no position wraps |
| Receiving.RecvBuffer.DivideBuffer | jhshin_Server/jhshin_Server/Buffer.cpp:34-54 | true exactly when a whole packet is there; otherwise the window is open, the read position is 0, and the cached header never exceeds 4092 |
| Receiving.RecvBuffer.SetReadPos | jhshin_Server/jhshin_Server/Buffer.cpp:56-66 | consumes exactly the given bytes, or changes nothing |
| Receiving.RecvBuffer.GetWriteBufferSize | jhshin_Server/jhshin_Server/Buffer.cpp:24-27 | the window is what is left up to the capacity |
| SessionReceiving.ServeDecodes | jhshin_Server/jhshin_Server/SessionData.cpp:14-28 | one pass of the loop dispatches what the reference parser reads, and differs only on an oversized header |
| SessionReceiving.ServeAllBounded | jhshin_Server/jhshin_Server/SessionData.cpp:8-55 | between receives the buffer is never full and never holds an oversized header, and no dispatched body exceeds 4092 |
| SessionReceiving.FramingExact | jhshin_Server/jhshin_Server/SessionData.cpp:8-31 | for every cut of a stream within the window: dispatched are exactly the complete packets and buffered exactly the rest, if and only if no body exceeds 4092, neither a complete one nor one that is announced |
| SessionReceiving.OversizedRun | jhshin_Server/jhshin_Server/Buffer.cpp:73-105 | for every oversized header and every packet that fits inside its body: two chunks within the window after which the server has dispatched the inner packet, and the stream holds no complete one |
| SessionReceiving.CutIndependent | jhshin_Server/jhshin_Server/SessionData.cpp:8-31 | two cuts of one fitting stream are indistinguishable |
| SessionReceiving.SessionReceiver.DispatchPackets | jhshin_Server/jhshin_Server/SessionData.cpp:14-28 | the loop terminates, dispatches every packet up to and including the first rejected one, and succeeds exactly when none is rejected |
| SessionReceiving.SessionReceiver.Recv | jhshin_Server/jhshin_Server/SessionData.cpp:8-55 | keeps the session where the stream theorem says for as long as it is alive |
| Sending.SendBuffer.CopyBuffer | jhshin_Server/jhshin_Server/Buffer.cpp:107-131 | a packet is taken exactly when header and body fit behind what is there; the filled prefix of a chunk stays the encoding of exactly the packets copied in; a packet that does not fit changes nothing |
| Sending.SendBuffer.Reset | jhshin_Server/jhshin_Server/Buffer.h:9-73 | wipes the chunk and starts over |
| ClientParsing.Client.ParseClient | TestClient/MoveTest.cpp:174-263 | handles exactly the complete packets of its input and keeps exactly the rest, for every body size |
| ClientParsing.Client.Pump | TestClient/MoveTest.cpp:266-291 | after any cut of the stream the client is where the reference parser is |
| ClientParsing.ParsersAgree | jhshin_Server/jhshin_Server/SessionData.cpp:8-31 | client and server read the same packets from a stream, each with its own cuts, if and only if no body exceeds the server's buffer |
| ClientParsing.RoundTrip | jhshin_Server/jhshin_Server/Buffer.cpp:107-131 | what was copied in is what both parsers recover from any chunking, the server whenever the bodies are at most 4092 |
| Pooling.PopExact | jhshin_Server/jhshin_Server/ObjectPool.h:61-86 | a pool that is not empty never answers null; what it hands out was free and is not free afterwards; the pool stays consistent |
| Pooling.PushExact | jhshin_Server/jhshin_Server/ObjectPool.h:88-118 | a return is taken exactly when the object is out; a second return or a foreign pointer changes nothing |
| Pooling.PopPushInverse | jhshin_Server/jhshin_Server/ObjectPool.h:61-118 | taking and giving back restores the pool |
| Pooling.PushPopInverse | jhshin_Server/jhshin_Server/ObjectPool.h:61-118 | what was given back last is handed out next |
| Pooling.ServesAll | jhshin_Server/jhshin_Server/ObjectPool.h:61-86 | as many pops in a row succeed as objects are free, each with another object that was free, and the next one answers null |
| Pooling.ObjectPool.InitObjectPool | jhshin_Server/jhshin_Server/ObjectPool.h:41-59 | fills the pool once: every object is free, in ascending order, and counted; a second call changes nothing |
| Pooling.ObjectPool.Pop | jhshin_Server/jhshin_Server/ObjectPool.h:61-86 | the object's bookkeeping follows the pool value |
| Pooling.ObjectPool.Push | jhshin_Server/jhshin_Server/ObjectPool.h:88-118 | the object's bookkeeping follows the pool value, all bounds checks included |
| SharedChunks.NextInv | jhshin_Server/jhshin_Server/ServiceManager.cpp:249-303 | every atomic action of any thread keeps: pool consistent, writers' chunks exclusive, slices intact and disjoint |
| SharedChunks.LiveSlices | jhshin_Server/jhshin_Server/ServiceManager.cpp:249-303 | in every interleaving all live slices are pairwise disjoint and hold the packet they were made with, and no two threads write to one chunk |
| SharedChunks.SliceStable | jhshin_Server/jhshin_Server/ServiceManager.cpp:249-303 | a slice keeps its place and its bytes from creation to release |
| SharedChunks.ResetOnlyUnreferenced | jhshin_Server/jhshin_Server/ServiceManager.cpp:292-303 | a chunk's filled part only grows, unless no slice and no thread refers to the chunk |
| SharedChunks.InitInv | jhshin_Server/jhshin_Server/ObjectPool.h:41-59 | at first every chunk is in the pool and empty |
| SharedChunks.LocalLasts | jhshin_Server/jhshin_Server/ServiceManager.cpp:292-303 | a thread keeps its chunk until another one is assigned, the pool turns out to be empty, or it ends |
| SharedChunks.NoneLost | jhshin_Server/jhshin_Server/ServiceManager.cpp:292-303 | in every interleaving each chunk is in the pool, or pointed at, or can be recycled, and exactly one of these |
| ServiceManaging.RenewFresh | jhshin_Server/jhshin_Server/ServiceManager.cpp:292-303 | a thread gets an empty chunk, and gets one exactly when the pool has one before its old one is let go |
| ServiceManaging.MakePacketExact | jhshin_Server/jhshin_Server/ServiceManager.cpp:249-290 | succeeds exactly when header and body fit behind what is in the thread's chunk, or the pool has a chunk and they fit 40960 bytes; the packet goes behind what is there, or to the front of the pool's top chunk, which is the thread's from then on; no other slice is touched |
| ServiceManaging.MakePacketInv | jhshin_Server/jhshin_Server/ServiceManager.cpp:249-290 | a whole call keeps the invariant of the shared chunks |
| ServiceManaging.MakePacketRun | jhshin_Server/jhshin_Server/ServiceManager.cpp:249-290 | a whole MakeSendPacket that nobody interferes with is a run of atomic steps, and computes `MakePacket` |
| ServiceManaging.LastDropRecycles | jhshin_Server/jhshin_Server/ServiceManager.cpp:292-303 | dropping a SendChunk removes it alone, and brings its chunk back to the pool, wiped, exactly when no thread and no other SendChunk points at it |
| ServiceManaging.ExitRecycles | jhshin_Server/jhshin_Server/ServiceManager.cpp:292-303 | a thread that ends has no chunk any more; the one it had is back in the pool, wiped, exactly when no SendChunk points at it |
| ChunkBooks.MakePacketCovers | jhshin_Server/jhshin_Server/ServiceManager.cpp:249-303 | a call leaves no chunk out of the pool that nobody points at, the one it replaces included |
| ChunkBooks.NothingLeaks | jhshin_Server/jhshin_Server/ServiceManager.cpp:249-303 | after any calls of any threads the chunks out of the pool are exactly those that a thread or a SendChunk points at |
| ServiceManaging.ServiceManager.MakeSendPacket | jhshin_Server/jhshin_Server/ServiceManager.cpp:249-290 | the heap of chunks follows the value the theorems are about |
| ServiceManaging.ServiceManager.DropSlice | jhshin_Server/jhshin_Server/ServiceManager.cpp:292-303 | the last copy of a SendChunk goes, and its chunk with it if that was the last reference |
| ServiceManaging.ServiceManager.EndThread | jhshin_Server/jhshin_Server/ServiceManager.cpp:292-303 | a thread's end lets go of its thread-local chunk in the same way |
| SendToken.TokenExclusive | jhshin_Server/jhshin_Server/SessionData.cpp:57-150 | in every interleaving at most one thread or WSASend owns m_Send, the flag says whether somebody does, and Send never finds the queue empty |
| SendToken.NothingStranded | jhshin_Server/jhshin_Server/SessionData.cpp:57-150 | pushed is left, then batch, then queue, in push order; in a run without a refused send or a failed completion everything that left was sent, and whenever the flag is clear everything pushed was sent |
| SendToken.LossExactly | jhshin_Server/jhshin_Server/SessionData.cpp:78-128 | a step ends a history without loss exactly when it clears the batch of a refused send or of a failed completion |
| SendToken.StrandedExactly | jhshin_Server/jhshin_Server/SessionData.cpp:104-123 | packets wait with nobody to send them exactly after a refused send whose queue has filled since the drain; the next push ends it |
| SendToken.StrandedRun | jhshin_Server/jhshin_Server/SessionData.cpp:104-123 | a run in which that happens |
| SendToken.StuckExactly | jhshin_Server/jhshin_Server/IOCP.cpp:247-278 | the flag comes to be set with neither a thread nor a WSASend holding the token exactly when a completion reports failure; after that only pushes happen |
| SendToken.StuckRun | jhshin_Server/jhshin_Server/IOCP.cpp:247-278 | a run in which that happens and a later push waits for good |
| SendToken.NextInv | jhshin_Server/jhshin_Server/SessionData.cpp:57-150 | every atomic action of any thread keeps one token, the holder's place, conservation, and a failed send behind every loss |
| SendToken.SendRun | jhshin_Server/jhshin_Server/SessionData.cpp:78-128 | a whole Send is a run of steps of its thread: everything that was queued is in flight at once, in order, or everything is dropped and the flag clear |
| SendToken.InsertRun | jhshin_Server/jhshin_Server/SessionData.cpp:57-76 | so is a whole InsertSendQueue: under a set flag the chunk waits last in the queue, under a clear one the whole queue goes out with it; every other thread is left where it is |
| SendToken.ExecuteRun | jhshin_Server/jhshin_Server/IOCP.cpp:247-278 | so is a whole Execute: after a success what has queued up goes out or the flag is clear, after a failure the queue and the flag stay |
| SendToken.SessionSender.PushSection | jhshin_Server/jhshin_Server/SessionData.cpp:57-76 | the locked part of InsertSendQueue is the push step |
| SendToken.SessionSender.DrainSection | jhshin_Server/jhshin_Server/SessionData.cpp:78-96 | the loop moves the whole queue, in order, behind the batch |
| SendToken.SessionSender.Send | jhshin_Server/jhshin_Server/SessionData.cpp:78-128 | sends everything queued, or drops it and gives the token back |
| SendToken.SessionSender.InsertSendQueue | jhshin_Server/jhshin_Server/SessionData.cpp:57-76 | with the token taken the packet waits; with it free everything queued goes out |
| SendToken.SessionSender.Execute | jhshin_Server/jhshin_Server/IOCP.cpp:247-278 | a completion sends what has queued up or frees the token; a failed one keeps the token and makes the session leave its room |
| SendMemory.PushedNext | jhshin_Server/jhshin_Server/SessionData.cpp:57-76 | the list of pushed packets only grows, by the packet of the chunk that is pushed |
| SendMemory.BytesSent | jhshin_Server/jhshin_Server/SessionData.cpp:57-128 | with any number of threads making and dropping packets meanwhile, the bytes that m_Send points at are those of the packets pushed, in push order; if no send fails, what was sent is the encoding of the first of them, and of all once the flag is clear |
| WaitQueue.AwakeKept | jhshin_Server/jhshin_Server/SessionManager.cpp:18-89 | every atomic action keeps: as many threads on their way as there are pairs to be made |
| WaitQueue.NoLostWakeup | jhshin_Server/jhshin_Server/SessionManager.cpp:18-89 | in every interleaving, as many threads are inside ReWaiting as there are pairs of waiter and free session; with none inside, queue or pool is empty |
| WaitQueue.Settles | jhshin_Server/jhshin_Server/SessionManager.cpp:18-89 | as long as nobody comes in the threads inside take a bounded number of steps, and when they can take no more, none is inside and the queue or the pool is empty |
| WaitQueue.OnePlaceEach | jhshin_Server/jhshin_Server/ListenManager.cpp:81-144 | in every interleaving every AcceptObject is in exactly one of these places: posted, waiting (once), or in one thread's hands; every session in exactly one of: pooled, posted, connected, or in one thread's hands; waiters are served first come, first served |
| WaitQueue.SessionManager.constructor | jhshin_Server/jhshin_Server/SessionManager.cpp:13-16 | every session is in the pool, and nobody waits |
| WaitQueue.ReWaitingRun | jhshin_Server/jhshin_Server/SessionManager.cpp:52-89 | a whole ReWaiting that nobody interferes with is a run of steps of its thread, and pairs the first waiter with the session from the pool when there are both |
| WaitQueue.PushRun | jhshin_Server/jhshin_Server/SessionManager.cpp:30-38 | so is a whole PushSession |
| WaitQueue.AcceptRun | jhshin_Server/jhshin_Server/ListenManager.cpp:81-120 | so is a whole Accept, with the InsertWait and ReWaiting in it |
| WaitQueue.ErrorRun | jhshin_Server/jhshin_Server/ListenManager.cpp:122-144 | so is a whole Error: the session it gives back goes through PushSession before the AcceptObject asks for a new one |
| WaitQueue.SessionManager.DequeueSection | jhshin_Server/jhshin_Server/SessionManager.cpp:77-85 | the second locked part of ReWaiting is the step that takes the first waiter |
| WaitQueue.SessionManager.PopSection | jhshin_Server/jhshin_Server/SessionManager.cpp:18-28 | popping the pool is the step that takes a free session, or finds none |
| WaitQueue.SessionManager.PushSection | jhshin_Server/jhshin_Server/SessionManager.cpp:30-38 | pushing to the pool is the step that gives a session back |
| WaitQueue.SessionManager.ReWaiting | jhshin_Server/jhshin_Server/SessionManager.cpp:52-89 | brings the first waiter and the top session together, when there are both |
| WaitQueue.SessionManager.PushSession | jhshin_Server/jhshin_Server/SessionManager.cpp:30-38 | a returned session goes to the longest waiting AcceptObject, else to the pool |
| WaitQueue.SessionManager.InsertWait | jhshin_Server/jhshin_Server/SessionManager.cpp:40-50 | a waiter is queued, and the first one is served if a session is free after all |
| WaitQueue.SessionManager.Accept | jhshin_Server/jhshin_Server/ListenManager.cpp:81-120 | posts with a session, or waits |
| WaitQueue.SessionManager.Error | jhshin_Server/jhshin_Server/ListenManager.cpp:122-144 | the failed accept's session serves the longest waiter, if there is one, before the AcceptObject asks again |
| JobDraining.DrainedInOrder | jhshin_Server/jhshin_Server/JobQueue.cpp:3-34 | in every interleaving jobs are dispatched in push order, none lost or twice; at most one PopAll follows Stop; every job pushed before Stop is dispatched before Work returns |
| JobDraining.GateHolds | jhshin_Server/jhshin_Server/RoomManager.cpp:50-90 | once the gate is up only producers already past it can push, once each |
| JobDraining.AbandonedExactly | jhshin_Server/jhshin_Server/RoomManager.cpp:50-90 | a job is left in the queue for good exactly when such a producer pushes it after the last PopAll |
| JobDraining.AbandonedRun | jhshin_Server/jhshin_Server/RoomManager.cpp:50-90 | a run in which that happens |
| JobDraining.StartJobRun | jhshin_Server/jhshin_Server/Room.cpp:8-18 | a whole StartJob that nobody interferes with is a run of steps that takes everything queued and dispatches it in order |
| JobDraining.JobQueue.PopAll | jhshin_Server/jhshin_Server/JobQueue.cpp:3-14 | the locked part is the step that swaps the queues when there are jobs; the stop flag is reported |
| JobDraining.JobQueue.Push | jhshin_Server/jhshin_Server/JobQueue.cpp:16-24 | the locked part is the push step |
| Movement.LookIsDirect | jhshin_Server/jhshin_Server/Room.cpp:306-342 | with a clock that does not go back no subtraction wraps, nothing is divided by zero, no early exit is taken, and a look gives the direct interpolation |
| Movement.DirectExact | jhshin_Server/jhshin_Server/Room.cpp:306-342 | the share of the way that is made is the share of the time that has passed; a user that stands or has arrived is where its record or its destination says |
| Movement.MinusWraps | jhshin_Server/jhshin_Server/Room.cpp:306-342 | tick differences are taken modulo 2 to the 64th |
| Movement.LookKeepsDirect | jhshin_Server/jhshin_Server/Room.cpp:306-342 | overwriting origin and start tick changes nothing about where the user will be |
| Movement.ScheduleIndependent | jhshin_Server/jhshin_Server/Room.cpp:306-342 | after any schedule of looks the position is one interpolation from the original origin and tick; from the end tick on it is the destination |
| Movement.LookApproaches | jhshin_Server/jhshin_Server/Room.cpp:306-342 | each coordinate moves towards the destination, never past it |
| MoveRun.MoveBroadcast | jhshin_Server/jhshin_Server/Room.cpp:20-25 | a move gives at most ceil((end - start) / 100) + 1 snapshots, each on the direct way, monotone, the last one of an ended move being the destination |
| MoveRun.MoveEnds | jhshin_Server/jhshin_Server/Room.cpp:20-25 | if the room keeps ticking the move ends, and no snapshot follows |
| RoomBooks.IdsConserved | jhshin_Server/jhshin_Server/Room.cpp:67-187 | in every reachable room free, members' and withdrawn ids are duplicate free, disjoint and together 0..999; at most 1000 members |
| RoomBooks.ApplyBooks | jhshin_Server/jhshin_Server/Room.cpp:6-358 | every job and tick keeps the ordered map, connected exactly when member, and the ids |
| RoomBooks.WithdrawnForever | jhshin_Server/jhshin_Server/Room.cpp:170-189 | an id whose leave notice failed is never given out again |
| RoomBooks.NewRoomBooks | jhshin_Server/jhshin_Server/Room.h:12-21 | a new room is empty, has not ticked, and has the ids 0..999 queued in this order |
| RoomViews.ClientViews | jhshin_Server/jhshin_Server/Room.cpp:41-198 | after any run under any allocation failures a member holds only ids of other members or withdrawn ids; without failures exactly the other members' |
| RoomViews.GapsNeverWiden | jhshin_Server/jhshin_Server/Room.cpp:41-198 | what a member does not know of the others never grows while it stays, whatever fails |
| RoomViews.EnterWithoutGaps | jhshin_Server/jhshin_Server/Room.cpp:89-133 | a member whose own SPAWN packets were all made enters knowing everybody |
| RoomViews.SpawnsCover | jhshin_Server/jhshin_Server/Room.cpp:89-133 | SPAWN batches hold at most 100 entries and members only; with no failure they are all entries, in order |
| RoomSpawns.SpawnsExact | jhshin_Server/jhshin_Server/Room.cpp:89-133 | under any allocation failures the SPAWN packets hold a subsequence of the entries, full but for the last; a packet that cannot be made while the loop runs costs one entry, the last one all its entries |
| RoomNotices.EnterExact | jhshin_Server/jhshin_Server/Room.cpp:41-146 | admitted exactly when not yet in, an id is free, both packets can be made and the socket is not taken; then with the id that was free the longest, standing at the origin; a tried id goes to the end of the queue; nobody else changes |
| RoomNotices.EnterTellsOthers | jhshin_Server/jhshin_Server/Room.cpp:75-97 | an entry adds one SPAWN to every other member's queue, with the id and the position that the new record has, and nothing else to any |
| RoomNotices.EnterAnswers | jhshin_Server/jhshin_Server/Room.cpp:55-133 | the newcomer's queue gets the acknowledgement with this room and its own id first, and then the members' entries in map order as far as their packets could be made; or the refusal; or nothing |
| RoomNotices.LeaveExact | jhshin_Server/jhshin_Server/Room.cpp:148-198 | a leaver is gone whatever fails; its id is free again exactly when the others could be told |
| RoomNotices.LeaveTells | jhshin_Server/jhshin_Server/Room.cpp:167-181 | every other member, and nobody else, is told once |
| RoomNotices.BroadCastTells | jhshin_Server/jhshin_Server/Room.cpp:200-218 | every member but the sender is sent the text once, or nobody is |
| RoomNotices.MoveExact | jhshin_Server/jhshin_Server/Room.cpp:220-275 | a request changes nothing, or the member's own record only; NaN, infinities and points outside 10000 by 10000 change nothing; what is taken up starts at once and ends when its length says |
| RoomMoves.BatchesExact | jhshin_Server/jhshin_Server/Room.cpp:277-304 | the packets of a tick, joined, are the entries in order: ceil(n / 100) packets, all full but the last |
| RoomMoves.TickExact | jhshin_Server/jhshin_Server/Room.cpp:277-304 | a tick lists everyone moving when it starts, once each, in map order, where they are now |
| RoomMoves.TickDelivered | jhshin_Server/jhshin_Server/Room.cpp:344-358 | every member is sent each packet that could be made, in order; nobody else anything |
| RoomMoves.RedirectExact | jhshin_Server/jhshin_Server/Room.cpp:254-274 | a request is taken up exactly when it is for somewhere else; the way then starts here and now and takes 1000 milliseconds for each unit of its length, rounded down |
| RoomMoves.MapSafety | jhshin_Server/jhshin_Server/Room.cpp:220-342 | in every run, whatever is sent, positions and destinations stay on the map and ticks in order |
| RoomSpawns.EnterSpawnsExact | jhshin_Server/jhshin_Server/Room.cpp:89-133 | with no failure the newcomer's SPAWN packets list every member once, in map order, with the stored position |
| RoomSpawns.SpawnsCurrentExactly | README.md:291 | these entries are current exactly when every member stands still or was looked at this very tick |
| RoomSpawns.StaleRun | README.md:291 | a run with a tick after the move and an entry before the next one; what the newcomer is sent is not where the walking member is |
| RoomRun.StaysThroughout | jhshin_Server/jhshin_Server/Room.cpp:41-198 | a member stays for as long as it does not leave, whatever the others do |
| RoomRun.RunIsWatched | jhshin_Server/jhshin_Server/Room.cpp:6-29 | a room run seen from one undisturbed member is that user's watch through the ticks: same record, same snapshots |
| RoomRun.MoveSeen | jhshin_Server/jhshin_Server/Room.cpp:220-358 | an accepted move in a whole room is broadcast as MoveRun says, whatever the others do, and lasts as long as its length says |
| RoomRun.MoveStops | jhshin_Server/jhshin_Server/Room.cpp:220-358 | if ticks go on past the end the user stands at the destination and is not broadcast again |
| RoomSights.RunSights | jhshin_Server/jhshin_Server/Room.cpp:277-358 | a staying member's queue gets a subsequence of the run's snapshots of every id, and exactly these when no allocation fails |
| RoomSights.TickShows | jhshin_Server/jhshin_Server/Room.cpp:20-25 | less than 100 milliseconds after the last tick nothing happens; from then on every member is told where each moving member is now, as far as the packets can be made |
| RoomSights.MoveSeenBy | jhshin_Server/jhshin_Server/Room.cpp:220-358 | from request to client, under any allocation failures: what every staying member is sent about the mover is one proper move; with none, it ends at the destination once it has ended |
| RoomJobs.EnterJobDone | jhshin_Server/jhshin_Server/JobObject.cpp:9-12 | a dispatched enter job admits that session or nobody, and the others are told of it where it stands |
| RoomJobs.LeaveJobDone | jhshin_Server/jhshin_Server/JobObject.cpp:14-17 | a dispatched leave job removes that session and nobody else, whatever fails; every other member is told its id once and the id is free again, or neither |
| RoomJobs.BroadcastJobDone | jhshin_Server/jhshin_Server/JobObject.cpp:4-7 | a dispatched broadcast sends its text to every member but the sender, or to nobody, and changes nothing else |
| RoomJobs.MoveJobDone | jhshin_Server/jhshin_Server/JobObject.cpp:19-22 | a dispatched move makes a member leave for the point it asked for, here and now, to arrive when the way's length says; a request that is not valid changes nothing |
| RoomJobs.MemberExactly | jhshin_Server/jhshin_Server/Room.cpp:6-198 | after any jobs and ticks a session is a member exactly if it was one at the beginning or was admitted on the way, and has not left since |
| RoomJobs.GoneAfterLeaving | jhshin_Server/jhshin_Server/Room.cpp:148-198 | once its leave job has run a session is no member until it enters again |
| RoomJobs.AcksNameRoom | jhshin_Server/jhshin_Server/Room.cpp:55-73 | in every run of a room every acknowledgement names that room and an id below 1000, or is the refusal |
| EndToEnd.DecodedInOrder | jhshin_Server/jhshin_Server/SessionData.cpp:57-150 | whatever the room and the workers push, and whatever other threads do with the chunks meanwhile: what the client has decoded is at every moment the beginning of what was pushed to its session, and all of it once everything has arrived |
| EndToEnd.ClientKnows | jhshin_Server/jhshin_Server/Room.cpp:41-198 | through chunks, send protocol, stream and parser, with any echoes in between: once everything has arrived the ids a client holds are other members' or withdrawn, and exactly the other members' when no allocation failed |
| Packets.SpotPacket.Add | jhshin_Server/jhshin_Server/PacketStruct.h:158-174 | appends the entry, or answers false and changes nothing when there are 100 |
| Packets.SpotPacket.Clear | jhshin_Server/jhshin_Server/PacketStruct.h:137-141 | empties and wipes the packet |
| Packets.SpotPacket.Get | jhshin_Server/jhshin_Server/PacketStruct.h:176-186 | the entry, or null outside what was added |
| Packets.SpotPacket.GetSize | jhshin_Server/jhshin_Server/PacketStruct.h:132-135 | counts what was added, and never exceeds what a receive buffer can take |
| Rooms.Room.constructor | jhshin_Server/jhshin_Server/Room.h:12-21 | the loop leaves the new room of the specification |
| Rooms.Room.Enter | jhshin_Server/jhshin_Server/Room.cpp:41-146 | the object computes `RoomSpec.Enter`, which the theorems above are about |
| Rooms.Room.ExchangeSpawns | jhshin_Server/jhshin_Server/Room.cpp:89-133 | the interleaved loop over the map, with its packet filled, sent and cleared, computes the batches of the specification |
| Rooms.Room.Leave | jhshin_Server/jhshin_Server/Room.cpp:148-198 | the object computes `RoomSpec.Leave` |
| Rooms.Room.BroadCast | jhshin_Server/jhshin_Server/Room.cpp:200-218 | the object computes `RoomSpec.BroadCast` |
| Rooms.Room.Move | jhshin_Server/jhshin_Server/Room.cpp:220-275 | the object, with its chain of early returns, computes `RoomSpec.Move` |
| Rooms.Room.MovePosition | jhshin_Server/jhshin_Server/Room.cpp:306-342 | the assignments to the record in place compute `Movement.MovePosition` |
| Rooms.Room.SendMoveData | jhshin_Server/jhshin_Server/Room.cpp:344-358 | one packet is made and queued for every member |
| Rooms.Room.MoveCheckUsers | jhshin_Server/jhshin_Server/Room.cpp:277-304 | moving users one at a time while sending full packets in between comes to the same as moving all and then sending the batches |
| Rooms.Room.StartJob | jhshin_Server/jhshin_Server/Room.cpp:6-29 | everything queued is dispatched in order, then the tick; the room stays consistent; false exactly when stopped |

## Left out

- Winsock, IOCP, AcceptEx, thread creation, console events, CPU monitor, logging and singletons: foreign calls or plumbing. Receives, sends and accepts are steps that are taken or refused and complete later.
- PacketHandler: a table lookup; the receive loop gets its verdict as a function, and what it pushes by itself, an echo, is `EndToEnd.ByWorker`.
- ClientParsing.Client.ParseClient: hands over each packet, but does not interpret bodies: the switch on packet types that updates the client's own fields is not modelled.
- Pooling.ObjectPool.Push: without the `Reset` of the returned object; for send chunks it is in `ServiceManaging.ServiceManager.Release`, for sessions see session recycling below.
- The byte layout of packet bodies: room packets are values; `Wire` covers the header and treats bodies as bytes.
- IEEE rounding: coordinates, ratios and distances are real numbers, and `root` is any function with `root(x) >= 0` and `root(x) * root(x) == x`. `m_endMoveTick` is the exact sum of tick and `dist / MoveSpeed * 1000`, truncated to an integer, where the source adds a uint64 to a float.
- Movement.ScheduleIndependent: over real numbers, for the same reason.
- RoomMoves.RedirectExact: over real numbers, for the same reason; in the source the sum of a tick and a float also loses low digits once the tick is above 2 to the 24th.
- Clock values with the top bit set (292 million years of uptime).
- Session recycling: `SessionData::Reset` clears neither the receive positions nor the send queue (SessionData.cpp:152-160). The framing and send theorems start from an empty buffer and queue.
- Oversized bodies: what the server dispatches after one is `SessionReceiving.ServeAll`, and `OversizedRun` shows what that can be; it is compared with the stream only up to the first such header.
- Partial sends: a completion with a positive byte count is a success, as in the source.
- Shutdown: `m_Stop` in `ListenManager` and `SessionManager`, `ClearWaitQueue`, `CloseSession`, the user-session map and the drain at exit.
- Rooms.Room.Leave: without the `CloseSession` at the end.
- Membership across rooms: `IsConnected` and `Connect` belong to the session, and two room threads may pass the check in `Enter` together. The model has one room, and connected means member of it.
- Null sessions: `Enter`, `Leave` and `Move` return at once on a null pointer; a session is never null here.
- EndToEnd.ClientKnows: takes the layout of bodies as a pair of functions of which one undoes the other on what was pushed, and that TCP delivers a beginning of what was sent; it is about sessions whose sends do not fail.
- SendMemory.BytesSent: follows one session; that others hold the same SendChunk can only delay its `Drop`, and the machine leaves open when that comes.
- Interleavings inside the classes: a class method is one thread's whole call. What other threads can do in between is in the state machines; the `Run` lemmas show that a call without interference is a run of the machine. That the room's `StartJob` with its jobs is the dispatch step of `JobDraining`, whose jobs are opaque, is not stated.
- WaitQueue.Settles: a thread that ends a connected session from inside (the last reference to it goes in ReWaiting or Accept) counts as somebody coming in.
- std::map: a map and the ascending sequence of its keys. `shared_ptr`: one slice stands for all copies of a SendChunk and is dropped with the last one; a chunk's deleter is a step enabled when nothing refers to it.
- Room ids, monitoring counters and the load-test clients other than `ParseClient`.
