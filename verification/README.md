# NetworkLibrary, modelled and proved in Dafny

The library serves TCP sessions on I/O completion ports. A packet that one thread hands to `SendPacket`
goes through a lock-free queue, is encoded, sent, cut out of the peer's byte stream again, decoded and
given to the peer's `OnRecv`; every object on the way comes from a two-tier pool. This project models
that path and proves what each part of it guarantees over all interleavings, inputs and runs of the
model; "Assumptions" and "Left out" say where the model stops short of the code.

## The modules

**Session lifetime and sending** (`Session`, `SessionInvariant`, `SessionSteps`, `SessionTheorems`,
`SessionCalls`, `SessionSending`, `SessionProgress`, `SessionAlone`, `SessionLeak`, `SessionLost`,
`PacketRefs`). One slot of `SessionArr` as a step machine: any number of
threads, pending receives, sends and notifications as tokens that complete or fail as the scheduler
likes. A step makes one access to memory that another thread can be at. Three steps of it make several,
in `InitSession`, in a send completion and in `ReleaseSession`, where the thread has the send side or
SendBuffer to itself (`SessionTheorems.BundledIsPrivate`). `BeginMove`, `InitMove`, `RecvMove`,
`CallMove`, `PostMove`, `TurnMove` and `ReleaseMove` follow `AcceptThread`, `WorkerThread`,
`InitSession`, `RecvPost`, `SendPacket`, `KillSession`, `SendPost`, `DisconnectSession` and
`ReleaseSession` access by access. A callback that calls `SendPacket` or `KillSession` is represented by
one more thread. `inc` in a thread and `log`, `linked`, `passed`, `kills`, `failed`, `ended` in the
shared memory only record history. `Dequeue` of `SendQ` is one step here, which fails when Size is not
positive, and Size lags behind the links. The queue's own machine justifies both: SendFlag admits one
consumer (`SessionTheorems.OneSender`), to which Dequeue returns false exactly when Size is not positive,
that is, when the elements are no more than the enqueues that have linked and not yet raised Size
(`QueueTickets.RefusedExactly`); otherwise its ticket finds the front element on every retry
(`QueueTickets.TicketFindsNode`) and it takes effect once (`QueueHistory.DequeueTakesEffectOnce`).
`SessionCalls` and `SessionSending` say what a whole call, or a turn of `SendPost`, does among all the
others; `SessionProgress` that no thread waits for another; `SessionAlone` the whole memory that a call
or a completion leaves when it runs alone. `PacketRefs` follows the RefCnt of one packet over any number
of slots.

**LockFreeQueue** (`LockFreeQueue`, `QueueInvariant`, `QueueSteps`, `QueueTheorems`, `QueueTickets`,
`QueueHistory`, `QueueProgress`, `QueueRefusal`, and `TicketSums` and `Histories`, shared with the stack). `Enqueue` and
`Dequeue`, one shared access per step, with the extra read of `Tail` in `Tail->Next` and the helping
exchange that installs tag 0. Tags are whatever the scheduler picks. Nodes keep their identity for ever;
giving them back is a model of its own, `QueueReclaim` with `QueueFrees` and `QueueFreedHeld`, which
follows one node through `RefCnt` and `DeleteFlag` over all its lives and records when each count on it
was taken.

**LockFreeStack and LockFreeMemoryPool's free list** (`LockFreeStack`, `StackInvariant`, `StackSteps`,
`StackTheorems`, `StackHistory`, `StackProgress`, `StackAba`, `StackPool`). `Top` is compared as the word it is, address
and 16-bit
tag, and nodes are used again at once. `PopFromFreeNode` and `PushtoFreeNode` are the same machine
without the data word, `outside` then being the nodes in use. `StackPool` runs the two together: within
the windows of both no node is handed out twice.

**The two-tier pool** (`Counting`, `PoolLedger`, `TLSMemoryPool`, `PoolProcess`). `TLSMemoryPool` works
on real `Next` pointers in classes; `PoolLedger` says where every node is; `PoolProcess` runs all
threads of a process on the heap and ties each call to the ledger.

**Packet, XorPacketEncoder and framing** (`XorCipher`, `Packets`, `XorPacketEncoders`, `Framing`,
`ReceiveStream`, `RecvLoops`). The cipher as functions, the encoder in place on the packet's array
against them, the receive loop in place on `RecvQ` against the functions `Parse` and `Stream`. Where the
code would write past the end of a buffer, the model stops and says so (`End`).

**The chat server's content thread** (`ChatView`, `ChatJobs`, `ChatQueue`, `ChatServerRun`,
`ChatServerTheorems`, `ChatHistory`, `Content`). The map of characters, the 50 by 50 array of lists, the
recycled characters and the job loop in classes. The order of jobs comes from one run of all session
slots and of the lock-free JobQueue, in which a callback lasts until its Enqueue returns.

## Where the code and its documents differ

- docs/NetworkLibrary-brief.md:163 says that the 128-bit exchange guards RefCnt and SessionID. The code
  exchanges ReleaseFlag and RefCnt (NetworkLibrary/src/NetServer.cpp:555-556), and the model follows it;
  SessionID is protected by the order of writes and by pinning (`SessionTheorems.PinnedIncarnation`).
- docs/NetworkLibrary-brief.md:149 says that a queue node someone refers to is never freed. It can be,
  between `DecrementRef` and the exchange of `DeleteFlag` (`QueueFreedHeld.FreedWhileHeld`).
  `QueueFrees.FreeUnheldExactly` says when it is not; were the two one step, it never would be
  (`FusedFreesUnheld`).

## Results that say no

- A zero count is not always followed by a release. The decrements at
  NetworkLibrary/src/NetServer.cpp:376 and :551 ignore their result; when one of them is the last on a
  live session, the slot stays live with count 0 (`SessionLeak.LeakHappens`). It happens at exactly those
  steps (`SessionTheorems.StuckExactly`). A quiet slot is missing from FreeSessionStack if and only if
  such a step happened and no caller has passed the SessionID check since (`SessionLost.LostExactly`):
  callers with another ID leave it as it is (`StuckStays`), and a KillSession with its own ID, as `Stop`
  makes one, gives it back (`KillGivesBack`).
- `Dequeue` can return false although an element is in the queue whose `Enqueue` has returned: with two
  consumers and no enqueue in progress (`QueueRefusal.RefusedThoughFilled`), and with one consumer while
  the enqueue of an element that is already gone has not raised Size (`QueueRefusal.SoleConsumerMisses`).
  It returns false if and only if the elements are no more than the enqueues not yet counted, granted
  tickets and refusals in flight (`QueueTickets.RefusedExactly`); for one consumer, if and only if the
  finished elements are no more than the gone ones (`SoleConsumerRefused`); with no other call in
  progress, if and only if the queue is empty (`AloneRefusedOnlyIfEmpty`).
- A queue node can be freed while a thread holds a count on it (`QueueFreedHeld.FreedWhileHeld`). It is
  freed unheld if and only if every count taken since the winner's decrement to 0 has been dropped again
  (`QueueFrees.FreeUnheldExactly`); at the exchange that is the test RefCnt = 0 (`WhoIsLeft`).
- Past 65536 draws between the read of `Top` and the exchange, `Pop` can be fooled
  (`StackAba.AbaHappens`), and so can the pool that hands out the nodes, which is the same machine.
  `StackTheorems.WrongPopBreaks` says exactly when; a push is never fooled.
- `RecvPost` offers the kernel GetFreeSize bytes from Rear on. After `Clear`, with Front and Rear at 20,
  the last 20 of them lie past the end of RecvQ (`ReceiveStream.FirstReceivePast`); what comes stays
  inside whatever it is if and only if Front is 0 (`WindowExactly`). A stream of messages that fit stays
  inside if and only if no chunk of more than size - 20 bytes comes when nothing is held
  (`NeverOverruns`).
- `GetPacketMessage` does not ask whether the payload fits the packet: with the default limit of 4096 a
  peer may send 1005 bytes, one more than a pool packet holds behind its header room
  (`ReceiveStream.LargePayloadPast`). The copy stays inside if and only if the payload has at most 1004
  bytes (`OneFrame`, `StreamEndToEnd`).
- The checksum accepts some altered frames (`XorCipher.AlteredBodyCanPass`): exactly those whose decoded
  changes balance modulo 256 (`AlteredBodyPassesExactly`), and never one whose last byte was altered.
- A character that has logged in but is in no sector is heard in column 0
  (`Content.ChatServer.OutsiderIsHeard`).

## Assumptions

- Memory is sequentially consistent, and no 16-bit RefCnt or 48-bit session counter wraps.
- One thread accepts connections, so the session ID drawn at the start of `InitSession` is also the one
  written.
- At most 1000 packets are queued on a session at once (the size of SendBuffer).
- `memcpy` in `ShiftDataToFront` copies front to back. Source and target may overlap there, which C++
  leaves undefined for memcpy.

## Model

| member | source | states |
|---|---|---|
| SessionTheorems.StepKeeps | NetworkLibrary/src/NetServer.cpp:16-190 | every step of every thread keeps the whole invariant: count, IDs, send side, queue, references, callback log |
| SessionTheorems.RunInv | NetworkLibrary/src/NetServer.cpp:362-560 | the invariant holds in every state of every run from a fresh slot |
| SessionTheorems.CountIsHolders | NetworkLibrary/include/NetServer.h:51-52 | RefCnt is exactly the pending receives, pending sends, queued notifications and the counts threads hold; a released slot has none of the first three and no thread relies on it |
| SessionTheorems.PinnedLive | NetworkLibrary/src/NetServer.cpp:362-377 | a thread whose count is taken for the live incarnation sees an unreleased slot that bears its ID |
| SessionTheorems.PinnedIncarnation | NetworkLibrary/src/NetServer.cpp:362-377 | from the moment a caller has incremented and seen ReleaseFlag FALSE until it drops the count, over any stretch of a run, the incarnation is neither released nor renamed |
| SessionTheorems.StaleIdIsHarmless | NetworkLibrary/src/NetServer.cpp:542-552 | SendPacket queues and KillSession closes only while SessionID is the one the caller passed, never a later incarnation |
| SessionTheorems.OnlyItsKillerClosesASession | NetworkLibrary/src/NetServer.cpp:542-552 | a live session with SessionUseFlag false was killed under its own ID |
| SessionTheorems.FreeAtMostOnce | NetworkLibrary/src/NetServer.cpp:494-521 | the slot is in FreeSessionStack at most once, also when a delayed disconnector fires against a later incarnation, and then it is released, unnamed, empty and unused |
| SessionTheorems.LeaveIsAlone | NetworkLibrary/src/NetServer.cpp:554-560 | OnClientLeave runs with no I/O pending, no notification queued, no count relied on, in one thread only, for the incarnation that joined last |
| SessionTheorems.ReceiveSideIsExclusive | NetworkLibrary/src/NetServer.cpp:108-147 | at most one receive is pending or one thread handles RecvQ, never both |
| SessionTheorems.NoLostReceive | NetworkLibrary/src/NetServer.cpp:140-146 | a session in use, none of whose receives failed or ended the stream, has one receive pending or a thread that will post it |
| SessionTheorems.KilledWindsDown | NetworkLibrary/src/NetServer.cpp:379-454 | once killed, a live session stays killed, and only threads that had passed the test of SessionUseFlag before may still post a send or receive |
| SessionTheorems.ReplayIsOrderly | NetworkLibrary/src/NetServer.cpp:71-77 | a callback log without a mistake is, for each ID, one join, then messages, then at most one leave |
| SessionTheorems.CallbackOrder | NetworkLibrary/src/NetServer.cpp:494-560 | in every run each session ID sees OnClientJoin, then OnRecv any number of times, then at most one OnClientLeave and nothing after it |
| SessionTheorems.OneSender | NetworkLibrary/src/NetServer.cpp:379-396 | at most one thread is past the SendFlag exchange and none while a send is pending; SendFlag is 1 exactly then or after a failed send |
| SessionTheorems.NeverCrashes | NetworkLibrary/src/NetServer.cpp:403-411 | the branch for a failed Dequeue in SendPost is unreachable, SendQ.Clear finds nothing to lose, the ID is ORed onto zero |
| SessionTheorems.NoLostWakeup | NetworkLibrary/src/NetServer.cpp:385-396 | a packet queued on a session in use has a notification, a pending send, or a thread that will still post one or look at the queue |
| SessionTheorems.SendOrder | NetworkLibrary/src/NetServer.cpp:398-422 | what was handed to WSASend is a prefix of what was linked; the rest is a SendBuffer not yet passed, then SendQ, in order |
| SessionTheorems.ReferenceInOnePlace | NetworkLibrary/src/NetServer.cpp:153-158 | every packet reference SendPacket took is in one caller's hands, in SendQ, in SendBuffer or given back, and in exactly one of these |
| SessionTheorems.StuckExactly | NetworkLibrary/src/NetServer.cpp:375-376 | a step leaves a live slot at count 0 with nobody about to release it if and only if it is a silent decrement from 1 |
| SessionTheorems.NeverStuck | NetworkLibrary/src/NetServer.cpp:548-551 | a run without such a decrement is never stuck |
| SessionTheorems.QuietMeansReleased | NetworkLibrary/src/NetServer.cpp:505-521 | with nothing pending and every thread idle, a slot that is not stuck is free again and every reference ever taken was given back exactly once |
| SessionLeak.LeakHappens | NetworkLibrary/src/NetServer.cpp:362-377 | a run from a fresh slot in which a caller with a stale ID makes the last decrement: nothing is pending, every thread is idle, and the slot is live with count 0 outside FreeSessionStack |
| SessionLost.StuckStays | NetworkLibrary/src/NetServer.cpp:542-552 | over any stretch of a run in which no caller passes the SessionID check a stuck slot stays live, with its ID, its log and everything but the count, outside FreeSessionStack; whenever all is quiet it is stuck again |
| SessionLost.LostExactly | NetworkLibrary/src/NetServer.cpp:362-377 | in any run, with nothing pending and all threads idle, the slot is missing from FreeSessionStack if and only if a silent decrement took the count to 0 and no caller has passed the SessionID check since |
| SessionLost.KillGivesBack | NetworkLibrary/src/NetServer.cpp:235-247 | any run that ends stuck goes on, by one KillSession with the slot's ID, to one that ends quiet with OnClientLeave made and the slot in FreeSessionStack |
| SessionTheorems.CallbackAlone | NetworkLibrary/src/NetServer.cpp:494-560 | at most one thread is about to make a callback of the slot |
| SessionTheorems.BundledIsPrivate | NetworkLibrary/src/NetServer.cpp:522-540 | where one step of the model makes several accesses, in InitSession, in a send completion and in ReleaseSession, no other thread is at that memory |
| SessionCalls.SendPacketCall | NetworkLibrary/src/NetServer.cpp:362-377 | whatever else goes on, a SendPacket that got past the check took one reference, linked it at the end of SendQ, raised Size and posted one notification, once each and in that order, and changed nothing else but the count it holds; one that did not came when the slot was released or bore another ID and left nothing |
| SessionCalls.LiveSendQueues | NetworkLibrary/src/NetServer.cpp:362-377 | a SendPacket on a session live under the caller's ID for as long as the call lasts queues its packet |
| SessionCalls.KillSessionCall | NetworkLibrary/src/NetServer.cpp:542-552 | once a KillSession that got past the check has returned, SessionUseFlag is FALSE in every later state in which the slot is live under that ID; one that did not came when the slot was released or bore another ID and left nothing |
| SessionCalls.LiveKillKills | NetworkLibrary/src/NetServer.cpp:542-552 | a KillSession on a session live under the caller's ID for as long as the call lasts takes it out of use for good |
| SessionSending.SendsWhatItCounted | NetworkLibrary/src/NetServer.cpp:385-422 | what SendPost hands to WSASend is exactly the first Size packets that SendQ held when it read Size, in order, and SendPacketCnt is their number |
| SessionSending.SendsSomething | NetworkLibrary/src/NetServer.cpp:403-422 | no send is pending without a packet in SendBuffer |
| SessionSending.FailedSendIsLast | NetworkLibrary/src/NetServer.cpp:107-190 | once a send completed with 0 bytes or was refused, nothing more is sent while the slot stays live: SendFlag stays 1, SendBuffer as it is |
| SessionSending.LastReceive | NetworkLibrary/src/NetServer.cpp:107-190 | once a receive completed with 0 bytes, no receive is posted and no callback made while the slot stays live |
| SessionProgress.StepForward | NetworkLibrary/src/NetServer.cpp:16-190 | every step of a busy thread, whatever I/O calls return, takes it nearer to its end; only the loop over received messages goes on as long as there are messages |
| SessionProgress.FinishesAlone | NetworkLibrary/src/NetServer.cpp:16-190 | from any moment of any run any thread, run alone, finishes its call, completion or release: nothing waits for another thread |
| SessionAlone.SendPacketAlone | NetworkLibrary/src/NetServer.cpp:362-377 | run alone, SendPacket leaves the packet at the end of SendQ, counted and announced, and nothing else changed |
| SessionAlone.NotifiedAlone | NetworkLibrary/src/NetServer.cpp:167-173 | run alone, a notification with no send under way gives all of SendQ to WSASend in one send |
| SessionAlone.SendDoneAlone | NetworkLibrary/src/NetServer.cpp:149-165 | run alone, a send completion gives the packets sent back and sends all that is queued by then |
| SessionAlone.SendDoneIdle | NetworkLibrary/src/NetServer.cpp:385-396 | with nothing queued it sends nothing and leaves SendFlag clear |
| SessionAlone.RecvDoneAlone | NetworkLibrary/src/NetServer.cpp:108-147 | run alone, a receive completion calls OnRecv once for each message in it and posts the next receive |
| SessionAlone.AcceptAlone | NetworkLibrary/src/NetServer.cpp:56-81 | run alone, a connection takes the free slot: in use and live under the new ID, OnClientJoin called, one receive pending |
| PacketRefs.StepKeeps | NetworkLibrary/src/NetServer.cpp:563-586 | every step of every slot and every holder keeps a packet's RefCnt equal to its holders plus the references that sessions have not given back |
| PacketRefs.PooledExactly | NetworkLibrary/src/NetServer.cpp:563-586 | in any run, however many sessions a packet is sent to, it is in the pool if and only if nobody holds it, no session included |
| PacketRefs.GivenOnce | NetworkLibrary/src/NetServer.cpp:576-586 | the packet is given back exactly in the steps that take RefCnt to 0, once in each, so once for each time it was allocated |
| PacketRefs.NotPooledWhileSent | NetworkLibrary/src/NetServer.cpp:362-377 | while a session has the packet in SendQ or SendBuffer, or a caller is about to queue it, it is not in the pool |
| PacketRefs.QuietMeansPooled | NetworkLibrary/src/NetServer.cpp:505-521 | once all sessions it was sent to are quiet and not stuck and its holders have let go, it is back in the pool |
| QueueTheorems.StepKeeps | BaseLibrary/include/LockFreeQueue.h:119-195 | every step keeps the list, the ticket count and what each thread knows, and the list only grows truer |
| QueueTheorems.StepActs | BaseLibrary/include/LockFreeQueue.h:130-171 | a step is an append exactly at the exchange on Next, a removal of the front element exactly at the exchange on Head, and otherwise leaves the queue alone, helping included |
| QueueTheorems.ReturnedIsPrefix | BaseLibrary/include/LockFreeQueue.h:158-195 | what Dequeue handed out, in order, followed by what is queued, is what was linked |
| QueueHistory.FifoRun | BaseLibrary/include/LockFreeQueue.h:119-195 | the effects of any run, in order, are a run of the sequential FIFO queue that ends with the contents of the list |
| QueueHistory.EnqueueTakesEffectOnce | BaseLibrary/include/LockFreeQueue.h:119-155 | a finished Enqueue(v) took effect exactly once between its start and its end, with v |
| QueueHistory.DequeueTakesEffectOnce | BaseLibrary/include/LockFreeQueue.h:158-195 | a finished Dequeue took effect exactly once if Size was positive when it drew its ticket, and not at all otherwise |
| QueueHistory.RealTimeOrder | BaseLibrary/include/LockFreeQueue.h:119-195 | of two enqueues one of which returned before the other started, the first has the earlier place among the linked values, of which Dequeue hands out a growing prefix |
| QueueTickets.TicketFindsNode | BaseLibrary/include/LockFreeQueue.h:158-180 | no thread follows a null pointer; a ticket guarantees a successor of Head on every retry |
| QueueTickets.RefusedExactly | BaseLibrary/include/LockFreeQueue.h:159-163 | Dequeue returns false if and only if the elements are no more than unfinished enqueues, granted tickets and refusals in flight |
| QueueTickets.GoneMeansDequeued | BaseLibrary/include/LockFreeQueue.h:152-163 | an element is gone exactly when it was dequeued before its own Enqueue returned |
| QueueTickets.RefusedByElements | BaseLibrary/include/LockFreeQueue.h:159-163 | Dequeue returns false if and only if the finished elements in the queue are no more than the gone ones, granted tickets and refusals in flight |
| QueueTickets.SoleConsumerRefused | BaseLibrary/include/LockFreeQueue.h:159-163 | with no other Dequeue in progress it returns false if and only if the finished elements are no more than the gone ones; with none gone, if and only if no element's Enqueue has returned |
| QueueTickets.AloneRefusedOnlyIfEmpty | BaseLibrary/include/LockFreeQueue.h:159-163 | with no other call in progress it returns false if and only if the queue is empty |
| QueueTickets.TailNearEnd | BaseLibrary/include/LockFreeQueue.h:130-146 | Head never passes Tail, and Tail is the last node or the one before it |
| QueueProgress.ReturnsAlone | BaseLibrary/include/LockFreeQueue.h:119-195 | from any moment of any run, wherever the other threads have stopped, a thread that runs alone returns from its Enqueue or Dequeue, helping Tail along if it lags |
| QueueRefusal.RefusedThoughFilled | BaseLibrary/include/LockFreeQueue.h:159-163 | a run in which Dequeue is refused while the queue holds an element and no Enqueue is in progress |
| QueueRefusal.SoleConsumerMisses | BaseLibrary/include/LockFreeQueue.h:152-163 | a run in which the only consumer is refused while the queue holds an element whose Enqueue has returned |
| QueueReclaim.StepBalance | BaseLibrary/include/LockFreeQueue.h:129-153 | every event of a node's life keeps the balance of RefCnt, DeleteFlag, unlinks and frees |
| QueueReclaim.StepOrder | BaseLibrary/include/LockFreeQueue.h:149-152 | and that every count that stands was taken after every decrement to 0 that is still being acted on |
| QueueReclaim.FreedOncePerUnlink | BaseLibrary/include/LockFreeQueue.h:182-189 | FreeNode runs at most once for each unlink, and only on a node that is unlinked and not in the pool |
| QueueReclaim.QuietMeansFreed | BaseLibrary/include/LockFreeQueue.h:182-189 | once nobody is at work on the node, it was freed as often as it was unlinked and is in the pool, or in the queue with the queue's one count |
| QueueFreedHeld.FreedWhileHeld | BaseLibrary/include/LockFreeQueue.h:139-153 | a run in which the node is freed while a thread holds a count on it |
| QueueFrees.WhoIsLeft | BaseLibrary/include/LockFreeQueue.h:149-152 | when the exchange wins a node, every count on it was taken, and every dequeuer before its decrement unlinked it, after the winner's own decrement to 0; nobody counts on it if and only if RefCnt is 0 |
| QueueFrees.FreeUnheldExactly | BaseLibrary/include/LockFreeQueue.h:149-153 | in any run, the node FreeNode gets is held by nobody if and only if every count taken, and every dequeuer that started, since the winner's decrement to 0 has dropped again; equivalently RefCnt is 0 |
| QueueFrees.RunFreesUnheldExactly | BaseLibrary/include/LockFreeQueue.h:149-153 | a run never frees a held node if and only if that is so at each of its FreeNodes |
| QueueFrees.FusedFreesUnheld | BaseLibrary/include/LockFreeQueue.h:149-152 | with DecrementRef and the exchange as one step, a node is won only at RefCnt 0, with no holder and no dequeuer left, in every run |
| StackTheorems.StepKeeps | BaseLibrary/include/LockFreeStack.h:80-141 | every step but a fooled pop exchange keeps the list, the tickets, ownership of nodes and of drawn tags, although nodes are used again |
| StackTheorems.WrongPopBreaks | BaseLibrary/include/LockFreeStack.h:107-111 | a step breaks the invariant if and only if it is a pop exchange with the same address and tag, another draw, and a Next that is no longer the node's |
| StackTheorems.WindowSuffices | BaseLibrary/include/LockFreeStack.h:54 | if the two draws lie within 65536 of each other, equal words mean that Top has not changed since it was read |
| StackTheorems.WindowedUndeceived | BaseLibrary/include/LockFreeStack.h:97-141 | a run within the window is never fooled |
| StackTheorems.StepActs | BaseLibrary/include/LockFreeStack.h:80-117 | a successful push exchange is a push whatever the tags say, a pop exchange that is not fooled removes the top, other steps change nothing |
| StackHistory.LifoRun | BaseLibrary/include/LockFreeStack.h:80-141 | the effects of any run that is not fooled are a run of the sequential stack: no value is lost or popped twice |
| StackHistory.WindowedLifo | BaseLibrary/include/LockFreeStack.h:80-141 | in particular those of every run within the window, however often nodes are used again |
| StackHistory.PushTakesEffectOnce | BaseLibrary/include/LockFreeStack.h:80-95 | in a run that is not fooled a finished Push(v) took effect exactly once between its start and its end, with v |
| StackHistory.PopTakesEffectOnce | BaseLibrary/include/LockFreeStack.h:97-141 | in such a run a finished Pop was refused and had no effect, or took effect exactly once, taking out the very value it returns |
| StackPool.NeverTwice | BaseLibrary/include/LockFreeMemoryPool.h:149-173 | the node that Alloc hands to Push is free in the stack's eyes or new, and the node that Pop gives to Free is one the pool has handed out: each machine takes a step of its own |
| StackPool.AgreeKept | BaseLibrary/include/LockFreeMemoryPool.h:70-88 | every step of either keeps them agreed on which nodes are in use |
| StackPool.BothRun | BaseLibrary/include/LockFreeStack.h:80-141 | any run of stack and pool together within both windows is, for each, a run of the stack machine within its window |
| StackPool.LayeredLifo | BaseLibrary/include/LockFreeStack.h:80-141 | so the effects on the stack are a run of the sequential stack, with no assumption about the pool |
| StackPool.HandedIsFree | BaseLibrary/include/LockFreeMemoryPool.h:149-159 | the node Alloc is about to return is not in the stack and in no Push or Pop |
| StackTheorems.TicketFindsTop | BaseLibrary/include/LockFreeMemoryPool.h:70-88 | a thread with a ticket finds a node in Top on every retry; no thread follows a null pointer |
| StackTheorems.PopReturnsTop | BaseLibrary/include/LockFreeStack.h:113-116 | the value read after the exchange is the value that was on top at the exchange, the node being nobody else's until it is freed |
| StackTheorems.RefusedExactly | BaseLibrary/include/LockFreeStack.h:103-106 | Pop is refused if and only if the elements are no more than unfinished pushes, granted tickets and refusals in flight |
| StackProgress.ReturnsAlone | BaseLibrary/include/LockFreeStack.h:80-141 | from any moment of a run that is not fooled, a thread not about to be fooled itself, run alone, returns from its Push or Pop without being fooled |
| StackAba.AbaHappens | BaseLibrary/include/LockFreeStack.h:97-117 | a run of more than 65536 draws in which a Pop is fooled and Top then points at a node that is in NodePool |
| TLSMemoryPool.NoCycle | BaseLibrary/include/TLSMemoryPool.h:157-173 | a null-terminated list visits no node twice |
| TLSMemoryPool.ChunkPool.AllocChunck | BaseLibrary/include/TLSMemoryPool.h:11-22 | takes the top chunk, a null-terminated list of 100 nodes, and moves 100 from FreeSize to UseSize; with none stacked it returns null and adds 100 to TotalSize and UseSize |
| TLSMemoryPool.ChunkPool.FreeChunck | BaseLibrary/include/TLSMemoryPool.h:24-29 | stacks a list of exactly 100 nodes and moves 100 from UseSize to FreeSize |
| TLSMemoryPool.NodePool.NewNodeList | BaseLibrary/include/TLSMemoryPool.h:176-187 | returns a null-terminated list of 100 new nodes |
| TLSMemoryPool.NodePool.Alloc | BaseLibrary/include/TLSMemoryPool.h:142-155 | hands out the first node of the own list, else of a stacked chunk, else of a new list, and leaves a null-terminated list FreeNodeCnt long, at most 99, and the counters in step |
| TLSMemoryPool.NodePool.Free | BaseLibrary/include/TLSMemoryPool.h:157-173 | puts the node in front, and at 100 stacks the whole list as a chunk and keeps none; both lists stay null-terminated and of the right length |
| PoolLedger.SourceIs | BaseLibrary/include/TLSMemoryPool.h:142-155 | Alloc's node comes from the thread's own list, then from the chunk stacked last, and from new nodes only when there is neither |
| PoolLedger.AllocPlaces | BaseLibrary/include/TLSMemoryPool.h:142-155 | Alloc changes in how many places a node is only for newly made nodes |
| PoolLedger.AllocKeeps | BaseLibrary/include/TLSMemoryPool.h:142-155 | Alloc keeps the places of all nodes, the three counters and the space bound |
| PoolLedger.FreePlaces | BaseLibrary/include/TLSMemoryPool.h:157-173 | Free leaves every node in as many places as before |
| PoolLedger.FreeKeeps | BaseLibrary/include/TLSMemoryPool.h:157-173 | Free keeps them too, on whichever thread the node is freed |
| PoolLedger.Accounting | BaseLibrary/include/TLSMemoryPool.h:11-29 | in every run TotalSize is UseSize plus FreeSize and the nodes ever made, FreeSize is 100 a chunk, UseSize is live nodes plus all FreeNodeCnt, and a node was made if and only if it is in exactly one place |
| PoolLedger.SpaceBound | BaseLibrary/include/TLSMemoryPool.h:142-173 | TotalSize never exceeds the live nodes of one earlier moment of the run plus 99 for each thread |
| PoolProcess.Process.Alloc | BaseLibrary/include/TLSMemoryPool.h:142-155 | on the heap, any thread's Alloc is the ledger's step and returns a node nobody has; all threads' lists stay disjoint and well formed |
| PoolProcess.Process.Free | BaseLibrary/include/TLSMemoryPool.h:157-173 | on the heap, any thread's Free of any live node is the ledger's step and keeps all lists |
| XorCipher.UnchainChain | NetworkLibrary/src/XorPacketEncoder.cpp:29-60 | a decoding pass undoes an encoding pass, for every length and key |
| XorCipher.ChainUnchain | NetworkLibrary/src/XorPacketEncoder.cpp:29-60 | and an encoding pass undoes a decoding pass: each pass is a bijection |
| XorCipher.RoundTrip | NetworkLibrary/src/XorPacketEncoder.cpp:29-71 | decoding an encoded body gives checksum and payload back and accepts |
| XorCipher.AcceptsExactlyEncodings | NetworkLibrary/src/XorPacketEncoder.cpp:57-71 | a body is accepted if and only if it is the encoding of what it decodes to |
| XorCipher.EncodeInjective | NetworkLibrary/src/XorPacketEncoder.cpp:29-43 | different payloads have different encodings |
| XorCipher.EncodeRecurrence | NetworkLibrary/src/XorPacketEncoder.cpp:29-43 | the body is checksum and payload masked twice, each mask being the masked byte before plus the key plus the position counted from 1, modulo 256, and the checksum the sum of the payload modulo 256 |
| XorCipher.DecodeRecurrence | NetworkLibrary/src/XorPacketEncoder.cpp:57-68 | decoding takes the two masks off again, the outer one first, each made of the bytes before as they stood |
| XorCipher.KeysMatter | NetworkLibrary/src/XorPacketEncoder.cpp:29-43 | the same payload under another RKey, or under another EncryptKey, is another body |
| XorCipher.XorByBits | NetworkLibrary/src/XorPacketEncoder.cpp:36 | the exclusive or adds the lowest bits without carry and is that of the halves above |
| XorCipher.ErrorSpread | NetworkLibrary/src/XorPacketEncoder.cpp:57-68 | altering one body byte alters the decoded byte there, possibly the next two, and no other |
| XorCipher.LastByteIsProtected | NetworkLibrary/src/XorPacketEncoder.cpp:70-71 | a frame whose last body byte was altered is rejected |
| XorCipher.AlteredBodyPassesExactly | NetworkLibrary/src/XorPacketEncoder.cpp:57-71 | an accepted body with byte k altered passes if and only if the changes of decoded bytes k, k + 1 and k + 2 add up to 0 modulo 256, the checksum byte counting against the others |
| XorCipher.AlteredBodyCanPass | NetworkLibrary/src/XorPacketEncoder.cpp:70-71 | some frame altered in an earlier byte is accepted with another payload |
| Packets.Packet.Clear | NetworkLibrary/include/Packet.h:108-113 | empties the packet at the header reserve and forgets that it was encoded |
| Packets.Packet.MoveWritePos | NetworkLibrary/include/Packet.h:115-120 | moves Rear by the size, cut at the end of the buffer |
| Packets.Packet.MoveReadPos | NetworkLibrary/include/Packet.h:122-127 | moves Front by the size, cut at Rear |
| Packets.Packet.GetData | NetworkLibrary/include/Packet.h:131-140 | copies out the first bytes, as many as there are, and leaves the rest |
| Packets.Packet.PutData | NetworkLibrary/include/Packet.h:154-163 | appends as many bytes as fit |
| Packets.Packet.ShiftDataToFront | NetworkLibrary/include/Packet.h:78-83 | moves the data to the start of the buffer and keeps it, also where old and new place overlap, memcpy being taken to copy front to back |
| Packets.WriteThenRead | NetworkLibrary/include/Packet.h:131-163 | bytes written are the bytes read |
| XorPacketEncoders.MaskBody | NetworkLibrary/src/XorPacketEncoder.cpp:29-43 | the forward loop in place is two chained passes over checksum and payload, and touches nothing else |
| XorPacketEncoders.UnmaskBody | NetworkLibrary/src/XorPacketEncoder.cpp:57-68 | a reverse loop in place is one inverse pass and the checksum of what it uncovers |
| XorPacketEncoders.SumBytes | NetworkLibrary/src/XorPacketEncoder.cpp:25-27 | the sum of the payload bytes modulo 256 |
| XorPacketEncoders.XorPacketEncoder.Encode | NetworkLibrary/src/XorPacketEncoder.cpp:7-46 | in place of reserve and payload stands the frame, Front points at it, no other byte changed; an encoded packet is left alone; a length over 65535 is cut to 16 bits |
| XorPacketEncoders.XorPacketEncoder.Decode | NetworkLibrary/src/XorPacketEncoder.cpp:48-76 | the body is decoded in place, accepted exactly when its checksum agrees, Front moves past the header only then, no other byte changes |
| XorPacketEncoders.EncodeThenDecode | NetworkLibrary/src/XorPacketEncoder.cpp:7-76 | for every payload up to 65535 bytes and all keys, Encode, Encode again, Decode accepts and restores payload, Front and Rear, and all bytes outside the frame |
| XorPacketEncoders.FrameBytes | NetworkLibrary/include/XorPacketEncoder.h:32-39 | a frame is the code, the length with its low byte first, RKey and the body |
| Framing.ParseSplit | NetworkLibrary/src/NetServer.cpp:116-144 | parsing a stream in two parts, keeping the rest, is parsing it whole |
| Framing.SplittingDoesNotMatter | NetworkLibrary/src/NetServer.cpp:108-147 | for any bytes and any split into receives the loop delivers and closes as it would on the whole stream |
| Framing.PrefixProgress | NetworkLibrary/src/NetServer.cpp:589-634 | after any first part of an encoded stream exactly the first k payloads are delivered and a part of frame k is held |
| Framing.EndToEnd | NetworkLibrary/src/NetServer.cpp:116-144 | encode, concatenate, split anywhere, receive: the payloads in order, all of them, but for a final empty one, which is held back |
| Framing.RoomRemains | NetworkLibrary/src/NetServer.cpp:140-144 | no first part of an encoded stream closes the session, what was delivered is a prefix of the payloads, and with payloads of at most cap bytes at most 5 + cap bytes are held for the next receive |
| Framing.KilledForLength | NetworkLibrary/src/NetServer.cpp:602-605 | of any first part of a frame with more than its header, the session is closed if and only if there is a limit and the payload exceeds it, and then nothing was delivered |
| RecvLoops.CheckPacketMessageComplete | NetworkLibrary/src/NetServer.cpp:589-611 | over the bytes held: kills if and only if there are more than 5 and the first is not the code or the length in the next two exceeds the limit; true if and only if there are more than 5, as many as header and length say, and it did not kill |
| ReceiveStream.WindowExactly | NetworkLibrary/src/NetServer.cpp:457-458 | whatever the kernel writes of the bytes RecvPost offers stays in RecvQ if and only if Front is 0 |
| ReceiveStream.ReceiveFitsExactly | NetworkLibrary/src/NetServer.cpp:457-458 | of the chunks the kernel may write, those that leave RecvQ are exactly the ones of more than size - 20 bytes into an empty RecvQ |
| ReceiveStream.FirstReceivePast | NetworkLibrary/src/NetServer.cpp:535 | after Clear some receive of at most 4096 bytes leaves the 4096 bytes of RecvQ |
| ReceiveStream.OneFrame | NetworkLibrary/src/NetServer.cpp:614-634 | a frame received in one piece is delivered if its payload has at most 1004 bytes, and otherwise copied past the end of the packet |
| ReceiveStream.LargePayloadPast | NetworkLibrary/include/XorPacketEncoder.h:22 | with the default limit a frame with a payload of 1005 bytes is accepted and copied past the end of the packet |
| ReceiveStream.StreamIsFeed | NetworkLibrary/src/NetServer.cpp:108-147 | while every chunk finds room behind what is held, one RecvQ delivers and ends as the stream's frames say, up to the first payload of more than 1004 bytes |
| ReceiveStream.StreamEndToEnd | NetworkLibrary/src/NetServer.cpp:108-147 | encode, concatenate, split so that every chunk finds room, receive into one RecvQ: all payloads in order and no overrun if and only if none has more than 1004 bytes |
| ReceiveStream.RoomAfter | NetworkLibrary/src/NetServer.cpp:140-144 | after any first part of an encoded stream with payloads of at most cap bytes, at most 5 + cap bytes are held, and the next chunk leaves RecvQ exactly if it exceeds GetFreeSize, or size - 20 when nothing is held |
| ReceiveStream.PastRecvQExactly | NetworkLibrary/src/NetServer.cpp:108-147 | of messages that fit, a stream of receives leaves RecvQ if and only if some chunk finds no room |
| ReceiveStream.NeverOverruns | NetworkLibrary/src/NetServer.cpp:108-147 | payloads of at most 1004 bytes, in chunks within what RecvPost offered, are all delivered, in order, with no write past a buffer, if and only if every chunk that comes when nothing is held has at most size - 20 bytes |
| RecvLoops.GetPacketMessage | NetworkLibrary/src/NetServer.cpp:614-634 | appends the decoded payload to the packet and leaves RecvQ at the next frame, fails exactly when the frame is not accepted, and reports exactly when the copy would leave the packet |
| RecvLoops.TakeMessage | NetworkLibrary/src/NetServer.cpp:116-139 | one turn of the loop: a payload for OnRecv, a kill, a copy past the packet, or nothing and RecvQ untouched, each in exactly its case |
| RecvLoops.DeliverAll | NetworkLibrary/src/NetServer.cpp:116-139 | the loop terminates and delivers, keeps and kills as Parse says, up to the first payload that no packet holds |
| RecvLoops.OnReceive | NetworkLibrary/src/NetServer.cpp:108-147 | for any chunk, a receive completion delivers what Parse finds in old rest and new bytes and keeps the rest, at the front of the buffer or at the header reserve if empty; it reports a write past RecvQ or past the packet exactly when there is one |
| RecvLoops.ReceiveAll | NetworkLibrary/src/NetServer.cpp:108-147 | the receives of one session, in place on one RecvQ, deliver and end as the function Stream says, for any list of chunks |
| ChatJobs.PresentExactly | Examples/ChatServer/Content.cpp:78-121 | with callbacks in order, a session has a character exactly when its join was handled and its leave was not |
| ChatJobs.OrderMeansExpected | Examples/ChatServer/Content.cpp:274-335 | jobs in session order never find a duplicate on join nor miss a character on message or leave |
| ChatJobs.SlotsMeanExpected | Examples/ChatServer/Content.cpp:43-60 | jobs that are, session by session, a prefix of the callbacks of a session slot are such jobs |
| ChatQueue.SessionOrder | Examples/ChatServer/Content.cpp:43-60 | in any run of the lock-free queue in which the enqueues for one session do not overlap, what Dequeue has handed out for the session is, in order, a prefix of what was enqueued for it |
| ChatQueue.QueuedMeansExpected | Examples/ChatServer/Content.cpp:43-121 | through a run of the queue in which each session's enqueues do not overlap and start in callback order, the content thread gets jobs it expects |
| ChatServerTheorems.CallsApart | Examples/ChatServer/Content.cpp:43-60 | in a run of all slots and the queue together, no thread is in an Enqueue for a session when a callback of that session starts one |
| ChatServerTheorems.ServerSound | Examples/ChatServer/Content.cpp:43-60 | every such run has a run of the queue in it, in which the enqueues of each session do not overlap and are, in order, the callbacks its slot has made |
| ChatServerTheorems.JobsFollowLog | Examples/ChatServer/Content.cpp:43-121 | at every moment of every such run, what the content thread has got for a session is, in order, a prefix of the callbacks the session has made |
| ChatServerTheorems.ServerMeansExpected | Examples/ChatServer/Content.cpp:43-121 | in every such run the content thread gets jobs it expects, with nothing assumed about their order |
| ChatHistory.WhoIsThere | Examples/ChatServer/Content.cpp:78-121 | after any number of jobs handled there is a character for exactly the sessions whose join was handled and whose leave was not |
| ChatHistory.ExpectedNeverMissing | Examples/ChatServer/Content.cpp:124-335 | with the jobs of each session in order no job handled takes the branch for a missing character |
| Content.ChatServer.CreateCharacter | Examples/ChatServer/Content.cpp:274-285 | a new session gets a character in no sector, recycled or new; a known one is left alone and null returned; the index agrees |
| Content.ChatServer.LeaveCharacter | Examples/ChatServer/Content.cpp:312-335 | the character leaves map and grid and is free again, or, unknown, the crash is reported; the index agrees |
| Content.ChatServer.EraseFromSector | Examples/ChatServer/Content.cpp:320-328 | the loop removes the character from one list, keeps everyone else in it, and touches no other list |
| Content.ChatServer.SectorMove | Examples/ChatServer/Content.cpp:172-219 | with the right account and a sector on the grid the character is there and nowhere else; off the grid it stays; the answer carries where it is; a wrong account is killed |
| Content.ChatServer.Login | Examples/ChatServer/Content.cpp:142-170 | sets the account of a character in no sector, crashes for one in a sector |
| Content.ChatServer.Say | Examples/ChatServer/Content.cpp:221-255 | broadcasts around the speaker for the right account and a length below 1000, kills for a wrong account, crashes for a longer one |
| Content.ChatServer.MessageControl | Examples/ChatServer/Content.cpp:124-272 | one message changes only its own character, answers, kills and crashes as each case says, and the index agrees; an unknown type kills and does nothing else, a heartbeat or a message to the server does nothing, a session without a character crashes |
| Content.ChatServer.SendPacketAround | Examples/ChatServer/Content.cpp:337-360 | sends to everyone in the nine sectors around any coordinates, skipping those off the grid |
| Content.ChatServer.BroadcastOnce | Examples/ChatServer/Content.cpp:337-360 | from any place, edges, corners and off the grid included, each character at most one sector away in both directions gets it exactly once, and nobody else |
| Content.ChatServer.OutsiderIsHeard | Examples/ChatServer/Content.cpp:251 | a speaker in no sector is heard exactly by those in column 0 around its stale row |
| Content.ChatServer.IndexAgrees | Examples/ChatServer/Content.cpp:183-211 | a character is once in the list of its sector and in no other list; one in no sector and a freed one are in none |
| Content.ChatServer.UpdateThread | Examples/ChatServer/Content.cpp:78-121 | over any jobs up to the first crash: the characters are the sessions that joined and have not left, also when it crashed; what was sent and whose session was killed is what the jobs handled ask for, one after the other; without a crash all were handled; with jobs in order no branch for a missing character is taken |

## Left out

- NetClient.cpp: the same session, send and framing machine, with Connect in the place of AcceptThread.
- Winsock, completion ports, CancelIoEx, Stop and time-outs: calls into the system, represented by completions that succeed or fail at the scheduler's choice; the crash branches for unexpected error codes are not modelled.
- Several slots at once: the session theorems are of one slot with an ID counter that others may advance; a session ID names one slot, and nothing but FreeSessionStack and the ID counter is shared between slots. `PacketRefs` and `ChatServerRun` run many slots together for what crosses them.
- LockFreeQueue.Clear: runs on an empty, unshared queue in InitSession; the session machine proves that it is empty.
- LockFreeMemoryPool's UseNodeCnt and TotalNodeCnt and the loop of Alloc that makes 300 nodes at a time.
- Queue nodes that come back while an operation is under way: the results on effects and their order are for nodes that are not used again, the reclamation results for one node at a time.
- Interleaving inside a call of the two-tier pool: the thread's own list is private to it, ChunckStack is the stack proved above, and the three counters are only read for display; pad bytes are left out.
- Packet's operators, one memcpy each, and Resize and the lock around Encode.
- Parsing of chat messages: a message arrives as its fields; ID, Nickname and the text are not modelled.
- CheckHeartBeat, the timer thread and LastRecvTime: driven by the clock.
- The Flag bit of a tagged pointer: nothing sets or reads it, and it is copied along with the rest.
- Logger, CrashDump, MonitoringTool, Config, statistics, ChatDummyClient and the benchmark programs.
