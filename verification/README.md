# NOS runtime: a verified model

NOS runs components inside one process and connects processes on one machine. Worker
threads own timers and a message queue and run the callbacks of the components placed on
them; messages travel in reference-counted buffers; a key-value engine, a shared-memory
ring, an IPC connection and a log ring serve them; a node manager loads, unloads and
replaces components while all this is going on.

Each of these parts is modelled twice over. What changes state step by step in the program
does so here: arrays changed in place, circular queues, index-linked chains, loops. Such a
method is proved equal to a function on values, and what the part is for is proved about
that function. What several threads do at once is a step relation in which every atomic
access is a step of its own, and its theorems are about every run.

| part | in-place form | meaning and theorems |
|---|---|---|
| timers | `TimerThread` | `TimerHeap`, `TimerFiring` |
| message queue, TX queue | `RingQueue.Queue` | `RingQueue` (stable filter) |
| wake-up of a thread | | `TimerSteps` (the heap as several threads see it), `RunLoop` (steps), `RunLoopRuns` (runs that go wrong) |
| buffers | `BufferPool`, `RefConservation` | the same modules |
| KV engine | `KvTable`, `KvEngine` | `KvRep` (chains and free stack), `KvLayout` (places in memory), `KvSpec` (bounded map, history) |
| shared-memory ring | `ShmChannel` | `ShmRing` (steps), `ShmNotify` (who hears of a message) |
| IPC connection | `IpcConn` | `IpcSpec` (events), `IpcRuns` (backoff), `IpcReplies` (which requests can be answered) |
| log ring | | `LogRing` (steps), `LogOrder`, `LogLoss` |
| node manager | `NodeMgr` | `NodeTimers`, `NodeSpec`, `NodeRegistry`, `NodeInv`, `NodeTables`, `NodeRuns`, `NodeCancel` (what an unload leaves of the timers), `NodeTheorems`, `NodeDangling` (a run that goes wrong) |

Verify the whole project with `dafny verify dfyconfig.toml`.

## What does not hold

Where a property one would expect is false of the program, the program was kept as it is;
a lemma says exactly when the property holds, or a lemma builds the run that breaks it.

- Stopping or deleting a timer puts the last heap node into its place and only sifts down.
  The heap survives if and only if the index is 0, or was the last one, or the moved node
  is not before its new parent (`TimerHeap.RemovalRestoresHeapIff`). Otherwise exactly one
  edge is broken, and a timer can fire after a later one
  (`TimerHeap.UnsafeRemovalDelaysATimer`).
- A periodic timer whose callback starts it again sits in the heap twice: the firing loop
  clears is_running before the callback and does not look at it when it re-arms
  (src/core/nos_scheduler.c:142-159). What the loop writes into the timer moves the slot it
  has already, so the heap can lose its order. Of a timer that sits twice, a stop and a
  cancel take one slot (`TimerHeap.RemovalLeavesIff`, `TimerHeap.CancelClearsIff`).
- A thread can oversleep a timer. It never does in a run in which every stop meets the
  condition above, no timer runs again when the firing loop re-arms it, and the loop does
  not look at the heap in the middle of a removal, which it does without the lock
  (`RunLoop.NeverOversleeps`). Each of the three is needed: one stop that does not meet the
  condition, and a thread sleeps until 10 over a timer due at 5
  (`RunLoopRuns.UnsafeStopOversleeps`); one timer that restarts itself, and it sleeps until
  210 over a timer due at 205 (`RunLoopRuns.RestartOversleeps`); one look between the two
  writes of a stop, and it sleeps until 20 over a timer due at 6
  (`RunLoopRuns.HalfStopOversleeps`).
- An unload or a reload can leave a slot of a timer of the component that is gone, even of
  one that its stop callback freed (`NodeDangling.RestartDangles`). It takes exactly one
  slot of each timer the component has on its thread, so none stays if and only if none of
  them sits twice (`NodeCancel.UnloadLeavesIff`, `NodeCancel.ReloadLeavesIff`). In runs in
  which no timer runs again at its re-arm, no slot dangles
  (`NodeTheorems.NoDanglingComponent`).
- A periodic timer with interval 0 whose owner is active keeps the firing loop from ending
  while the clock stands (`TimerFiring.LoopEndsIff`).
- A thread waits without a timeout if and only if it has no timer or takes its first for
  more than 2^31 - 1 ms away (`RunLoop.WaitsForeverIff`); the second happens
  (`RunLoopRuns.LongWaitNeverTimesOut`).
- A component registered between a start of pending components and the eventfd read that
  follows it, after a wake-up or on the fast path, can stay unstarted while the thread
  sleeps (`RunLoopRuns.StartCanBeLost`, `RunLoopRuns.FastStartCanBeLost`); those windows
  are the only ones (`RunLoop.StartLostOnlyIfSwallowed`).
- A message in the shared ring is stranded exactly when the only NOTIFY for it is lost
  while nobody drains the ring, and stays so exactly until the producer publishes another
  (`ShmNotify.StrandsIff`, `ShmNotify.AnnouncedIff`). A NOTIFY can be lost because its send
  fails (`ShmNotify.UnsentNotifyStrands`), or because the receiver has no buffer for it or
  no ring attached (`ShmNotify.DiscardedNotifyStrands`).
- The entries of a KV table lie apart in memory if and only if the last one begins below
  4 GiB (`KvLayout.EntriesApartIff`); in a larger table one of them comes to lie over the
  first.
- A KV table is found again by its name exactly if the name has at most 31 characters
  (`KvEngine.CreateAgainIff`).
- The close of an old link, found by the I/O thread after a sender has broken the link and
  failed to connect again, skips the wait of that failure (`IpcRuns.LateCloseSkipsBackoff`).
- A request takes the stamp of its link after its packet was received, without the lock
  (src/infra/nos_ipc_p2p.c:364, 446). A reply is accepted as if the request's link had
  stayed up exactly if the link did not flip in between
  (`IpcReplies.ReplyNeedsTheSameLink`); if a sender breaks it there and makes it again, the
  reply goes over the new link (`IpcReplies.SlowStampTakesTheNewLink`). After 2^31
  reconnects a reply to a request of the first link would be sent over the last
  (`IpcReplies.StaleReplyAfterWrap`).
- After one dropped log message, later messages can be published and never printed
  (`LogLoss.DropLosesAMessage`).

## Assumptions

- Memory is sequentially consistent. The code fences only the consumer's side of the
  wake-up (src/core/nos_scheduler.c:602-606).
- What the code does under a lock is one step, except that a stop, a delete or a cancel of
  timers is two, because the loop looks at the first slot without the lock. A release of a
  buffer is two steps in BufferPool, the decrement and the return under the lock
  (src/core/nos_buffer.c:131-134), and one in RefConservation. One step is also each mark
  of a connection as down, which the receive handler makes without the lock
  (src/infra/nos_ipc_p2p.c:406-421); the look at the state, the receipt of a packet and the
  stamp of a request are steps of their own. Queue compaction is one step with respect to
  the unlocked looks at the queue. A call of the node manager, and one turn of the firing
  loop in NodeSpec, is one step with respect to the worker threads. Calls on a KV table are
  one step each.
- A timer is started by one thread at a time: nos_timer_start looks at is_running before it
  takes the lock (src/core/nos_scheduler.c:649). A timer callback does not delete its own
  timer.
- In TimerThread.ProcessTimers the callbacks leave the heap and the owners alone; callbacks
  that start and stop timers, and the full heap they can bring about, are in RunLoop and in
  NodeSpec.Fire.
- Sockets, files, clocks, malloc and the callbacks of components are inputs: an oracle says
  what a send (of a control message too), a connect, a staged load or an allocation
  answers; the clock is a number.
- The calls on a KV table are those on a table no larger than its 32-bit offsets reach: its
  last entry begins below 4 GiB.
- Services have unique ids and each component is placed once. The first is checked by the
  manifest script, the second is not.
- Component callbacks call the scheduler with their own component pointer.
- Where the code calls a stop callback, the model counts a stop, also for a component that
  exported none.

## Model

| member | source | states |
|---|---|---|
| TimerHeap.SiftDownRepairs | src/core/nos_scheduler.c:116-129 | a heap with one bad node is a heap again after sifting that node down, from any level up |
| TimerHeap.SiftUpRepairs | src/core/nos_scheduler.c:105-114 | a heap with one bad upper edge is a heap again after sifting up |
| TimerHeap.RootIsMinimal | src/core/nos_scheduler.c:131-139 | the root expires no later than any other timer |
| TimerHeap.InsertKeepsHeap | src/core/nos_scheduler.c:658-659 | insertion keeps the heap |
| TimerHeap.InsertAddsOne | src/core/nos_scheduler.c:658-659 | insertion adds exactly the new timer |
| TimerHeap.RemoveAtDropsOne | src/core/nos_scheduler.c:673-675 | removal at an index drops exactly that timer |
| TimerHeap.RemovalRestoresHeapIff | src/core/nos_scheduler.c:673-675 | removal restores the heap if and only if the moved node is not before its new parent, or has none |
| TimerHeap.UnsafeRemovalBreaksOneEdge | src/core/nos_scheduler.c:693-695 | otherwise exactly the edge to the parent is broken, and one sift up would repair it |
| TimerHeap.RootMinimalAfterRemoval | src/core/nos_scheduler.c:673-675 | the root is minimal after a removal in any case |
| TimerHeap.UnsafeRemovalDelaysATimer | src/core/nos_scheduler.c:666-684 | a heap in which one stop makes a timer come out after a later one |
| TimerHeap.RebuildMakesHeap | src/core/nos_scheduler.c:362-364 | bottom-up sifting makes a heap of any array |
| TimerHeap.CancelYieldsHeap | src/core/nos_scheduler.c:346-366 | from any array, with timers in it any number of times, filter and rebuild leave a heap; what is gone is one slot of each timer of the owner, and nothing else |
| TimerHeap.CancelClearsIff | src/core/nos_scheduler.c:350-361 | the cancel leaves no slot of the owner's timers if and only if none of them sat twice |
| TimerHeap.RemovalLeavesIff | src/core/nos_scheduler.c:673-675 | after one slot of a timer is taken out another is left if and only if it sat twice; no other timer goes |
| TimerFiring.PopsExactlyTheDue | src/core/nos_scheduler.c:131-163 | from a heap the loop pops exactly the due timers, once each, in order of expiry |
| TimerFiring.PopsOnlyTheDue | src/core/nos_scheduler.c:131-163 | from an array in any order it pops due timers only, once each, leaves the others and those it re-armed, and ends at a root that is not due |
| TimerFiring.FiresExactly | src/core/nos_scheduler.c:145-147 | a callback runs once for each due timer with a callback and an active owner, and for no other |
| TimerFiring.LeavesExactly | src/core/nos_scheduler.c:149-161 | what stays is the timers that were not due and the periodic ones re-armed at now + interval |
| TimerFiring.LoopEndsIff | src/core/nos_scheduler.c:132-138 | the loop ends if and only if no due periodic timer of an active owner has interval 0 |
| TimerFiring.DueShrinks | src/core/nos_scheduler.c:139-160 | with positive periods each turn leaves one due timer less, in whatever order the array is |
| TimerFiring.StepProgress | src/core/nos_scheduler.c:139-160 | each turn, in whatever order the array is and however often timers sit in it, leaves fewer due timers or a smaller array, if no due timer of an active owner has period 0 |
| TimerThread.Thread.HeapifyUp | src/core/nos_scheduler.c:105-114 | the in-place loop is SiftUp |
| TimerThread.Thread.HeapifyDown | src/core/nos_scheduler.c:116-129 | the in-place loop is SiftDown |
| TimerThread.Thread.TimerStart | src/core/nos_scheduler.c:647-664 | inserts the timer at now + interval, which is also written into a slot it still has, or refuses a running timer or a full heap and changes nothing |
| TimerThread.Thread.TimerStop | src/core/nos_scheduler.c:666-685 | takes out the timer's first slot and clears its state; a slot is left exactly if it sat twice |
| TimerThread.Thread.TimerDelete | src/core/nos_scheduler.c:687-703 | the same if the timer runs on a thread; otherwise only clears its state, and a slot stays exactly if there was one |
| TimerThread.Thread.CancelByOwner | src/core/nos_scheduler.c:346-366 | from any array the heap becomes Cancel of it; running and owner are cleared on exactly the owner's timers, and none of them is left exactly if none sat twice |
| TimerThread.Thread.ProcessTimers | src/core/nos_scheduler.c:131-163 | from any array, without due periods of 0, the loop ends, fires what Fire says and leaves what it says; callbacks leave the heap alone here, so the heap-full branch is not reached |
| TimerSteps.StartedSound | src/core/nos_scheduler.c:647-659 | a start keeps what is known of the heap: once each the running timers, and in order, unless the timer was left in the heap |
| TimerSteps.RetimedSound | src/core/nos_scheduler.c:150 | writing the new expiry before the lock is taken keeps order and timers unless the timer is in the heap already |
| TimerSteps.AddedSound | src/core/nos_scheduler.c:157-159 | the re-arm keeps them unless the timer runs already |
| TimerSteps.RemovesSound | src/core/nos_scheduler.c:346-366 | each half of a stop, delete or cancel keeps them: in the middle of a RemovalSafe stop only the refilled slot may be too late, at its end the heap is in order |
| RingQueue.KeepIsStable | src/core/nos_scheduler.c:382-406 | the filter keeps exactly the matching positions, in order |
| RingQueue.KeepPartitions | src/core/nos_scheduler.c:382-406 | kept and dropped messages together are the queue |
| RingQueue.Queue.Push | src/core/nos_scheduler.c:456-460 | appends, or refuses when all slots but one hold messages and changes nothing |
| RingQueue.Queue.Pop | src/core/nos_scheduler.c:513-516 | takes the oldest message |
| RingQueue.Queue.Drop | src/core/nos_scheduler.c:368-413 | for any wrap position the rebuilt queue is the stable filter, starts at 0 and does not wrap; targeted messages are handed out for release once each |
| RingQueue.Queue.Len | src/infra/nos_ipc_p2p.c:126-129 | the number of messages for any head and tail |
| BufferPool.PushPullRoundTrip | src/core/nos_buffer.c:151-165 | push and pull undo each other, succeed exactly when there is room, keep the geometry |
| BufferPool.Bin.Take | src/core/nos_buffer.c:98-111 | pops a free chunk and lays it out |
| BufferPool.Bin.Decrement | src/core/nos_buffer.c:131 | the count goes down without the lock; who takes it to zero leaves a buffer that is neither in use nor free, and the bin stays well formed |
| BufferPool.Bin.Return | src/core/nos_buffer.c:132-148 | the second section puts exactly that buffer back and resets it, whatever was done to the bin in between |
| BufferPool.Bin.Release | src/core/nos_buffer.c:128-149 | both together: the last release returns the buffer to the stack, others only count |
| BufferPool.Bin.PushHeader | src/core/nos_buffer.c:151-157 | the header in place gives up headroom, or nothing changes |
| BufferPool.Bin.PullHeader | src/core/nos_buffer.c:159-165 | the header in place takes headroom back, or nothing changes |
| BufferPool.Pool.Alloc | src/core/nos_buffer.c:91-120 | takes from the first bin that is large enough and not empty; fails if there is none |
| BufferPool.Pool.FirstFitIsFirst | src/core/nos_buffer.c:96-98 | no earlier bin could have served |
| BufferPool.InitPool | src/core/nos_buffer.c:29-75 | a pool with bins is kept; otherwise one bin per configured size up to the first 0, all buffers free |
| BufferPool.NewPoolCountsNothing | src/core/nos_buffer.c:56-68 | a new pool counts no reference |
| RefConservation.HeldUpdate | src/core/nos_scheduler.c:452-461 | changing one queue changes the references held by all queues by just its difference |
| RefConservation.HeldZeroIff | src/core/nos_buffer.c:128-149 | nothing is held of a buffer if and only if it is in no queue |
| RefConservation.Transport.FreeIffNoReference | src/core/nos_buffer.c:128-149 | the count is owners plus occurrences in all queues; free if and only if that is 0 |
| RefConservation.Transport.Alloc | src/core/nos_buffer.c:91-120 | a new buffer has one owner; a failure changes no count |
| RefConservation.Transport.Send | src/core/nos_scheduler.c:452-469 | retains on success; BUSY changes nothing at all |
| RefConservation.Transport.Consume | src/core/nos_scheduler.c:508-538 | taking and releasing the head keeps the balance |
| RefConservation.Transport.Drop | src/core/nos_scheduler.c:368-413 | compaction releases each dropped message once |
| RunLoop.NoLostWakeup | src/core/nos_scheduler.c:571-636 | in every run, a blocked consumer with messages has its eventfd set or a sender that has yet to look or write |
| RunLoop.SenderWillWake | src/core/nos_scheduler.c:463-467 | such a sender does write, and epoll_wait then returns |
| RunLoop.NoLostStop | src/core/nos_scheduler.c:556-562 | a stop request reaches a blocked consumer |
| RunLoop.SafeStopsKeepOrder | src/core/nos_scheduler.c:611-615 | in every run whose stops are all RemovalSafe and in which no timer runs again at its re-arm, the heap is in order whenever its lock is free, also when the loop looks at it at such a moment |
| RunLoop.UpsetOnlyByUnsafeStop | src/core/nos_scheduler.c:666-685 | in every step that re-arms no running timer, only a stop that is not RemovalSafe can upset the order |
| RunLoop.TimeoutInTimeIff | src/core/nos_scheduler.c:611-615 | with intervals up to 2^31 - 1 ms the computed timeout is in time for every timer if and only if slot 0 is the earliest or is due |
| RunLoop.DeadlineInTime | src/core/nos_scheduler.c:611-617 | in every run, if the heap was in order and no removal half done when slot 0 was read, the deadline of a blocked consumer is no later than any expiry, but for the time from reading the clock to epoll_wait, or a wake-up is coming |
| RunLoop.NeverOversleeps | src/core/nos_scheduler.c:611-617 | the same in every run whose stops are all RemovalSafe, in which no timer runs again at its re-arm, and no look falls into the middle of a removal |
| RunLoopRuns.UnsafeStopOversleeps | src/core/nos_scheduler.c:666-685 | a run, with the other two conditions met, in which one unsafe stop makes a blocked consumer sleep past a timer with no wake-up coming |
| RunLoopRuns.RestartOversleeps | src/core/nos_scheduler.c:142-159 | a run without any stop in which a periodic timer started from its own callback makes it do so |
| RunLoopRuns.HalfStopOversleeps | src/core/nos_scheduler.c:611-615 | a run in which every stop is RemovalSafe and no timer restarts, and a look between the two writes of a stop makes it do so |
| RunLoop.WaitsForeverIff | src/core/nos_scheduler.c:611-615 | the loop goes to wait without a timeout if and only if there is no timer or slot 0 is more than 2^31 - 1 ms away |
| RunLoopRuns.LongWaitNeverTimesOut | src/core/nos_scheduler.c:614 | for every such interval a run that blocks without a timeout while the timer waits |
| RunLoop.StartLostOnlyIfSwallowed | src/core/nos_scheduler.c:316-329 | a registered component is not slept over, unless its registration was there when the eventfd was last emptied |
| RunLoopRuns.SwallowedStartIsLost | src/core/nos_scheduler.c:583-635 | from a state about to empty the eventfd, after a wake-up or on the fast path, with such a registration, the loop can block with the component unstarted and no wake-up coming |
| RunLoopRuns.StartCanBeLost | src/core/nos_scheduler.c:617-635 | a run from the start in which that happens after a wake-up |
| RunLoopRuns.FastStartCanBeLost | src/core/nos_scheduler.c:582-599 | a run in which it happens on the fast path |
| ShmRing.RingIsFifo | src/infra/shm/nos_shm_ipc.c:142-185 | under every interleaving what is delivered is a prefix of what was written, at most 255 are in flight, and the break on an unready slot is not taken |
| ShmRing.StepRefinesFifo | src/infra/shm/nos_shm_ipc.c:142-185 | each step enqueues, dequeues or leaves the FIFO alone |
| ShmRing.ProducerLeavesSlotAlone | src/infra/shm/nos_shm_ipc.c:154-158 | no producer step touches the slot being delivered |
| ShmRing.LateLengthIsRight | src/infra/shm/nos_shm_ipc.c:176-181 | the length read after head was published is still that of the delivered message; rx_bytes is the sum of delivered lengths |
| ShmRing.FullIff | src/infra/shm/nos_shm_ipc.c:145-152 | the write is refused if and only if 255 messages were in flight at the head load |
| ShmRing.EmptyIff | src/infra/shm/nos_shm_ipc.c:170-172 | the drain ends at the equality test if and only if nothing is in flight |
| ShmNotify.StrandsIff | src/infra/nos_ipc_p2p.c:95-108 | a step strands messages if and only if it loses the only announcement of a ring nobody is draining; stranded messages stay so, undelivered, until the producer publishes another |
| ShmNotify.AnnouncedIff | src/infra/nos_ipc_p2p.c:267-281 | over every run messages in the ring are announced at every moment if and only if no step does that |
| ShmNotify.NoStrandedMessage | src/infra/nos_ipc_p2p.c:390-394 | in a run that loses no NOTIFY, while messages are in flight a NOTIFY is in the socket, about to be sent, or a drain will look at tail again |
| ShmNotify.UnsentNotifyStrands | src/infra/nos_ipc_p2p.c:95-108 | a run from a new ring in which a NOTIFY is not sent and both sides end idle with a message in the ring |
| ShmNotify.DiscardedNotifyStrands | src/infra/nos_ipc_p2p.c:438-443 | a run in which the NOTIFY arrives and is thrown away, with the same end |
| ShmChannel.Channel.Write | src/infra/shm/nos_shm_ipc.c:142-162 | appends the bytes, refuses lengths of 0 or over 8192, reports a full ring at 255 |
| ShmChannel.Channel.Drain | src/infra/shm/nos_shm_ipc.c:164-185 | delivers all messages in order and empties the ring |
| KvSpec.HoldsLastPuts | src/infra/db/nos_kv.c:100-182 | after any history the table holds exactly the last accepted put of each key not deleted since, never more than its capacity |
| KvSpec.BusyIff | src/infra/db/nos_kv.c:138-141 | after any history a call answers BUSY if and only if it puts a fitting value under a key that is not live while as many keys are live as there are entries |
| KvSpec.SubscribersAreCurrent | src/infra/db/nos_kv.c:219-288 | the list of a key has no duplicates and holds exactly those whose subscription is running |
| KvSpec.SubscribersNewestFirst | src/infra/db/nos_kv.c:242-246 | the list is in order of subscription, newest first |
| KvSpec.NotifiesCurrentSubscribers | src/infra/db/nos_kv.c:108-133 | an update notifies exactly the current subscribers, once each, newest first, with the value the table now holds; an insert nobody |
| KvSpec.ReinsertForgetsSubscribers | src/infra/db/nos_kv.c:303-317 | delete and re-insert starts with no subscribers |
| KvRep.PoolIsPartitioned | src/infra/db/nos_kv.c:80-85 | every pool index is on the free stack or on one chain, that of its key's bucket, and at one place there |
| KvRep.FoundIs | src/infra/db/nos_kv.c:108-111 | an entry on a chain is the one entry of its key |
| KvRep.PresentIs | src/infra/db/nos_kv.c:103-111 | a key of the table is on the chain of its bucket |
| KvRep.NewGood | src/infra/db/nos_kv.c:70-85 | a new table is well formed and stands for the empty map |
| KvRep.SetEntryGood | src/infra/db/nos_kv.c:112-113 | an update in place keeps chains and free stack and changes one key of the map |
| KvRep.InsertGood | src/infra/db/nos_kv.c:143-153 | an insert keeps free stack and chains a partition of the pool and adds one key to the map |
| KvRep.RemoveGood | src/infra/db/nos_kv.c:303-317 | an unlink keeps free stack and chains a partition of the pool and takes one key from the map |
| KvTable.Table.CountIsSize | src/infra/db/nos_kv.c:80-85 | used_count is the size of the map and used_count + free_top + 1 the capacity |
| KvTable.Table.Find | src/infra/db/nos_kv.c:108-131 | the walk along a chain ends and finds the key exactly if the table has it |
| KvTable.Table.PutValue | src/infra/db/nos_kv.c:100-157 | does to the map what KvSpec says, for any hash function |
| KvTable.Table.GetValue | src/infra/db/nos_kv.c:159-182 | reads what KvSpec says, cut to the caller's buffer |
| KvTable.Table.Delete | src/infra/db/nos_kv.c:290-328 | does to the map what KvSpec says |
| KvTable.Table.AddSubscriber | src/infra/db/nos_kv.c:219-254 | does to the map what KvSpec says |
| KvTable.Table.DropSubscriber | src/infra/db/nos_kv.c:256-288 | does to the map what KvSpec says |
| KvLayout.EntriesApartIff | src/infra/db/nos_kv.c:95-98 | different entries share no byte if and only if the last one begins below 4 GiB |
| KvTable.Table.EntriesApart | src/infra/db/nos_kv.c:95-98 | the entries of a table as modelled are separate places |
| KvTable.BucketCount | src/infra/db/nos_kv.c:71-72 | the least doubling of 1024 that the capacity does not exceed, without overflow up to 2^31 |
| KvEngine.CreateAgainIff | src/infra/db/nos_kv.c:45-66 | a table is found again by its name if and only if the name has at most 31 characters |
| KvEngine.Engine.TableCreate | src/infra/db/nos_kv.c:41-93 | returns the table of that name, or a new one, or none at 32 tables or for a zero size; the new one is an empty map if and only if its last entry begins below 4 GiB |
| IpcSpec.PumpSendsTheRun | src/infra/nos_ipc_p2p.c:261-307 | a pump sends exactly the longest front run of messages that go, keeps the rest in order, and drops the link exactly if the first that stayed met a failure |
| IpcSpec.RunIsLongest | src/infra/nos_ipc_p2p.c:267-305 | that run is the longest |
| IpcSpec.AcceptedIsSentThenQueued | src/infra/nos_ipc_p2p.c:554-585 | over every run accepted messages are those sent followed by those queued, in order |
| IpcSpec.RingAndNoticePaired | src/infra/nos_ipc_p2p.c:271-281 | the send of a NOTIFY, lost or not, follows every ring message at once and nothing else, and the ring carries only plain messages that fit |
| IpcRuns.DelayDoubles | src/infra/nos_ipc_p2p.c:147-151 | min(100 * 2^(k-1), 5000) goes from k to k + 1 exactly by the code's capped doubling |
| IpcRuns.AttemptsKeepTheirDistance | src/infra/nos_ipc_p2p.c:147-158 | over every run, the k-th failure in a row sets that wait, and attempts in a streak keep it unless a close came late |
| IpcRuns.AttemptMadeIff | src/infra/nos_ipc_p2p.c:215-217 | within a streak an attempt is made if and only if the wait is over or the link was marked down, although not up, since the last one |
| IpcRuns.LateCloseSkipsBackoff | src/infra/nos_ipc_p2p.c:465-474 | a run in which the reader sees a link up that a sender then breaks and fails to make again, and its late close skips the wait |
| IpcReplies.NoFlipIffStayedUp | src/infra/nos_ipc_p2p.c:131-145 | the link did not flip if and only if it was up all along |
| IpcReplies.RequestsHandled | src/infra/nos_ipc_p2p.c:446-456 | every request of a run was received over a link that was up and stamped later with the stamp the connection had then |
| IpcReplies.ReplyAcceptedIff | src/infra/nos_ipc_p2p.c:309-330 | a reply to a request of a run is accepted if and only if the link is up, has flipped a multiple of 2^32 times since the request was stamped, and the queue has room |
| IpcReplies.ReplyNeedsTheSameLink | src/infra/nos_ipc_p2p.c:364 | while stamps have not come round: if no flip fell between receipt and stamp, accepted if and only if the link stayed up since receipt and there is room; if one did, the link did not stay up, and the reply is accepted if it is up now and has not flipped since the stamp |
| IpcReplies.SlowStampTakesTheNewLink | src/infra/nos_ipc_p2p.c:446-456 | a run in which the link is broken and made again between receipt and stamp, and the reply is accepted |
| IpcReplies.StaleReplyAfterWrap | src/infra/nos_ipc_p2p.c:144 | a run in which stamps have come round and a stale reply is accepted |
| IpcConn.Connection.Disconnect | src/infra/nos_ipc_p2p.c:131-145 | link down, ring gone, stamp up by one modulo 2^32, queue kept |
| IpcConn.Connection.ConnectFailed | src/infra/nos_ipc_p2p.c:147-158 | the new delay, deadline and state |
| IpcConn.Connection.Connect | src/infra/nos_ipc_p2p.c:215-256 | no attempt in the wait; else the state of a failed or a made link |
| IpcConn.Connection.Enqueue | src/infra/nos_ipc_p2p.c:558-577 | BUSY at 1023 and nothing changed, else queued and a connection attempted if the link is down |
| IpcConn.Connection.Reply | src/infra/nos_ipc_p2p.c:309-330 | refused unless up and of the same stamp |
| IpcConn.Connection.Process | src/infra/nos_ipc_p2p.c:261-307 | the loop ends and is the pump |
| IpcConn.Connection.Passive | src/infra/nos_ipc_p2p.c:519-549 | an accepted connection starts up, with stamp 1 |
| IpcConn.Connection.AttachRing | src/infra/nos_ipc_p2p.c:378-389 | an offered ring is attached unless there is one |
| LogRing.LogIsSafe | src/infra/log/nos_log.c:65-127 | in every run a slot has at most one writer or reader; finished calls are published or counted as dropped; lines are whole published messages, none printed twice |
| LogRing.OneOwner | src/infra/log/nos_log.c:108-126 | a slot being written has no second writer and no reader |
| LogRing.DrainedIff | src/infra/log/nos_log.c:67-85 | after the consumer's exit everything published was printed if and only if no slot is ready |
| LogRing.WrapKeepsTheSlot | src/infra/log/nos_log.c:100 | 32-bit wrap of the indices changes no slot |
| LogOrder.NextInLine | src/infra/log/nos_log.c:67-71 | with one logging thread and no drops, the slot at the read index is ready exactly if there is a next message, and holds it |
| LogOrder.PrintsInCallOrder | src/infra/log/nos_log.c:65-127 | with one logging thread and no drops the k-th line is the k-th call |
| LogOrder.ExitsDrained | src/infra/log/nos_log.c:67-86 | and when the consumer exits everything published has been printed |
| LogLoss.DropLosesAMessage | src/infra/log/nos_log.c:67-112 | a run with one drop that ends with a published message never printed |
| NodeRegistry.UnbindForgets | src/core/nos_scheduler.c:415-423 | swap with the last entry takes out exactly the service |
| NodeRegistry.UnbindAllForgets | src/core/nos_node_mgr.c:156-164 | exactly the services of the component leave the registry |
| NodeRegistry.BindSets | src/core/nos_scheduler.c:290-301 | the service is bound to the provider, the others are as before |
| NodeRegistry.BindAllSets | src/core/nos_node_mgr.c:146-154 | entries of the component's services name the new provider, the others are as before, none is lost |
| NodeTables.TakeOffMembers | src/core/nos_scheduler.c:331-344 | exactly the component leaves the list |
| NodeTimers.CancelClearsIff | src/core/nos_scheduler.c:346-366 | the cancel takes one slot of each timer the owner has on the thread, so it leaves none if and only if none sits there twice |
| NodeTimers.CancelledKeeps | src/core/nos_scheduler.c:346-366 | from clean heaps every slot that is left is the one slot of a running timer of a component that stays |
| NodeTimers.StartedKeeps | src/core/nos_scheduler.c:647-664 | a start by a listed component keeps the heaps clean |
| NodeTimers.DeletedKeeps | src/core/nos_scheduler.c:687-703 | a delete keeps the heaps clean: no slot of the freed timer is left |
| NodeInv.RetireKeeps | src/core/nos_node_mgr.c:18-31 | a stopped and freed instance joins the stopped ones once |
| NodeInv.CannotArm | src/core/nos_scheduler.c:272-288 | a component on no thread's list starts no timer |
| NodeInv.ActsTakeExactly | src/core/nos_scheduler.c:666-703 | from clean heaps the code of a component on no list takes away exactly the slots of the timers it stops or deletes |
| NodeInv.LooseStays | src/core/nos_scheduler.c:666-703 | a slot of a cancelled timer stays whatever such code does, also if it deletes the timer |
| NodeInv.FireCalm | src/core/nos_scheduler.c:131-163 | a turn of the firing loop, with callbacks that create, start, stop and delete timers and a heap that may be full, keeps the heaps clean unless the timer runs again at its re-arm |
| NodeRuns.PlaceKeeps | src/core/nos_node_mgr.c:113-144 | boot placement, with every failure, keeps all tables in agreement |
| NodeRuns.RouteKeeps | src/core/nos_node_mgr.c:166-191 | routing keeps all tables in agreement |
| NodeRuns.UnloadKeeps | src/core/nos_node_mgr.c:193-212 | unload keeps all tables in agreement, and clean heaps clean |
| NodeRuns.ReloadKeeps | src/core/nos_node_mgr.c:214-270 | reload, whichever way the staged load goes, keeps all tables in agreement, and clean heaps clean |
| NodeRuns.ReloadDoes | src/core/nos_node_mgr.c:237-270 | after a good staged load the swap always goes through |
| NodeTheorems.NoDanglingComponent | src/core/nos_node_mgr.c:113-270 | over every run each registry entry, list place and loaded entry is a live component on the right thread; and if no timer ran again at its re-arm, each heap slot is a live timer of a live component of that thread |
| NodeTheorems.RestartedIff | src/core/nos_scheduler.c:142-159 | over every run the heaps are marked as possibly doubled if and only if some turn of the firing loop re-armed a timer its callback had started again |
| NodeDangling.RestartDangles | src/core/nos_scheduler.c:346-366 | a run from the start in which a timer is doubled that way and an unload, whose stop callback deletes it, leaves a slot of the freed timer |
| NodeTheorems.StoppedOnceIffGone | src/core/nos_node_mgr.c:18-45 | stop is called once on each instance that is gone, on no other |
| NodeTheorems.DispatchIsSafe | src/core/nos_scheduler.c:528-534 | the provider a worker follows is NULL or live, also for a remote entry |
| NodeTheorems.UnloadForgetsExactly | src/core/nos_node_mgr.c:193-212 | unload calls stop once and takes out exactly the component's entries and memory, and from clean heaps exactly its timers and those its stop stops or deletes |
| NodeCancel.UnloadLeavesIff | src/core/nos_node_mgr.c:193-212 | from any state unload takes exactly one slot of each timer the component has on its thread, and leaves none anywhere if and only if that was the only one |
| NodeTheorems.ReloadRebindsExactly | src/core/nos_node_mgr.c:237-270 | reload stops the old instance once and rebinds its services; all other entries stay, and new ones are for services of that component only; from clean heaps exactly the old instance's timers and those the callbacks stop or delete are gone |
| NodeCancel.ReloadLeavesIff | src/core/nos_node_mgr.c:237-270 | from any state reload takes exactly one slot of each timer the old instance has on its thread that the new one does not touch, and leaves none if and only if that was the only one |
| NodeTheorems.FailedReloadKeepsTheOld | src/core/nos_node_mgr.c:229-234 | a failed staged load leaves the old component in service; only the failed instance is stopped |
| NodeTheorems.NoMessagesLeft | src/core/nos_scheduler.c:368-413 | after an unload the thread's queue holds no message for the component's services |
| NodeMgr.NodeManager.RegisterProvider | src/core/nos_scheduler.c:290-301 | the array update is Bind; refused only when new and full |
| NodeMgr.NodeManager.UnregisterProvider | src/core/nos_scheduler.c:415-423 | the array update is Unbind |
| NodeMgr.NodeManager.RegisterRemote | src/core/nos_scheduler.c:303-314 | the array update is BindRemote |
| NodeMgr.NodeManager.UnregisterComponent | src/core/nos_scheduler.c:331-344 | the list loses the component, or an error if it has none |
| NodeMgr.NodeManager.TimerStart | src/core/nos_scheduler.c:647-656 | accepted only for a component on some thread's list; refused for a running timer or a full heap |
| NodeMgr.NodeManager.TimerStop | src/core/nos_scheduler.c:666-685 | the timer's own thread is tried first, and one slot goes |
| NodeMgr.NodeManager.TimerDelete | src/core/nos_scheduler.c:687-703 | one slot goes if the timer runs, then its memory |
| NodeMgr.NodeManager.DropMessages | src/core/nos_scheduler.c:368-413 | the stable filter by registry, then manifest |
| NodeMgr.NodeManager.PlaceComponent | src/core/nos_node_mgr.c:122-141 | the in-place steps are Place |
| NodeMgr.NodeManager.SetupRouting | src/core/nos_node_mgr.c:166-191 | the loop is Route over all services |
| NodeMgr.NodeManager.CloseUp | src/core/nos_node_mgr.c:208-209 | the loaded table closes up over the freed place |
| NodeMgr.NodeManager.UnloadComponent | src/core/nos_node_mgr.c:193-212 | the in-place steps are Unload |
| NodeMgr.NodeManager.ReloadComponent | src/core/nos_node_mgr.c:214-270 | the in-place steps are Reload |

## Left out

- Weak memory: the step relations interleave sequentially consistent accesses.
- Liveness of the socket reader: one packet is taken per edge-triggered event
  (src/infra/nos_ipc_p2p.c:400-460); only safety of the state is modelled.
- Order between ring and socket: when the ring is full a message takes the socket and can
  be overtaken; order is claimed on each path and at the sender's queue.
- A receiver whose ring was never attached throws every NOTIFY away; that the ring then
  fills and the sender falls back to the socket is not followed.
- Messages in the shared ring when a link goes down are lost with it; delivery across
  reconnects is not claimed.
- KV calls on different buckets at once: free_top and used_count are shared under
  per-bucket locks, so calls are taken as atomic.
- KV calls with a null value, nos_kv_get_ptr and its lock handle, and capacities above 2^31,
  for which the doubling loop does not end.
- KV subscribers that change the table from their callback.
- RefConservation.Transport.FreeIffNoReference: is stated between whole releases; while one
  is between its two sections its buffer is not free yet (BufferPool).
- KV tables whose last entry begins at 4 GiB or above: KvLayout says what is wrong with
  them, KvEngine makes them, and no call on them is described.
- Buffer sizes for which size + headroom exceeds 32 bits; allocation of the pool's memory.
- The table of connections, the accept path and the exchange of ring names: one connection
  is modelled with its events.
- Clocks of 64 bits coming round.
- The value of the murmur hash: any total function does.
- Start of the node manager's management thread, file descriptors of a thread, dlopen
  handles: no other table refers to them.
- Order of timers in the node manager: there a heap is the multiset of its slots; order and
  in-place form are in TimerThread.
- What the code does once it follows a pointer to a freed timer or component: such a slot
  belongs to nobody in the model, and the firing loop takes no step over it.
- Access of a worker to a component while it is unloaded: calls are one step each.
- Filter levels of the log: a call below its level never reaches the ring. The text of a
  message is any four fields, written and read one by one.
- Reply contexts and their own count; what counts here is buffers.
- Statistics, memory usage and dump functions, the CLI, the manager process, manifest
  generation and the sample components: output or table lookups.
- NodeTheorems.NoMessagesLeft: holds when the scratch queue of the drop could be
  allocated; without it the code drops nothing, and neither does the model.
- TimerThread.Thread.ProcessTimers: is stated for callbacks that start and stop no timers,
  because what they do to the objects of the heap is theirs; the turn with such callbacks
  is NodeSpec.Fire, and their interleaving with the loop is RunLoop.
- RunLoop.NeverOversleeps: allows for the time between reading the clock and entering
  epoll_wait, which the code does not account for.
