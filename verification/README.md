# Verified model of the Skynet runtime core

Skynet runs services: each has a context, a handle, and a message queue. Worker
threads take queues from a global queue, dispatch one message of a queue at a
time, and put the queue back. Messages come from other services, from a timer
thread and from a socket thread. This project models the parts of that runtime
whose correctness is not visible in any single function, and proves what they
guarantee together.

| file | what it models |
|---|---|
| `Sequences.dfy`, `Bits.dfy` | counting and filtering sequences; C bit operations and what masks mean for division |
| `MessageQueue.dfy` | one service's queue: a value for each locked section of `skynet_mq.c`, and the growable ring that implements it |
| `Scheduler.dfy` | the scheduling protocol as a state machine for any number of services and threads; one step is one locked section or one atomic operation |
| `SchedulerInvariant.dfy`, `SchedulerSteps.dfy` | its inductive invariant, and the proof that each of the 23 steps keeps it |
| `SchedulerRuns.dfy` | what follows on every run: exclusive dispatch, wakeups, lifetimes, message order |
| `SchedulerSends.dfy` | that a queue receives what was sent to it, once and unchanged |
| `SchedulerLock.dfy`, `SchedulerSessions.dfy` | the session lock on every run: what it holds back, and how it ends |
| `SchedulerProgress.dfy` | that threads can always get to a waiting message, and to freeing the queue of a retired service |
| `GlobalQueue.dfy` | the lock-free ring below the global queue, one memory access per step |
| `GlobalQueueProgress.dfy` | what undisturbed pushes and pops achieve, and why a pop gives up |
| `GlobalQueueReuse.dfy` | a run that shows why one of the ring's hypotheses is needed |
| `RwLock.dfy`, `RwLockRequests.dfy` | the reader/writer spinlock of the handle table, by its words and by what its callers asked for |
| `Clock.dfy` | what a timer should do, on a plain list of pending events |
| `Placement.dfy` | where the timing wheel keeps an event, and how that changes at a carry |
| `TimerList.dfy`, `Timer.dfy` | the linked lists and the wheel, refining the list clock; the polling of the system clock |
| `TimerRuns.dfy` | whole runs of the wheel: against the list clock, and against true time |
| `Sender.dfy` | the sending side of a socket as a value: the lists, the wire, and what keeps them in step |
| `Connection.dfy` | a socket as a value: what a send, an attempt to send, a close and an end of stream do to it, with `write` as an arbitrary script of results |
| `ConnectionRuns.dfy`, `ConnectionOrder.dfy` | what holds over every sequence of those events; the two priorities |
| `ConnectionProgress.dfy` | what each event must achieve, given the results of `write` |
| `WriteBuffer.dfy`, `Socket.dfy` | the linked write buffers and the operations of `socket_server.c` on them, each refining the value's |
| `Names.dfy`, `Handles.dfy` | the sorted name index and the doubling handle table, agreeing with a linear search and with a map |

A *token* of a queue is an entry for it in the global queue, or a thread that
holds it: the worker that popped it, or its creator until it publishes it. The
protocol rests on each queue having at most one.

Three conventions:

- The asserts of `skynet_mq_lock` and of the UNLOCK command are conditions on
  the service that issues the command, so they guard those steps. Three more
  asserts are assumed, as conditions on the callers: that a slot is not
  reserved when it is closed (socket_server.c:242) and is reserved when it gets
  a descriptor (socket_server.c:279), and that the handle table does not grow
  past 2^24 slots (skynet_handle.c:62). The assert of `send_socket`
  (socket_server.c:524) can fail; the third finding below says when. That the
  message given to a push is not null (skynet_mq.c:241) has no counterpart. The
  other asserts in the functions modelled here are proved never to fail.
- Inputs from outside the modelled code are parameters: the results of `write`,
  the readings of the clock, whether the event pool accepts a descriptor, and
  the order in which threads move.
- The comment above `send_buffer` says that it closes a half-closed socket when
  both lists are empty. The code gets there only on a call that finds the low
  list already empty; a call that itself empties the low list leaves the close
  to a later one. The model follows the code.

Four findings are stated as exact conditions.

- `Timers.ElapsedExact`: the tick count of a poll is right if and only if less
  than 2^24 seconds passed since the last one.
- `GlobalQueue.EmptyTestExact`: the emptiness test of the global ring is right
  if and only if the number of outstanding tickets is not a nonzero multiple of
  65536. `SchedulerRuns.GlobalQueueBounded` bounds the entries of the global
  queue by the queues not yet freed, so the condition cannot fail while there
  are fewer than 65536 of these.
- `ConnectionRuns.SendAssertFails`: the assert of `send_socket` fails if and
  only if a listening socket is sent to before it is closed. A service gets
  there by sending to the id of its own listening socket, which
  `socket_server_send` lets through.
- `SchedulerRuns.NoUseAfterFree`: a thread works on a deleted context if and
  only if it is the creator, has given up its reference, and nobody else keeps
  the context. This happens when another service kills a new one while it is
  being launched (`SchedulerRuns.CreatorMayUseDeleted`), and only then
  (`SchedulerRuns.CreatorSafe`).

## Model

| member | source | states |
|---|---|---|
| `MessageQueues.RingAppend` | skynet-src/skynet_mq.c:240-257 | storing at the tail appends to the ring read as a sequence; when the tail catches up with the head the full ring, unrolled from the head, is the old contents and the new message |
| `MessageQueues.RingPrepend` | skynet-src/skynet_mq.c:218-231 | storing in the slot before the head prepends, provided that slot is not the tail's |
| `MessageQueues.RingGrown` | skynet-src/skynet_mq.c:183-195 | growing with one slot left, as `_pushhead` does, and stepping the tail back keeps the contents |
| `MessageQueues.MessageQueue.constructor` | skynet-src/skynet_mq.c:102-115 | a new queue is empty and flagged as in the global queue, so that its creator holds its one token |
| `MessageQueues.MessageQueue.Length` | skynet-src/skynet_mq.c:138-151 | the number of messages, always below the capacity |
| `MessageQueues.MessageQueue.Pop` | skynet-src/skynet_mq.c:158-177 | takes the oldest message, or marks an empty queue idle |
| `MessageQueues.MessageQueue.Expand` | skynet-src/skynet_mq.c:183-195 | doubles the capacity and stores the old ring, read once around from its head, from position 0 on |
| `MessageQueues.MessageQueue.Unlock` | skynet-src/skynet_mq.c:201-211 | ends the session lock, waking the queue exactly if its callback has returned |
| `MessageQueues.MessageQueue.PushHead` | skynet-src/skynet_mq.c:218-233 | prepends, growing when only one slot is free, and unlocks |
| `MessageQueues.MessageQueue.Push` | skynet-src/skynet_mq.c:240-266 | appends and wakes an idle unlocked queue; a message of the locked session goes to the front and unlocks |
| `MessageQueues.MessageQueue.Lock` | skynet-src/skynet_mq.c:273-280 | records the session and leaves the messages alone |
| `MessageQueues.MessageQueue.PushGlobal` | skynet-src/skynet_mq.c:317-329 | hands the queue back unless it is locked, in which case it is parked |
| `MessageQueues.MessageQueue.MarkRelease` | skynet-src/skynet_mq.c:335-343 | marks the queue released and publishes it unless it is already there |
| `MessageQueues.MessageQueue.Drop` | skynet-src/skynet_mq.c:349-359 | empties the queue and reports how many messages it discarded |
| `SchedulerSteps.WorkerFits` | skynet-src/skynet_server.c:272-292 | looking up the context of a queue and popping a message keep the references, tokens and flags of the service accounted for |
| `SchedulerSteps.SenderFits` | skynet-src/skynet_server.c:209-232 | so do a push, in every state of the flags and whoever holds the queue, and a grab that pushes nothing; which message is pushed is the subject of `SchedulerSends.PushDelivers` |
| `SchedulerSteps.CallbackFits` | skynet-src/skynet_server.c:294-306 | locking and unlocking a session and the end of a dispatch keep the references and the one token accounted for; what an unlock and a return do is the subject of `SchedulerSessions.UnlockEnds` and `SchedulerSessions.ReturnHandsOn` |
| `SchedulerSteps.DropReferenceFits` | skynet-src/skynet_server.c:197-203 | giving up a reference keeps the count equal to the references held and makes at most one thread the deleter |
| `SchedulerSteps.MarkReleasedFits` | skynet-src/skynet_server.c:186-191 | deleting a context leaves its queue with exactly one token, whichever state the flags were in |
| `SchedulerSteps.RetireFits` | skynet-src/skynet_handle.c:80-106 | taking a handle off the table gives up one reference; a creator whose init function failed keeps its token for the release of the queue |
| `SchedulerSteps.ReleaseFits` | skynet-src/skynet_mq.c:349-378 | a queue without context is put back until it is marked, then drained and freed, and its token ends with it |
| `SchedulerSteps.FoundIsOwn` | skynet-src/skynet_server.c:272-285 | the context a worker finds for a queue's handle is that queue's own |
| `SchedulerSteps.StepKeepsInv` | skynet-src/skynet_server.c:113-310 | every step of any thread keeps the invariant relating reference counts, tokens, flags, releases and messages |
| `SchedulerSteps.AssertsNeverFail` | skynet-src/skynet_mq.c:201-343 | under the invariant no assert of the protocol fails, whichever step comes next |
| `SchedulerRuns.RunKeepsInv` | skynet-src/skynet_server.c:113-310 | the invariant holds in every reachable state |
| `SchedulerRuns.ExclusiveDispatch` | skynet-src/skynet_server.c:139-310 | on every run no two threads are at once in the callback or init function of one service, or about to enter it: what `CHECKCALLING_BEGIN` checks |
| `SchedulerRuns.TokenCount` | skynet-src/skynet_mq.c:240-343 | a queue never has two tokens; it has one when released or flagged 1 or 2, none when freed or when unreleased and flagged 0 or 3 |
| `SchedulerRuns.NoLostWakeup` | skynet-src/skynet_mq.c:158-177 | a queue with messages and no session lock always has a token, until it is freed |
| `SchedulerRuns.GlobalQueueBounded` | skynet-src/skynet_mq.c:60-96 | the global queue never holds more entries than there are queues not yet freed |
| `SchedulerRuns.PoppedInTurn` | skynet-src/skynet_mq.c:70-96 | a queue with k others before it in the global queue goes to the worker that makes pop number k + 1 |
| `SchedulerRuns.NoAssertFails` | skynet-src/skynet_mq.c:308-343 | on every run the asserts of force_push, pushglobal, mark_release, of `_unlock` under a push, of `q == ctx->queue` and of `ctx->init` hold |
| `SchedulerRuns.NoUseAfterFree` | skynet-src/skynet_server.c:144-219 | no thread works on a freed queue; a thread finds the context it works on deleted exactly if it is a creator past its own release, the handle is off the table, and no thread holds or is deleting the context |
| `SchedulerRuns.CreatorMayUseDeleted` | skynet-src/skynet_server.c:144-162 | such a run, for a launch that succeeds (the write of `ctx->init`) and for one that fails (the read of `ctx->handle`) |
| `SchedulerRuns.CreatorSafe` | skynet-src/skynet_server.c:144-162 | as long as nobody retires the new handle, its creator finds the context undeleted |
| `SchedulerRuns.Lifetime` | skynet-src/skynet_server.c:178-203 | the reference count is the table's reference plus those held by threads; deletion happens exactly when it reaches zero, once; the queue is freed at most once, only after that, and keeps its token until then |
| `SchedulerRuns.FreedBySoleHolder` | skynet-src/skynet_mq.c:349-378 | whoever frees a queue is its only holder, the context is gone, and the queue is drained |
| `SchedulerRuns.RetiredForGood` | skynet-src/skynet_handle.c:80-106 | once a handle is retired, by another service or by its creator, nobody finds the context through it again: no send, no dispatch |
| `SchedulerRuns.EveryMessageAccounted` | skynet-src/skynet_mq.c:240-378 | at any time the messages pushed are, counted with multiplicity, those queued, those taken and those dropped |
| `SchedulerSends.SendsAccounted` | skynet-src/skynet_server.c:209-219 | on every run the messages sent to a service are, with multiplicity, those pushed to its queue and those their senders still carry |
| `SchedulerSends.EveryMessageArrives` | skynet-src/skynet_server.c:209-219 | each message sent to a service is on its way, queued, taken or dropped: exactly one |
| `SchedulerSends.PushDelivers` | skynet-src/skynet_server.c:209-219 | a push gives the receiver, and nobody else, the message its thread was last told to send, unchanged |
| `SchedulerRuns.OrderOfConsumption` | skynet-src/skynet_mq.c:240-266 | no step reorders messages: a push goes to the end, or in front of all that wait when it ends the session lock |
| `SchedulerLock.LockSilences` | skynet-src/skynet_server.c:379-394 | from the step that locks a session on, nothing more is dispatched from the service until a message of that session or an unlock |
| `SchedulerLock.EndingMessageDispatchedFirst` | skynet-src/skynet_mq.c:201-266 | the message that ends a session lock is the next one dispatched, on every run, whatever was queued before or comes after |
| `SchedulerSessions.ReturnHandsOn` | skynet-src/skynet_mq.c:317-329 | on every run a dispatch ends with the queue at the end of the global queue, or, when its session is locked, nowhere in it |
| `SchedulerSessions.UnlockEnds` | skynet-src/skynet_server.c:387-393 | on every run an unlock leaves no session locked, the messages as they were, and exactly one token |
| `SchedulerSessions.UnlockHandsOn` | skynet-src/skynet_mq.c:201-211 | a callback that has unlocked its queue returns it unlocked to the global queue; no new lock can come between |
| `SchedulerSessions.DrawsDiffer` | skynet-src/skynet_server.c:166-171 | session numbers drawn for a service are positive and grow |
| `SchedulerSessions.LockAwaitsNextDraw` | skynet-src/skynet_server.c:379-385 | the session a lock waits for is the one drawn next |
| `SchedulerSessions.AnswerGoesFirst` | skynet-src/skynet_server.c:379-385 | after a lock, the answer to the call made with the next session is the next message dispatched, and nothing is dispatched before it comes |
| `SchedulerProgress.Finishes` | skynet-src/skynet_server.c:113-310 | any thread, whatever it is about, can get to the end of it without touching any queue but its own |
| `SchedulerProgress.HeadCanBeDispatched` | skynet-src/skynet_server.c:272-310 | at any time of any run with an idle worker, threads that only go on with what they have begun can bring the head message of a live, unlocked service to its callback, also while the service is being launched |
| `SchedulerProgress.RetiredCanBeFreed` | skynet-src/skynet_mq.c:349-378 | no queue leaks: at any time of any run such steps lead to freeing the queue of any service off the table |
| `SchedulerProgress.FailedCanBeFreed` | skynet-src/skynet_server.c:156-161 | or of one whose init function failed |
| `SchedulerProgress.FailedNeverRuns` | skynet-src/skynet_server.c:156-161 | a service whose init function failed never dispatches a message, and is off the table once its creator has finished |
| `GlobalQueue.EmptyTestExact` | skynet-src/skynet_mq.c:73-79 | the emptiness test is right if and only if the outstanding tickets are not a nonzero multiple of 65536 |
| `GlobalQueue.NextSlotClear` | skynet-src/skynet_mq.c:60-68 | under the hypotheses on tickets and flags, the slot of the next ticket has no flag set |
| `GlobalQueue.WordsDecide` | skynet-src/skynet_mq.c:90-92 | within 2^32 pops the 32-bit comparison tells whether the head has moved |
| `GlobalQueue.StepKeepsInv` | skynet-src/skynet_mq.c:60-96 | every memory access of any thread keeps: outstanding tickets have their own slots, a flag says published, a published slot holds its ticket's queue |
| `GlobalQueue.PopsInTicketOrder` | skynet-src/skynet_mq.c:60-96 | the k-th successful pop returned the queue pushed under ticket k, after it was published; none is popped twice |
| `GlobalQueue.RefinesQueue` | skynet-src/skynet_mq.c:60-96 | each step appends to, takes the oldest of, or leaves alone an ordinary first-in first-out queue |
| `GlobalQueueProgress.PushPublishes` | skynet-src/skynet_mq.c:60-68 | from any reachable state, a push that nobody interrupts publishes its queue behind the others |
| `GlobalQueueProgress.PopTakesOldest` | skynet-src/skynet_mq.c:70-96 | from any reachable state with its oldest ticket published, a pop that nobody interrupts takes that queue |
| `GlobalQueueProgress.GivesUpForReason` | skynet-src/skynet_mq.c:70-96 | a pop returns without a queue only if the ring was empty, the oldest ticket was not yet published, or another pop succeeded since it read the head |
| `GlobalQueueReuse.ReuseWedges` | skynet-src/skynet_mq.c:60-96 | without the hypothesis on clearing flags, and with all others, two threads can bring the ring to hold a published queue whose flag is wiped |
| `GlobalQueueReuse.WedgedForever` | skynet-src/skynet_mq.c:70-96 | from there on no pop succeeds, whatever the threads do |
| `RwLock.StepKeepsInv` | skynet-src/rwlock.h:15-46 | each access keeps: `read` and `write` count the threads between their two accesses, and no writer is inside with a reader |
| `RwLock.Exclusion` | skynet-src/rwlock.h:15-46 | on every run a writer in its section is alone |
| `RwLock.ReadCounts` | skynet-src/rwlock.h:15-46 | `read` is the number of readers that incremented and did not yet decrement, those about to back off included |
| `RwLock.NoDeadlock` | skynet-src/rwlock.h:15-36 | whenever threads ask and none is inside, some order of their steps lets one in |
| `RwLockRequests.RequestDecides` | skynet-src/rwlock.h:15-46 | on every run a thread is among the points of the lock it last asked for, until it gives it back |
| `RwLockRequests.WriterAlone` | skynet-src/rwlock.h:31-36 | whoever called `rwlock_wlock` and is inside is there alone |
| `RwLockRequests.ReadersShare` | skynet-src/rwlock.h:15-29 | when nobody asks to write, all that ask to read can be inside together |
| `RwLockRequests.AllGivenBack` | skynet-src/rwlock.h:38-46 | when all have given the lock back it is as it was at first |
| `Clocks.TickFires` | skynet-src/skynet_timer.c:162-201 | on every run, zero delays included, a tick fires what was left due now, then what is due at the next time, in insertion order, and keeps everything else |
| `Clocks.FiredIsStableSort` | skynet-src/skynet_timer.c:118-201 | with positive delays, at any time the events fired are exactly those that expired, stably sorted by expiry: none early, late, lost or twice |
| `Bits.AndMask` | skynet-src/skynet_timer.c:96-107 | masking with 2^k - 1 is the remainder by 2^k |
| `Bits.SameAboveMask` | skynet-src/skynet_timer.c:95-102 | two times agree once the low k bits are filled if and only if their quotients by 2^k agree |
| `Placement.MaskedEqual` | skynet-src/skynet_timer.c:95-105 | the comparison of `add_node` decides whether two times share a slot of a level |
| `Placement.LevelBits` | skynet-src/skynet_timer.c:136-153 | what the masks and shifts of the wheel compute at each level |
| `Placement.PlaceExists` | skynet-src/skynet_timer.c:90-109 | no index is out of range, and the digit that selects a slot is greater than the present time's |
| `Placement.NoCarry` | skynet-src/skynet_timer.c:135-141 | without a carry no event changes its place |
| `Placement.Carry` | skynet-src/skynet_timer.c:135-156 | at a carry to a level, exactly the events of the slot that time enters move, from the cascading list to lower levels |
| `Placement.EmptyBelowCarry` | skynet-src/skynet_timer.c:135-156 | at a carry to a level all lists of lower levels are empty |
| `Placement.CarryPlaced` | skynet-src/skynet_timer.c:143-152 | one list's cascade puts every list of the wheel right for the new time, in insertion order |
| `Placement.NearIsDue` | skynet-src/skynet_timer.c:162-166 | the near list of the present holds exactly what is due |
| `TimerLists.LinkList.Clear` | skynet-src/skynet_timer.c:64-71 | empties the list and hands out its nodes, still linked in order |
| `TimerLists.LinkList.Link` | skynet-src/skynet_timer.c:78-83 | appends a node |
| `Timers.GetTime` | skynet-src/skynet_timer.c:260-274 | the reading is the true time modulo 2^24 seconds |
| `Timers.ElapsedExact` | skynet-src/skynet_timer.c:280-284 | the tick count of a poll is the elapsed time if and only if less than 2^24 seconds passed |
| `Timers.PollsTrackTime` | skynet-src/skynet_timer.c:280-290 | over any sequence of polls less than 2^24 seconds apart the ticks add up to the true elapsed time, however often the reading wrapped |
| `Timers.FindCarry` | skynet-src/skynet_timer.c:135-153 | finds the one level and list that cascade, if any; the level is at most 3 |
| `Timers.Timer.constructor` | skynet-src/skynet_timer.c:206-328 | 508 empty lists, no two sharing a node, an empty clock, and the present reading |
| `Timers.Timer.FindLevel` | skynet-src/skynet_timer.c:99-105 | the search ends at the level where the event belongs |
| `Timers.Timer.Put` | skynet-src/skynet_timer.c:78-83 | linking a node to one list of the wheel changes no other list |
| `Timers.Timer.Take` | skynet-src/skynet_timer.c:64-71 | clearing one list of the wheel changes no other list |
| `Timers.Timer.AddNode` | skynet-src/skynet_timer.c:90-109 | appends the event to the list where it belongs, and to no other |
| `Timers.Timer.Add` | skynet-src/skynet_timer.c:118-129 | the wheel refines adding to the list of pending events |
| `Timers.Timer.Relink` | skynet-src/skynet_timer.c:145-151 | empties one list and appends its events, in order, where they belong now |
| `Timers.Timer.Shift` | skynet-src/skynet_timer.c:135-156 | advances the time by one with every list in its place again |
| `Timers.Timer.Execute` | skynet-src/skynet_timer.c:162-183 | the wheel refines firing what is due, in insertion order |
| `Timers.Timer.Update` | skynet-src/skynet_timer.c:189-201 | one update of the wheel is one tick of the list clock |
| `Timers.Timer.UpdateTime` | skynet-src/skynet_timer.c:280-290 | a poll runs one tick for each centisecond since the last, although the reading wraps |
| `TimerRuns.PerformAll` | skynet-src/skynet_timer.c:118-201 | over any sequence of additions and ticks below 2^31 the wheel fires and keeps what the list clock does |
| `TimerRuns.ServeAll` | skynet-src/skynet_timer.c:118-290 | over any sequence of timeouts and polls the time of the wheel is the true time since its creation, and it does what the list clock does at that time |
| `TimerRuns.FiredOnTime` | skynet-src/skynet_timer.c:118-290 | with positive delays the events fired are then exactly those asked for that have expired by the true time of the last poll, stably sorted by expiry |
| `Senders.Writing.PartlyKeeps` | skynet-src/socket_server.c:396-400 | a partial write moves bytes from list to wire and keeps order, packets and the size counter's balance |
| `Senders.Writing.WhollyKeeps` | skynet-src/socket_server.c:396-406 | so does completing a packet |
| `Senders.Sender.QueuedOk` | skynet-src/socket_server.c:545-551 | queueing behind buffered data keeps submission order within each priority, the high list free of low packets after its head, and the low list free of high ones |
| `Senders.Sender.DirectOk` | skynet-src/socket_server.c:524-544 | so does writing at once and keeping the rest in the high list, whatever its priority |
| `Senders.Sender.AfterHighContinues` | skynet-src/socket_server.c:444-450 | writing from the high list neither reorders nor loses anything |
| `Senders.Sender.AfterLowContinues` | skynet-src/socket_server.c:451-460 | nor does writing from the low list and raising its partly sent packet |
| `Senders.NeverInterleaved` | skynet-src/socket_server.c:377-505 | the wire holds whole packets and then a prefix of the head of the high list; each priority leaves in submission order; nothing accepted is lost |
| `Connections.ListSentKeeps` | skynet-src/socket_server.c:377-407 | whatever the writes return, sending a list keeps order, packets and the counter's balance, and ends with an empty list, a stalled write or a failed one |
| `Connections.Conn.FlushedOk` | skynet-src/socket_server.c:444-472 | an attempt to send, even one that closes the socket, keeps the sender's invariant and reorders, loses and invents nothing; how far it gets is the subject of `ConnectionProgress.FlushOutcome` |
| `ConnectionRuns.RunOk` | skynet-src/socket_server.c:377-601 | over every sequence of sends, attempts to send, closes and ends of stream, `wb_size` equals the unsent bytes, only the high head may be partly sent, and a socket closed as drained has nothing left |
| `ConnectionRuns.WireHoldsWholePackets` | skynet-src/socket_server.c:377-601 | at any time, also after a close or a failed write, the wire holds whole packets and a prefix of at most one more accepted one, and those whole are, for each priority, the first submitted |
| `ConnectionRuns.NothingGoesBack` | skynet-src/socket_server.c:377-601 | over every run, closes included, what is on the wire stays, and a packet that was started or joined the high list is never overtaken by a later one |
| `ConnectionOrder.HighOvertakes` | skynet-src/socket_server.c:444-553 | over every run a high packet is sent before every low one that was still in the low list when it was accepted |
| `ConnectionOrder.UnstartedWasFirst` | skynet-src/socket_server.c:419-433 | over every run a low packet of which nothing is sent heads the high list only if it was sent while nothing was waiting |
| `ConnectionOrder.IdleGoesNext` | skynet-src/socket_server.c:525-544 | a packet sent while nothing is waiting is the next to leave, whatever its priority |
| `ConnectionProgress.FlushOutcome` | skynet-src/socket_server.c:444-472 | an attempt to send goes on until nothing is left, the last write stalled, or a write failed, which closes the socket; it closes a half-closed socket exactly if it found the low list empty and left nothing |
| `ConnectionProgress.FlushDelivers` | skynet-src/socket_server.c:444-472 | if the writes take all they are offered, one attempt puts everything on the wire |
| `ConnectionProgress.DrainedCloses` | skynet-src/socket_server.c:461-468 | a half-closed socket with nothing left is closed by the next attempt |
| `ConnectionProgress.FlushesDrain` | skynet-src/socket_server.c:377-472 | if every write takes something and there are enough of them, some number of attempts puts everything on the wire in the order that was due |
| `ConnectionProgress.SendOutcome` | skynet-src/socket_server.c:515-553 | a send on an idle started socket puts on the wire what the next write takes, a failed write closes the socket, a send behind buffered data writes nothing, and elsewhere it has no effect or fails the assert |
| `ConnectionProgress.CloseOutcome` | skynet-src/socket_server.c:577-601 | a close of an idle socket closes it at once; otherwise it ends closed with everything on the wire, closed by a failed write, or half-closed by a stalled one |
| `ConnectionProgress.EndOutcome` | skynet-src/socket_server.c:725-744 | the end of the stream, or a failed read, closes the socket with what was sent on record |
| `ConnectionRuns.AcceptedIsSubmitted` | skynet-src/socket_server.c:515-553 | packets are accepted in submission order: none before the socket is started, then all until it is closed or half-closed |
| `ConnectionRuns.HalfCloseRefuses` | skynet-src/socket_server.c:515-523 | once `close_socket` was called nothing more is accepted, whatever is sent, and no assert fails |
| `ConnectionRuns.DrainDelivers` | skynet-src/socket_server.c:577-601 | after `close_socket` on an open socket, once it is closed and neither a write failed nor the peer ended the connection, every byte it had accepted is on the wire, in the order that was due |
| `ConnectionRuns.SendAssertFails` | skynet-src/socket_server.c:515-524 | the assert of `send_socket` fails on a run if and only if the socket is listening and is sent to before it is closed |
| `ConnectionRuns.ListeningSendFails` | skynet-src/socket_server.c:524 | the shortest such run |
| `WriteBuffers.WriteBufferList.Free` | skynet-src/socket_server.c:221-231 | leaves an empty list |
| `WriteBuffers.WriteBufferList.Append` | skynet-src/socket_server.c:475-490 | links the rest of a packet behind the last node; its asserts hold |
| `WriteBuffers.WriteBufferList.TakeHead` | skynet-src/socket_server.c:419-425 | unlinks the first packet and keeps the others, with a null tail when none is left |
| `WriteBuffers.WriteBufferList.PutAlone` | skynet-src/socket_server.c:427-432 | makes a node the only one of an empty list |
| `WriteBuffers.WriteBufferList.Advance` | skynet-src/socket_server.c:396-400 | marks bytes of the first packet as written |
| `WriteBuffers.WriteBufferList.Uncomplete` | skynet-src/socket_server.c:410-416 | tells whether the first packet is partly sent |
| `Sockets.Socket.NewFd` | skynet-src/socket_server.c:277-296 | a reserved slot starts as a new connection, with empty lists as `check_wb_list` asserts; a refused descriptor frees the slot |
| `Sockets.Socket.ForceClose` | skynet-src/socket_server.c:234-252 | frees both lists and keeps on record what was sent; only a closed slot is left alone |
| `Sockets.Socket.SendHead` | skynet-src/socket_server.c:380-405 | one packet goes out wholly, partly or not at all, as the writes say, EINTR retried |
| `Sockets.Socket.SendList` | skynet-src/socket_server.c:377-407 | refines sending a list, whatever the writes return; a failed write closes the socket, with what was sent until then on the wire |
| `Sockets.Socket.RaiseUncomplete` | skynet-src/socket_server.c:419-433 | the head of the low list becomes the only packet of the high list |
| `Sockets.Socket.SendBuffer` | skynet-src/socket_server.c:444-472 | the lists and fields go where the value's attempt to send goes (`ConnectionProgress.FlushOutcome`), closes included; the wire only grows |
| `Sockets.Socket.SendSocket` | skynet-src/socket_server.c:515-553 | the lists and fields go where the value's send goes (`ConnectionProgress.SendOutcome`, `ConnectionOrder.HighOvertakes`), a failing assert included; another id has no effect; the wire only grows |
| `Sockets.Socket.CloseSocket` | skynet-src/socket_server.c:577-601 | refines the close of the value: closed, or half-closed with the rest queued in order; the wire only grows |
| `Sockets.Socket.WireIsWhole` | skynet-src/socket_server.c:234-252 | an open socket, and one closed in any way, has put on the wire whole packets and a prefix of at most one accepted packet, each priority in submission order |
| `Sockets.Socket.HandleAll` | skynet-src/socket_server.c:863-895 | over any sequence of events the linked lists and fields go where the value goes, up to the first failing assert |
| `ConnectionRuns.IdleDelivers` | skynet-src/socket_server.c:503-505 | empty lists mean that everything that was due is on the wire, in order |
| `Names.CompareEqual` | skynet-src/skynet_handle.c:168-169 | names compare equal exactly when they are the same |
| `Names.SplitsAbsent` | skynet-src/skynet_handle.c:221-236 | where a bisection ends without a hit, the name is nowhere in the list |
| `Names.InsertedSorted` | skynet-src/skynet_handle.c:192-214 | inserting there keeps the names strictly sorted |
| `Names.InsertedSearch` | skynet-src/skynet_handle.c:192-214 | after an insertion the new name finds its handle and every other name what it found before |
| `Names.RetiredSearch` | skynet-src/skynet_handle.c:91-101 | after a handle is retired none of its names is found, and every other name still finds its handle |
| `Names.NameIndex.Bisect` | skynet-src/skynet_handle.c:163-177 | finds the name, or the one place where it belongs |
| `Names.NameIndex.FindName` | skynet-src/skynet_handle.c:156-183 | bisection returns what a linear search returns |
| `Names.NameIndex.Enlarge` | skynet-src/skynet_handle.c:193-204 | the larger array holds the names with a gap at the place of insertion |
| `Names.NameIndex.ShiftUp` | skynet-src/skynet_handle.c:205-210 | makes the same gap in place |
| `Names.NameIndex.InsertBefore` | skynet-src/skynet_handle.c:192-214 | inserts one name in either way |
| `Names.NameIndex.Insert` | skynet-src/skynet_handle.c:221-242 | a new name is inserted in its place; a name already there changes nothing |
| `Names.NameIndex.RemoveHandle` | skynet-src/skynet_handle.c:91-101 | the in-place compaction removes exactly the handle's names and keeps the rest in order |
| `Handles.ProbeHash` | skynet-src/skynet_handle.c:48-50 | masking the index to 24 bits disturbs no hash, so consecutive probes visit consecutive slots across the wrap |
| `Handles.ProbedAll` | skynet-src/skynet_handle.c:46-61 | if every probe meets a used slot the table is full |
| `Handles.HashDouble` | skynet-src/skynet_handle.c:65-69 | in a table twice the size a handle stays in its slot or moves to that slot's twin |
| `Handles.FullHandle` | skynet-src/skynet_handle.c:57 | adding the harbor byte changes neither the index nor the hash |
| `Handles.NoCollision` | skynet-src/skynet_handle.c:65-69 | the slot a context is copied to is free: the assert of the copy loop holds |
| `Handles.DoubledAgrees` | skynet-src/skynet_handle.c:62-72 | the doubled table represents the same map and has a free slot |
| `Handles.OccupiedAgrees` | skynet-src/skynet_handle.c:51-58 | a handle whose slot is free was not live, and registering it keeps table and map in agreement |
| `Handles.LiveInSlot` | skynet-src/skynet_handle.c:140-145 | one look at the slot a handle hashes to tells whether it is live, and its context |
| `Handles.FreedAgrees` | skynet-src/skynet_handle.c:85-90 | clearing that slot removes this handle from the map and no other |
| `Handles.HandleStorage.Probe` | skynet-src/skynet_handle.c:46-61 | finds a free slot exactly when there is one: that of the first probe to meet one |
| `Handles.HandleStorage.Register` | skynet-src/skynet_handle.c:41-74 | the new handle differs from every live one, also after the index wraps; the map gains it and nothing else; it takes the first free slot in probe order, of a table that doubles exactly when it was full |
| `Handles.HandleStorage.Grab` | skynet-src/skynet_handle.c:134-150 | finds a context exactly when the map has one for the handle |
| `Handles.HandleStorage.Retire` | skynet-src/skynet_handle.c:80-106 | a live handle leaves the table with all and only its names; any other handle changes nothing |

## Left out

- Names bound to a handle that is not live: `skynet_handle_namehandle` allows them, and retiring such a handle leaves them; the model keeps both facts and draws no conclusion from them.
- Handle 0: `skynet_handle_register` does not skip it once the 24-bit index has wrapped; the model registers it like any other.
- Handle reuse: the scheduling protocol takes every handle to be new, as it is for the first 2^24 of them on a node.
- Contexts between registration and the creation of their queue, and the handle written to the context after the table is unlocked: creation is one step.
- Raw context pointers held without a reference: the pointer `skynet_context_new` returns and logs with, the REMOTE command of the harbor, `skynet_handle_retireall` after it unlocks. The creator's own two accesses after its release, the write of `ctx->init` (skynet_server.c:148) and the read of `ctx->handle` (skynet_server.c:158), are modelled: see `SchedulerRuns.NoUseAfterFree`.
- `skynet_handle_retire` is one step in the scheduling protocol, because it holds the write lock throughout.
- Session numbers past 2^31 - 1: steps that draw one stop there, where the C code wraps.
- Fairness: `SchedulerRuns.NoLostWakeup` says that a token exists and `SchedulerProgress.HeadCanBeDispatched` and `SchedulerProgress.RetiredCanBeFreed` that some steps of the threads lead to the message and to the release, not that the threads take them.
- The reasons why a thread idles (monitor, condition variable, `cb` not set) and the calls a callback makes: a service's sends, retirements and creations are steps of other threads that may be taken at any time, which allows more runs than the code has.
- `GlobalQueue.PopsInTicketOrder` assumes, in the guards of the steps, fewer than 65536 outstanding tickets, no slot reused before its last popper cleared the flag, and no popper overtaken by 2^32 others; nothing in the C code enforces the second, and `GlobalQueueReuse.ReuseWedges` shows that it is needed.
- Weak memory: all protocols are interleavings of atomic accesses.
- Integer overflow of queue and table capacities, and of the reference count.
- Wheel times at or past 2^31 and negative delays: the C code has signed overflow there. `mask <<= 6` after the last level is computed without wrap-around and not used.
- `skynet_timeout` with a zero time sends at once and does not reach the timer; only `timer_add` with a zero delay is covered, by `Clocks.TickFires`.
- The timer's spinlock, which makes `timer_add` and `timer_update` atomic with respect to each other.
- Freeing nodes and buffers: a node that left all lists is simply unreachable. The direct-write error path of `send_socket` does not free its request buffer.
- `Sockets.Socket.WriteRetrying` ends because a script holds finitely many EINTR results; the C loop need not.
- Write interest in the event pool: that a socket with buffered data is polled for writing is not claimed.
- `Sockets.Socket.SendSocket` and `CloseSocket` leave out a request whose id is that of the slot's previous life and that arrives while the slot is reserved again: `reserve_id` keeps the old id and descriptor, so the C code goes on with these or fails an assert (socket_server.c:242, 953).
- The type of a socket changes only by a close: the start of a socket that was accepted or is to listen, and the outcome of a connect, are left out, and a run begins when these are settled. A run may also try to send on a listening or connecting socket, which the event loop does not.
- Opening, listening, accepting and reading.
- System calls, module loading, the Lua environment, configuration, logging, monitoring, thread start and the memory hooks.
