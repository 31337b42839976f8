# LuaSys in-memory structures, modelled and verified

LuaSys is a C library of system services for Lua.  Most of it wraps system calls; this project is about
the structures it keeps in memory by hand.  Code that changes things in place is modelled by classes and
methods that make the same stores and take the same branches; each method is tied to a function of the
old state, and the properties are proved of these functions, of every run of them.

- **Pipe between virtual machines** (`Bytes`, `Powers`, `PipeRing`, `PipeFifo`, `PipeWitness`, `PipeQueue`,
  `PipeMessage`, `PipeTransfer`): byte ring buffers with a wrap sentinel in a circle that doubles, against a
  first-in first-out queue of whole messages; the message codec.
- **Event queue** (`Lists`, `TimeoutLists`, `TimeoutState`, `EventSlots`, `EventState`, `EventProcess`,
  `EventExpiry`, `EventIds`, `EventOps`, `EventCalls`, `EventRuns`, `EventLoss`, `EventLookup`, `EventTurns`,
  `EventTwins`, `EventSessions`, `EventEffects`, `EventArming`, `EventQueue`): event slots and their ids, the free, ready and synchronous lists, and the
  timeout queues, which share the words of the slots.  A pointer to a slot is its id, NULL is -1.
- **Coroutine scheduler** (`Rings`, `SchedState`, `SchedSteps`, `SchedRuns`, `SchedLands`, `SchedTorn`,
  `Scheduler`): two index rings in one task array.
- **FastCGI codec** (`FcgiRecord`, `FcgiEncode`, `FcgiRuns`, `FcgiEncoder`, `FcgiDecode`, `FcgiRequest`,
  `FcgiReady`, `FcgiDecoder`) after the FastCGI Specification 1.0, sections 3.3, 3.4, 5.3 and 5.5.
- **Poll set** (`PollSet`), **data pool** (`PoolState`, `PoolRuns`, `PoolAnswers`, `DataPool`) and **read buffers**
  (`MemBuffer`, `ReadBuffer`).

The invariants are split into named clauses, and several predicates are stated as one quantified formula
over their parts; this keeps the proofs small.

## Findings

Properties the code does not have on all inputs.  For each, a run or input that fails is given and the
exact condition is proved.

| property | where it fails | a failing run | exact condition |
|---|---|---|---|
| the pipe delivers what was put, in order | src/thread/thread_pipe.c:331-335: a wrapped message that fills the gap makes `begin == end`, which the next put takes for an unwrapped buffer | PipeWitness.ClobberReachable, PipeFifo.ClobberOvertakes | PipeFifo.PutKeepsIff |
| `buf_size` is the size of the ring | src/thread/thread_pipe.c:346-357: at 2^31, which the default arguments allow, doubling gives 0 | PipeWitness.OverflowReachable | PipeFifo.PutKeepsIff, PipeFifo.GrowTotal; PipeFifo.NeverOverflows says for which arguments it cannot happen |
| every slot of the event queue is in use or free | src/sys_evq.c:278-312: levq_add takes a slot for the event and loses it when an error is raised before the event is attached: no slot for the reserve, a directory watch whose path is no string, no memory; src/sys_evq.c:678-717 and 795-800: such an error in levq_sync_process, or another one in the call, loses the slots detached with it | EventLoss.LossReachable, EventLoss.BadPathLoses, EventLoss.RaisingSyncLoses | EventRuns.TakenIff, EventRuns.LossIff |
| a task of the scheduler is in one place | src/thread/thread_sched.c:596-666 and 799-839: a task that has set its own `suspended` bit and is still running, because it has caught the error of lua_yield, can be queued by a wake-up; 412-426: it can be freed with the bit set; 799-805: an event is noted for a task that no longer waits | SchedTorn.EarlyResumeLosesTask, SchedTorn.EarlyTerminateCorrupts, SchedTorn.UnguardedRunCorrupts, SchedTorn.CaughtYieldCorrupts, SchedTorn.StaleEventLosesTask | SchedRuns.StepKeepsIff, SchedRuns.InOrderIff, SchedTorn.TearsIff |
| the offset fcgi_encode returns may be given to the next call | src/isa/fcgi/sys_fcgi.c:322-347: after a call without data it leads to the end record | FcgiRuns.EndOffsetWitness | FcgiRuns.EndOffsetMisleadsIff |
| following `next_ready` from the id fcgi_decode returns visits the requests completed and ends | src/isa/fcgi/sys_fcgi.c:192-201: a request that is completed twice in one call, as by a faulty record and then the end of its body, is linked into a circle; a parameter of that name overwrites the link of a request completed before it | FcgiReady.FaultThenEndLoops, FcgiReady.TwiceNeverEnds, FcgiReady.LateNameBreaks | FcgiReady.ReadyChain |
| sys_read returns all it has read | src/sys_file.c:677-686: an error after a read that filled the buffer passes -1 as the tail | ReadBuffer.ByteLost | ReadBuffer.StringWholeIff, ReadBuffer.BufferWholeIff |
| the write pointer of a memory buffer stays inside it | src/mem/sys_mem.c:167-168 and 200, src/sys_file.c:684-686: after a failed allocation the pointer is moved over the last read twice | ReadBuffer.PointerBeyondEnd | ReadBuffer.BufferWholeIff, ReadBuffer.FixedRunsOutIff |

## Model

| member | source | states |
|---|---|---|
| PipeFifo.RunRefinesFifo | src/thread/thread_pipe.c:326-459 | every run of put and get steps, whatever malloc does, in which no put clobbers or overflows `buf_size` answers as a plain queue of messages does; at the end the ring represents that queue, nmsg is its length and the sizes are in order |
| PipeFifo.PutKeepsIff | src/thread/thread_pipe.c:328-388 | a stored message is appended to the contents, and nothing else changes, if and only if the put neither takes a full wrapped buffer for an unwrapped one nor needs a buffer when `buf_size` is 2^31 |
| PipeFifo.PutKeeps | src/thread/thread_pipe.c:328-388 | through sentinel wraps, moves to the next buffer and growth a put that stores appends exactly its message, and one that waits changes nothing |
| PipeFifo.GetKeeps | src/thread/thread_pipe.c:416-459 | a get returns the oldest message byte for byte and leaves the others, or waits if and only if there is none |
| PipeFifo.NewIsEmpty | src/thread/thread_pipe.c:70-119 | a new pipe with arguments pipe_new accepts is empty, with its sizes in order |
| PipeFifo.EmptyNeverWaits | src/thread/thread_pipe.c:334-388 | a put into an empty pipe never waits, even when malloc fails |
| PipeFifo.PutWaitsIff | src/thread/thread_pipe.c:328-388 | a put waits if and only if the message fits neither behind `end` nor before `begin`, or not into the gap of a wrapped buffer, no other buffer of the whole ring is unused, and the doubled size exceeds the maximum or malloc fails |
| PipeFifo.PutPlaces | src/thread/thread_pipe.c:328-388 | a put that stores leaves the buffer only if there is no room in it, then writes to one that held nothing, and adds a buffer if and only if none is unused |
| PipeFifo.ClobberOvertakes | src/thread/thread_pipe.c:331-339 | after a clobbering put the next get returns the newest message |
| PipeFifo.NeverOverflows | src/thread/thread_pipe.c:79-101 | with a maximum below 2^31, or a minimum that is no power of two, no run overflows `buf_size` |
| PipeFifo.PutSizes | src/thread/thread_pipe.c:340-359 | a put keeps `buf_size` equal to the total size of all buffers, min_size times a power of two and within the maximum |
| PipeFifo.GetSizes | src/thread/thread_pipe.c:429-449 | a get keeps them too |
| PipeFifo.GrowTotal | src/thread/thread_pipe.c:346-359 | growing doubles the ring, and `buf_size` follows it if and only if it was below 2^31 |
| PipeWitness.ClobberReachable | src/thread/thread_pipe.c:331-339 | from a new pipe a run of proper puts and gets leads to a put that clobbers |
| PipeWitness.OverflowReachable | src/thread/thread_pipe.c:346-358 | from a pipe with the default sizes puts alone lead to one after which `buf_size` is 0 and 4 GiB are allocated |
| PipeQueue.PipeQueue.constructor | src/thread/thread_pipe.c:70-119 | the one buffer of a new pipe is its own next |
| PipeQueue.PipeQueue.TryPut | src/thread/thread_pipe.c:326-388 | on linked buffers a pass of the loop does what the step on values does, also when it clobbers or overflows; it waits exactly for want of room, of an unused buffer and of a new one, and if it neither clobbers nor overflows, the contents grow by exactly the message |
| PipeQueue.PipeQueue.TryGet | src/thread/thread_pipe.c:416-459 | a pass of the loop returns and removes the oldest message |
| PipeMessage.Build | src/thread/thread_pipe.c:206-253 | fails at the first value that is too big or not primitive, with its error; else the bytes stand for the values and the size is that of the message |
| PipeMessage.AcceptedIff | src/thread/thread_pipe.c:214-247 | a list is accepted if and only if all its values are primitive and each fits behind those before it |
| PipeMessage.ComplaintIsFirst | src/thread/thread_pipe.c:214-247 | the error is about the first value that is too big for what is left or not primitive, and says which |
| PipeMessage.Parse | src/thread/thread_pipe.c:259-294 | from bytes that stand for a list the same list comes back, value by value, only userdata as light pointers, and the cursor ends at the message end |
| PipeMessage.BuiltIsMessage | src/thread/thread_pipe.c:249-253 | a built message is at least 2 and at most 2 + MSG_MAXSIZE bytes long, so it is never taken for the sentinel |
| PipeMessage.WireEncodes | src/thread/thread_pipe.c:249-253 | the items stand in the message behind its size |
| PipeTransfer.Compose | src/thread/thread_pipe.c:314-326 | what pipe_put sends carries the values given, or the error of the first it cannot send |
| PipeTransfer.Receive | src/thread/thread_pipe.c:403-467 | pipe_get hands over the list the oldest message carries, value by value |
| EventQueue.EventQueue.TimeoutDel | src/event/timeout.c:26-71 | the event leaves its queue; a queue left empty leaves the queue list and the map, and its slot becomes free |
| EventQueue.EventQueue.TimeoutAdd | src/event/timeout.c:74-130 | the event joins the queue of its timeout at the tail, or a free slot becomes a new queue in the right place; false when no slot is free |
| EventQueue.EventQueue.TimeoutReset | src/event/timeout.c:4-23 | the event is due a full timeout from now, at the tail of its queue |
| EventQueue.EventQueue.TimeoutGet | src/event/timeout.c:133-153 | the loop over the queue heads computes WaitTime |
| EventQueue.EventQueue.TimeoutProcess | src/event/timeout.c:156-190 | the loops over queues and events make the state of Process |
| EventQueue.EventQueue.SetTimeout | src/event/evq.c:17-31 | resets, deletes or moves the event according to its old and new timeout |
| EventState.DropQueueKeeps | src/event/timeout.c:39-62 | deleting the last event of a queue keeps the invariant: lists, back pointers, order, roles, map |
| EventState.LeaveQueueKeeps | src/event/timeout.c:63-70 | deleting one of several does |
| EventState.JoinQueueKeeps | src/event/timeout.c:113-130 | adding to an existing queue does |
| EventState.OpenQueueKeeps | src/event/timeout.c:80-112 | adding with a new queue does, also in the sorted place when there is no map |
| EventProcess.ResetKeeps | src/event/timeout.c:4-23 | resetting does |
| EventProcess.FireKeeps | src/event/timeout.c:165-186 | firing the due prefix of one queue does |
| EventExpiry.TimePasses | src/event/timeout.c:73-130 | so does time passing, because the clock does not go back |
| EventExpiry.ProcessFires | src/event/timeout.c:156-190 | to the ready list come exactly the events of all queues due before now + MIN_TIMEOUT, each once; each is due a full timeout from now, the others keep their times, and each queue is rotated by its due prefix |
| EventExpiry.ProcessMarks | src/event/timeout.c:168-175 | exactly these events are marked active and timed out |
| EventExpiry.WaitTimeIsEarliest | src/event/timeout.c:133-153 | the queue heads suffice: timeout_get returns the clamped distance to the earliest event of all queues, or the limit if that is nearer |
| EventExpiry.WaitingSuffices | src/event/poll.c:169-197 | after waiting that long for a timer, the next timeout_process fires at least one event |
| EventEffects.SetTimeoutArms | src/event/evq.c:17-31 | evq_set_timeout with a timeout makes the event the last of the queue of that timeout, in no other and due a full timeout from now; with an infinite one it is in no queue; all other events keep their queues, order and times; it fails exactly when a queue is needed, no slot is free and the event leaves none free |
| EventEffects.AddTimeoutArms | src/event/timeout.c:73-130 | timeout_add does so |
| EventEffects.ResetArms | src/event/timeout.c:4-23 | timeout_reset does so in the queue the event is in |
| EventEffects.DelTimeoutDisarms | src/event/timeout.c:26-71 | after timeout_del the event is in no queue and the others are as before |
| EventEffects.ActivateMakesReady | src/event/evq.c:47-62 | the event is ready and marked as read; one that was not ready yet joins the ready list, a one-shot leaves its queue and the event queue, another one is due a full timeout from now unless that is left to its user |
| EventEffects.DeleteDisarms | src/sys_evq.c:563-588 | a deleted event is in no queue, marked, and counted no more |
| EventEffects.CancelMakesReady | src/sys_evq.c:1114-1135 | an event added for a task that is terminated becomes a ready one-shot, unless it is ready already |
| EventEffects.DrainHandles | src/sys_evq.c:836-877 | the first ready event loses its result flags; a deleted or one-shot one is in no queue and its slot is free, another one stays as it is |
| EventArming.AddMakes | src/sys_evq.c:264-355 | levq_add that succeeds makes one event with its flags, armed with its timeout; if it fails, no event is touched; and when it raises which error |
| EventArming.TimeoutOpArms | src/sys_evq.c:623-649 | levq_timeout arms an event anew, unless there is no slot to reserve |
| EventArming.SyncFirstMakes | src/sys_evq.c:678-717 | the first pending operation makes its event, in the slot it has freed |
| EventArming.SyncMakes | src/sys_evq.c:678-717 | the operations worked off make exactly the events of their calls, and no event goes |
| EventArming.SyncOpPends | src/sys_evq.c:724-753 | a pending operation is the first of the list, with its coroutine |
| EventArming.AlwaysFinite | src/event/evq.c:29-30 | in no run is an event queued with an infinite timeout |
| EventArming.EventsCounted | src/event/evq.c:33-43 | in every reachable state nevents counts the events that belong to the queue |
| EventRuns.EveryQueueInOrder | src/event/timeout.c:4-190 | in every reachable state every timeout queue is a nonempty doubly linked list with correct head and tail whose events point back, sorted by their due times |
| EventRuns.EveryQueueFound | src/event/timeout.c:76-130 | in every reachable state the queues are a doubly linked list, one for each timeout that has events; the map, if there is one, holds exactly these, and without it the list is sorted by timeout |
| EventRuns.EverySlotHasOneRole | src/sys_evq.c:197-252 | in every reachable state a slot is a live event, a deleted event still ready, a timeout queue, a pending operation or free, and one of these only, or none if and only if the run leaked it; the free list is acyclic and every slot keeps its id |
| EventRuns.TakenIff | src/sys_evq.c:264-355 | an operation takes a slot for good if and only if it is a levq_add that raises an error once it has the slot of the event, or levq_sync_process is cut off by an error while it holds others |
| EventRuns.LossIff | src/sys_evq.c:264-355 | a run loses a slot if and only if one of its levq_add calls gets a slot for the event and then no slot for a queue, a bad path or no memory, or one of its synchronous operations raises an error while others are detached or its own levq_add runs short so |
| EventLoss.LossReachable | src/sys_evq.c:210-229 | from a new queue calls of levq_add alone lead to one that loses a slot for want of another |
| EventLoss.BadPathLoses | src/sys_evq.c:278-286 | in a new queue a directory watch whose path is no string loses the first slot |
| EventLoss.RaisingSyncLoses | src/sys_evq.c:678-717 | of two pending operations the later one is run first, and if it raises an error the slot of the other is lost |
| EventCalls.SyncTakenIff | src/sys_evq.c:678-717 | of the detached slots exactly those are given back that come before an error |
| EventOps.AllocKeeps | src/sys_evq.c:198-234 | levq_new_event keeps the invariant and returns a slot in no list, cleared, with its id |
| EventOps.ReleaseKeeps | src/sys_evq.c:237-252 | freeing a slot that is in no list keeps it |
| EventOps.DequeueKeeps | src/sys_evq.c:836-842 | taking the first ready event does |
| EventOps.EnqueueKeeps | src/event/evq.c:47-62 | making an event ready does |
| EventOps.PushOpKeeps | src/sys_evq.c:724-753 | adding a synchronous operation does |
| EventOps.DetachOpsKeeps | src/sys_evq.c:795-800 | detaching the whole list of operations does |
| EventQueue.EventQueue.constructor | src/sys_evq.c:114-151 | a new event queue has no slots and no events |
| EventQueue.EventQueue.NewEvent | src/sys_evq.c:198-234 | reuses the head of the free list, or carves the next slot, with the id the code computes, or fails |
| EventQueue.EventQueue.FreeEvent | src/sys_evq.c:237-252 | the slot becomes the head of the free list |
| EventQueue.EventQueue.ReserveQueue | src/sys_evq.c:310-312 | an empty free list gets a slot |
| EventQueue.EventQueue.Add | src/sys_evq.c:264-355 | the event is attached and gets its timeout, or its slot is freed again, or an error is raised: too many events, a bad path, no memory |
| EventQueue.EventQueue.Delete | src/sys_evq.c:563-588 | the event leaves its queue; its slot is freed unless it is still on the ready list |
| EventQueue.EventQueue.HandleReady | src/sys_evq.c:836-877 | one round of the ready loop: deleted and one-shot events are freed |
| EventQueue.EventQueue.ProcessActive | src/event/evq.c:47-62 | the event becomes ready once; a one-shot event leaves its queue, another one is reset |
| EventQueue.EventQueue.SyncCall | src/sys_evq.c:724-753 | a slot becomes a pending operation |
| EventQueue.EventQueue.SyncProcess | src/sys_evq.c:678-717 | the list is detached, and one operation after the other is freed and run, until an error, which is reported, ends the loop |
| EventSessions.LookupsAgree | src/event/timeout.c:83-124 | after any run the map and the sorted list give the same events, with the same flags, in the same places of the same queues, due at the same times, and as many free slots, although slots and list orders differ |
| EventSessions.PerformAlike | src/sys_evq.c:91-108 | every single operation keeps two queues alike that look up in different ways |
| EventTwins.SameSyncProcess | src/sys_evq.c:678-717 | so does levq_sync_process: the events it makes are counterparts, and an error ends it at the same operation |
| EventSessions.FreshRelated | src/sys_evq.c:114-151 | new queues are alike, whichever way they look up |
| EventTurns.HandleAllIs | src/sys_evq.c:836-877 | working off the ready list, in whatever order, leaves exactly the events that are neither deleted nor one-shot, in their queues, with their result flags cleared |
| EventTurns.SameHandle | src/sys_evq.c:836-877 | and it keeps two queues alike |
| EventLookup.SameProcess | src/event/timeout.c:156-190 | so does timeout_process |
| EventLookup.SameSet | src/event/evq.c:17-31 | so does evq_set_timeout |
| EventLookup.SameDelete | src/sys_evq.c:563-588 | so does levq_del |
| EventIds.GetMaxBitIsLog2 | src/sys_evq.c:56-70 | getmaxbit is floor(log2 v) for every nonzero 32-bit word |
| EventIds.DecodeWordInverts | src/sys_evq.c:170-182 | the decoding of levq_done, on 32-bit words, recovers buffer and offset from every id issued |
| EventIds.DecodeInverts | src/sys_evq.c:170-182 | the same on numbers, for buffers of any size |
| EventIds.FreshIdsDistinct | src/sys_evq.c:208-229 | no fresh id is issued twice |
| EventIds.IdsContiguous | src/sys_evq.c:208-229 | the ids run on without a gap from one buffer to the next, from 0 |
| EventIds.FreshIdIsMasked | src/sys_evq.c:228-229 | the id is what the code computes with a mask |
| Rings.RingAdd | src/thread/thread_sched.c:76-95 | the task becomes the last of a well-formed ring, and no other task's links change |
| Rings.RingDel | src/thread/thread_sched.c:97-111 | the task leaves a well-formed ring |
| SchedRuns.EveryTaskInOnePlace | src/thread/thread_sched.c:76-169 | after every guarded run both rings are cycles, each id is active, free, in a worker's hands or parked, and only one of these, a task in a ring is not suspended, one that waits for an event is, and ntasks counts the ids that are not free |
| SchedRuns.StepKeepsIff | src/thread/thread_sched.c:402-431 | an operation on a scheduler in order leaves it so if and only if it neither wakes a task that has suspended itself and is still running, nor lets such a task come back but by a yield with no termination pending, nor notes an event for a task that is not suspended |
| SchedRuns.InOrderIff | src/thread/thread_sched.c:517-839 | the runs after each step of which the scheduler is in order are exactly those that keep this guard |
| SchedSteps.FinishKeepsIff | src/thread/thread_sched.c:402-431 | for a task that comes back: if and only if it is not suspended, or yields without its termination pending |
| SchedSteps.TerminateKeepsIff | src/thread/thread_sched.c:596-621 | for sched_terminate: if and only if the task is not both running and suspended |
| SchedSteps.ResumeKeepsIff | src/thread/thread_sched.c:645-666 | for sched_resume of a task it accepts: the same |
| SchedSteps.ReadyKeepsIff | src/thread/thread_sched.c:817-839 | for an event that is ready: the same, if it is the one waited for |
| SchedSteps.AddedKeepsIff | src/thread/thread_sched.c:799-811 | for an event added later: if and only if its task is suspended; for a failure: the same as above |
| SchedSteps.MarkKeeps | src/thread/thread_sched.c:627-703 | a running task may suspend itself or start to wait, once or again |
| SchedSteps.PutKeeps | src/thread/thread_sched.c:517-572 | a new task becomes the last of the active ring and no other moves, or nothing changes for want of memory |
| SchedLands.FinishLands | src/thread/thread_sched.c:402-431 | a coroutine that returns, fails or is to be terminated is the last of the free ring and counted no more; one that yields is parked if it is suspended, else the last of the active ring; no other task moves |
| SchedLands.FinishedNeverRuns | src/thread/thread_sched.c:412-431 | such a coroutine never runs again: in every guarded run its task stays in the free ring until sched_put gives the id out |
| SchedLands.PopLands | src/thread/thread_sched.c:379-400 | the head of the active ring is freed if its termination is pending, else it runs, started and counted in the tick |
| SchedLands.PutLands | src/thread/thread_sched.c:115-138 | a new task has its coroutine and clear bits, the head of the free ring or the next id, and is the last of the active ring; there is none exactly when no task is free and a full buffer cannot grow |
| SchedLands.TerminateLands | src/thread/thread_sched.c:596-621 | a terminated task is marked, waits for nothing, and is the last of the active ring if it was suspended |
| SchedLands.ResumeLands | src/thread/thread_sched.c:645-666 | a resumed task is the last of the active ring |
| SchedLands.ReadyLands | src/thread/thread_sched.c:817-839 | so is the one whose event is ready; another event changes nothing |
| SchedLands.AddedLands | src/thread/thread_sched.c:799-811 | an event added is the one waited for from then on; a failure queues a suspended task |
| SchedLands.MarkLands | src/thread/thread_sched.c:627-703 | a task that marks itself keeps its place and is suspended, but for the errors of the calls |
| SchedTorn.TearsIff | src/thread/thread_sched.c:596-839 | an operation leaves its task in two places, or so that it will be in two as soon as another task terminates it or its event is ready, if and only if the guard does not allow it |
| SchedTorn.OrderIsOnce | src/thread/thread_sched.c:76-169 | in order a task is counted once in the two rings and the hands of the workers, or not at all if it is parked |
| SchedTorn.EarlyResumeLosesTask | src/thread/thread_sched.c:645-659 | a task that suspends, catches the error of lua_yield, resumes itself, puts another one and yields empties the active ring with its next turn, and the other one is in no ring |
| SchedTorn.EarlyTerminateCorrupts | src/thread/thread_sched.c:596-607 | one that suspends, catches the error, terminates itself and returns ends up in both rings |
| SchedTorn.UnguardedRunCorrupts | src/thread/thread_sched.c:412-426 | so does one that terminates itself, suspends and is terminated again |
| SchedTorn.CaughtYieldCorrupts | src/thread/thread_sched.c:627-639 | so does one that suspends, catches the error, returns and is terminated |
| SchedTorn.StaleEventLosesTask | src/thread/thread_sched.c:799-811 | the second event of a task that starts to wait twice is noted after the first has woken it: it is queued twice, and the task behind it is lost |
| SchedRuns.RoundRobin | src/thread/thread_sched.c:379-415 | the task at position k of the active ring moves up by one with every pop, whatever happens in between |
| SchedRuns.NextAfterPops | src/thread/thread_sched.c:342-384 | it is the next one taken after exactly k pops |
| SchedRuns.IdsKeepCoroutines | src/thread/thread_sched.c:115-138 | only sched_put gives an id another coroutine, and only one that was free or new: ids survive reallocation |
| SchedRuns.InUseCounts | src/thread/thread_sched.c:517-572 | ids in use and free ids make up all ids |
| Scheduler.Scheduler.TasklistAdd | src/thread/thread_sched.c:76-95 | the stores of the ring insertion |
| Scheduler.Scheduler.TasklistDel | src/thread/thread_sched.c:97-111 | the stores of the ring removal |
| Scheduler.Scheduler.TaskAlloc | src/thread/thread_sched.c:115-138 | a free task is reused, or the buffer is extended, doubled if it is full; NULL if that fails |
| Scheduler.Scheduler.TaskDel | src/thread/thread_sched.c:141-169 | the task becomes the last of the free ring, its bits as they were |
| Scheduler.Scheduler.Put | src/thread/thread_sched.c:517-572 | the new task is the last of the active ring, or nothing changes and there is no id |
| Scheduler.Scheduler.Next | src/thread/thread_sched.c:379-400 | the head of the active ring is taken; a task to be terminated is freed |
| Scheduler.Scheduler.Finish | src/thread/thread_sched.c:402-431 | the task is queued again, parked or freed according to how it came back |
| Scheduler.Scheduler.Suspend | src/thread/thread_sched.c:627-639 | the running task is marked, unless it waits for an event |
| Scheduler.Scheduler.WaitEvent | src/thread/thread_sched.c:675-703 | the running task is marked and gets the event, or the operation that will add it, with the two branches for what is there already |
| Scheduler.Scheduler.Terminate | src/thread/thread_sched.c:596-621 | the task is marked, and woken if it is suspended; what it waited for is handed back |
| Scheduler.Scheduler.Resume | src/thread/thread_sched.c:645-666 | a suspended task that waits for no event is woken |
| Scheduler.Scheduler.EventReady | src/thread/thread_sched.c:817-839 | the task that waits for this event is woken |
| Scheduler.Scheduler.EventAdded | src/thread/thread_sched.c:799-815 | the event is noted for whatever task, which is woken if it is suspended and the event could not be added |
| FcgiRuns.StreamsArrive | src/isa/fcgi/sys_fcgi.c:247-349 | after any run of fcgi_encode calls, each given 0 or the offset of the data call before it, the buffer reads as records of a length that is a multiple of eight and content of at most 0xFFFF bytes, and each request's output is exactly the data passed for it; a call without data adds an empty output record and an end record with status 0 and FCGI_REQUEST_COMPLETE |
| FcgiRuns.EndOffsetMisleadsIff | src/isa/fcgi/sys_fcgi.c:322-347 | the offset returned by a call without data spoils the streams of the next call if and only if that has data, for the same 16-bit request id, that fits into the end record |
| FcgiRuns.EndOffsetWitness | src/isa/fcgi/sys_fcgi.c:322-347 | one byte sent with such an offset does not arrive |
| FcgiEncode.StepIsSent | src/isa/fcgi/sys_fcgi.c:262-347 | a call extends the last record of its request in place, or appends records, and returns the offset of the last one's length field |
| FcgiEncode.ExtendedIsLonger | src/isa/fcgi/sys_fcgi.c:282-342 | writing over old padding and header fields gives the bytes of the longer record |
| FcgiEncode.PaddingFills | src/isa/fcgi/sys_fcgi.c:291-294 | the padding makes a multiple of eight and is less than eight |
| FcgiEncoder.Encode | src/isa/fcgi/sys_fcgi.c:247-349 | the stores into the memory buffer are those of a step; without memory, or with too much data, nothing changes |
| FcgiRecord.ParseOfStream | src/isa/fcgi/sys_fcgi.c:117-137 | a stream of records reads as these records, whatever follows |
| FcgiRecord.FrontStays | src/isa/fcgi/sys_fcgi.c:121-137 | a complete record stays the same when more bytes arrive |
| FcgiDecode.SplitDoesNotMatter | src/isa/fcgi/sys_fcgi.c:212-238 | however the input is cut into pieces, decoding them one by one gives the same requests, but for the chain of ready ones, and the same unconsumed tail as decoding the whole |
| FcgiDecode.DecodeGoesOn | src/isa/fcgi/sys_fcgi.c:212-238 | decoding more bytes goes on where decoding the first ones has stopped |
| FcgiRequest.ParamsArrive | src/isa/fcgi/sys_fcgi.c:55-93 | every list of name-value pairs within section 3.4 arrives as it was sent |
| FcgiRequest.RequestArrives | src/isa/fcgi/sys_fcgi.c:35-205 | a whole request, with its parameters and its body in any number of records each, arrives complete |
| FcgiReady.ReadyChain | src/isa/fcgi/sys_fcgi.c:192-201 | one call returns no id if and only if it has completed no request; `next_ready` leads from the id returned through exactly the requests completed, the latest first, to one without it, if and only if none was completed twice and none got a parameter of that name afterwards |
| FcgiReady.TwiceNeverEnds | src/isa/fcgi/sys_fcgi.c:192-201 | if a request was completed twice, following the links never comes to an end |
| FcgiReady.FaultThenEndLoops | src/isa/fcgi/sys_fcgi.c:156-201 | a record of an unknown type and then the end of the body: the request leads to itself |
| FcgiReady.LateNameBreaks | src/isa/fcgi/sys_fcgi.c:162-164 | a parameter `next_ready` that comes after its request is completed takes the place of the link |
| FcgiReady.RecordStores | src/isa/fcgi/sys_fcgi.c:117-193 | a record changes its own request only, and stores the connection flag, more of the body, or what is wrong: version, type, role, size or a pair cut off |
| FcgiReady.PairIff | src/isa/fcgi/sys_fcgi.c:60-84 | a name-value pair is read exactly where two lengths and as many bytes stand |
| FcgiDecoder.Params | src/isa/fcgi/sys_fcgi.c:55-93 | the cursor loop stores the pairs and stops at the first malformed one |
| FcgiDecoder.Channel.Record | src/isa/fcgi/sys_fcgi.c:117-205 | one record changes its request and the chain of ready requests as DecodeRecord does |
| FcgiDecoder.Channel.Decode | src/isa/fcgi/sys_fcgi.c:212-238 | the loop consumes whole records and keeps the rest in the buffer |
| PollSet.PollSet.Add | src/event/poll.c:59-97 | the event gets the next slot and its index, the arrays doubling when full; without memory nothing changes |
| PollSet.PollSet.Del | src/event/poll.c:125-149 | the last entry takes the place of the event |
| PollSet.PollSet.Modify | src/event/poll.c:152-158 | only the requested events of the slot change |
| PollSet.PollSet.Scan | src/event/poll.c:208-236 | every slot that was ready is visited exactly once, each event with its results, which are handed out, though one-shot deletions move the last entry into slots already passed |
| PollSet.EveryReadyOnce | src/event/poll.c:208-236 | the events visited are exactly those of the ready slots, each once |
| PollSet.Report | src/event/poll.c:218-223 | a hang-up and nothing else tells the end of input; an event that asks for reading gets it on input or anything wrong, one that asks for writing on room or anything wrong unless it gets reading |
| PollSet.HitsReport | src/event/poll.c:208-236 | each event visited has the results of its own slot |
| PollSet.RemovedIndexed | src/event/poll.c:129-137 | removal keeps every slot and its event pointing at each other |
| PollSet.RemovedKeepsPairs | src/event/poll.c:129-137 | every other event keeps its descriptor and results, in the slot it then points at |
| PoolRuns.NothingLostOrTorn | src/thread/thread_dpool.c:95-200 | after any interleaving of put and get steps, with timeouts and failed hand-offs, each tuple put is stored, offered by one writer, delivered to one reader or given up by its writer; the table holds exactly the stored tuples in order, and every reader has got one whole tuple |
| PoolRuns.RunKeeps | src/thread/thread_dpool.c:95-200 | a tuple delivered stays delivered to the same reader, whole |
| PoolAnswers.PutLands | src/thread/thread_dpool.c:65-119 | with room dpool_put offers its items if a reader waits and no other call offers, else it stores them last; without room it waits; no other call moves |
| PoolAnswers.PutWakeLands | src/thread/thread_dpool.c:83-119 | so does one that has waited, and it gives its items up exactly if the wait has failed |
| PoolAnswers.PutResumeLands | src/thread/thread_dpool.c:95-119 | an offer no reader has taken is stored last |
| PoolAnswers.GetReceives | src/thread/thread_dpool.c:150-178 | dpool_get returns the items of the oldest stored call, or waits if and only if none is stored |
| PoolAnswers.GetWakeReceives | src/thread/thread_dpool.c:173-200 | one that has waited returns the items offered, else what dpool_get returns, and nothing after a timeout |
| PoolAnswers.FailsIff | src/thread/thread_dpool.c:86-90 | a call gives its items up if and only if its own wait fails in this step |
| PoolAnswers.NothingGivenUp | src/thread/thread_dpool.c:65-200 | in a run without such a failure every tuple put is with a reader, in the queue, offered or waits for room |
| PoolAnswers.FirstInFirstOut | src/thread/thread_dpool.c:105-178 | a stored call moves up by one with every call taken out, whatever happens in between |
| PoolState.StoreKeeps | src/thread/thread_dpool.c:105-118 | storing appends one tuple with its length to the table |
| PoolState.TakeKeeps | src/thread/thread_dpool.c:173-195 | taking removes the oldest tuple and starts the table anew when it is empty |
| DataPool.DataPool.PutBegin | src/thread/thread_dpool.c:65-104 | a new writer stores, offers or waits |
| DataPool.DataPool.PutWake | src/thread/thread_dpool.c:83-104 | a writer that wakes up does, or gives up after a timeout |
| DataPool.DataPool.PutResume | src/thread/thread_dpool.c:95-119 | a writer comes back from its offer, its tuple taken or not |
| DataPool.DataPool.GetRound | src/thread/thread_dpool.c:150-200 | a reader takes the oldest stored tuple or waits |
| DataPool.DataPool.GetWake | src/thread/thread_dpool.c:150-200 | a reader that wakes up takes the offer first |
| DataPool.DataPool.WriteTuple | src/thread/thread_dpool.c:105-118 | the cells of the tuple and its length go to the top of the table |
| DataPool.DataPool.ReadTuple | src/thread/thread_dpool.c:173-195 | the cells read are the tuple and are removed |
| MemBuffer.Membuf.MakeRoom | src/mem/membuf.c:34-60 | succeeds if and only if there is room for one byte more, or the buffer may grow and memory is there; the bytes in it stay |
| MemBuffer.Membuf.AddLString | src/mem/membuf.c:34-67 | appends exactly the bytes, however often it grows, or nothing |
| MemBuffer.Membuf.ReadNext | src/mem/sys_mem.c:122-135 | the bytes read are removed from the front |
| ReadBuffer.ReadString | src/sys_file.c:649-694 | returns the bytes the source delivered, in order, over the local buffer and its doubling heap copies |
| ReadBuffer.ReadInto | src/sys_file.c:649-694 | the memory buffer holds its old bytes and those the source delivered, and its write pointer is behind them if and only if the run is whole |
| ReadBuffer.ReadsAll | src/sys_file.c:662-688 | if no read is short before the end of the input, all of it is read, or as much as was asked for |
| ReadBuffer.ReadsEndIff | src/sys_file.c:662-684 | from the inputs: exactly when an error follows reads that filled the buffer, and exactly when an allocation fails after one |
| ReadBuffer.RoomDoubles | src/mem/sys_mem.c:172-188 | the room doubles with every growth |
| ReadBuffer.StringWholeIff | src/sys_file.c:677-694 | a string is all that was read if and only if no error follows reads that filled the buffer |
| ReadBuffer.ByteLost | src/sys_file.c:677-694 | a read of a whole buffer and then an error: the last byte is missing |
| ReadBuffer.BufferWholeIff | src/sys_file.c:677-694 | the write pointer is right if and only if no error and no failed allocation follows reads that filled the buffer |
| ReadBuffer.FixedRunsOutIff | src/mem/sys_mem.c:159-170 | for a buffer that cannot grow: if and only if one read uses up the room while more is asked for, it ends wrong |
| ReadBuffer.PointerBeyondEnd | src/mem/sys_mem.c:167-200 | such a read leaves the write pointer behind the end of the buffer |
| ReadBuffer.LocalBuffer.Next | src/mem/sys_mem.c:172-188 | the bytes read move to a buffer with as much room again |
| ReadBuffer.LocalBuffer.Done | src/mem/sys_mem.c:194-211 | the string is what stands before the write pointer and the tail |

## Left out

- Threads: every critical section, and every stretch between two releases of the VM lock, is one atomic step; a wait is a release and a later step. Wake-ups, signals and whether a waiter ever runs again are not modelled.
- Memory: allocated objects are numbered, and buffers that grow (the pipe's bytes, event slots, tasks) are sequences; memcpy into them is one step. Lua tables, the garbage collector, metatables and the Lua stack are not modelled; values are an abstract datatype.
- The pipe assumes a 64-bit little-endian host: sizes and offsets of its structures follow from that.
- PipeFifo.RunRefinesFifo: asks that no put of the run clobbers or overflows, the condition PipeFifo.PutKeepsIff proves exact; pipe_close is left out.
- EventQueue.EventQueue.ProcessActive: links the event before its deletion or reset, where evq_process_active does so after; neither looks at the ready list.
- EventQueue.EventQueue.SyncProcess: operations of levq_sync, which live on the stack of their thread, and what the calls do besides adding an event are left out.
- EventRuns.LossIff: Lua memory errors count while levq_add holds a slot that is on no list; one after the event is attached, which leaves it without its callback, and one in the ready loop are left out.
- EventQueue.EventQueue.Delete: a handle must not be deleted again after its slot has been released, as the code demands.
- EventSessions.LookupsAgree: the ready list is worked off without other operations in between, since the two ways make events ready in different orders and a callback would meet a different event.
- EventExpiry.ProcessFires: asks that no event of a queue is on the ready list yet, which sys_evq_loop makes sure of by waiting only when that list is empty; time is unbounded and does not go back.
- Callbacks, the deletion of an event whose coroutine has ended, signals, child processes, levq_stop, other threads in levq_control_wait, and Win32, where queue lists are kept per thread.
- epoll, kqueue and select: the same ready-list logic around kernel state.
- SchedRuns.EveryTaskInOnePlace: is about guarded runs, the condition SchedRuns.StepKeepsIff proves exact; preemption hooks, which are plain yields, and the stopping of workers are left out.
- Scheduler.Scheduler.Put: ntasks is counted with the allocation; the callback that makes coroutines and Lua memory errors are left out. A coroutine is put once and resumed by the scheduler only; the id that sys_sched_event_added and sys_sched_event_ready read from its stack is a parameter.
- PollSet.PollSet.Del: is about events with a descriptor; for timers and signals evq_del leaves the poll set alone, and the timeout goes as in EventQueue.EventQueue.TimeoutDel. A shrink of the arrays changes their capacity only, so pointers cached by a scan stay good; PollSet.PollSet.Scan does not model the kernel's poll.
- PoolRuns.NothingLostOrTorn: a hand-off may overtake stored tuples, so no order between the two is claimed; the callbacks for a full and an empty pool and the overflow of the table indexes are left out.
- FcgiDecode.SplitDoesNotMatter: a name-value pair that continues in the next PARAMS record is an error, as in the code and unlike the specification; input given as a Lua string, whose tail is dropped, and the metamethods of requests are left out.
- MemBuffer.Membuf.MakeRoom: the buffer has a positive length, without which the doubling loop does not end; output streams and lengths beyond an int are left out.
- ReadBuffer.ReadString: EINTR and EAGAIN are not told apart from reads and errors.
- Wrappers of files, sockets, processes, environment, log, random numbers, serial ports and services: plumbing around system calls.
