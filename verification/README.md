# Verified models of the MMO server core

This project models the concurrent and stateful heart of the server core in Dafny and proves what it
promises. Run `dafny verify dfyconfig.toml` to check everything.

| modules | what they model |
|---|---|
| `Tasks`, `Dispatch`, `DispatchCounts`, `DispatchSteps`, `DispatchRuns`, `DispatchGraphs`, `DispatchProgress`, `DispatchFailures` | the task graph and the phase scheduler: one main thread and any number of workers, every atomic operation a step of its own; what its counters count, what its steps keep, what its runs execute, on which graphs and with how many workers they can go wrong, and that phases end |
| `DispatchCounterexamples` | two short runs that show what goes wrong on graphs with edges inside a phase |
| `Scheduling`, `Pipeline` | JobDispatch and the pipeline executor as objects, with the workers running between the main thread's steps |
| `SlotRing`, `Mpmc`, `MpmcQueue`, `Words`, `MpmcWords` | the bounded multi-producer multi-consumer queue: on unbounded positions, as an object under interference, and on 64-bit words |
| `Mpsc`, `MpscQueue` | the multi-producer single-consumer queue |
| `ReadyQueue`, `ReadyQueueOverflow` | the dispatcher on its real queue: every step of an Enqueue or Dequeue is a step of the whole; and a run in which the queue refuses a task |
| `SendLoop`, `NetSend` | the per-connection send path as a step machine and as code under interference |
| `Bytes`, `PacketCodec` | framing and the receive drain loop |
| `Timers` | the timer queue with lazy cancellation |
| `Packets`, `Serialization` | packet writer and reader, string serialization |
| `EventBus`, `BlockPool` | event bus snapshots under reentrancy, the fixed-block pool |
| `Arith`, `Collections` | facts about division, sequences and sizes |

## Assumptions

Atomic operations are sequentially consistent and each is one step; a weak compare and swap may fail
spuriously; what a move leaves behind in a slot is arbitrary. Waiting on an atomic blocks while the
value is unchanged, until a notify.

A tick goes wrong in two ways, both possible in the code: the seed loop reads live counters, so it can
choose again a task that a fast worker has released and already chosen; and a child is enqueued before it
is counted, so the active counter can pass through zero while a task of the phase is under way.
`DispatchRuns.ExactlyWhenSound` says that in no run does anything else go wrong.

`DispatchFailures.ExactlyTheSafeGraphs` says on which graphs a run can go wrong at all, which is what a
caller can check. With two or more workers these are exactly the graphs with an edge between two tasks of
one phase. With one worker the counter cannot pass through zero, and it is exactly the graphs with a task
that depends on a task of its own phase and comes, in node order, after all tasks that it follows within
the phase and that depend on none of it. On the other graphs, the safe ones, every run executes every
tick as it should, whatever the interleaving (`DispatchGraphs.SafeGraphTicks`), every phase ends
(`DispatchProgress.EveryPhaseOfASafeGraphEnds`), and the queue never refuses a task
(`ReadyQueue.NeverRejectsOnSafeGraphs`); on unsafe ones it can (`ReadyQueueOverflow.EnqueueCanBeRefused`).

For graphs that are not safe, two conditions on the interleaving keep both faults out: (S) no worker
leaves its load of the current phase while the main thread is in the seed loop, and (C) an enqueue is
directly followed by its increment of the active counter, with nobody else's step between
(`DispatchRuns.EveryTickIsALinearExtension`, `ReadyQueue.ReadyQueueNeverRejects`). The program's statements
do not enforce these. `Scheduling` and `Pipeline` run under them.

In `ReadyQueue` an enqueue counts from the moment its position is won, so (C) there asks that the steps from
winning the position to the increment follow one another. Counter conservation and freedom from lost
wakeups (`DispatchCounts`) need none of this.

The graph contract is that of docs/Layer2/TaskGraph/interface_contract.md: unique ids with an inverse
index, parent counts equal to the incoming edges, phase ranges that partition the nodes, no cycle and
no edge backwards in phase. Parallel edges, which the contract forbids, are allowed here.

## Where the code and its documentation differ

* docs/Layer1/lockfree_queue/behavior.md promises only per-producer order for the single-consumer queue; the
  code gives the order in which positions are won, over all producers (`Mpsc.FirstInFirstOut`).
* docs/Layer1/Serialization/behavior.md calls deserialization rollback-safe. PacketReader::ReadString
  rolls its cursor back; StringSerializer::Deserialize does not: after a failure the cursor is where it
  was exactly when fewer than four bytes remained (`Serialization.BinaryReader.ReadString`). Serialize
  likewise leaves its length behind when only the text does not fit.
* MPMCQueue::ApproxSize compares raw 64-bit words and reports zero when its loads straddle a wrap
  (`MpmcWords.SizeAgreesWithinALap`); MPSCQueue::ApproxSize reports nearly 2^64 when the consumer passes the
  loaded tail (`Mpsc.SizeOvertaken`).
* Ids of event subscriptions start again at 1 after EventBus::Clear, so a token from before can switch off a
  handler subscribed since; `EventBus.EventBus.StaleToken` says exactly which.
* TimerQueue::Cancel returns true for ids that have fired or were never handed out; an id cancelled in
  advance is dropped when it comes up (`Timers.CancelledNeverFires`).

## Model

| member | source | states |
|---|---|---|
| DispatchFailures.ExactlyTheSafeGraphs | server_core/runtime/JobDispatch/src/JobDispatch.cpp:56-175 | For every well-formed graph and every number of workers: in all runs, whatever the interleaving of all atomic operations, no task is chosen twice and the main thread never comes back from an unfinished phase, if and only if the graph is safe. With several workers: no edge joins two tasks of one phase. With one worker: every task that depends on a task of its own phase also follows, along edges of that phase, a task that depends on none of it and comes later in node order. |
| DispatchFailures.InnerEdgeFails | server_core/runtime/JobDispatch/src/JobDispatch.cpp:124-152 | With at least two workers, every edge inside a phase gives a run from the initial state that breaks the promise: a child is completed before its parent's worker has counted it, and ExecutePhase returns. |
| DispatchFailures.EarlyRootsFail | server_core/runtime/JobDispatch/src/JobDispatch.cpp:88-97 | With one worker, every task with an inner parent whose inner roots all come before it gives a run in which the seed loop chooses it again. |
| DispatchGraphs.SafeGraphTicks | server_core/runtime/JobDispatch/src/JobDispatch.cpp:56-175 | On a safe graph every run keeps the promise, and whenever the main thread is back from a phase the ExecuteTask calls of the tick are exactly the tasks of the phases so far, in a linear extension. |
| DispatchRuns.ExactlyWhenSound | server_core/runtime/JobDispatch/src/JobDispatch.cpp:73-175 | For a single run on any well-formed graph: no task is ever chosen twice and no phase is left unfinished, if and only if no seed load finds a zero counter of a task that a worker has already chosen, and no load of the wait loop finds a zero active counter while a worker has a task in hand. |
| DispatchRuns.SoundTicks | server_core/runtime/JobDispatch/src/JobDispatch.cpp:56-175 | In such runs, whenever the main thread is back from a phase, the ExecuteTask calls of the tick are exactly the tasks of the phases so far, each once, parents before children and phases in order, nothing is queued and nobody has a task in hand; after the fourth phase exactly all tasks of the graph. A new tick may begin whenever the main thread is outside, also after one that broke off. |
| DispatchGraphs.NoInnerEdgesTicks | server_core/runtime/JobDispatch/src/JobDispatch.cpp:110-131 | In particular for every well-formed graph without an edge between two tasks of one phase, so that the guard on the child's phase never holds, and any number of workers. |
| DispatchRuns.EveryTickIsALinearExtension | server_core/runtime/JobDispatch/src/JobDispatch.cpp:56-175 | For every well-formed graph, inner edges included, it holds in every run in which no worker leaves its load of the phase while the main thread seeds (S) and every enqueue is directly followed by its increment (C); all other atomic operations interleave freely. |
| DispatchSteps.WorkerNextKeepsInv | server_core/runtime/JobDispatch/src/JobDispatch.cpp:102-152 | Every atomic step of every worker (dequeue, execute, load of the phase, decrement of one child's counter, enqueue of the child, increment of the active counter, its decrement, epoch increment, notify) keeps the scheduler invariant: each pending counter is the number of unprocessed incoming edges, the queue is duplicate-free and holds what is chosen and not taken, each task is chosen once. |
| DispatchSteps.MainNextKeepsInv | server_core/runtime/JobDispatch/src/JobDispatch.cpp:56-100 | Every atomic step of the main thread (rebuilding a counter, the seed loop's load, enqueue and increment, the loads and compares of the wait) that neither reseeds nor leaves early keeps the same invariant. |
| DispatchSteps.BeginPhaseKeepsInv | server_core/runtime/JobDispatch/src/JobDispatch.cpp:185-191 | Entering the next phase, or Input at any time, keeps the invariant: Input restarts the histories, so an abandoned tick leaves nothing behind. |
| DispatchSteps.ReseedBreaksPromise | server_core/runtime/JobDispatch/src/JobDispatch.cpp:88-97 | A seed load that finds a worker's choice at zero makes the task be chosen twice. |
| DispatchSteps.LeavingEarlyBreaksPromise | server_core/runtime/JobDispatch/src/JobDispatch.cpp:154-175 | A zero load while a worker has a task in hand brings the main thread back from an unfinished phase. |
| DispatchSteps.BarrierIsComplete | server_core/runtime/JobDispatch/src/JobDispatch.cpp:154-175 | If nothing is queued or in hand once seeding is over, every task of the phase is done: a pending task would lead, by the minimal-unfinished-task argument on the acyclic graph, to a task in flight. |
| Tasks.MinimalTask | docs/Layer2/TaskGraph/interface_contract.md:209-287 | Every nonempty set of tasks of an acyclic graph has a member that waits for no other member. |
| DispatchProgress.SomeWorkerMoves | server_core/runtime/JobDispatch/src/JobDispatch.cpp:135-175 | While something is queued or in hand, or a signal is still owed, some worker can take a step; in particular whenever the main thread sleeps. |
| DispatchProgress.WorkerMoveDecreases | server_core/runtime/JobDispatch/src/JobDispatch.cpp:102-152 | Every step of a worker that does not look into an empty queue strictly decreases a measure over unfinished tasks and returning workers. |
| DispatchProgress.EveryPhaseEnds | server_core/runtime/JobDispatch/src/JobDispatch.cpp:154-197 | Every phase ends: from any state of a run in which nothing has gone wrong, and as long as nothing does, only boundedly many moves change anything before the next phase is asked for, one is possible exactly until everybody is idle, and then the phase under way has been executed. |
| DispatchProgress.EveryPhaseOfASafeGraphEnds | server_core/runtime/JobDispatch/src/JobDispatch.cpp:154-197 | On a safe graph the same for every run, whatever the interleaving. |
| DispatchCounts.EveryRunConservesAndWakes | server_core/runtime/JobDispatch/src/JobDispatch.cpp:93-142 | For any graph with indices in range, any workers, phases asked for in any order and any run: the 32-bit active counter is always the number of queued and carried instances less the increments still owed, modulo 2^32; and a blocked main thread always has a nonzero counter or a worker between its last decrement and its notify. |
| DispatchCounts.CounterConservation | server_core/runtime/JobDispatch/src/JobDispatch.cpp:93-142 | Exactly when the counter wraps: only in the window between the seed loop's enqueue and increment, and then to 2^32 - 1. |
| DispatchCounts.ZeroMeans | server_core/runtime/JobDispatch/src/JobDispatch.cpp:125-152 | The counter is zero after seeding exactly when the queue is empty and every task in hand stands between a child's enqueue and its increment. |
| DispatchCounts.NoLostWakeup | server_core/runtime/JobDispatch/src/JobDispatch.cpp:135-175 | The main thread is never blocked on the epoch without a nonzero counter or a worker about to signal, for any graph and any run. |
| DispatchCounts.WorkerNextKeepsCounts | server_core/runtime/JobDispatch/src/JobDispatch.cpp:102-152 | Every atomic worker step keeps conservation and the wakeup guarantee. |
| DispatchCounts.MainNextKeepsCounts | server_core/runtime/JobDispatch/src/JobDispatch.cpp:56-175 | Every atomic step of the main thread does too. |
| DispatchCounterexamples.WithoutSTaskRunsTwice | server_core/runtime/JobDispatch/src/JobDispatch.cpp:88-97 | A run without (S), on a well-formed two-task chain with one worker, that executes a task twice. |
| DispatchCounterexamples.WithoutCPhaseReturnsEarly | server_core/runtime/JobDispatch/src/JobDispatch.cpp:125-129 | A run without (C), on a well-formed three-task fork with two workers, in which ExecutePhase returns while a task of the phase has not run. |
| DispatchCounterexamples.ChainIsWellFormed | docs/Layer2/TaskGraph/interface_contract.md:209-287 | The chain meets the graph contract. |
| DispatchCounterexamples.ForkIsWellFormed | docs/Layer2/TaskGraph/interface_contract.md:209-287 | The fork meets the graph contract. |
| Scheduling.JobDispatch.Initialize | server_core/runtime/JobDispatch/src/JobDispatch.cpp:8-42 | Succeeds exactly on a dispatcher that is not running and whose graph is fully registered; then graph, context and registry are bound and the workers started; otherwise nothing changes. |
| Scheduling.PoolSize | server_core/runtime/JobDispatch/src/WorkerPool.cpp:29-38 | The number of workers is what the hardware offers, as 16 bits, if that is between 1 and 32, and 1 otherwise. |
| Scheduling.JobDispatch.StartPool | server_core/runtime/JobDispatch/src/WorkerPool.cpp:11-65 | A pool that runs refuses to start and nothing changes; else every worker begins its loop. |
| Scheduling.JobDispatch.ReleaseChild | server_core/runtime/JobDispatch/src/JobDispatch.cpp:110-123 | The decrement of one child's counter and the decision to enqueue it, on the object's fields, are one step of the machine. |
| Scheduling.JobDispatch.EnqueueChild | server_core/runtime/JobDispatch/src/JobDispatch.cpp:124-127 | The enqueue of a child that became ready is a step of its own. |
| Scheduling.JobDispatch.CountChild | server_core/runtime/JobDispatch/src/JobDispatch.cpp:129-129 | The increment of the active counter is a step of its own. |
| Scheduling.JobDispatch.Operate | server_core/runtime/JobDispatch/src/WorkerPool.cpp:94-115 | One atomic step of a worker on the dispatcher's own fields is one step of the machine; at the head of its loop it leaves once the pool's run flag is down. |
| Scheduling.JobDispatch.WorkerStep | server_core/runtime/JobDispatch/src/WorkerPool.cpp:94-115 | Such a step where (S) and (C) allow it keeps the invariant and is recorded. |
| Scheduling.JobDispatch.JoinWorkers | server_core/runtime/JobDispatch/src/WorkerPool.cpp:67-87 | Once the run flag is down every worker leaves its loop, in whatever order they move, and stands at its head. |
| Scheduling.JobDispatch.BuildRuntimeState | server_core/runtime/JobDispatch/src/JobDispatch.cpp:56-71 | The loop, with workers running between its stores, is a run of the machine inside the phase that leaves every counter at its node's parent count, ready for seeding. |
| Scheduling.JobDispatch.LoadCounter | server_core/runtime/JobDispatch/src/JobDispatch.cpp:86-91 | The seed loop's load is one step of the machine: it decides on an enqueue exactly for a zero counter. |
| Scheduling.JobDispatch.SeedReadyQueue | server_core/runtime/JobDispatch/src/JobDispatch.cpp:73-100 | The loop over the phase range, with workers running between its loads and enqueues, is a run of the machine inside the phase that ends ready to wait. |
| Scheduling.JobDispatch.WaitForPhaseCompletion | server_core/runtime/JobDispatch/src/JobDispatch.cpp:154-175 | The wait loop terminates whatever the workers do between its loads; it is a run of the machine inside the phase, after which the main thread is outside with the phase complete. |
| Scheduling.JobDispatch.ExecutePhase | server_core/runtime/JobDispatch/src/JobDispatch.cpp:177-197 | Returns whether the dispatcher runs; if so, the call is a run of the machine that keeps to (S) and (C), made of the beginning of this phase and moves inside it, and afterwards exactly the tasks of the phases so far have been executed this tick, in a linear extension, nothing is queued and nobody has a task in hand. |
| Scheduling.JobDispatch.Shutdown | server_core/runtime/JobDispatch/src/JobDispatch.cpp:199-224 | The workers leave their loops and every field, counters, queue, graph and registry included, is back at its initial value, so the dispatcher may be initialized anew; a second call changes nothing. |
| Pipeline.RuntimePipelineExecutor.ExecutePipeline | server_core/runtime/RuntimePipelineExecutor/src/RuntimePipelineExecutor.cpp:70-111 | Throws exactly before Initialize and after Shutdown; otherwise succeeds exactly when the dispatcher runs; then it has asked for exactly the four phases in order, and the tick has executed every task once in a linear extension; after success and failure alike the executor is ready for the next tick. |
| Pipeline.RuntimePipelineExecutor.Initialize | server_core/runtime/RuntimePipelineExecutor/src/RuntimePipelineExecutor.cpp:30-51 | Throws exactly when not freshly created; succeeds exactly when the dispatcher is idle and every task is registered, and then the dispatcher runs this graph; a failure changes neither the executor nor any field of the dispatcher. |
| Pipeline.RuntimePipelineExecutor.Shutdown | server_core/runtime/RuntimePipelineExecutor/src/RuntimePipelineExecutor.cpp:53-68 | Ends in Stopped with the dispatcher as after construction; a second call leaves the dispatcher, whoever runs it by then, alone. |
| Tasks.TaskRegistry.Register | server_core/runtime/JobDispatch/include/mmo/runtime/JobDispatch/TaskRegistry.hpp:32-40 | Binds exactly the ids below 256 and leaves all other slots alone; from then on the id resolves to the function bound and every other id to what it did before. |
| Tasks.TaskRegistry.Resolve | server_core/runtime/JobDispatch/include/mmo/runtime/JobDispatch/TaskRegistry.hpp:45-52 | The function in the slot for every id below 256, the null function for every other. |
| Tasks.TaskRegistry.Validate | server_core/runtime/JobDispatch/src/TaskRegistry.cpp:8-26 | True exactly when every node's id is below 256 and its slot holds a function, that is, resolves to one. |
| ReadyQueue.ExecutedTasksResolve | server_core/runtime/JobDispatch/src/JobDispatch.cpp:44-54 | After a successful Validate, in every state of every run of dispatcher and queue in which nothing goes wrong, the id a worker executes is within the counters and resolves to a function, so the null branch of ExecuteTask is never taken. |
| ReadyQueue.ReadyQueueNeverRejects | server_core/runtime/JobDispatch/src/JobDispatch.cpp:93-126 | Dispatcher and queue as one machine, in which every enqueue and dequeue is made of the queue's own atomic steps, from the initial state over any number of ticks: under (S) and (C) no thread ever stands refused by an Enqueue, so both asserts hold, and every tick is a linear extension. |
| ReadyQueue.NeverRejectsOnSafeGraphs | server_core/runtime/JobDispatch/src/JobDispatch.cpp:93-126 | The same with no condition on the interleaving, for safe graphs. |
| ReadyQueueOverflow.EnqueueCanBeRefused | server_core/runtime/JobDispatch/src/JobDispatch.cpp:93-94 | Outside these runs the assertion can fail: on a well-formed graph of 256 tasks in one phase, with two workers, a run of dispatcher and queue in which the 257th Enqueue of the phase returns false. |
| ReadyQueueOverflow.FullIsWellFormed | docs/Layer2/TaskGraph/interface_contract.md:209-287 | That graph meets the graph contract. |
| ReadyQueue.SoundSystem | server_core/runtime/JobDispatch/src/JobDispatch.cpp:93-126 | The same for every graph and every run in which the main thread neither reseeds nor leaves early. |
| ReadyQueue.OutsideIsDrained | server_core/runtime/JobDispatch/src/JobDispatch.cpp:154-175 | The barrier drains the queue: whenever the main thread is outside, every position ever won is released and no Enqueue is under way. |
| Mpmc.FirstInFirstOut | server_core/infrastructure/lockfree_queue/include/mmo/infrastructure/lockfree_queue/MPMCQueue.hpp:59-146 | For every schedule of any number of producers and consumers: head <= tail <= head + Capacity; what the consumer of position p returns is what the producer of p put in; at rest the delivered values in claim order are a prefix of the enqueued ones and the rest sit published in their slots. |
| Mpmc.NextKeepsInv | server_core/infrastructure/lockfree_queue/include/mmo/infrastructure/lockfree_queue/MPMCQueue.hpp:59-146 | Every atomic step of every thread keeps the ring, ownership and history invariants, spurious failures of the weak compare and swap included. |
| Mpmc.NextExtends | server_core/infrastructure/lockfree_queue/include/mmo/infrastructure/lockfree_queue/MPMCQueue.hpp:59-146 | Histories only grow: no item, delivery or stage is ever taken back. |
| Mpmc.EnqueueVerdict | server_core/infrastructure/lockfree_queue/include/mmo/infrastructure/lockfree_queue/MPMCQueue.hpp:61-95 | Enqueue gives up exactly when its position is the tail and the occupant one lap back is not released, however many laps stale its position is; it reloads only a stale position. |
| Mpmc.DequeueVerdict | server_core/infrastructure/lockfree_queue/include/mmo/infrastructure/lockfree_queue/MPMCQueue.hpp:112-144 | Dequeue gives up exactly when its position is the head and that position is unpublished; it reloads only a stale position. |
| Mpmc.DequeueReturns | server_core/infrastructure/lockfree_queue/include/mmo/infrastructure/lockfree_queue/MPMCQueue.hpp:123-132 | A Dequeue that returns a value returns the item of the position it won, never delivered before; no other step delivers. |
| Mpmc.EnqueueReturns | server_core/infrastructure/lockfree_queue/include/mmo/infrastructure/lockfree_queue/MPMCQueue.hpp:73-82 | When Enqueue returns true its item stands at the position it won, published. |
| Mpmc.OneItemPerClaim | server_core/infrastructure/lockfree_queue/include/mmo/infrastructure/lockfree_queue/MPMCQueue.hpp:73-82 | A step adds at most one item: the caller's own, at the position it won. |
| Mpmc.LaterCallsComeLater | server_core/infrastructure/lockfree_queue/include/mmo/infrastructure/lockfree_queue/MPMCQueue.hpp:61-82 | A call that starts after a state can only win positions from that state's tail (head) on: queue order respects real time. |
| Mpmc.StorageIsExclusive | server_core/infrastructure/lockfree_queue/include/mmo/infrastructure/lockfree_queue/MPMCQueue.hpp:73-82 | Two threads about to touch storage are at different slots. |
| Mpmc.SequenceValues | server_core/infrastructure/lockfree_queue/include/mmo/infrastructure/lockfree_queue/MPMCQueue.hpp:37-45 | A slot's sequence number is one of three values, fixed by head, tail and how far the position's claim has got. |
| Mpmc.SizeWithinCapacity | server_core/infrastructure/lockfree_queue/include/mmo/infrastructure/lockfree_queue/MPMCQueue.hpp:161-167 | ApproxSize never exceeds the capacity. |
| Mpmc.SizeOfTwoLoads | server_core/infrastructure/lockfree_queue/include/mmo/infrastructure/lockfree_queue/MPMCQueue.hpp:161-167 | Whatever the others do between its two loads, ApproxSize reports the distance of the tail at the first from the head at the second, or 0 when the head has passed it. |
| Mpmc.SizeUndisturbed | server_core/infrastructure/lockfree_queue/include/mmo/infrastructure/lockfree_queue/MPMCQueue.hpp:161-167 | A whole undisturbed call reports the number of items put in less those taken. |
| MpmcQueue.MPMCQueue.constructor | server_core/infrastructure/lockfree_queue/include/mmo/infrastructure/lockfree_queue/MPMCQueue.hpp:37-45 | The constructor's loop establishes the initial state of the machine. |
| MpmcQueue.MPMCQueue.Enqueue | server_core/infrastructure/lockfree_queue/include/mmo/infrastructure/lockfree_queue/MPMCQueue.hpp:59-96 | The retry loop on the queue's own fields, under arbitrary interference: the call is a run of the machine in which the thread makes this one call; it wins exactly one position, the one it fills, when it returns true, and none when it returns false, and then the queue was full in a state of that run; its rounds are at most one more than the positions others won and its spurious failures (lock-freedom). |
| MpmcQueue.MPMCQueue.Dequeue | server_core/infrastructure/lockfree_queue/include/mmo/infrastructure/lockfree_queue/MPMCQueue.hpp:110-146 | Likewise: the call wins exactly one position and returns its item, never delivered before, or wins none, and then the head was unpublished in a state of its run; the same bound on its rounds. |
| MpmcWords.WordRunAgrees | server_core/infrastructure/lockfree_queue/include/mmo/infrastructure/lockfree_queue/MPMCQueue.hpp:59-167 | For every power-of-two capacity up to 2^63 and every run in which true differences stay in the signed 64-bit range, the machine on 64-bit words with masks and wrap-around takes the same branches, touches the same slots and returns the same results as the unbounded one, across any number of wraps. |
| MpmcWords.WordStepAgrees | server_core/infrastructure/lockfree_queue/include/mmo/infrastructure/lockfree_queue/MPMCQueue.hpp:66-81 | The same for one step, with the exact condition on the step. |
| MpmcWords.FitsWhenNotLapped | server_core/infrastructure/lockfree_queue/include/mmo/infrastructure/lockfree_queue/MPMCQueue.hpp:66-81 | The condition holds while a thread's position is less than 2^63 - 2 * Capacity behind. |
| MpmcWords.SizeAgreesWithinALap | server_core/infrastructure/lockfree_queue/include/mmo/infrastructure/lockfree_queue/MPMCQueue.hpp:161-167 | ApproxSize compares raw words, so what the word machine reports is right exactly when both loads fall in the same lap of the word. |
| Mpsc.FirstInFirstOut | server_core/infrastructure/lockfree_queue/include/mmo/infrastructure/lockfree_queue/MPSCQueue.hpp:45-115 | One consumer: the returned values are a prefix of the items in claim order, over every run; the tail exceeds the stored consumer position by at most Capacity + 1, and by that only between the consumer's two stores. |
| Mpsc.ConsumerVerdict | server_core/infrastructure/lockfree_queue/include/mmo/infrastructure/lockfree_queue/MPSCQueue.hpp:90-99 | The consumer turns away exactly when its position is unpublished. |
| Mpsc.EnqueueEnds | server_core/infrastructure/lockfree_queue/include/mmo/infrastructure/lockfree_queue/MPSCQueue.hpp:45-79 | Over every run: a step ends a call of Enqueue with false exactly when it is the sequence load for a position that is the tail while the occupant one lap back has not given the slot back; and with true exactly when it publishes the caller's item at a position that was not published. |
| Mpsc.ProducerVerdicts | server_core/infrastructure/lockfree_queue/include/mmo/infrastructure/lockfree_queue/MPSCQueue.hpp:52-78 | Where every producer step goes: to false, to true, to the swap, or with a stale position back to the tail of the moment, each with its exact condition. |
| Mpsc.ProducerPuts | server_core/infrastructure/lockfree_queue/include/mmo/infrastructure/lockfree_queue/MPSCQueue.hpp:58-66 | Items are added by a successful swap alone, one at a time and the caller's own; a position becomes published by the step that returns true alone. |
| Mpsc.ProducerNextKeepsInv | server_core/infrastructure/lockfree_queue/include/mmo/infrastructure/lockfree_queue/MPSCQueue.hpp:45-79 | Every producer step keeps the invariant. |
| Mpsc.ConsumerNextKeepsInv | server_core/infrastructure/lockfree_queue/include/mmo/infrastructure/lockfree_queue/MPSCQueue.hpp:90-115 | Every consumer step keeps the invariant. |
| Mpsc.WindowOpens | server_core/infrastructure/lockfree_queue/include/mmo/infrastructure/lockfree_queue/MPSCQueue.hpp:107-110 | The excess of Capacity + 1 is reached by a run. |
| Mpsc.SizeIsExactUnlessOvertaken | server_core/infrastructure/lockfree_queue/include/mmo/infrastructure/lockfree_queue/MPSCQueue.hpp:131-138 | ApproxSize is the distance of its two loads exactly when the consumer has not passed the loaded tail between them; otherwise it is 2^64 less the overshoot. |
| Mpsc.SizeOvertaken | server_core/infrastructure/lockfree_queue/include/mmo/infrastructure/lockfree_queue/MPSCQueue.hpp:131-138 | A run in which ApproxSize reports 2^64 - 1. |
| MpscQueue.MPSCQueue.Dequeue | server_core/infrastructure/lockfree_queue/include/mmo/infrastructure/lockfree_queue/MPSCQueue.hpp:90-115 | The consumer's code on the queue's own fields while producers interfere: the call is a run of the machine in which the consumer takes exactly the steps of one call; it returns and appends the next item in claim order exactly when its position was published in the state of that run in which it was examined, and otherwise consumes nothing. |
| MpscQueue.MPSCQueue.Enqueue | server_core/infrastructure/lockfree_queue/include/mmo/infrastructure/lockfree_queue/MPSCQueue.hpp:45-79 | The retry loop on the queue's own fields while other producers and the consumer interfere: the call is a run of the machine in which the producer makes this one call; it wins exactly one position, where its item stands published, when it returns true, and none when it returns false, and then its last sequence load found the queue full; it returns once the others and spurious failures do. |
| SendLoop.EveryRunIsInOrder | server_core/infrastructure/Net/src/NetServer.cpp:125-135 | For every run of any number of senders and handlers: at most one write is outstanding, at most one thread is inside the write loop and none while a write is outstanding; packets are handed to async_write in the order EnqueueSend accepted them; a queued packet has an owner of the flag or a thread about to look, unless a failed write closed the connection. |
| SendLoop.NothingIsLeftUnsent | server_core/infrastructure/Net/src/NetServer.cpp:204-240 | At rest everything accepted has been handed to the wire, or the last loop to end was that of a failed write on a closed connection; without failures everything accepted has been written. |
| SendLoop.PendingMeansAccepted | server_core/infrastructure/Net/src/NetServer.cpp:216-221 | A thread that gave up on an empty queue and then sees a packet pending owes it to a Send accepted in between. |
| SendLoop.ComesToRest | server_core/infrastructure/Net/src/NetServer.cpp:204-240 | Once no new Send arrives only boundedly many steps remain, and one is possible exactly while the connection is not at rest. |
| SendLoop.ErrorsClose | server_core/infrastructure/Net/src/NetServer.cpp:227-239 | Over every run: once a write has failed, the connection is closed and out of the table or some thread is inside the error branch of its handler, and at rest it is closed and out of the table; without a failed write, and unless somebody disconnects, it stays open and in the table. |
| SendLoop.ClosingIsFinal | server_core/infrastructure/Net/src/NetServer.cpp:176-181 | After a Disconnect and a later removal the connection is closed and out of the table for good, whatever all threads do. |
| SendLoop.NextKeepsInv | server_core/infrastructure/Net/src/NetServer.cpp:204-240 | Every step keeps: the flag is set exactly while one thread or one write owns it; order; no lost wakeup. |
| SendLoop.TcpConnection.EnqueueSend | server_core/infrastructure/Net/src/TcpConnection.cpp:35-52 | Accepts exactly when connected and below 1024 queued packets, at the end of the queue; otherwise nothing changes. |
| SendLoop.TcpConnection.TryPopSend | server_core/infrastructure/Net/src/TcpConnection.cpp:54-65 | Takes the first packet exactly when there is one. |
| SendLoop.TcpConnection.TryBeginWrite | server_core/infrastructure/Net/src/TcpConnection.cpp:67-71 | Wins exactly when the flag was clear, and leaves it set. |
| SendLoop.TcpConnection.EndWrite | server_core/infrastructure/Net/src/TcpConnection.cpp:73-76 | Clears the flag and nothing else. |
| SendLoop.TcpConnection.HasPendingSend | server_core/infrastructure/Net/src/TcpConnection.cpp:78-82 | Tells exactly whether the queue is nonempty. |
| NetSend.NetServer.Send | server_core/infrastructure/Net/src/NetServer.cpp:113-135 | The call as code under arbitrary interference is a run of the machine in which the thread makes this one call: true exactly when, in the state of that run in which the push was decided, fewer than 1024 packets were queued, and then the packet stands where the queue of accepted packets ended and the thread tried for the write flag at least once; false exactly when in the deciding state the connection was not in the table, was closed, or its queue full, and then it tried for nothing. |
| NetSend.NetServer.StartWriteLoop | server_core/infrastructure/Net/src/NetServer.cpp:204-240 | The write loop as code: a run in which the thread only takes its steps; it returns whatever the others do, trying for the flag at most once more than packets were accepted meanwhile. |
| NetSend.NetServer.OnWritten | server_core/infrastructure/Net/src/NetServer.cpp:224-239 | The completion handler of an outstanding write, given its error code: the call is a run in which the thread takes the completion and then only its own steps; exactly after an error the connection is closed and out of the table in the state of the run in which the thread, still the owner, releases the flag, and stays so, and nothing is tried again; otherwise the flag is released and the loop goes on. |
| PacketCodec.StreamRoundTrip | server_core/infrastructure/Net/src/NetServer.cpp:183-198 | For every list of packets within the limit and every cut of their encodings into chunks: after each chunk exactly the packets whose frames are complete have been received, the buffer is a proper part of the next frame, and at the end all packets are there in order with an empty buffer. |
| PacketCodec.ChunkingIndependent | server_core/infrastructure/Net/src/NetServer.cpp:183-198 | For every byte stream without an oversized header, well-formed or not, the cuts make no difference. |
| PacketCodec.DecodeEncoded | server_core/infrastructure/Net/src/PacketCodec.cpp:14-87 | Decode undoes Encode, whatever follows the frame, exactly for payloads of at most 65536 bytes. |
| PacketCodec.FrameLayout | server_core/infrastructure/Net/src/PacketCodec.cpp:18-33 | The frame byte by byte: bytes 0 to 3 are the payload's size and bytes 4 and 5 the id, each lowest byte first, and the rest is the payload. |
| PacketCodec.FrontByBytes | server_core/infrastructure/Net/src/PacketCodec.cpp:43-66 | What Decode finds, by the same bytes: fewer than 6 are incomplete, a size over 65536 is oversized, and a frame is there exactly when size bytes follow the header. |
| PacketCodec.FrameIsEncoding | server_core/infrastructure/Net/src/PacketCodec.cpp:38-87 | What Decode removes is exactly the encoding of what it returns. |
| PacketCodec.Decode | server_core/infrastructure/Net/src/PacketCodec.cpp:38-87 | The three outcomes and their full effect on buffer and packet: an incomplete frame changes nothing, an oversized header empties the buffer, a frame is taken off the front. |
| PacketCodec.Receive | server_core/infrastructure/Net/src/NetServer.cpp:180-198 | The drain loop terminates and yields what draining the old buffer and the chunk yields; each packet is passed on to the inbound queue, while the game thread polls, and dropped exactly when it finds 65536 packets there; with room for all, none is dropped. |
| PacketCodec.DrainConserves | server_core/infrastructure/Net/src/PacketCodec.cpp:81-84 | Packets taken and bytes left make up the stream. |
| PacketCodec.BrokenByAChunk | server_core/infrastructure/Net/src/NetServer.cpp:183-198 | The reads of a connection break off exactly if some chunk brings an oversized header to the front of the buffer. |
| PacketCodec.OversizedDependsOnCuts | server_core/infrastructure/Net/src/PacketCodec.cpp:52-56 | Why oversized headers are excluded: a stream whose result depends on the cut. |
| Bytes.FieldRoundTrip | server_core/infrastructure/Net/src/PacketCodec.cpp:18-27 | A value below 256^width survives its little-endian bytes. |
| Bytes.LittleEndianAt | server_core/infrastructure/Net/src/PacketCodec.cpp:18-27 | Byte i of a field is digit i of its value to the base 256. |
| Bytes.BytesRoundTrip | server_core/infrastructure/Net/src/PacketCodec.cpp:48-49 | Bytes survive being read as a value. |
| Timers.FiresInOrder | server_core/infrastructure/timer/src/TimerQueue.cpp:70-118 | Over all ticks of any run with non-negative delays and no Tick ahead of the clock, callbacks that schedule and cancel included, timers fire in the order of (deadline, sequence). |
| Timers.FiresInOrderExactlyInTime | server_core/infrastructure/timer/src/TimerQueue.cpp:11-118 | Over every run whatever, timers fire in the order of (deadline, sequence) exactly when none that fires was scheduled after one of a later deadline had fired. |
| Timers.LateArrivalBreaksOrder | server_core/infrastructure/timer/src/TimerQueue.cpp:11-49 | For every clock, delays and ticks: a timer scheduled after one of a later deadline has fired fires out of order. |
| Timers.FiresAtMostOnceAndNeverEarly | server_core/infrastructure/timer/src/TimerQueue.cpp:70-118 | In every run whatever, each timer created is, once, either pending, fired or dropped, and none fires before its deadline. |
| Timers.CancelledNeverFires | server_core/infrastructure/timer/src/TimerQueue.cpp:44-49 | An id cancelled before it has fired never fires, whatever happens afterwards, even an id not yet handed out. |
| Timers.TickLeavesNothingDue | server_core/infrastructure/timer/src/TimerQueue.cpp:70-106 | A returning Tick(now) leaves no task with deadline <= now, and each task that was due has been run in it, or dropped because its own id had been cancelled, before or by a callback run in it. |
| Timers.CallsTakeEffect | server_core/infrastructure/timer/src/TimerQueue.cpp:111-114 | A callback makes all its calls: exactly the timers of its calls of Schedule are created, in order, with the next ids and sequence numbers and each due its delay after its call; exactly the ids of its calls of Cancel are marked; nothing is run or dropped. |
| Timers.CallsInOrder | server_core/infrastructure/timer/src/TimerQueue.cpp:111-114 | One call is that call's change, and a callback that makes some calls and then others makes the first and then the others. |
| Timers.DispatchTakesEffect | server_core/infrastructure/timer/src/TimerQueue.cpp:70-118 | Over a whole Tick: only timers due are run, at its time; exactly the calls made by the callbacks run take effect, in order, so the timers created are exactly theirs; and nothing is dropped whose own id was not cancelled. |
| Timers.EveryCallCounts | server_core/infrastructure/timer/src/TimerQueue.cpp:11-118 | Over every run: as many timers are created as calls of Schedule with a callback are made, from outside and by the callbacks run, and no timer is dropped whose own id no call cancels. |
| Timers.DispatchKeepsOrdered | server_core/infrastructure/timer/src/TimerQueue.cpp:70-118 | The dispatch loop keeps the fired log sorted and before everything pending. |
| Timers.ScheduleAdds | server_core/infrastructure/timer/src/TimerQueue.cpp:18-41 | A scheduled timer gets a new id and is pending beside all the others, due after its delay. |
| Timers.PushKeepsSorted | server_core/infrastructure/timer/include/mmo/infrastructure/timer/TimerTask.hpp:30-38 | Insertion by operator> keeps the queue strictly sorted and adds exactly the task. |
| Timers.TimerQueue.Schedule | server_core/infrastructure/timer/src/TimerQueue.cpp:11-42 | Null callback: invalid id and no change; otherwise the new state is that of the schedule step. |
| Timers.TimerQueue.Cancel | server_core/infrastructure/timer/src/TimerQueue.cpp:44-49 | True exactly when the id was not marked, whether or not such a timer is pending. |
| Timers.TimerQueue.Tick | server_core/infrastructure/timer/src/TimerQueue.cpp:70-118 | The loop is the dispatch of the model, leaves nothing due, and has made exactly the calls of the callbacks it ran. |
| Packets.RecordRoundTrip | server_core/infrastructure/packet/src/PacketWriter.cpp:16-77 | For any buffer and any list of fixed-width fields and strings: written from offset 0 it succeeds exactly when its encoding is at most 65536 bytes, and reading the same shape over the first GetOffset() bytes restores every field and uses up the view exactly. |
| Packets.WritesWhatFits | server_core/infrastructure/packet/src/PacketWriter.cpp:16-77 | A record is written whole exactly when it fits, and then as one write of its encoding. |
| Packets.ReadsExactlyEncodings | server_core/infrastructure/packet/src/PacketReader.cpp:12-64 | A field is read and ends at a place exactly when the bytes up to there are its encoding. |
| Packets.FieldLayout | server_core/infrastructure/packet/src/PacketWriter.cpp:53-72 | The bytes of a field one by one, lowest first; a string follows the four bytes of its length. |
| Packets.WroteKeepsTheRest | server_core/infrastructure/packet/src/PacketWriter.cpp:43-48 | A write alters nothing before the cursor nor behind what it writes. |
| Packets.WroteTwice | server_core/infrastructure/packet/src/PacketWriter.cpp:38-48 | Two writes in a row are one write of both, growth and zero fill included. |
| Packets.PacketWriter.WriteBytes | server_core/infrastructure/packet/src/PacketWriter.cpp:16-51 | Succeeds exactly for size 0, or non-null data within the limit; then the bytes stand at the cursor, else nothing changes. |
| Packets.PacketWriter.WriteString | server_core/infrastructure/packet/src/PacketWriter.cpp:53-77 | Succeeds exactly when length and text fit; a failure leaves the cursor where it was, though a length that fitted stays in the bytes behind it. |
| Packets.PacketReader.ReadBytes | server_core/infrastructure/packet/src/PacketReader.cpp:12-34 | Fails, without effect, exactly for a null destination, size 0 or too few bytes. |
| Packets.PacketReader.ReadString | server_core/infrastructure/packet/src/PacketReader.cpp:36-64 | Assigns and passes over the string when it is there in full, else changes neither string nor cursor. |
| Packets.PacketBuffer.Resize | server_core/infrastructure/packet/src/PacketBuffer.cpp:54-63 | Grows with zeroes or cuts off, exactly within the limit. |
| Serialization.BinaryWriter.WriteString | server_core/infrastructure/serialization/src/StringSerializer.cpp:11-32 | Succeeds exactly when the packet layer's WriteString would, with the same bytes; a failure after the length leaves the length and the moved cursor. |
| Serialization.BinaryReader.ReadString | server_core/infrastructure/serialization/src/StringSerializer.cpp:34-66 | Succeeds exactly on a complete string of at most 1 MiB; a failure leaves the cursor behind the length whenever four bytes were there, and never part of the string. |
| Serialization.BinaryWriter.WriteBytes | server_core/infrastructure/serialization/src/BinaryWriter.cpp:20-35 | Size 0 succeeds even with null data; otherwise as the packet layer. |
| Serialization.BinaryReader.ReadBytes | server_core/infrastructure/serialization/src/BinaryReader.cpp:20-37 | Size 0 succeeds even with a null destination; otherwise as the packet layer. |
| EventBus.EventBus.PublishInternal | server_core/infrastructure/EventBus/src/EventBus.cpp:69-105 | For handlers that subscribe, unsubscribe, clear and publish in any way: in the history of subscriptions, switch-offs and invocations, what this publication invokes is exactly, in order, the snapshot entries with no switch-off before their turn, each invoked at its turn. |
| EventBus.RunsAllThatStay | server_core/infrastructure/EventBus/src/EventBus.cpp:95-104 | So a publication runs every snapshot entry that is not switched off by its end, and only snapshot entries that were on at its start. |
| EventBus.EventBus.SubscribeInternal | server_core/infrastructure/EventBus/src/EventBus.cpp:8-32 | Appends a new active entry with the next id to the type's list and snapshot and changes no other type. |
| EventBus.EventBus.Unsubscribe | server_core/infrastructure/EventBus/src/EventBus.cpp:34-67 | Switches off exactly the entry with the token's id under the token's type, if any, and changes no other flag and no other type's snapshot. |
| EventBus.EventBus.RebuildSnapshot | server_core/infrastructure/EventBus/src/EventBus.cpp:123-154 | The loop makes the type's snapshot the filter of its active handlers, in order. |
| EventBus.EventBus.Clear | server_core/infrastructure/EventBus/src/EventBus.cpp:107-121 | Drops all lists and snapshots and starts the ids again at 1; entries in publications under way live on. |
| EventBus.IdNamesOne | server_core/infrastructure/EventBus/src/EventBus.cpp:54-64 | Between Clears an id names one entry under one type. |
| EventBus.EventBus.StaleToken | server_core/infrastructure/EventBus/src/EventBus.cpp:107-121 | After Clear, a token from before switches off a handler subscribed later exactly when that one is of the same type and, ids having started again at 1, was given the same id. |
| BlockPool.BooksAgree | server_core/infrastructure/memory_pool/src/FixedBlockPool.cpp:41-91 | Over any sequence of calls, with bogus blocks and double frees: the pool's outstanding blocks are exactly those the caller reckons from the results, and free and held blocks are together all blocks. |
| BlockPool.OutstandingAreDisjoint | server_core/infrastructure/memory_pool/src/FixedBlockPool.cpp:55-57 | Outstanding blocks are pairwise disjoint byte ranges inside the storage. |
| BlockPool.AllocateHandsOut | server_core/infrastructure/memory_pool/src/FixedBlockPool.cpp:41-58 | A valid block not outstanding before, unless all are: then the empty block and no change. |
| BlockPool.FindBlock | server_core/infrastructure/memory_pool/src/FixedBlockPool.cpp:63-85 | Deallocate's tests on address, size, alignment and flag pass exactly for outstanding blocks, and its index is the right one. |
| BlockPool.FixedBlockPool.Owns | server_core/infrastructure/memory_pool/src/FixedBlockPool.cpp:93-111 | True exactly when the size is the pool's and the address falls into some block, handed out or not; so for every block of the pool. |
| BlockPool.DeallocateTakesBack | server_core/infrastructure/memory_pool/src/FixedBlockPool.cpp:60-91 | A deallocation removes exactly the block from those outstanding. |
| BlockPool.ReturnedBlockIsNext | server_core/infrastructure/memory_pool/src/FixedBlockPool.cpp:41-91 | A block just returned is handed out next, and that undoes the return. |
| BlockPool.Conservation | server_core/infrastructure/memory_pool/src/FixedBlockPool.cpp:123-126 | Free and outstanding blocks are always all blocks. |
| BlockPool.FixedBlockPool.Create | server_core/infrastructure/memory_pool/src/FixedBlockPool.cpp:8-39 | Fails exactly for a zero size or count; otherwise everything is free and the first block is on top. |
| BlockPool.FixedBlockPool.Allocate | server_core/infrastructure/memory_pool/src/FixedBlockPool.cpp:41-58 | The new state and the block are those of the specification, and the invariant holds. |
| BlockPool.FixedBlockPool.Deallocate | server_core/infrastructure/memory_pool/src/FixedBlockPool.cpp:60-91 | True exactly for a block now handed out; all others are refused and change nothing. |

## Left out

- Sockets, the acceptor, io_context, threads and sleeping: an asynchronous write is an outstanding operation that completes later, and a worker thread is a program counter.
- Weak memory orderings, sanitizer hooks, cache lines and layout assertions: atomic steps are sequentially consistent.
- PacketCodec.Receive: the inbound queue is a sequence with the real one's capacity; that the real queue, `Mpsc`, also turns away while its consumer stands between two stores is not part of this.
- The table of connections: one connection and whether it is in the table; accepting connections and Stop are not modelled.
- Frames over the limit in stream theorems: Decode empties the buffer, so the result depends on the cuts, as `PacketCodec.OversizedDependsOnCuts` shows.
- Scheduling.JobDispatch.Initialize: what the tasks do with the runtime context is not modelled.
- Scheduling.JobDispatch.WorkerStep: the object runs under (S) and (C), which the program does not enforce; `DispatchGraphs` and `DispatchFailures` cover the other runs of the machine.
- Dispatch.WorkerNext: the ready queue is a sequence in this machine, and an enqueue that finds no room would wait; `ReadyQueue` puts the real queue in its place and proves that there always is room. A Dequeue that returns false is a step that changes nothing.
- Dispatch.MainNext: the phase epoch is unbounded; its exhaustion is not modelled.
- ReadyQueue.NeverRejectsOnSafeGraphs: the positions of the queue are unbounded here; `MpmcWords` relates them to 64-bit words.
- MpscQueue.MPSCQueue.Enqueue: interference is finite, as for the other queue; the 64-bit words of this queue are not modelled, except in ApproxSize; `MpmcWords` relates those of the other queue.
- MpmcQueue.MPMCQueue.Enqueue: the model's others take finitely many steps, which is why the call returns; what is proved for any interference is the bound on its rounds.
- SendLoop.TcpConnection.EnqueueSend: the object's method states the uninterrupted call; the load of the connected flag and the push are separate steps in the step machine and in `NetSend.NetServer.Send`.
- NetSend.NetServer.StartWriteLoop: interference is finite, as for the queue.
- Timers.TimerQueue.Tick: a callback is the list of calls it makes in the run, so runs in which a Tick never returns, and a callback that itself calls Tick, are not modelled; neither is scheduling from several threads, where sequence and deadline are taken outside the lock. The heap is its tasks in popping order.
- EventBus.EventBus.PublishInternal: nested publications end at some depth; exceptions, event payloads and concurrent use are not modelled.
- BlockPool.FixedBlockPool.Create: allocation of the storage succeeds, and size times count does not overflow.
- Scheduling.JobDispatch.ExecutePhase: phases are executed in the pipeline's order, Input at any time; other orders, which the pipeline executor never uses and for which a phase promises nothing about its parents, are not modelled.
- Packets.PacketWriter.WriteBytes: sizes are unbounded, so a sum of offset and size that wraps 64 bits is not modelled.
- Packets.PacketBuffer.Resize: reserved capacity is not modelled, nor move and copy.
- Exhaustion of 64-bit ids, sequences and tick counters: ids are unbounded.
- Logger, ConfigSystem, TickScheduler, RuntimeContext, PacketFlags, PacketHeader and PacketView::SubView: they would only add easy members.
