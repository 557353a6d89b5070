# Verified models of the MUZI library

This project models six parts of the library whose behaviour is not obvious from one body, and
proves what they promise over every input, every interleaving or every run:

- the **spin lock** `MAtomicLock`: mutual exclusion, serialisation of critical sections, progress;
- the **I/O pools** `MAsioThreadPool` and `MAsioIOServerPool`: what has run when `stop` returns, that
  it returns, the order within a context, the balance of the round robin, and exactly when a handler
  can be left behind;
- the **search loop** `__findNode__` of `MAVLTree`: it decides membership, in logarithmic time on a
  balanced tree;
- the **frame wrappers** `MMAVFrame` and `MMAVFrameRef`: reference counts, single ownership, no leaks;
- the **iterators** of `MStaskArray`: the algebra of their wrapping and clamping moves;
- **delivery**: `MSession::getPopFrontRecvMsg` over the ring `MSyncAnnularQueue`, and the fan-out of
  `MSignal`.

Each part has a class in the form of the source (fields updated in place, the source's loops) whose
methods are proved against specification functions, and lemmas about those functions.  `dafny verify
dfyconfig.toml` checks everything.

| file | contents |
|---|---|
| `Prelude.dfy` | options; division by a variable |
| `SpinLock.dfy` | the lock as a transition system and as an object |
| `IoPool.dfy` | contexts, workers and `stop` as a transition system; its invariant |
| `Shutdown.dfy` | the measure; `stop` returns; workers live until then |
| `Drain.dfy` | conservation of handlers; drain on stop; order within a context |
| `CrossPosts.dfy` | `stop` empties a context if and only if nothing enters it from another |
| `PoolObjects.dfy` | the two pools as objects |
| `RoundRobin.dfy` | the cursor of the server pool |
| `SearchTree.dfy` | the search loop, on linked nodes |
| `FrameOwnership.dfy` | wrappers, frames and counts; the model without counts they refine |
| `ArrayIterator.dfy` | iterator moves over w-bit words |
| `AnnularQueue.dfy`, `SessionDelivery.dfy` | the ring; the consumer against any producer |
| `SignalFanOut.dfy` | signals, slots and the event loop's log |

## How the foreign parts are read

- **Atomics.** Steps are sequentially consistent, as the default orderings give. `std::atomic_flag`
  follows [atomics.flag], section 31.10 of ISO/IEC 14882:2020: a default-constructed flag is clear.
- **Boost.Asio.** An `io_context` counts its outstanding work (guard objects, queued handlers, running
  handlers). When the count falls to zero it stops, every `run` returns, and handlers posted later stay
  queued. `run` takes handlers first in, first out. Handlers are finite trees: running one posts its
  children, each to its own target context, and then ends.
- **FFmpeg.** `av_frame_alloc` makes a blank frame. `av_frame_ref` makes a blank frame view the
  source's buffer and adds one to its count. `av_frame_unref` takes one off and frees the buffer at
  zero. `av_frame_free` unrefs and frees. A decoder that yields a frame unrefs the target first and
  gives it a buffer of its own. A reference to a blank frame stays blank: the call fails, and the
  source ignores its result.
- **Interleaving in methods.** A loop that waits for another thread takes what that thread does as a
  parameter (`Lock`, `GetPopFrontRecvMsg`), or lets any worker steps be chosen (`AwaitThread`, `LetWorkersTurn`).
- **The ring.** The queue of `MSession` is modelled from `src/MSTL/include/MSyncAnnularQueue.h`, the pool
  aliases from `src/MNet/MNetBase.h` and the decoder call from `MMAVDecoder.cpp`.

## What was found

- `unlock` does not check its caller. A `clear` keeps mutual exclusion if and only if the caller holds
  the lock or nobody does (`ClearSafeIffHolderOrFree`); otherwise two threads can get inside
  (`ClearAdmitsTwoIffHeldByOther`). `try_lock` only reads the flag: it takes nothing.
- In `MAsioIOServerPool` a handler that posts to another context can be left behind, because that
  context may have stopped (`CrossPostIsLeftBehind`). Every interleaving of `stop` empties a context if
  and only if nothing that the handlers queued or running have yet to post enters it from another
  (`ContextDrainsIffUnentered`), and all of them if and only if nothing leaves its context
  (`DrainsIffHandlersStay`).
- `MSyncAnnularQueue::push` into a full ring drops the oldest element (`OverrunLosesMessage`). What is
  delivered is a prefix of what was pushed if, at each read, no push had found the ring full before the
  read's `front()` and no more than a ring's worth had been pushed past what was delivered; for distinct
  messages, only if (`PrefixIffReadsClean`). While no push finds the ring full every read is such, because
  one node of the ring always stays free: the popped slot is not reused before it is read.
- Assigning a `MMAVFrameRef` to itself blanks it (`AssignWorksIffNotSelf`).
- `-=` never clamps; `MinusStaysInside` says exactly when the index stays in range.

## Model

| member | source | states |
|---|---|---|
| SpinLock.MutualExclusion | src/MSTL/include/MAtomicLock.h:14-25 | in every reachable state of any number of threads at most one is between lock and unlock, and the flag is set exactly when one is |
| SpinLock.RunKeepsExclusive | src/MSTL/include/MAtomicLock.h:14-25 | every run of lock, work, holder-only unlock and try_lock steps keeps that invariant |
| SpinLock.ProbeTellsWhetherHeld | src/MSTL/include/MAtomicLock.h:22-25 | try_lock tells its caller whether some thread holds the lock, and changes nothing else |
| SpinLock.ClearSafeIffHolderOrFree | src/MSTL/include/MAtomicLock.h:18-21 | an unlock by an arbitrary thread keeps mutual exclusion if and only if that thread holds the lock or nobody does |
| SpinLock.ClearAdmitsTwoIffHeldByOther | src/MSTL/include/MAtomicLock.h:14-21 | after an unlock by an arbitrary thread, disciplined steps of all threads can get two inside if and only if another held the lock |
| SpinLock.Serialisation | src/MSTL/include/MAtomicLock.h:14-21 | every interleaved run that ends with no section open leaves shared and private state as whole sections run atomically in lock-acquisition order do, each thread doing exactly what it called, in order |
| SpinLock.HistoryKeepsPrograms | src/MSTL/include/MAtomicLock.h:14-25 | at every moment of a run, the serial history has each thread do just the sections, private steps and try_locks that the run has it call, in order, but for a section it still waits to enter |
| SpinLock.RunSettles | src/MSTL/include/MAtomicLock.h:14-21 | at every moment of a run, letting the holder finish alone gives the state of the serial history so far |
| SpinLock.ClearFlagAdmits | src/MSTL/include/MAtomicLock.h:16 | one test_and_set by a waiter lets it in exactly when the flag was clear |
| SpinLock.WaiterGetsIn | src/MSTL/include/MAtomicLock.h:14-21 | from every such state any chosen waiter can be let in, by steps of the holder and that waiter only, as many as the holder has left plus two |
| SpinLock.Progress | src/MSTL/include/MAtomicLock.h:14-21 | from every reachable state with a waiter some run lets it acquire the lock |
| SpinLock.AcquiresIffFoundClear | src/MSTL/include/MAtomicLock.h:14-17 | among any steps of others, a thread in lock gets in exactly when one of its test_and_sets finds the flag clear |
| SpinLock.MAtomicLock.Lock | src/MSTL/include/MAtomicLock.h:14-17 | lock returns at the first test_and_set that finds the flag clear, not before, and leaves the flag set |
| SpinLock.MAtomicLock.Unlock | src/MSTL/include/MAtomicLock.h:18-21 | the flag is clear afterwards, whoever calls |
| SpinLock.MAtomicLock.TryLock | src/MSTL/include/MAtomicLock.h:22-25 | answers whether the flag is set and changes nothing |
| IoPool.RunKeepsInv | src/MNet/MIOPool/MAsioIOServerPool/MAsioIOServerPool.cpp:10-16 | in every interleaving the work count equals guard plus queued plus running handlers, a context is stopped only with neither guard nor running handler, and the phases of stop match the guards and the threads |
| Shutdown.RunSpendsMeasure | src/MNet/MIOPool/MAsioIOThreadPool/MAsioIOThreadPool.cpp:31-35 | without outside posts every schedule spends a measure of pending trees, live workers and the rest of stop by exactly one per step, so none runs for ever |
| Shutdown.SomeStepPossible | src/MNet/MIOPool/MAsioIOThreadPool/MAsioIOThreadPool.cpp:29-37 | until stop has returned the stopping thread or some worker can move, and if a join is waiting it is a worker |
| Shutdown.StopReturns | src/MNet/MIOPool/MAsioIOThreadPool/MAsioIOThreadPool.cpp:29-37 | a schedule can go no further exactly when stop has returned, and all that return leaving the same queues are equally long |
| Shutdown.RunToReturn | src/MNet/MIOPool/MAsioIOThreadPool/MAsioIOThreadPool.cpp:29-37 | from every such state some schedule makes stop return |
| Shutdown.WorkersLiveUntilStop | src/MNet/MIOPool/MAsioIOServerPool/MAsioIOServerPool.cpp:10-16 | before stop no worker leaves run, however empty its queue; after it every worker has left and every context is stopped |
| Shutdown.WithoutWorkersNothingRuns | src/MNet/MIOPool/MAsioIOThreadPool/MAsioIOThreadPool.cpp:7-20 | with zero threads no interleaving runs any handler, and stop can always take its next step until it has returned |
| Drain.RunConserves | src/MNet/MIOPool/MAsioIOThreadPool/MAsioIOThreadPool.cpp:11-19 | in every interleaving, for each handler: runs finished, being run and still to come add up to its occurrences in the trees given, for every set of contexts no handler crosses |
| Drain.RunRecords | src/MNet/MIOPool/MAsioIOThreadPool/MAsioIOThreadPool.cpp:11-19 | what a context records of a run is just what the run does: the outside posts its events make, all posts, the handlers that come to be run and those run to the end, each in the order of the run |
| Drain.NothingLost | src/MNet/MIOPool/MAsioIOServerPool/MAsioIOServerPool.cpp:36-46 | when stop has returned, each handler has run as often as it occurs in the trees the run posts from outside, less what the queues still hold, wherever handlers post |
| Drain.DrainOnStop | src/MNet/MIOPool/MAsioIOThreadPool/MAsioIOThreadPool.cpp:29-37 | for a context whose handlers stay on it: when stop returns, with outside posts going on, the first n trees that the run posts there have run exactly once with all descendants and nothing else has; n covers all posted before the call, and the rest is still queued |
| Drain.DrainFrom | src/MNet/MIOPool/MAsioIOServerPool/MAsioIOServerPool.cpp:36-46 | the same from any moment before stop is called; with no later posts the queue is empty |
| Drain.SingleContextDrains | src/MNet/MIOPool/MAsioIOThreadPool/MAsioIOThreadPool.cpp:29-37 | with one context, whatever the handlers post: when stop returns, every handler the run posted before the call has run exactly once with all descendants, and so has everything if nothing was posted since |
| Drain.PerContextOrder | src/MNet/MIOPool/MAsioIOServerPool/MAsioIOServerPool.cpp:10-16 | with one worker per context, in every interleaving the handlers of a context never overlap, and those run to the end, the one being run and those queued are all that the run posts there, in order |
| Drain.BeginInPostingOrder | src/MNet/MIOPool/MAsioIOThreadPool/MAsioIOThreadPool.cpp:11-19 | with any number of workers, in every interleaving the handlers that come to be run on a context and those queued are all that the run posts there, in order |
| CrossPosts.ContextDrainsIffUnentered | src/MNet/MIOPool/MAsioIOServerPool/MAsioIOServerPool.cpp:36-46 | from every state in which stop can be called, whatever is queued or running: every interleaving of stop leaves a context empty if and only if nothing still to be posted enters it from another |
| CrossPosts.UnenteredDrains | src/MNet/MIOPool/MAsioIOServerPool/MAsioIOServerPool.cpp:36-46 | a context that nothing still to be posted enters is empty when stop has returned, in every interleaving |
| CrossPosts.RunKeepsUnentered | src/MNet/MIOPool/MAsioIOServerPool/MAsioIOServerPool.cpp:36-46 | every interleaving keeps a context unentered, and it stops empty |
| CrossPosts.EnteringStrands | src/MNet/MIOPool/MAsioIOServerPool/MAsioIOServerPool.cpp:36-46 | for a context that something still to be posted enters, however deep in a tree, there is a schedule in which stop returns and that context is not empty |
| CrossPosts.DrainsIffHandlersStay | src/MNet/MIOPool/MAsioIOServerPool/MAsioIOServerPool.cpp:36-46 | every interleaving of stop empties every queue if and only if nothing still to be posted leaves its context |
| CrossPosts.StayingIsUnentered | src/MNet/MIOPool/MAsioIOServerPool/MAsioIOServerPool.cpp:36-46 | nothing still to be posted leaves its context if and only if none enters any |
| CrossPosts.CrossPostIsLeftBehind | src/MNet/MIOPool/MAsioIOServerPool/MAsioIOServerPool.cpp:13-16 | a fresh pool of two contexts, one post and a run of stop that leaves the posted handler's child behind |
| CrossPosts.RunKeepsStranded | src/MNet/MIOPool/MAsioIOServerPool/MAsioIOServerPool.cpp:13-16 | what is queued on a stopped context stays there for ever |
| PoolThreads.ReleaseGuards | src/MNet/MIOPool/MAsioIOServerPool/MAsioIOServerPool.cpp:38-41 | the guard loop reaches the joins without waiting for any worker, whatever turns the workers take in between, and is a run of the pool |
| PoolThreads.AwaitThread | src/MNet/MIOPool/MAsioIOServerPool/MAsioIOServerPool.cpp:44 | one join, under any choice of worker steps, ends with that worker gone and is a run of the pool |
| PoolThreads.JoinThreads | src/MNet/MIOPool/MAsioIOServerPool/MAsioIOServerPool.cpp:42-45 | the join loop ends under any choice of worker steps, and what it has done is a run of the pool |
| PoolThreads.ReachedDrains | src/MNet/MIOPool/MAsioIOThreadPool/MAsioIOThreadPool.cpp:29-37 | from every reachable state of a pool with one context: when stop has returned, the context is stopped and empty, the handlers ever posted have begun in posting order, and each handler has run exactly as often as it occurs in the trees ever posted |
| PoolThreads.ReachedOrder | src/MNet/MIOPool/MAsioIOServerPool/MAsioIOServerPool.cpp:10-16 | in every reachable state of a pool whose thread i is the only one of context i, all that was ever posted to a context is what has run there, then what is running, then what is queued, in that order |
| AsioThreadPool.MAsioThreadPool.constructor | src/MNet/MIOPool/MAsioIOThreadPool/MAsioIOThreadPool.cpp:7-20 | one guarded context and the given number of threads in its run |
| AsioThreadPool.MAsioThreadPool.Stop | src/MNet/MIOPool/MAsioIOThreadPool/MAsioIOThreadPool.cpp:29-37 | from every reachable state stop returns with all threads gone, the context stopped and empty, the handlers ever posted begun in posting order, and each handler run exactly as often as it occurs in the trees ever posted |
| AsioServerPool.MAsioIOServerPool.constructor | src/MNet/MIOPool/MAsioIOServerPool/MAsioIOServerPool.cpp:5-17 | each context guarded and run by one thread, the cursor at 0 |
| AsioServerPool.MAsioIOServerPool.GetIOContext | src/MNet/MIOPool/MAsioIOServerPool/MAsioIOServerPool.cpp:27-35 | hands out the context under the cursor and advances it, wrapping at the number of contexts |
| AsioServerPool.MAsioIOServerPool.Stop | src/MNet/MIOPool/MAsioIOServerPool/MAsioIOServerPool.cpp:36-46 | from every reachable state stop returns with all threads gone and all contexts stopped; each context has run all that was ever posted to it but what it still holds, in posting order, and holds nothing if nothing was still to enter it; altogether each handler has run as often as it occurs in the trees ever posted less what is held; nothing is held if nothing was still to leave its context |
| RoundRobin.CursorIsCallsModN | src/MNet/MIOPool/MAsioIOServerPool/MAsioIOServerPool.cpp:27-35 | after k serial calls the cursor is k mod n |
| RoundRobin.ServedFromFresh | src/MNet/MIOPool/MAsioIOServerPool/MAsioIOServerPool.cpp:27-35 | after k calls context i was handed out floor((k+n-1-i)/n) times |
| RoundRobin.ServedCount | src/MNet/MIOPool/MAsioIOServerPool/MAsioIOServerPool.cpp:27-35 | the same from any cursor, by the distance of i from it |
| RoundRobin.WindowIsBalanced | src/MNet/MIOPool/MAsioIOServerPool/MAsioIOServerPool.cpp:27-35 | over any window of consecutive calls any two contexts are handed out equally often to within one |
| SearchTree.MAVLTree.FindNode | src/MSTL/include/MAVLTree.h:54-75 | on every tree a returned node is a node of the tree holding the key; on an ordered tree null exactly when the key is absent; at most as many turns as the height, and logarithmically many on a balanced tree |
| SearchTree.BalancedIsLarge | src/MSTL/include/MAVLTree.h:9-24 | a height-balanced tree of height h has at least fib(h+2)-1 nodes |
| SearchTree.SearchIsLogarithmic | src/MSTL/include/MAVLTree.h:54-75 | searching any height-balanced tree of n nodes takes at most 2 log2(n+1) + 1 turns |
| SearchTree.BoundIsMet | src/MSTL/include/MAVLTree.h:54-75 | for every h some ordered balanced tree of exactly fib(h+2)-1 nodes has a key that takes h turns |
| SearchTree.OrderedHasNoDuplicates | src/MSTL/include/MAVLTree.h:61-72 | an ordered tree has as many distinct elements as nodes |
| FrameOwnership.RunSound | src/MMedia/MMPlayer/MMAV/MMAVFrame.cpp:5-28 | in every run of create, decode, getRef, copy, move, assign and destroy each count is the number of live frames viewing the buffer, each live frame has exactly one owner, and no buffer is released twice or while viewed |
| FrameOwnership.StepRefines | src/MMedia/MMPlayer/MMAV/MMAVFrame.cpp:43-101 | each operation keeps that, and changes what the wrappers show exactly as a model without frames and counts does |
| FrameOwnership.RunRefines | src/MMedia/MMPlayer/MMAV/MMAVFrame.cpp:5-101 | after every run the wrappers show exactly what that model computes from the operations alone |
| FrameOwnership.CountIsWatchers | src/MMedia/MMPlayer/MMAV/MMAVFrame.cpp:10-14 | a live buffer's count is the number of wrappers that show it |
| FrameOwnership.ReleasedIffUnwatched | src/MMedia/MMPlayer/MMAV/MMAVFrame.cpp:22-28 | at every moment of every run a buffer has been released, once, exactly if no wrapper shows it |
| FrameOwnership.NothingLeaks | src/MMedia/MMPlayer/MMAV/MMAVFrame.cpp:73-80 | once every wrapper is destroyed no frame is left and every buffer has been released exactly once |
| FrameOwnership.AssignWorksIffNotSelf | src/MMedia/MMPlayer/MMAV/MMAVFrame.cpp:43-54 | after dst = src, dst shows what src showed if and only if the two differ or src was blank |
| FrameOwnership.UnrefCounted | src/MMedia/MMPlayer/MMAV/MMAVFrame.cpp:51 | dropping a view keeps every count exact |
| FrameOwnership.RefCounted | src/MMedia/MMPlayer/MMAV/MMAVFrame.cpp:53 | adding a view keeps every count exact |
| FrameOwnership.FreeCounted | src/MMedia/MMPlayer/MMAV/MMAVFrame.cpp:77 | freeing a frame keeps every count exact |
| FrameOwnership.ReceiveCounted | src/MMedia/MMPlayer/MMAV/MMAVDecoder.h:24 | a decoded frame views a new buffer counted once, and its old buffer is dropped |
| FrameOwnership.FrameStore.Default | src/MMedia/MMPlayer/MMAV/MMAVFrame.cpp:56-59 | a new wrapper owns a new blank frame; counts and ownership stay exact |
| FrameOwnership.FrameStore.GetRef | src/MMedia/MMPlayer/MMAV/MMAVFrame.cpp:82-91 | the returned reference shows what the frame shows, or is blank if the frame was moved from; counts and ownership stay exact |
| FrameOwnership.FrameStore.CopyRef | src/MMedia/MMPlayer/MMAV/MMAVFrame.cpp:10-14 | the copy shows what the original shows; counts and ownership stay exact |
| FrameOwnership.FrameStore.MoveFrom | src/MMedia/MMPlayer/MMAV/MMAVFrame.cpp:16-20 | the target takes over the very frame and the source is left null, no frame, count or buffer changes; counts and ownership stay exact |
| FrameOwnership.FrameStore.AssignRef | src/MMedia/MMPlayer/MMAV/MMAVFrame.cpp:43-54 | the target shows what the source shows, its old view is dropped; counts and ownership stay exact |
| FrameOwnership.FrameStore.Destroy | src/MMedia/MMPlayer/MMAV/MMAVFrame.cpp:22-28 | the wrapper and its frame are gone, nobody else's view changes; counts and ownership stay exact |
| FrameOwnership.FrameStore.RecvFrame | src/MMedia/MMPlayer/MMAV/MMAVDecoder.h:24 | the wrapper shows a buffer of its own; counts and ownership stay exact |
| ArrayIterator.BackAndForth | src/MSTL/include/MArray.h:61-98 | (it - k) + k is it, for every k and through underflow, if and only if the index is at most the size |
| ArrayIterator.ForthAndBack | src/MSTL/include/MArray.h:61-98 | (it + k) - k is it, from any index, if and only if (index + k) mod 2^w is at most the size |
| ArrayIterator.BackThenForth | src/MSTL/include/MArray.h:61-98 | (it - k) + j is one move by the difference, from any index: it + (j - k) if k is at most j, through underflow, and otherwise it - (k - j), clamped to the size if that is still underflowed |
| ArrayIterator.MovesInNumbers | src/MSTL/include/MArray.h:67-98 | what += and -= do in plain numbers, in every case of wrapping and clamping |
| ArrayIterator.MinusStaysInside | src/MSTL/include/MArray.h:91-98 | -= keeps the index in range exactly when it does not underflow or comes round into the array again |
| ArrayIterator.WalkIsReflected | src/MSTL/include/MArray.h:67-98 | any run without wrap or underflow stays in range and ends at the unclamped index less the furthest it ever was past the end |
| ArrayIterator.MovesCollapse | src/MSTL/include/MArray.h:67-74 | additions whose total does not wrap equal one addition of the sum, from any index, unless there are none and the index is past the size |
| ArrayIterator.CollapseNeedsNoWrap | src/MSTL/include/MArray.h:67-74 | a concrete run shows the bound on the total is needed |
| ArrayIterator.StepsFromBegin | src/MSTL/include/MArray.h:51-54 | count increments of begin() reach element count, then stay at the end, or come round if the size is the largest value of the word |
| ArrayIterator.EndStaysIff | src/MSTL/include/MArray.h:51-54 | incrementing end() stays there if and only if the word has a value beyond the size, or the array is empty |
| ArrayIterator.MStaskArray.Traverse | src/MSTL/include/MArray.h:51-60 | from begin(), `++` until end() is met, the values dereferenced on the way are exactly the array's elements, in order |
| ArrayIterator.MStaskArray.Begin | src/MSTL/include/MArray.h:175-178 | an iterator at index 0 |
| ArrayIterator.MStaskArray.End | src/MSTL/include/MArray.h:179-182 | an iterator at the number of elements |
| ArrayIterator.MIterator.AddAssign | src/MSTL/include/MArray.h:67-74 | wraps, then clamps to the number of elements; the index is then within it, wherever it was |
| ArrayIterator.MIterator.SubAssign | src/MSTL/include/MArray.h:91-98 | wraps and never clamps |
| ArrayIterator.MIterator.Add | src/MSTL/include/MArray.h:61-66 | a moved copy; the iterator itself does not change |
| ArrayIterator.MIterator.Sub | src/MSTL/include/MArray.h:85-90 | a moved copy; the iterator itself does not change |
| ArrayIterator.MIterator.PostIncrement | src/MSTL/include/MArray.h:55-60 | moves on by one and returns a copy of where it was |
| AnnularQueue.PushedHeld | src/MSTL/example/MSyncAnnularQueueExample.h:17-22 | pushing appends, and drops the oldest element exactly when capacity - 1 are held |
| AnnularQueue.PoppedHeld | src/MSTL/example/MSyncAnnularQueueExample.h:33 | popping drops the oldest element, if there is one |
| AnnularQueue.MSyncAnnularQueue.constructor | src/MSTL/example/MSyncAnnularQueueExample.h:16 | an empty ring of the given capacity |
| AnnularQueue.MSyncAnnularQueue.Push | src/MSTL/example/MSyncAnnularQueueExample.h:21 | the elements held afterwards, full ring or not |
| AnnularQueue.MSyncAnnularQueue.Pop | src/MNet/MCoroutineSocket/MSession.cpp:59 | the elements held afterwards, empty ring or not |
| AnnularQueue.MSyncAnnularQueue.Front | src/MSTL/example/MSyncAnnularQueueExample.h:28-32 | null exactly when nothing is held, else a pointer to the oldest element |
| AnnularQueue.MSyncAnnularQueue.Empty | src/MNet/MCoroutineSocket/MSession.cpp:54 | whether nothing is held |
| SessionDelivery.RunRecords | src/MNet/MCoroutineSocket/MSession.cpp:52-61 | what the state records of a run is just what the run does: the messages its events push, what the consumer reads through its pointer, and how many pushes find the ring full |
| SessionDelivery.DeliversPrefix | src/MNet/MCoroutineSocket/MSession.cpp:52-61 | in every interleaving with any pushes the pointer read is never null, and if no push finds the ring full what is read is a prefix of what is pushed |
| SessionDelivery.PrefixIffReadsClean | src/MNet/MCoroutineSocket/MSession.cpp:52-61 | over every whole run: what is read is a prefix of what is pushed if at each read no push had found the ring full before its front() and no more than a ring's worth had been pushed past what was read; for distinct messages, only if |
| SessionDelivery.NextReadIsNextMessage | src/MNet/MCoroutineSocket/MSession.cpp:58-60 | the next read yields the next message if no push had found the ring full before its front() and no more than a ring's worth have been pushed past what was delivered, and for distinct messages only then; while no push finds the ring full every read is such |
| SessionDelivery.OverrunLosesMessage | src/MNet/MCoroutineSocket/MSession.cpp:52-61 | a concrete run in which an overrun makes delivery skip a message |
| SessionDelivery.StepKeepsInv | src/MNet/MCoroutineSocket/MSession.cpp:52-61 | every step is possible and keeps each node holding the last message pushed into it and the counts of messages gone, lost and delivered in step |
| SessionDelivery.ReadYields | src/MNet/MCoroutineSocket/MSession.cpp:60 | the pointer yields the message after those delivered and those lost before its front(), as long as no more than a ring's worth have been pushed past that message |
| SessionDelivery.MSession.Await | src/MNet/MCoroutineSocket/MSession.cpp:54-57 | the spin is a run of the interleavings; every turn before its last found the ring empty, and so did the last unless it ended the spin |
| SessionDelivery.MSession.TakeFront | src/MNet/MCoroutineSocket/MSession.cpp:58 | front() gives a pointer to the oldest node held, with the message after all those that have left the ring |
| SessionDelivery.MSession.PopFront | src/MNet/MCoroutineSocket/MSession.cpp:59 | the pointer survives the pop |
| SessionDelivery.MSession.ReadThrough | src/MNet/MCoroutineSocket/MSession.cpp:60 | the value read is the one delivered, and the message the pointer was taken for unless a ring's worth has been pushed past it |
| SessionDelivery.MSession.GetPopFrontRecvMsg | src/MNet/MCoroutineSocket/MSession.cpp:52-61 | whatever the producer pushes in every gap, the call is exactly the run of those pushes and its own steps, and returns the message it delivers, the next one pushed if no push found the ring full; every turn of its spin but a last successful one found the ring empty |
| SignalFanOut.FanOut | src/MEventLoop/MSlot/MSignal.h:47-62 | in every run of connects and emits of any number of signals on one loop, the events of a slot are exactly the emits of its signal after it was connected, in order and once each, and its place still holds its callback |
| SignalFanOut.EmitInOrder | src/MEventLoop/MSlot/MSignal.h:55-62 | in every such run, where every event of the loop is: those of one emit stand together, after all pushed before it, one for each slot connected by then, in connection order |
| SignalFanOut.NotYetConnected | src/MEventLoop/MSlot/MSignal.h:56-62 | a slot not yet connected has no events |
| SignalFanOut.NoStrayEvents | src/MEventLoop/MSlot/MSignal.h:56-62 | every event belongs to a slot connected to its signal |
| SignalFanOut.MSignal.Connect | src/MEventLoop/MSlot/MSignal.h:47-53 | a step of the run that the loop's signals have made so far; every slot in its place has seen exactly the emits of its signal since it was connected, and every event is where it belongs |
| SignalFanOut.MSignal.Emit | src/MEventLoop/MSlot/MSignal.h:55-62 | after all the loop already held, the j-th event added is that of the j-th slot connected, and there is one for each; a step of that run, and the same of every slot and event |
| SignalFanOut.TracedFansOut | src/MEventLoop/MSlot/MSignal.h:47-62 | the fan-out of the objects: of every loop and its signals, whatever they have done, each slot's events in the queue are exactly the emits of its signal since it was connected, every emit's events stand where it belongs in connection order, and there are no others |

## Left out

- SpinLock.MAtomicLock.Lock: is observed for a given number of turns, because a spin may last for ever; fairness among waiters is not claimed, the code has none.
- SpinLock.MAtomicLock.Unlock: does not check for the holder, as in the source; the lemmas on runs take holder-only unlock as a hypothesis.
- Memory orders weaker than sequential consistency, and critical sections that never end.
- AsioThreadPool.MAsioThreadPool.Stop: takes no outside posts once called and needs at least one thread; the lemma SingleContextDrains allows outside posts throughout.
- AsioServerPool.MAsioIOServerPool.Stop: takes no outside posts once called (the lemma DrainFrom allows them throughout); is called once; a second call, as from the destructor after a signal, would join threads already joined and is not modelled.
- AsioServerPool.MAsioIOServerPool.GetIOContext: callers are serialised and there is at least one context; the cursor is not synchronised in the source.
- AsioServerPool.MAsioIOServerPool.constructor: does not register `stop` for SIGINT and SIGTERM, since signals are outside the model.
- `MSingleton`, and exceptions thrown by handlers.
- Workers running while the constructor is still creating contexts: nothing can have been posted yet.
- SearchTree.MAVLTree.FindNode: balance is a hypothesis, since insertion, erasure and rotations of MAVLTree are stubs.
- MRBTree: left out; the search loop of MAVLTree is the one modelled.
- MMAVFrame's copy constructor and assignments through av_frame_copy: they copy pixels and touch no count.
- MMAVFrameRef::operator=(MMAVFrame&), which takes the pointer of a temporary.
- Copying from, assigning from or decoding into a moved-from wrapper: it hands FFmpeg a null pointer.
- FrameOwnership.FrameStore.RecvFrame: models the calls that yield a frame; a call that yields none only blanks the target.
- Failed allocations.
- ArrayIterator.MIterator.Sub: the const overload takes an int; only non-negative offsets are modelled.
- ArrayIterator.MIterator.Deref: is modelled where the index is below the size; beyond it the source has no defined result.
- MHeapArray's iterator, which repeats this one; the order comparison of iterators; `at`, whose bound admits the size.
- Priorities and dispatch in MEventLoop: the log of pushes is modelled, not the order in which the priority queue hands events out, nor its locks.
- Slots are known by their place, so that reallocation of the vector under a pushed event's pointer is not captured.
- SessionDelivery.MSession.GetPopFrontRecvMsg: has one consumer, and is observed for a given number of turns of its spin; sockets, buffers and the send side are not modelled.
- The empty() call reads two pointers without the lock; it is one step here.
- Skip list, hash and tree maps, allocators, file, log, media reading and the other socket code: outside these six parts.
