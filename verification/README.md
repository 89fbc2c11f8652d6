# Trees, queues, sorting and locks, proved in Dafny

This project models the algorithms of a collection of programs on concurrency and data structures, and proves what they are for. It has nine parts.

* **Red-black tree** (`LinkedTree`, `TreeOrder`, `TreeSpine`, `RedBlack`, `RbSteps`, `RbInsert`,
  `RbUnlink`, `RbErase`, `RbEraseSpec`, `RbSet`). Nodes are objects with left, right and parent
  links; a tree value and a path value (the way from a position up to the root) say what the
  pointers form. The insert and erase loops work in place and are proved equal to functions on
  these values; the rules, the order and the height bound are proved about the functions.
* **S-tree** (`StSpec`, `StHints`, `StUpdate`, `StRemove`, `StSet`), the same set with lazily updated hints,
  rotations on the way up and in-place replacement of a removed node. `IntSet` and `TreeInt` run
  any sequence of operations on both trees against one mathematical set.
* **Quicksort** (`Ordering`, `Quicksort`), in place on an array with any total preorder.
* **Thread pool** (`QsortPool`, `QsortPoolSafe`, `QsortRanges`, `QsortEnds`): slots, idle counter, both kinds of
  mutex, condition waits and termination, with workers that rearrange the ranges they hold.
* **Work-stealing deque** (`Deque`, `DequeSafe`, `DequeRuns`, `DequeCalls`), one owner and any number of thieves,
  one step for each load, store and compare-and-swap, `resize` included.
* **Scheduler** (`Scheduler`, `SchedulerRuns`, `SchedulerCalls`), the worker loop on deques of that kind.
* **MPMC queue** (`MpmcSync`, `Mpmc`, `MpmcMemory`, `MpmcHeap`, `MpmcReclaim`, `MpmcSteps`,
  `MpmcRuns`, `MpmcCalls`, `MpmcAlone`): registration, tickets, the growing list of segments, the hand-over with a futex, and
  reclamation. `MpmcSync` knows one cell per ticket and no memory; the other modules show that the
  segments behave like that, although they are added and freed by many threads at once.
* **Futex mutex and condition variable** (`FutexLock`, `FutexCalls`), with the kernel's sleepers and requeueing.
* **Two clients**: the clock and computation graph (`ClockGraph`, `ClockGraphRuns`) and the lock
  ring (`LockRing`).

`Arithmetic`, `Options` and `Traces` are shared.

## How the concurrent parts are modelled

A state holds the shared words and, for each thread, where it stands with its locals. `Next` (or
`Take`, `Move`, `Steal`) gives the state after one access, so that a run is a list of steps in any
order; the number of threads, capacities, segment sizes, thresholds and round counts are
parameters. Atomic accesses are sequentially consistent. Futex calls are atomic steps of the
kernel; which sleeper is woken is open, and sleepers may wake up spuriously. Fields that only
record what happened (`log`, `pushed`, `out`, `chain`, `base`, `vals`, `sent`, `got`, `done` of
`FutexLock`, `ran`, `joined`, `dones`, `pos`, `given`, `down`) never decide what a
step does to the words and locals of the program. Spin loops choose freely how long they spin. In the clock graph and the
lock ring a section under a mutex is one step, and waiting is a step that is not enabled. What that
rests on is proved of `FutexLock`: one thread at a time in such a section, a wait that gives the mutex
up, and no sleeper missed by a signal or a broadcast.

What a call does is stated from the call to its return: a thread makes the call in some reachable
state, the run goes on with any steps of any threads, through the states `tr` (`Traces.Trace`), and the call
returns in the first of them in which the thread is in no call again.

## Where the code needs its callers

* `take` before the first `push` of a deque wraps `bottom - 1` (work-steal.c:104) and returns what
  lies in a slot nobody wrote. `TakeNeedsPush` gives the exact condition; `ExactlyOnce` asks that
  no take begins before something has been pushed, and `Filled` asks the same of the scheduler.
  A deque starts with a capacity of at least one, and counters do not overflow.
* The pool has at least one thread.
* `treeint_st_cmp` and `num_compare` return a difference as an `int`. Both are right exactly when
  the difference fits; `CmpLosesOrder` and `NumCompareCycles` show what happens when it does not.
  Overflow is taken to wrap, as it does in two's complement. `SortNumbers` shows that the numbers
  the program itself sorts are on the right side of this.
* The enqueued values of the MPMC queue are not NULL, the barriers wait for all threads of a role,
  each handle is used by one thread in one role, and there are fewer handles of a role than table
  entries.
* One mutex goes with one condition variable, `cond_wait` is called with the mutex held, and `seq`
  does not wrap.

The comment at perf-test/main.c:70-72 says that only one thread at a time can hold two locks of the
ring. That is proved as it stands, also for the time when some threads have finished.

## Model

| member | source | states |
|---|---|---|
| RbInsert.InsertColor | hw1/treeint/rbtree.c:77-212 | the in-place fix-up loop, with its three cases and their mirror images, leaves the pointers (left, right and parent links) in the shape of the tree value `InsertFix`; it ends because each round starts higher up |
| RedBlack.InsertFixInorder | hw1/treeint/rbtree.c:77-212 | the fix-up changes no in-order sequence |
| RedBlack.InsertFixRules | hw1/treeint/rbtree.c:77-212 | from a red node linked into a valid tree at most the two rules at that node are broken, and afterwards none is: black root, no red node with a red child, equal black counts, at most one black higher |
| RbSteps.RotateSetParents | hw1/treeint/rbtree.c:52-75 | after a rotation the new top has the old one's parent and colour, the old one is its child with the given colour, and the link from above, or the root, points to the new top |
| RbUnlink.EraseAugmented | hw1/treeint/rbtree.c:244-345 | in place: no child, one child, successor is the right child, successor further down; the pointers form the tree with the node taken out, and the result names the node below which a black node is missing, or null |
| RbErase.EraseColor | hw1/treeint/rbtree.c:347-521 | the in-place rebalancing loop with its four cases and their mirror images turns a tree that is one black short at a hole into `EraseFix` of it; the sibling it dereferences always exists, and it ends by climbing |
| RbErase.SiblingExists | hw1/treeint/rbtree.c:356-372 | across from a position that is one black short there is a sibling, and a red sibling has two children |
| RbEraseSpec.EraseFixRules | hw1/treeint/rbtree.c:347-521 | starting with exactly one black missing on the paths through a position, rebalancing ends with all rules holding and the tree as high in black nodes as before or one lower |
| RbEraseSpec.UnlinkRules | hw1/treeint/rbtree.c:244-345 | after unlinking, either all rules hold or the only fault is one black missing at the reported position |
| RbEraseSpec.EraseInorder | hw1/treeint/rbtree.c:523-529 | erasing takes the node out of the in-order sequence and leaves the rest as it was |
| RbEraseSpec.EraseRules | hw1/treeint/rbtree.c:523-529 | erasing any node of a tree with all the rules gives one with all the rules |
| RbSet.EraseNode | hw1/treeint/rbtree.c:523-529 | `rb_erase` on the pointers: from a linked red-black search tree to one, with exactly the key of the node removed |
| RbSet.HeightBound | hw1/treeint/treeint_rb.c:81-99 | 2 to the height is at most (n + 1) squared for n keys: the height is at most 2 log2(n + 1) |
| RbSet.IntTree.Find | hw1/treeint/treeint_rb.c:81-99 | finds the entry exactly if the key is in the set, in a number of rounds within the height bound |
| RbSet.IntTree.Insert | hw1/treeint/treeint_rb.c:43-79 | returns -1 and changes nothing if the key is there, else 0 and adds just that key; the tree stays a red-black search tree with consistent parent links |
| RbSet.IntTree.Remove | hw1/treeint/treeint_rb.c:101-112 | returns -1 if the key is missing, else 0 and removes just that key; the tree stays a red-black search tree with consistent parent links |
| StUpdate.RotateRight | hw1/treeint/s_tree.c:105-121 | the in-place rotation that raises the right child: order kept, parent links consistent, the slot above redirected |
| StUpdate.RotateLeft | hw1/treeint/s_tree.c:87-103 | the in-place rotation that raises the left child, likewise |
| StUpdate.Rebalance | hw1/treeint/s_tree.c:149-175 | one call of `st_update` without its recursive call; non-negative hints make the child it rotates exist, and it climbs on exactly if the new hint is 0 or differs |
| StUpdate.UpdateFrom | hw1/treeint/s_tree.c:149-175 | `st_update` from any node turns the pointers into `Update` of the tree, and ends although it rotates while climbing to the parent from before the rotation |
| StSpec.UpdateKeeps | hw1/treeint/s_tree.c:149-175 | updating keeps the in-order sequence and leaves no negative hint |
| StHints.HeavierRises | hw1/treeint/s_tree.c:123-175 | a node that leans by two or more, and no other, is replaced at the top by its heavier child; its new hint is the greater chain of the children it then has |
| StHints.InsertLevel | hw1/treeint/s_tree.c:149-175 | as long as insertions leave the tree level, hints are heights and nothing is rotated |
| StRemove.ReplaceRight | hw1/treeint/s_tree.c:257-285 | puts the leftmost node of the right subtree in the place of the removed one, in place |
| StRemove.ReplaceLeft | hw1/treeint/s_tree.c:287-315 | puts the rightmost node of the left subtree in the place of the removed one, in place |
| StRemove.RemoveNode | hw1/treeint/s_tree.c:333-369 | `__st_remove`: cuts the node out and updates from where the tree became shorter; the pointers form `Removed` of the tree |
| StSpec.RemovedKeeps | hw1/treeint/s_tree.c:333-369 | removal takes one node out of the in-order sequence, leaves the rest, and leaves no negative hint |
| StSet.IntTree.Insert | hw1/treeint/s_tree.c:225-255 | the answer of the set and the new set, for keys whose differences fit in an int; the pointers stay a search tree with consistent parent links and no negative hint |
| StSet.IntTree.Remove | hw1/treeint/s_tree.c:376-386 | the answer of the set and the new set, likewise |
| StSet.IntTree.Find | hw1/treeint/s_tree.c:203-223 | finds a node exactly if the key is in the set |
| StSet.CmpOrders | hw1/treeint/treeint_st.c:13-19 | the comparator puts a value before a key rightly exactly if their difference fits in an int, and is 0 exactly for equal ones |
| StSet.CmpLosesOrder | hw1/treeint/treeint_st.c:13-19 | two ints for which the comparator answers the wrong way round |
| IntSet.LastWrite | hw1/treeint/treeint.c:10-37 | after any sequence of operations a key is in the set exactly if it was inserted and not removed afterwards |
| TreeInt.RunRb | hw1/treeint/treeint.c:30-37 | any sequence of operations on the red-black tree answers as the mathematical set does |
| TreeInt.RunSt | hw1/treeint/treeint.c:21-28 | any sequence of operations on the S-tree whose key differences fit in an int answers as the mathematical set does |
| TreeInt.RunBoth | hw1/treeint/treeint.c:21-37 | no such sequence tells the two trees apart: both give the answers of the mathematical set |
| Quicksort.Med3IsMedian | hw1/qsort-mt.c:68-73 | `med3` picks one of its three arguments that lies between the other two |
| Quicksort.ScanUp | hw1/qsort-mt.c:267-274 | the left scan keeps the four blocks, stops at an element greater than the pivot, and only rearranges |
| Quicksort.ScanDown | hw1/qsort-mt.c:275-282 | the right scan keeps the four blocks, stops at an element less than the pivot, and only rearranges |
| Quicksort.FourPointers | hw1/qsort-mt.c:263-289 | the partitioning loop ends with equal, less, greater, equal blocks that cover the range, and has left it untouched if it reports no swap |
| Quicksort.VecSwappedAt | hw1/qsort-mt.c:60-64 | where each element is after two blocks have been exchanged |
| Quicksort.Partition | hw1/qsort-mt.c:250-295 | one partition, in place: nl elements less than, at least one equal to, nr elements greater than the pivot, a rearrangement of what was there |
| Quicksort.InsertionSort | hw1/qsort-mt.c:297-307 | insertion sort, with or without a limit on its swaps: sorted if it finishes; if it is abandoned, whatever partition the range showed it still shows |
| Quicksort.Pass | hw1/qsort-mt.c:240-309 | one pass from `top` leaves the range sorted or partitioned, and rearranges nothing outside it |
| Quicksort.Sort | hw1/qsort-mt.c:222-330 | for any total preorder the range ends up sorted, is a rearrangement of what it was, and the rest is untouched; recursion and loop end |
| Quicksort.NumCompareOrders | hw1/qsort-mt.c:384-387 | the comparator of the program orders two numbers rightly exactly if their difference fits in an int |
| Quicksort.NumCompareCycles | hw1/qsort-mt.c:384-387 | three 32-bit numbers that it orders in a circle, so that it is no preorder |
| Quicksort.SortNumbers | hw1/qsort-mt.c:491-493 | on the numbers the program fills its array with, none above INT_MAX, the comparator is a total preorder, and the sort leaves them ascending |
| QsortPoolSafe.MoveKeeps | hw1/qsort-mt.c:333-372 | every step of a worker keeps who holds which mutex, what each slot state means for where its thread stands, and the counter |
| QsortPoolSafe.StopStep | hw1/qsort-mt.c:357-369 | termination is told to idle slots only; a slot that works is never turned to `ts_term` |
| QsortPoolSafe.CountSlots | hw1/qsort-mt.c:354-357 | when the counter says that all slots are idle all are, and when it does not some slot still works |
| QsortPoolSafe.NoDeadlock | hw1/qsort-mt.c:206-219 | in every state that satisfies the invariant, until all threads have exited some thread can take a step: `mtx_al` is always taken before `mtx_st`, and nobody waits for a signal that does not come |
| QsortRanges.RangesSuffice | hw1/qsort-mt.c:309-330 | in every state of every run the ranges pending in all workers are pairwise disjoint, and any two elements out of order lie in one of them |
| QsortRanges.SortedAtShutdown | hw1/qsort-mt.c:333-372 | when the pool stops no range is pending and the array is the input, sorted |
| QsortRanges.IdleCounted | hw1/qsort-mt.c:206-219 | in every run, while `mtx_al` is free and the pool is up, `idlethreads` is the number of idle slots; no slot is `ts_term` before shutdown and none works after it began |
| QsortRanges.RunsOn | hw1/qsort-mt.c:333-372 | no run gets stuck before every thread has exited |
| QsortEnds.WorkerPass | hw1/qsort-mt.c:240-309 | a worker that runs the pass of the sequential sort on its range takes the pool through two of its steps: a rearrangement of that range, then its partition or its end |
| QsortEnds.OthersLeave | hw1/qsort-mt.c:309-330 | no step of another thread changes an element of the range a worker is busy with, or where the worker stands |
| QsortEnds.LargeHandedOver | hw1/qsort-mt.c:206-219 | a worker with two parts above the threshold gives the left one to the slot of another thread unless no slot is idle at that moment |
| QsortEnds.SortedAtExit | hw1/qsort-mt.c:206-219 | as soon as `pthread_join` can see one thread of the pool exited, the array is the input, sorted |
| QsortEnds.MoveLower | hw1/qsort-mt.c:333-372 | every access of a worker that changes anything lowers a measure of what the pool can still do |
| QsortEnds.RunsBounded | hw1/qsort-mt.c:333-372 | apart from spurious wake-ups and the swaps inside a range, a run has at most (threads + 19) n + 7 threads + 15 steps that change anything, and 3 more for each spurious wake-up |
| DequeRuns.ExactlyOnce | hw3/work-steal.c:73-161 | over every interleaving of one owner and any number of thieves, any capacity, with `resize` under way: only pushed items are returned, none twice, and what was pushed and not returned is claimed by a thread or still in the deque |
| DequeRuns.StepCore | hw3/work-steal.c:73-161 | every access keeps where each live item is stored, the arrays old and new, and what the locals of owner and thieves still mean |
| DequeRuns.ClaimBooks | hw3/work-steal.c:108-119 | reading a smaller `top`, or winning the race for the last one, takes exactly the newest item off the bottom |
| DequeRuns.ThiefBooks | hw3/work-steal.c:144-161 | a thief whose compare-and-swap succeeds takes exactly the oldest item, also if it read it from an array that has been replaced |
| DequeSafe.GrowPublishStep | hw3/work-steal.c:82-85 | when `resize` publishes the new array it holds every live item at its slot, however often thieves moved `top` while it copied |
| DequeRuns.TakeNeedsPush | hw3/work-steal.c:102-128 | an uninterrupted `take` returns only what was pushed exactly if something has been pushed; before the first push `bottom - 1` wraps |
| DequeCalls.TakeAnswers | hw3/work-steal.c:102-128 | in every interleaving a take returns the item that was the newest when it was called, or EMPTY, and that only if the deque is empty when it returns |
| DequeCalls.SoloTakes | hw3/work-steal.c:102-128 | an uninterrupted take returns the newest item if there is one, EMPTY if there is none |
| DequeCalls.PushAdds | hw3/work-steal.c:130-142 | in every interleaving a push adds what it was given, and nothing else, at the young end, `resize` included |
| DequeCalls.StealAnswers | hw3/work-steal.c:144-161 | in every interleaving a steal takes the oldest item off with its last step, or answers EMPTY, only if no index was left between `top` and `bottom`, or ABORT, only if somebody moved `top` since the call |
| DequeCalls.AloneReturns | hw3/work-steal.c:73-161 | push, take and steal return when left alone |
| DequeCalls.LeakBounded | hw3/work-steal.c:86-99 | the arrays `resize` leaves unfreed are together smaller than the one in use |
| Scheduler.FilledByPushing | hw3/work-steal.c:273-286 | deques the main thread has only pushed to satisfy the deque invariant, have answered nothing and have nobody working on them |
| SchedulerRuns.DoneIsDone | hw3/work-steal.c:171-255 | in every run of any number of workers on real deques: no task runs more often than it was pushed, `done_task` runs at most once, and when `done` is set every pushed task has run; a worker leaves only then |
| SchedulerRuns.NothingLost | hw3/work-steal.c:171-255 | in every run `done` is set exactly when no deque holds a task, nobody has claimed one or has one in hand, and no join or `done_task` is under way: no task and no join is lost |
| SchedulerCalls.TriesAll | hw3/work-steal.c:199-233 | a worker looks at `done` only after every deque, its own and all others, has answered EMPTY to it since it was last at the top of its loop; after ABORT it tries the same one again |
| SchedulerCalls.WorkersLeave | hw3/work-steal.c:198-237 | once `done` is set every step of any worker still in its loop lowers a measure: in whatever order they step, all leave |
| SchedulerRuns.JoinJoined | hw3/work-steal.c:186-192 | the join counter never falls below 0, and exactly the last join finds it at 1 |
| Arithmetic.MaskIsRemainder | hw3/mpmc.c:31-32 | masking with a power of two less one is the remainder by that power |
| MpmcRuns.TicketsPair | hw3/mpmc.c:180-247 | the dequeue with ticket t returns the value the enqueue with ticket t was given, whichever came first, and returns once; an enqueuer never takes a value for the address of a flag |
| MpmcCalls.EnqueueStores | hw3/mpmc.c:180-203 | from a call of enqueue with value v that draws ticket t on, in every state, whoever holds or has returned the value of ticket t has v; when the enqueue has returned, v has reached its cell |
| MpmcCalls.DequeueReturns | hw3/mpmc.c:205-247 | a dequeue that draws ticket t returns, with its last step and for the first time, the value of ticket t, and not before it has been stored |
| MpmcAlone.EnqueueAlone | hw3/mpmc.c:119-203 | an enqueue left alone returns, however many segments it has to add or walk |
| MpmcAlone.DequeueAlone | hw3/mpmc.c:205-311 | a dequeue whose value has been stored returns when left alone, reclamation included |
| MpmcAlone.RegistersOn | hw3/mpmc.c:75-106 | as long as some thread is not registered some thread of its role can go on |
| MpmcRuns.NoLostWakeup | hw3/mpmc.c:195-245 | a dequeuer asleep on its flag still waits for its value, or is owed the store that clears the flag, or is owed the wake-up after it |
| MpmcRuns.NoUseAfterFree | hw3/mpmc.c:119-162 | in every run, no step of any enqueue, dequeue, scan or free accesses a segment that has been freed |
| MpmcRuns.ReclaimedExactly | hw3/mpmc.c:254-311 | registered handles are never behind `init_id`, ids along `next` are consecutive, overlapping reclaimers free disjoint ranges, and the segments before `init_id` are exactly those freed or about to be |
| MpmcSync.SwapInFinds | hw3/mpmc.c:195-203 | an enqueuer finds the cell of its ticket empty, or the flag, still set, of the dequeuer that parked with the same ticket |
| MpmcSync.SwapFlagPaired | hw3/mpmc.c:230-245 | the exchange of a dequeuer keeps the pairing: it finds the value of its ticket, or parks on a flag that is set |
| MpmcSteps.LinkStep | hw3/mpmc.c:127-154 | adding a segment keeps the numbering of the list and the content of every cell, whoever wins the compare-and-swap |
| MpmcReclaim.ScanRec | hw3/mpmc.c:273-291 | the node a scan has found is no later than any handle it has looked at, or not later than `init_id`, in which case the scan stops early |
| MpmcReclaim.ReclaimingHeap | hw3/mpmc.c:254-311 | every step of reclamation keeps: one holder of `init_id`, `init_node` at `init_id`, disjoint ranges, freed exactly what is before them |
| MpmcAlone.SweepAlone | hw3/mpmc.c:254-311 | a dequeuer whose turn it is to reclaim, left alone, moves the start of the list to the hindmost handle, and what lies before it is freed but for what another thread is about to free |
| MpmcRuns.NothingYet | hw3/mpmc.c:75-106 | as long as some thread has not registered, nothing has been dequeued, so that no reclaimer can miss its handle |
| FutexLock.MutualExclusion | hw2/mutex.h:57-94 | at most one thread holds the mutex, and while one does the word is LOCKED or LOCKED|SLEEPING |
| FutexLock.StepExclusive | hw2/mutex.h:57-94 | every access keeps: the word is 0, LOCKED or LOCKED|SLEEPING, and locked exactly when one thread holds the mutex |
| FutexLock.StepChain | hw2/cond.h:32-64 | every lock, unlock, wait, signal and broadcast access keeps the chain: nobody sleeps on the mutex word, or the word is LOCKED|SLEEPING, or some thread owes a wake-up or will still set SLEEPING |
| FutexLock.SleeperHasHelper | hw2/mutex.h:71-94 | in every run, for every sleeper on the mutex word there is a thread awake that holds the mutex with SLEEPING set, or owes a wake-up, or will still set SLEEPING |
| FutexLock.NobodyStranded | hw2/mutex.h:71-94 | when the mutex is free and nobody is in the middle of a call, nobody sleeps on the mutex word |
| FutexCalls.LockAndUnlock | hw2/mutex.h:57-94 | from the call to the return, whatever the others do: a lock called without the mutex returns with it, an unlock called with it returns without |
| FutexCalls.WaitReleases | hw2/cond.h:32-49 | `cond_wait`, called with the mutex held, samples `seq` with it held, then gives it up, and returns with it held, but not before `seq` has moved from the sample or it has slept on the condition word |
| FutexCalls.BroadcastReachesAll | hw2/cond.h:60-64 | from the return of a broadcast on, no thread that sampled `seq` before the call is asleep on the condition word, in any continuation of the run |
| FutexCalls.SignalReachesOne | hw2/cond.h:54-58 | if a thread that sampled `seq` before a signal was called is ever found asleep on the condition word after its return, the signal has woken another sleeper and this one slept on; a thread that sleeps there alone is always reached |
| FutexCalls.SignalMovesOne | hw2/cond.h:54-58 | no step of a signal touches more than one other thread: it requeues nobody |
| FutexCalls.AloneReturns | hw2/mutex.h:57-94 | a thread left alone returns from unlock, signal and broadcast, and from lock if the mutex is free, after at most three steps |
| FutexCalls.ToldReturns | hw2/cond.h:32-49 | a waiter for whom `seq` has moved, or who has been woken, gets back with the mutex when left alone with it free |
| ClockGraphRuns.CountsInBinary | hw2/example/main.c:86-105 | before `clock_stop`, for any number N of nodes: the step from tick t to t + 1 is made by the node whose index is the number of trailing zero bits of t, `ticks` never exceeds 2^N, at most one `ready` flag is set, and no signal overwrites another |
| ClockGraphRuns.ReachesPower | hw2/example/main.c:124-126 | until the clock is at 2^N some node can go on, every step is progress, and progress is bounded, so that no order of steps keeps the clock from getting there |
| ClockGraphRuns.StopsAtPower | hw2/example/main.c:124-126 | the main thread goes on to stop the clock only when it stands at exactly 2^N, and until the clock is stopped no node leaves its loop |
| ClockGraphRuns.PowerBeforeStop | hw2/example/main.c:124-126 | in every run in which the clock has been stopped it stood at 2^N the moment before |
| ClockGraphRuns.EverybodyEnds | hw2/example/main.c:86-105 | after `clock_stop`, in every order of steps, some thread can go on until all have ended, and every step leaves fewer |
| ClockGraph.TrailingIs | hw2/example/main.c:91-101 | the position of the lowest one bit is what the chain of carries stops at |
| LockRing.OneHoldsTwo | hw2/perf-test/main.c:94-129 | at every moment at most one thread holds two mutexes |
| LockRing.GoesRound | hw2/perf-test/main.c:94-129 | a thread that has gone on r times is r mutexes from its first, finishes after exactly all rounds holding none, and nobody starts before everybody has its first mutex |
| LockRing.EverybodyFinishes | hw2/perf-test/main.c:94-129 | while some thread has not finished some thread can take a step, and every step leaves fewer: the held mutexes never close the ring, and every run ends |
| LockRing.TakeChain | hw2/perf-test/main.c:118-123 | a thread gets the next mutex only if the thread in front of it has gone on, and the last one only if the first has |
| LockRing.Exclusive | hw2/perf-test/main.c:94-129 | no mutex is held by two threads |

## Left out

- StSpec.Update: does not model the width of the hint, which is a `short` in the code; hints are unbounded integers here.
- QsortRanges.SortedAtShutdown: does not model element sizes; elements are values, swaps exchange two of them, and `n * es` fitting in an `int` is not expressed.
- MpmcRuns.NoUseAfterFree: does not model that the allocator may hand out a freed address again; a new segment always has a new address.
- ClockGraphRuns.EverybodyEnds: does not run on the states of `FutexLock`; a wait is a step that is not enabled.
- LockRing.EverybodyFinishes: does not run on the states of `FutexLock`; a wait is a step that is not enabled.
- The weak orders, fences, cache alignment and pause hints of the atomics.
- The priority-inheritance mutex and its test, the spinlock, and the pthread variants of mutex and condition variable.
- The second work-stealing deque (hw3/work-steal-qsort), whose `take` lowers `bottom` only after reading `top`, and the sorter on top of it.
- The exact number of rounds a spin loop makes before it sleeps, and the timing of any program.
- Failed allocation, the bail-out of `qsort_mt` when threads cannot be created, joining and freeing the pool.
- The byte-wise variants of swapping, and packing the colour of a node into its parent word.
- Destroying and dumping trees, argument parsing, printing, measuring and plotting.
- Heights and hint accuracy of the S-tree, which its header calls approximate.
- That a thread is ever scheduled: what is proved about progress is that some thread can go on, that a thread left alone returns, or that a measure falls.
