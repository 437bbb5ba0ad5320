# Mimosa: a verified model of the kernel's data structures and protocols

Mimosa is a small x86 kernel. This project models the parts of it that can be stated without the hardware and proves what they keep, promise or compute. `dafny verify dfyconfig.toml` checks all of it.

Code that works by changing things step by step is modelled by classes, arrays and loops. Each method is proved to compute a function of the old state, and what the kernel promises is proved about that function, over all states and over all runs. Code made of expressions is modelled by functions.

| part | files | what is proved |
|---|---|---|
| priority queues (`include/queue.h`) | PriorityOrder, QueueNode, ListQueue, RedBlackTree, RedBlackLinks, RedBlackInsert, RedBlackRemove, RedBlackSplice, RedBlackQueue, QueueAgreement | the list and the red-black tree, on node objects with the source's link fields, keep all their invariants and agree on every run |
| scheduler, locks, timer (`thread.cpp`) | Rings, LinkedRings, SchedulerState, SchedulerRings, Scheduler, SchedulerLocks, SchedulerSafety, SchedulerOwnership, SchedulerOutcomes, SchedulerTimer, SchedulerDeadlines, SchedulerFairness, SchedulerTurns, Kernel | each section with interrupts off is one step; mutual exclusion, reader-writer exclusion, no lost wake-up, ring membership, deadlines and bounded waiting in every interleaving; what each call does to the threads and locks; the queues threaded through their link fields hold what the steps say |
| block cache (`disk.cpp`) | DiskCache, DiskCacheInvariant, DiskCacheContents, DiskCacheRuns, DiskCacheLoss, DiskCacheOutcomes, DiskCacheModule | the cache is transparent, and exactly when it is not, with runs that lose data; linked LRU ring and buckets |
| allocator (`heap.cpp`) | HeapArena, HeapInvariant, HeapSafety, HeapOutcomes, HeapLoss, HeapLinks, HeapBlocks, HeapWrites, HeapModule | tiling, free list, disjoint payloads, with the raw headers and the used flag in the size word |
| rationals and calendar (`chrono.cpp`) | Products, RationalArithmetic, RationalSimplest, RationalTolerance, Calendar | the search returns the simplest fraction; two day counts agree up to one day |
| bitmaps (`video.cpp`) | BitmapWords, BitmapRows, BitmapLoops, BitmapRects, BitmapOverlap, BitmapColors, RawBitmap | word-at-a-time transfer and fill equal their definitions by pixels, within one bitmap exactly as long as the source is read in time |
| terminal (`term.cpp`) | TerminalMachine, TerminalModule, TerminalSequences, TerminalCursor, TerminalFlow | batched writing equals a machine that takes one character at a time |
| interrupt ring, division (`rtlib.cpp`) | InterruptRing, InterruptSender, Division | frames are queued intact and in order; two-step division is division |

## How the model reads the code

- Queue keys (priority, timeout) are fixed while an element is queued.
- A list queue's elements, a red-black queue's elements and the two headers are objects with the link fields of `include/thread.h`. The `goto` into the insertion loop is written as a loop that starts on the left side of the sentinel. The rotation at `include/queue.h:463` is about the sibling, although the macro it expands to declares a local named like its argument (`include/queue.h:194`).
- A context switch is a change of the current thread; the saved context of a thread is the place in a kernel call where it continues. Priorities are those of the threads, the time is a parameter of the steps that read it, and "deadlock detected" is a halted state. Who owns a lock is recorded beside the source's fields, which do not say it.
- Only the owner of a mutex releases it; nothing is asked of calls on a mutex whose lock flag a late timed attempt has cleared. Wait queues and sleep queue are rings threaded through link fields that all threads have, as in the source.
- A cache call is one step. Whether a device read or write works is a parameter; what a failed read leaves in the buffer is arbitrary. The LRU ring and the hash buckets are threaded through link fields. A write to the disk NULL ends a run, since nothing is known of what follows.
- Heap addresses are numbers and the memory maps them to headers, so that sizes, flags and links can be overwritten as in the arena. The insertion into an empty free list (`heap.cpp:180-181`) writes through NULL; the model leaves that write out and keeps `lf` as NULL. `merge` is called with the counts of `heap.cpp:267-271`.
- Layers of a bitmap are separate arrays. The word that a transfer reads past the last one it needs is arbitrary. Bitmap words have 8 bits and the quad word 32, as in the source.
- A terminal place shows a character with its attributes, or is cleared.

## What the proofs say about the code

These results differ from what the code, its comments or its names suggest. Each has a theorem below.

- `condvar_wait` waits for the mutex and never for the condition variable, so signals do not reach it (`SignalsMissCondvarWait`).
- `mutex_lock_or_timeout` clears the lock flag of a mutex somebody holds when it resumes late (`LateResumeBreaks`, `TimedLockMakesTwoOwners`). This is the only way to lose mutual exclusion (`SpoiledExactlyWhen`, `MutualExclusionExactlyWhen`).
- After a failed write-back the cache gives the block away and the change is lost (`AcquireKeepsContentsExactlyWhen`, `FailedWriteBackLosesContents`). If the read into that block then fails, the release writes through a NULL disk (`AcquireKeepsExactlyWhen`, `FailedReadCrashes`).
- `heap_free` leaves the block in use for ever when its left neighbour is free and its right one is not (`FreeLeaksExactlyWhen`, `LeakedForEver`, `LeakingRun`).
- The free list stays in order of size only under a condition on `lf` (`InsertKeepsBySizeExactlyWhen`, `UnsortingRun`), so `find_block` is a best fit only then.
- `rational_rationalize` swaps its arguments when the tolerance is the larger one (`RationalizeMeetsR5RSExactlyWhen`, `LargeTolerance`).
- The clock set at boot is one day fast until its 32-bit seconds overflow on 2038-01-18 at 03:14:08 (`BootClockIsOneDayFastExactlyWhen`, `BootClockOverflows`), and `days_from_civil` is wrong in the first two months of its range (`DaysFromCivilIsRightExactlyWhen`).
- Erasing up to the cursor leaves the character under it (`EraseInLineIsStandardExactlyWhen`, `EraseInDisplayIsStandardExactlyWhen`, `CharacterSurvives`).
- An empty interrupt ring accepts a frame longer than itself, and the 8-bit length of a frame with more than 253 parameters wraps round, so that it overwrites queued frames (`AcceptsWhatFitsExactlyWhen`, `SendKeepsQueueExactlyWhen`, `ZeroesWipe`, `OldestOverwritten`, `LongFrameOnEmptyRing`).
- A transfer within one bitmap reads pixels it has already written when the source is two words or more to the left in the same rows, or above, and overlaps the destination (`RowsInTimeExactlyWhen`, `SmearedRow`).

## Model

| member | source | states |
|---|---|---|
| `PriorityOrder.KernelOrdersAreStrictWeak` | include/thread.h:596-686 | The three BEFORE relations the kernel instantiates (descending priority, none, ascending timeout) are strict weak orders. |
| `PriorityOrder.SlotIsTheOnlySplit` | include/queue.h:77-113 | A position with nothing to pass in front of it and only keys to pass behind it is the insertion slot, so a scan from the tail and a descent from a root find the same place. |
| `PriorityOrder.SlotSplits` | include/queue.h:93-104 | In a sorted queue every element behind the slot is strictly after the new key: equal keys stay in order of insertion. |
| `PriorityOrder.InsertKeepsSorted` | include/queue.h:77-113 | Inserting at the slot keeps a sorted queue sorted, for every strict weak order. |
| `PriorityOrder.RemoveKeepsSorted` | include/queue.h:115-121 | Removing any element keeps it sorted. |
| `ListQueue.ListQueue.Init` | include/queue.h:56-59 | The header linked to itself is the empty queue. |
| `ListQueue.ListQueue.Head` | include/queue.h:66-73 | Head is the first element, NULL exactly when the queue is empty. |
| `ListQueue.ListQueue.FindPlace` | include/queue.h:77-104 | The backward walk stops between the two ring neighbours of the insertion slot. |
| `ListQueue.ListQueue.Insert` | include/queue.h:77-113 | The four link writes put the element at its slot: links stay mutual inverses around the ring, contents are the old ones with the element inserted, and stay sorted. |
| `ListQueue.ListQueue.Remove` | include/queue.h:115-121 | The two link writes take out exactly that element and keep ring and order. |
| `ListQueue.Detach` | include/queue.h:61-64 | A detached element is a ring of its own. |
| `ListQueue.RemoveDetached` | include/queue.h:115-121 | Removing a detached element is harmless: it stays a ring of its own. |
| `RedBlackTree.RotatedInorder` | include/queue.h:192-207 | A rotation, on either side, keeps the in-order sequence. |
| `RedBlackTree.PlugBalanced` | include/queue.h:244-497 | Colour rules and black counts of a whole tree follow from those of a subtree and of the path to it. |
| `RedBlackTree.HeightBound` | include/queue.h:244-497 | A red-black tree of n elements has 2^height at most (n+1)^2, so no walk is longer than 2 log2(n+1). |
| `RedBlackLinks.RotateLinksLeft` | include/queue.h:192-209 | The eight writes of ROTATE_LEFT, one by one, on the heap: the three subtrees move as a rotation says and every parent link mirrors a child link, including through the sentinel. |
| `RedBlackLinks.RotateLinksRight` | include/queue.h:192-210 | The same for ROTATE_RIGHT. |
| `RedBlackLinks.Rotate` | include/queue.h:192-210 | Anywhere in a tree held by the heap, a rotation leaves the heap holding the rotated tree with the same nodes. |
| `RedBlackLinks.SetColor` | include/queue.h:169-175 | Colour writes (NULL for red, the queue for black) change the colour of one node of the tree held. |
| `RedBlackInsert.TurnedBalanced` | include/queue.h:305-318 | Black uncle: the result of one or two rotations is balanced with a black top and the same in-order sequence. |
| `RedBlackInsert.Turn` | include/queue.h:305-318 | The writes of that case produce that tree, on either side. |
| `RedBlackInsert.PushedUpIsRedAt` | include/queue.h:319-322 | Red uncle: recolouring moves the only possible violation two levels up and keeps black counts and order. |
| `RedBlackInsert.PushUp` | include/queue.h:319-322 | The writes of that case produce that tree. |
| `RedBlackInsert.RepairAfterInsert` | include/queue.h:289-329 | The insert fix-up loop terminates from every tree with one red element in place; nothing breaks the colour rules afterwards and the order is the same. |
| `RedBlackRemove.SiblingExists` | include/queue.h:447-454 | Where a subtree is one black level short its sibling is a real node, and a red sibling has two real children, so the loop never touches the sentinel as a sibling. |
| `RedBlackRemove.LoweredIsShortAt` | include/queue.h:448-452 | Red sibling: rotating it away leaves the same shortage beside a black sibling. |
| `RedBlackRemove.Lower` | include/queue.h:448-452 | The writes of that step. |
| `RedBlackRemove.SettledBalanced` | include/queue.h:472-480 | COMMON_CASE repairs the shortage for good when the far nephew is red. |
| `RedBlackRemove.Settle` | include/queue.h:472-480 | The writes of COMMON_CASE, including blackening the root. |
| `RedBlackRemove.SwungIsShortAt` | include/queue.h:460-465 | Only the near nephew red: rotating about the sibling makes the far nephew red. |
| `RedBlackRemove.Swing` | include/queue.h:460-463 | The writes of that step. |
| `RedBlackRemove.FadedIsShortAt` | include/queue.h:467-469 | No red nephew: reddening the sibling moves the shortage one level up. |
| `RedBlackRemove.Fade` | include/queue.h:467-467 | The write of that step. |
| `RedBlackRemove.RepairAfterRemove` | include/queue.h:441-492 | The remove fix-up loop terminates from every shortage and leaves a red-black tree with the same order and nodes. |
| `RedBlackSplice.OuterRemoved` | include/queue.h:353-395 | Removing a node with at most one child costs one black level exactly when the node is black; a left-only child implies the node is black, as the comment in the code claims. |
| `RedBlackSplice.SpliceOut` | include/queue.h:367-368 | The two writes that put the only child in the place of its parent. |
| `RedBlackSplice.FindSuccessor` | include/queue.h:397-409 | The walk down the left children of the right subtree ends at its first element. |
| `RedBlackSplice.SuccessorIsNext` | include/queue.h:396-409 | That element is the next one in order. |
| `RedBlackSplice.TakePlace` | include/queue.h:411-415 | The successor takes over colour, left child and parent of the removed node. |
| `RedBlackSplice.CloseGap` | include/queue.h:425-430 | When it was not the right child, its own right child takes its old place and it takes over the right subtree. |
| `RedBlackSplice.ReplacedInorder` | include/queue.h:396-439 | The order after the replacement is the old one without the removed node. |
| `RedBlackSplice.Promote` | include/queue.h:411-438 | All the writes of the two-children case together produce the replaced tree, and hand the fix-up loop the right node and parent. |
| `RedBlackSplice.RemoveOuter` | include/queue.h:353-395 | The one-child cases on the heap: the element leaves, what remains is balanced or short as the colour says. |
| `RedBlackSplice.RemoveInner` | include/queue.h:396-439 | The two-children case on the heap, with the shortage at the place of the successor. |
| `RedBlackQueue.LeftmostAfterInsert` | include/queue.h:268-271 | LEFTMOST moves to the new element exactly when it becomes the left child of the old leftmost, and is then the first in order. |
| `RedBlackQueue.LeftmostAfterRemove` | include/queue.h:358-363 | Removing the leftmost element hands LEFTMOST to its right child, or its parent when it has none, and that is the new first in order. |
| `RedBlackQueue.Rebalance` | include/queue.h:289-332 | Fix-up, black root and restored sentinel parent after an insertion. |
| `RedBlackQueue.Restore` | include/queue.h:441-496 | Fix-up when it is needed, and restored sentinel parent, after a removal. |
| `RedBlackQueue.RedBlackQueue.Init` | include/queue.h:219-232 | The sentinel alone is the empty queue. |
| `RedBlackQueue.RedBlackQueue.Head` | include/queue.h:234-242 | LEFTMOST is the first element, NULL exactly when the queue is empty. |
| `RedBlackQueue.RedBlackQueue.Descend` | include/queue.h:254-287 | The descent from the root, entered on its left side, ends at the missing child whose in-order position is the insertion slot. |
| `RedBlackQueue.RedBlackQueue.Hang` | include/queue.h:250-287 | The element is linked in as a red leaf at that place and LEFTMOST is right again, before any repair. |
| `RedBlackQueue.RedBlackQueue.Insert` | include/queue.h:244-333 | From every valid queue: sorted in order with equal keys in order of insertion, no red node under a red one, equal black counts, black root, parent links mirroring child links, LEFTMOST first, sentinel restored; the contents are the old ones with the element at its slot. |
| `RedBlackQueue.RedBlackQueue.Remove` | include/queue.h:335-497 | The same for removal: exactly that element leaves. |
| `QueueAgreement.InsertedBehindEquals` | include/queue.h:77-113 | The sequence after an insertion: the new element stands behind all that it is not BEFORE, so behind its equals, and in front of the others, which keep their places. |
| `QueueAgreement.RemovedAlone` | include/queue.h:115-121 | The sequence after a removal is the old one without that element. |
| `QueueAgreement.Both` | include/queue.h:50-499 | One operation on a list queue and a red-black queue over the same nodes leaves them with the same sequence and reports the same head. |
| `QueueAgreement.RunBoth` | include/queue.h:50-499 | For every legal sequence of insertions, removals and head queries the two implementations agree all along: each head query reports, from both, the head of the sequence that the operations before it leave. |
| `LinkedRings.UnlinkOwn` | include/queue.h:115-121 | Unlinking the k-th element of a ring by two writes leaves the links holding the ring without it, forward and backward. |
| `LinkedRings.LinkOwn` | include/queue.h:105-112 | The four writes of an insertion leave the links holding the ring with the new element at that place. |
| `LinkedRings.RemoveKeeps` | include/queue.h:115-121 | Among any number of rings threaded through one pair of link fields, the two writes of a removal change the ring of that element only. |
| `LinkedRings.InsertKeeps` | include/queue.h:105-112 | So do the four writes of an insertion. |
| `LinkedRings.RingTable.constructor` | include/queue.h:56-64 | Headers and elements linked to themselves are empty rings and loose elements. |
| `LinkedRings.RingTable.Remove` | include/queue.h:115-121 | In place: the element is on no ring afterwards, every other ring and every loose element is as it was; on a loose element it does nothing. |
| `LinkedRings.RingTable.Walk` | include/queue.h:77-104 | The walk back along PREV ends between the two neighbours of the insertion slot. |
| `LinkedRings.RingTable.Insert` | include/queue.h:77-113 | In place: walk and four writes put the element at its slot of that ring, and no other ring changes. |
| `LinkedRings.RingTable.PushFront` | disk.cpp:161-164 | The four writes of the cache, in its order, put a block at the front of a ring. |
| `LinkedRings.RingTable.PushBack` | disk.cpp:531-534 | The four writes of the set-up put a block at the end. |
| `SchedulerRings.ExactlyOneRing` | thread.cpp:737-769 | Each live thread is once on exactly one wait ring, or on none and asleep; it is on the sleep ring exactly when a timeout is pending. |
| `SchedulerRings.MoveKeeps` | thread.cpp:689-693 | Taking a thread off its rings and putting it on others keeps both rings sorted and exact. |
| `Scheduler.WakeAllKeeps` | thread.cpp:91-95 | The loop that empties a wait queue keeps the ring invariant. |
| `Scheduler.ExpireKeeps` | thread.cpp:866-877 | So does the loop of the timer interrupt. |
| `Scheduler.StepKeepsQueues` | thread.cpp:40-298 | Every kernel call and every timer interrupt keeps the ring invariant. |
| `Scheduler.RunKeepsQueues` | thread.cpp:40-298 | So does every interleaving of them. |
| `Scheduler.InitialQueues` | thread.cpp:563-580 | It holds at boot. |
| `Scheduler.WakingMovesToReady` | thread.cpp:124-127 | Waking a thread, by unlock, signal or timer, takes it off both its rings and puts it once on the ready queue. |
| `SchedulerLocks.WakeAllEffect` | thread.cpp:91-95 | Releasing a rw-mutex makes every thread on its queue runnable, each at its own continuation. |
| `SchedulerLocks.ExpireEffect` | thread.cpp:866-877 | The timer changes the continuation of threads with a pending timeout only, and no lock. |
| `SchedulerLocks.LockKeeps` | thread.cpp:40-49 | Locking, whether it succeeds or queues, keeps: at most one owner, locked exactly when owned, waiters only while locked. |
| `SchedulerLocks.FreeKeeps` | thread.cpp:122-123 | So does releasing a mutex nobody waits for. |
| `SchedulerLocks.HandOverKeeps` | thread.cpp:124-129 | So does handing it to the head waiter without ever freeing it. |
| `SchedulerLocks.ReadQueueKeeps` | thread.cpp:56-58 | A reader that queues (again) keeps the rw-mutex invariant: whoever waits has someone to wake it. |
| `SchedulerLocks.ReadTakeKeeps` | thread.cpp:60-60 | A reader enters only when no writer holds or is counted. |
| `SchedulerLocks.WriteJoinKeeps` | thread.cpp:71-75 | A writer that finds the lock busy is counted before it queues. |
| `SchedulerLocks.WriteRejoinKeeps` | thread.cpp:74-76 | A woken writer that finds it busy again stays counted. |
| `SchedulerLocks.WriteTakeKeeps` | thread.cpp:78-80 | A writer takes a lock that is neither held nor read. |
| `SchedulerLocks.WriteWokenTakeKeeps` | thread.cpp:78-80 | A woken writer is uncounted in the step that takes the lock. |
| `SchedulerLocks.ReadGiveKeeps` | thread.cpp:90-96 | A leaving reader wakes everyone and keeps the invariant. |
| `SchedulerLocks.WriteGiveKeeps` | thread.cpp:106-112 | So does a leaving writer. |
| `SchedulerSafety.StepKeepsInv` | thread.cpp:40-298 | Every step keeps ring and lock invariants together. |
| `SchedulerSafety.RunKeepsInv` | thread.cpp:40-298 | So does every run. |
| `SchedulerSafety.SpoiledExactlyWhen` | thread.cpp:134-167 | One step makes a mutex one whose lock was cleared under its owner exactly when it is the late resumption of a timed attempt that finds the mutex locked; under owner-only unlocking no other step does. |
| `SchedulerSafety.LateResumeBreaks` | thread.cpp:157-159 | That step does break mutual exclusion: the mutex has an owner and is not locked, and the next mutex_lock makes the caller a second owner. |
| `SchedulerSafety.UnspoiledIsExclusive` | thread.cpp:40-49 | Every other mutex, used by timed calls or not: at most one owner, locked exactly when there is one, waiters only while locked, and a thread whose timed attempt was granted in time owns it. |
| `SchedulerSafety.MutualExclusionExactlyWhen` | thread.cpp:40-167 | For every run from boot and every mutex, this holds in every state of the run if and only if no timed attempt of the run resumes late while the mutex is locked. |
| `SchedulerSafety.AlwaysMeansEveryState` | thread.cpp:40-167 | "Every state of the run" are the states after each of its prefixes. |
| `SchedulerSafety.ReaderWriterExclusion` | thread.cpp:51-115 | In every state reachable from boot: never two writers, never writer and readers, _readers is the number of readers, _writerq counts exactly the writers that found it busy and have not acquired, and a non-empty queue implies a holder or a counted writer on the ready queue (no lost wake-up). |
| `SchedulerSafety.FirstComeFirstServed` | thread.cpp:737-749 | A thread joins a queue behind exactly those of at least its priority, so equals are served in order of arrival. |
| `SchedulerOwnership.OthersLeaveItsMutex` | thread.cpp:40-298 | Whatever step another thread or the timer makes, a thread blocked in mutex_lock or condvar_wait still waits for the mutex or has become its owner. |
| `SchedulerOwnership.WaiterReturnsAsOwner` | thread.cpp:40-49 | Over every run up to the point where that thread runs again, it keeps waiting for or owning the mutex, and when it runs it owns it: mutex_lock and condvar_wait return with the caller as the owner. |
| `SchedulerOwnership.CondvarWaitOutcome` | thread.cpp:177-197 | condvar_wait returns at once with the caller still the owner when nobody waits for the mutex, and otherwise leaves the caller waiting for the mutex. |
| `SchedulerOwnership.SignalsMissCondvarWait` | thread.cpp:177-267 | A thread inside condvar_wait is on no condition variable, so signal and broadcast leave it waiting; include/thread.h:452-460 says otherwise. |
| `SchedulerOwnership.TimedLockMakesTwoOwners` | thread.cpp:134-167 | A run from boot in which a timed attempt gives up, clears the flag of a mutex that is held, and then locks it: two owners. |
| `SchedulerOutcomes.LockOutcome` | thread.cpp:40-49 | mutex_lock takes a free mutex and returns at once with nobody moved; for a locked one the caller waits for it behind all of at least its priority, and a thread of the highest ready priority runs. |
| `SchedulerOutcomes.HandOff` | thread.cpp:117-132 | Unlocking a mutex with waiters makes the first waiter the owner at once and ready, on and off exactly its queues; no waiter has a higher priority, the others stay in order, and a thread of the highest ready priority runs. |
| `SchedulerOutcomes.CondvarWaitTakesTurns` | thread.cpp:177-197 | condvar_wait makes the first waiter of the mutex its owner and puts the caller behind the others; with no waiter, or when a late attempt has unlocked the mutex, it takes it and returns at once. |
| `SchedulerOutcomes.SignalWakesTheFirst` | thread.cpp:239-252 | A signal takes the first waiter off the condition variable and the sleep queue and makes it ready outside any call; no waiter had a higher priority, the others stay in order, nobody else moves, and a thread of the highest ready priority runs. |
| `SchedulerOutcomes.BroadcastWakesAll` | thread.cpp:254-267 | A broadcast leaves nobody on the condition variable; exactly those who waited are ready, outside any call, and a thread of the highest ready priority runs. |
| `SchedulerOutcomes.MutexlessWaitBlocks` | thread.cpp:271-283 | condvar_mutexless_wait puts the caller on the condition variable, behind all of at least its priority. |
| `SchedulerOutcomes.ReadLockOutcome` | thread.cpp:51-63 | rwmutex_readlock, called or resumed, lets the caller in at once beside all earlier readers exactly when no writer holds the lock and none waits for it; otherwise the caller waits in order of priority and no lock changes. |
| `SchedulerOutcomes.ReadersShare` | thread.cpp:56-60 | In every state reachable from boot: while no writer holds or waits, a reader gets in at once, one more than before, and the earlier ones stay in. |
| `SchedulerOutcomes.WriteLockOutcome` | thread.cpp:65-83 | rwmutex_writelock lets the caller in at once exactly when no writer and no reader holds the lock; otherwise it is counted and waits. |
| `SchedulerOutcomes.WriteResumeOutcome` | thread.cpp:74-80 | A woken writer gets in, and is no longer counted, exactly when nobody holds the lock; otherwise it queues again. |
| `SchedulerOutcomes.ReadUnlockOutcome` | thread.cpp:85-99 | A leaving reader, the last one or not, gives back one hold and makes everyone who waits for the lock ready to try again; nobody else moves. |
| `SchedulerOutcomes.WriteUnlockOutcome` | thread.cpp:101-115 | So does a leaving writer, which frees the lock. |
| `SchedulerOutcomes.YieldTakesTurns` | thread.cpp:419-426 | thread_yield puts the caller behind everyone of at least its priority and runs the first ready thread. |
| `SchedulerOutcomes.StartOutcome` | thread.cpp:399-410 | A started thread is ready with its priority, nobody else moves, and a thread of the highest ready priority runs. |
| `SchedulerOutcomes.ExitOutcome` | thread.cpp:707-721 | A thread that ends is on no queue, the others stand as before, and a thread of the highest ready priority runs or the kernel stops because none is ready. |
| `SchedulerTimer.ExpiresPrefix` | thread.cpp:866-877 | The timer loop takes the longest due prefix of the sleep queue, in timeout order. |
| `SchedulerTimer.DueSplits` | thread.cpp:869-871 | On a sorted sleep queue that prefix is everything due. |
| `SchedulerTimer.TimerWakesExactlyTheDue` | thread.cpp:859-877 | Exactly the threads whose timeout is at or before now leave the sleep queue, are marked as timed out and become ready. |
| `SchedulerDeadlines.SleepOutcome` | thread.cpp:430-472 | A sleep puts the caller on the sleep queue with the time given as its timeout, and on no other queue; no other timeout changes. |
| `SchedulerDeadlines.TimedLockOutcome` | thread.cpp:134-167 | A timed attempt takes a free mutex at once, fails at once and changes nothing when its time is 0 or over, and otherwise waits on the mutex and on the sleep queue with that timeout, not marked as late. |
| `SchedulerDeadlines.TimedWaitOutcome` | thread.cpp:199-217 | A timed condition wait gives up the mutex as unlock does; then it fails at once when its time is over, and otherwise waits on the condition variable and on the sleep queue with that timeout. |
| `SchedulerDeadlines.TimerOutcome` | thread.cpp:859-910 | The timer makes exactly the sleeping threads ready whose timeout is at or before now, marks them as late, and moves nobody else, whether or not the quantum is over; if it is not, the current thread runs on, and if it is, one of the highest ready priority does. |
| `SchedulerDeadlines.TimingStep` | thread.cpp:40-298 | Whatever step another thread makes, a thread that waits with a timeout goes on waiting with it or gets what it waits for; the first timer interrupt at or after its timeout makes it ready and late, and an earlier one does not. |
| `SchedulerDeadlines.SleepsUntilDue` | thread.cpp:430-472 | Over every run: a thread that sleeps until a time is asleep and not ready in every state up to the first timer interrupt at or after that time, which makes it ready. |
| `SchedulerDeadlines.TimedLockWaitsUntilDue` | thread.cpp:134-159 | The same of the deadline of a timed attempt, unless an unlock makes it the owner before. |
| `SchedulerDeadlines.TimedWaitWaitsUntilDue` | thread.cpp:199-225 | The same of the deadline of a timed condition wait, unless it is signalled before. |
| `SchedulerFairness.EnqueuedBehind` | thread.cpp:689-693 | A thread of no higher priority joins the ready queue behind every thread of the same class. |
| `SchedulerFairness.SuspendInLine` | thread.cpp:723-735 | When the running thread gives up the processor, everyone behind it moves up one place and nobody gets in front. |
| `SchedulerFairness.WakeAllInLine` | thread.cpp:254-267 | Waking a whole queue of no higher priority overtakes nobody. |
| `SchedulerFairness.ExpireInLine` | thread.cpp:866-877 | Nor does the timer. |
| `SchedulerTurns.Priorities` | thread.cpp:399-410 | No kernel call changes a priority except that of the thread it starts. |
| `SchedulerTurns.StepInLine` | thread.cpp:695-735 | Under every kernel call a ready thread of the highest class keeps its place, and a yield or expired quantum brings it one place forward, unless a higher one becomes ready. |
| `SchedulerTurns.RunsWithinItsTurns` | thread.cpp:515-526 | A thread in k-th place behind the running one in the top class runs after at most k yields or expired quanta, whatever wake-ups and calls happen between. |
| `SchedulerTurns.RunsMeansSomeStateRunsIt` | thread.cpp:515-521 | "Runs" means that it is the current thread after some prefix of the run. |
| `Kernel.Kernel.constructor` | thread.cpp:563-580 | The linked queues with every node initialised and the first thread inserted hold the boot state, in which all queue invariants hold. |
| `Kernel.Kernel.Reschedule` | thread.cpp:689-693 | The two queue operations are one move to the ready queue. |
| `Kernel.Kernel.Wake` | thread.cpp:124-127 | The three calls that wake a thread are one move to the ready queue, at the continuation of a woken thread. |
| `Scheduler.ResumeNextRunsHighest` | thread.cpp:515-529 | The thread resumed has the highest priority of all runnable threads; the kernel halts exactly when no thread is runnable. |
| `Kernel.Kernel.SwitchToNextThread` | thread.cpp:723-731 | The current thread goes behind its equals. |
| `Scheduler.YieldRunsHighest` | thread.cpp:695-705 | After it the running thread is one of the highest priority, and the kernel never halts in it. |
| `Kernel.Kernel.SuspendOnWaitQueue` | thread.cpp:737-751 | The current thread moves to the given queue and the next one runs. |
| `Kernel.Kernel.SuspendOnSleepQueue` | thread.cpp:757-765 | The current thread joins the sleep queue and the next one runs. |
| `Kernel.Kernel.MutexLock` | thread.cpp:40-49 | In-place form of the lock step, whose effect SchedulerOutcomes.LockOutcome states. |
| `Kernel.Kernel.MutexUnlock` | thread.cpp:117-132 | In-place form of the unlock step, with hand-over (SchedulerOutcomes.HandOff, UnlockFrees). |
| `Kernel.Kernel.CondvarWait` | thread.cpp:177-197 | In-place form of the condition wait (SchedulerOutcomes.CondvarWaitTakesTurns). |
| `Kernel.Kernel.CondvarSignal` | thread.cpp:239-252 | In-place form of signal: the first waiter leaves the condition variable and is ready, outside any call. |
| `Kernel.Kernel.WakeAll` | thread.cpp:259-263 | The loop over the linked queue terminates and is the fold of single wake-ups. |
| `Kernel.Kernel.CondvarBroadcast` | thread.cpp:254-267 | In-place form of broadcast (SchedulerOutcomes.BroadcastWakesAll). |
| `Kernel.Kernel.CondvarMutexlessWait` | thread.cpp:271-283 | In-place form of the mutexless wait. |
| `Kernel.Kernel.ReadLock` | thread.cpp:51-63 | In-place form of read locking, also on resumption: the caller runs on as one more reader when no writer holds the lock or is counted, and otherwise is on its queue. |
| `Kernel.Kernel.WriteLock` | thread.cpp:65-83 | In-place form of write locking (SchedulerOutcomes.WriteLockOutcome). |
| `Kernel.Kernel.ReadUnlock` | thread.cpp:85-99 | In-place form of read unlocking (SchedulerOutcomes.ReadUnlockOutcome). |
| `Kernel.Kernel.WriteUnlock` | thread.cpp:101-115 | In-place form of write unlocking (SchedulerOutcomes.WriteUnlockOutcome). |
| `Kernel.Kernel.TimedLock` | thread.cpp:134-167 | In-place form of the timed lock up to its suspension; it acquires at once exactly when the mutex is not locked. |
| `Kernel.Kernel.TimedWait` | thread.cpp:199-225 | In-place form of the timed condition wait: the mutex is handed over or freed, and the caller queues and sleeps, or returns at once with the mutex released when the time is already over. |
| `Kernel.Kernel.Sleep` | thread.cpp:430-472 | In-place form of both sleep calls: the caller is on the sleep queue with the time given as its timeout, and no other timeout changes. |
| `Kernel.Kernel.TimerElapsed` | thread.cpp:859-910 | The loop over the sleep queue terminates and is the fold of single time-outs, followed by a switch when the quantum is over. |
| `Kernel.Kernel.ThreadStart` | thread.cpp:399-410 | In-place form of thread start (SchedulerOutcomes.StartOutcome). |
| `Scheduler.ExitLeavesNoTrace` | thread.cpp:712-717 | A thread that ends is on no queue and is gone, every other thread and queue is as it was, and the highest runnable thread runs. |
| `Kernel.Kernel.Resume` | thread.cpp:56-82 | What a resumed reader, writer or timed attempt does before interrupts are enabled again. |
| `DiskCache.Find` | disk.cpp:142-151 | The bucket probe returns a block that caches the sector, and nothing exactly when the bucket has none. |
| `DiskCache.Victim` | disk.cpp:194-212 | The LRU probe returns a block nobody holds, and nothing exactly when all are held. |
| `DiskCacheInvariant.FrontKeepsRings` | disk.cpp:157-173 | The two splices keep the LRU ring a permutation of all blocks and every bucketed block in the bucket of its sector, even when the block changes sector. |
| `DiskCacheInvariant.FrontKeepsRecency` | disk.cpp:166-173 | The LRU ring stays in order of last acquisition. |
| `DiskCacheInvariant.FindIsLive` | disk.cpp:138-151 | A probe finds the one live block of a sector wherever it is, since it looks in the right bucket. |
| `DiskCacheInvariant.AcquireKeepsExactlyWhen` | disk.cpp:122-266 | An acquire (hit, miss, failed read, all held) keeps the cache invariant exactly when it is not a failed read into a block that still waits to be written back; then the release at line 252 writes through the disk set to NULL at line 249. The error branch of a hit is never taken when calls do not overlap. |
| `DiskCacheInvariant.FlushKeeps` | disk.cpp:268-289 | So does a write-back, whether it works or not. |
| `DiskCacheInvariant.ReleaseKeeps` | disk.cpp:291-323 | So does a release by a holder. |
| `DiskCacheInvariant.ModifyKeeps` | drivers/filesystem/fat.cpp:985-996 | So does a change of the contents by a holder. |
| `DiskCacheInvariant.SetUpValid` | disk.cpp:500-545 | It holds after setup_disk, whatever the undefined fields hold. |
| `DiskCacheContents.TakeOverKeepsContentsExactlyWhen` | disk.cpp:214-258 | Taking a block over changes no sector as its users see it exactly when the block holds nothing the device lacks. |
| `DiskCacheContents.AcquireKeepsContentsExactlyWhen` | disk.cpp:122-266 | Unless it writes to NULL, an acquire loses nothing exactly on a hit, when all blocks are held, or when the victim holds nothing the device lacks. |
| `DiskCacheContents.AcquireReturnsContents` | disk.cpp:122-266 | A successful acquire returns a held block with the contents of the sector. |
| `DiskCacheContents.FlushKeepsContents` | disk.cpp:268-289 | A write-back changes no contents. |
| `DiskCacheContents.ReleaseKeepsContents` | disk.cpp:291-323 | Nor does a release. |
| `DiskCacheContents.ModifyChangesOneSector` | drivers/filesystem/fat.cpp:985-996 | A holder changes exactly the sector it holds. |
| `DiskCacheRuns.VictimIsLeastRecentlyAcquired` | disk.cpp:194-214 | A miss reuses the least recently acquired block nobody holds, never a held one, and waits exactly when all are held. |
| `DiskCacheRuns.RunKeepsExactlyWhen` | disk.cpp:122-323 | Every run of legal calls, whatever transfers fail, keeps the invariant (ring permutation and recency, bucket membership, no sector twice, reference counts equal to outstanding acquires) exactly until a read fails into a block that still waits to be written back. |
| `DiskCacheRuns.StepIsTransparent` | disk.cpp:122-323 | With successful write-backs every call acts on the contents as one read or write of a plain map. |
| `DiskCacheRuns.CacheIsTransparent` | disk.cpp:122-323 | So does every run, across any number of hits, evictions and re-reads. |
| `DiskCacheRuns.AcquireReturnsWhatWasLeft` | disk.cpp:122-323 | From boot, every successful acquire returns what was last left in the sector by anyone, or what the device held at boot. |
| `DiskCacheLoss.UntilReused` | disk.cpp:194-214 | From any valid state, acquiring one new sector after another makes a given idle block the next victim, whatever the number of blocks. |
| `DiskCacheLoss.FailedWriteBackLosesContents` | disk.cpp:291-307 | A legal run from boot with one failed write-back, after which the cache shows what the device held and not what its users left. |
| `DiskCacheLoss.FailedReadCrashes` | disk.cpp:247-254 | A legal run from boot that ends in a write through a NULL disk. |
| `DiskCacheOutcomes.HitOutcome` | disk.cpp:153-192 | A sector that some block holds is found there, whatever the device would do: the caller holds that block once more and nothing else changes. |
| `DiskCacheOutcomes.WaitOutcome` | disk.cpp:260-260 | The caller has to wait when all blocks are held and none holds the sector. |
| `DiskCacheOutcomes.MissOutcome` | disk.cpp:194-258 | Otherwise the least recently acquired block nobody holds is read into: the caller then holds it with the contents of the device, or after a failed read nobody does and it cannot be found. |
| `DiskCacheOutcomes.ReleaseOutcome` | disk.cpp:291-323 | A release takes one hold back; the device is written exactly when it was the last one, the block was changed and the write works, with the contents of the block at its sector. |
| `DiskCacheOutcomes.ModifyOutcome` | drivers/filesystem/fat.cpp:985-996 | A change by a holder is seen by all users at once and stays in the block: the device, the holders and the order of reuse are as before. |
| `DiskCacheOutcomes.BucketsByPosition` | disk.cpp:137-140 | From boot, over every run, a block that can be found stands in the bucket of its position modulo 5059 and in no other. |
| `DiskCacheModule.DiskModule.constructor` | disk.cpp:500-545 | The set-up loops link the headers and blocks so that the rings hold the boot state. |
| `DiskCacheModule.DiskModule.Probe` | disk.cpp:142-151 | The walk along the NEXT links of a bucket is the bucket probe. |
| `DiskCacheModule.DiskModule.ProbeLru` | disk.cpp:194-212 | The walk along the PREV links of the LRU ring is the LRU probe. |
| `DiskCacheModule.DiskModule.SpliceBuckets` | disk.cpp:157-164 | The six link writes take the block out of its bucket and put it at the front of the given one; all other buckets and links hold what they held. |
| `DiskCacheModule.DiskModule.SpliceLru` | disk.cpp:166-173 | The same on the LRU ring. |
| `DiskCacheModule.DiskModule.MoveToFront` | disk.cpp:157-173 | The two splices together. |
| `DiskCacheModule.DiskModule.TakeHit` | disk.cpp:153-192 | The hit branch. |
| `DiskCacheModule.DiskModule.TakeOver` | disk.cpp:214-258 | The miss branch, with a read that works or fails. |
| `DiskCacheModule.DiskModule.AcquireBlock` | disk.cpp:122-266 | In-place form of acquire: it computes the step and keeps links and invariant, unless it writes through a NULL disk. |
| `HeapArena.RoundUp` | heap.cpp:31-32 | The size rounded up to a whole number of words. |
| `HeapArena.Fit` | heap.cpp:57-68 | The first block that is large enough, none exactly when none is. |
| `HeapArena.Place` | heap.cpp:173-177 | The place behind the last smaller block. |
| `HeapInvariant.NoBlockInside` | heap.cpp:70-112 | No block starts inside another. |
| `HeapInvariant.SplitTiles` | heap.cpp:70-112 | Splitting keeps the blocks a tiling of the arena without gap or overlap. |
| `HeapInvariant.ExtendTiles` | heap.cpp:117-146 | So does extending. |
| `HeapInvariant.MergeTiles` | heap.cpp:219-255 | So does merging. |
| `HeapInvariant.DetachKeepsList` | heap.cpp:148-166 | Detaching removes exactly that block from the free list; lf stays NULL or the last block. |
| `HeapInvariant.FreedKeepsList` | heap.cpp:168-197 | Freeing adds exactly that block. |
| `HeapSafety.MallocKeeps` | heap.cpp:199-217 | A successful allocation hands out a block that was not in use, large enough, and disturbs no block in use; a failed one changes nothing. |
| `HeapSafety.FreeReleasesExactlyWhen` | heap.cpp:257-275 | Freeing releases the block exactly unless its left neighbour is free and its right one is not, and disturbs no other block in use. |
| `HeapSafety.FreeLeaksExactlyWhen` | heap.cpp:257-275 | In exactly that case the block is then in use and held by nobody. |
| `HeapSafety.LeakedForEver` | heap.cpp:257-298 | Such a block stays so over every later run: it is never handed out again and never freed. |
| `HeapSafety.PayloadsDisjoint` | heap.cpp:219-298 | Data of blocks in use are 4-aligned, inside the arena and pairwise disjoint, headers included. |
| `HeapSafety.RunKeeps` | heap.cpp:257-298 | Every run of malloc, free and writes by the holders keeps tiling, free list and what users hold. |
| `HeapSafety.HeldDataIsDisjoint` | heap.cpp:257-298 | In every state reachable from heap_init the payloads handed out and not given back are at least as large as asked for, aligned, inside the arena and disjoint. |
| `HeapSafety.FirstFitIsBestFit` | heap.cpp:57-68 | On a free list in order of size find_block returns a smallest adequate block, as its comment says. |
| `HeapSafety.InsertKeepsBySizeExactlyWhen` | heap.cpp:168-197 | mark_as_free keeps the list in order of size exactly when lf was known, the list was empty, or the block is no larger than the first. |
| `HeapOutcomes.MallocFromList` | heap.cpp:199-217 | With a free block that is large enough malloc takes the first such one of the list; it cuts it, so that exactly the requested whole words are handed out and the rest is a free block behind them, when 512 bytes or more would be left over, and hands it out whole otherwise. |
| `HeapOutcomes.MallocAtTheEnd` | heap.cpp:117-146 | Without one the arena is extended by just the requested whole words and a header; malloc fails exactly when that does not fit. |
| `HeapOutcomes.FreeOutcome` | heap.cpp:257-275 | Free lists the block when its left neighbour is in use; joins it to the left neighbour, and not to the right one, when both are free; and changes only the order of the free list when the left one alone is. |
| `HeapOutcomes.TailKnownExactlyWhen` | heap.cpp:148-166 | lf becomes NULL exactly when the only free block is taken off the list, and points to the last block again exactly when the last of several is. |
| `HeapLoss.LeakingRun` | heap.cpp:257-275 | From an empty heap: three allocations, free the first, free the second; the second is leaked. |
| `HeapLoss.UnsortingRun` | heap.cpp:168-197 | From an empty heap: three allocations, free the small first, free the large third; the list is out of order and the first fit for 8 bytes is the block of 16. |
| `HeapWrites.DataIsApart` | include/heap.h:10-44 | No word of the data of a block is a field of the header of another block, and of its own header only the free links are. |
| `HeapBlocks.RawSize` | heap.cpp:6-7 | The size word is the size plus the used flag, for every block. |
| `HeapBlocks.SplitPhysical` | heap.cpp:70-112 | The header writes of split keep headers in step with the tiling: next and prev inverse, f and l the ends, each block ending where the next begins. |
| `HeapBlocks.MergePhysical` | heap.cpp:219-255 | So do those of merge. |
| `HeapBlocks.ExtendPhysical` | heap.cpp:117-146 | So do those of extend_heap. |
| `HeapLinks.UnlinkFree` | heap.cpp:148-166 | The writes of detach keep the free list doubly linked. |
| `HeapLinks.LinkFree` | heap.cpp:179-196 | So do those of mark_as_free, and neither touches sizes or physical links although the links overlay data. |
| `HeapModule.Heap.constructor` | heap.cpp:17-22 | The empty heap. |
| `HeapModule.Heap.FindBlock` | heap.cpp:57-68 | The loop is the first fit. |
| `HeapModule.Heap.Detach` | heap.cpp:148-166 | In-place form of detach. |
| `HeapModule.Heap.ScanBack` | heap.cpp:173-177 | The loop back from lf ends in front of the place of the block. |
| `HeapModule.Heap.MarkAsFree` | heap.cpp:168-197 | In-place form of mark_as_free, with the write through a NULL first block guarded. |
| `HeapModule.Heap.SplitBlock` | heap.cpp:70-112 | In-place form of split. |
| `HeapModule.Heap.Sbrk` | heap.cpp:24-43 | The arena grows by the rounded size, or not at all when it does not fit. |
| `HeapModule.Heap.ExtendHeap` | heap.cpp:117-146 | In-place form of extend_heap. |
| `HeapModule.Heap.GetBlock` | heap.cpp:199-217 | In-place form of get_block. |
| `HeapModule.Heap.HeapMalloc` | heap.cpp:279-298 | heap_malloc keeps the whole representation and returns the data address of the block the specification hands out, aligned, or NULL. |
| `HeapModule.Heap.Merge` | heap.cpp:219-255 | merge over one or two blocks, with the used flag inside the raw sums. |
| `HeapModule.Heap.HeapFree` | heap.cpp:257-275 | heap_free keeps the whole representation and is the specified release. |
| `HeapModule.Heap.WriteWord` | heap.cpp:50-55 | A write by the holder anywhere in its data, which overlays free links and old headers, leaves the whole representation intact. |
| `HeapModule.Heap.Perform` | heap.cpp:257-298 | Any run of allocations, frees and writes on the headers in memory goes through the states of the specified run, over which what is held is disjoint. |
| `RationalArithmetic.GcdScales` | chrono.cpp:28-35 | A common factor of both arguments is a factor of the result of the loop. |
| `RationalArithmetic.LowestTermsHasNoCommonFactor` | chrono.cpp:26-41 | A fraction whose parts have greatest common divisor 1 cannot be cancelled. |
| `RationalArithmetic.Make` | chrono.cpp:26-41 | The result is in lowest terms, of equal value and no larger. |
| `RationalArithmetic.MakeRational` | chrono.cpp:26-41 | The loop computes it. |
| `RationalArithmetic.InvertedFraction` | chrono.cpp:82-84 | The argument of the recursive call has a positive and strictly smaller denominator: the search terminates. |
| `RationalArithmetic.InvertedOrder` | chrono.cpp:82-84 | The recursive call gets its arguments in order. |
| `RationalSimplest.IntegerCase` | chrono.cpp:76-77 | When the lower end is whole it is the simplest. |
| `RationalSimplest.NextIntegerCase` | chrono.cpp:79-80 | When the ends have different whole parts the next whole number is. |
| `RationalSimplest.RecursiveCase` | chrono.cpp:82-84 | Otherwise the simplest of the inverted fractional interval gives it. |
| `RationalSimplest.Rationalize2IsSimplest` | chrono.cpp:72-85 | For every interval the result lies in it, is in lowest terms, and no fraction of the interval has a smaller numerator or denominator. |
| `RationalTolerance.LowestTermsIsSmallest` | chrono.cpp:26-41 | Of all equal fractions the one in lowest terms is smallest in both parts. |
| `RationalTolerance.RationalizeIsSimplest` | chrono.cpp:87-103 | For any two arguments the result is the simplest number between their difference and their sum. |
| `RationalTolerance.RationalizeMeetsR5RSExactlyWhen` | chrono.cpp:87-103 | It is the rationalize of section 6.2.5 of R5RS exactly when the tolerance does not exceed the number. |
| `RationalTolerance.LargeTolerance` | chrono.cpp:87-103 | For 1/2 and the tolerance 2 the result is 2, where the standard asks for 0. |
| `Calendar.DaysFromCivilWraps` | chrono.cpp:396-403 | With its 16- and 32-bit variables the routine computes the true day count modulo 2^32. |
| `Calendar.FirstYearWraps` | chrono.cpp:397-397 | Except that January and February of -32768 are taken for those of 32768. |
| `Calendar.CivilDaysRise` | chrono.cpp:396-403 | The true count rises by one from each Gregorian date to the next, in every year. |
| `Calendar.DaysFromCivilIsRightExactlyWhen` | chrono.cpp:396-403 | For every date whose year fits 16 bits the routine is right modulo 2^32 exactly when the year that begins in March fits too, which the decrement at line 397 decides. |
| `Calendar.DaysFromCivilRisesExactlyWhen` | chrono.cpp:396-403 | So it rises by one from a date to the next exactly when both March years fit or neither does. |
| `Calendar.FirstYearJumps` | chrono.cpp:397-397 | The date at which it does not: 29 February of -32768. |
| `Calendar.EpochIsZero` | chrono.cpp:402-402 | The count is 0 on 1 January 1970. |
| `Calendar.ChipYears` | chrono.cpp:305-305 | The clock chip shows each year from 1951 to 2050 and no other. |
| `Calendar.BootDaysAreOneAhead` | chrono.cpp:305-325 | The formula used at boot, counting back from the next January, is the civil count plus one day for every date, leap days and centuries included. |
| `Calendar.BootClockIsOneDayFastExactlyWhen` | chrono.cpp:305-325 | For every date the clock chip can show, the seconds stored (an int32, line 151) are the true ones plus a day if and only if that sum is below 2^31; modulo 2^32 they always are. |
| `Calendar.BootClockOverflows` | chrono.cpp:317-323 | The first chip date at which they are not: 2038-01-18 03:14:08 is stored as -2^31. |
| `BitmapWords.LeftMaskBits` | video.cpp:362-362 | The left mask covers exactly the pixels from x on. |
| `BitmapWords.RightMaskBits` | video.cpp:371-371 | The right mask covers exactly the pixels before x_end. |
| `BitmapWords.CombineBitsBit` | video.cpp:98-98 | COMBINE_BITS, pixel by pixel. |
| `BitmapWords.CombineFgBgBit` | video.cpp:101-104 | The foreground/background combinations, pixel by pixel. |
| `BitmapWords.RealignedBit` | video.cpp:363-374 | A bit of the shifted quad word is a bit of one of its two halves, for all fifteen shifts. |
| `BitmapRows.Realignment` | video.cpp:332-335 | The shift computed with subtraction, mask and exclusive or is 8 plus the difference of the two positions in a word. |
| `BitmapRows.WindowMoves` | video.cpp:366-366 | The running quad word keeps holding the last source words. |
| `BitmapRows.RealignedIsSource` | video.cpp:363-374 | A bit of the shifted quad word is the source pixel that belongs there, for every source alignment. |
| `BitmapRows.WrittenWord` | video.cpp:363-374 | Each of the three ways to write a word writes the right pixels and keeps the others. |
| `BitmapLoops.BlitNarrow` | video.cpp:391-397 | A row within one word. |
| `BitmapLoops.BlitWide` | video.cpp:360-374 | A row over several words, with no condition on source and destination: every pixel is what its source pixel was when the loop read it, which is the original except for words overwritten more than one word ahead of their reading; nothing else changes. |
| `BitmapOverlap.RowsInTimeExactlyWhen` | video.cpp:349-382 | For a transfer within one layer the geometric condition holds if and only if no source pixel that is needed is overwritten before the loops read it. |
| `BitmapOverlap.SeenIsRight` | video.cpp:349-382 | Under it every row reads what was there at the start, as far as it is needed, although words around it may have been overwritten. |
| `RawBitmap.SmearedRow` | video.cpp:360-374 | Where it fails: three words moved two words to the right come out as the first, the second and the first again. |
| `BitmapLoops.FillRow` | video.cpp:424-444 | The same for filling. |
| `BitmapRects.SpanFits` | video.cpp:351-355 | The words of a row of the rectangle are inside that row and that layer, for source and destination. |
| `BitmapRects.NextRow` | video.cpp:377-378 | The rows written so far stay right when the next row is written. |
| `BitmapRects.DonePixel` | video.cpp:311-408 | When all rows are written each pixel is what the definition by pixels says. |
| `RawBitmap.SelfTransferInverts` | video.cpp:480-486 | A transfer onto itself with black and white is an inversion of each pixel. |
| `RawBitmap.SamePixelsSameWords` | video.cpp:300-305 | Pixels determine words, so equality by pixels is equality of bitmaps. |
| `BitmapRects.WordOfPattern` | video.cpp:508-511 | The word of a pattern for a row and a layer has the pixels of that row, modulo the height, of that plane, modulo the depth. |
| `BitmapColors.BlackAndWhite` | video.cpp:126-130 | Black sets no pixel of any layer and white all. |
| `BitmapColors.Grays` | video.cpp:127-129 | The grey patterns set one pixel in four, every other one as on a chessboard, and three in four. |
| `BitmapColors.ColorsAreTheirPrimaries` | term.cpp:145-176 | On a screen of four layers the pattern of colour 1 to 7 sets the red layer when bit 0 of the colour is set, green for bit 1, blue for bit 2, and the intensity layer; 0 and all other numbers are black. |
| `RawBitmap.RawBitmap.BitBlt` | video.cpp:311-408 | Every pixel of the rectangle shows the foreground pattern where its source pixel is set and the background pattern elsewhere; no other pixel of any layer changes; an empty rectangle changes nothing. |
| `RawBitmap.RawBitmap.FillRect` | video.cpp:410-466 | Every pixel of the rectangle shows the pattern; no other changes. |
| `RawBitmap.RawBitmap.InvertRect` | video.cpp:480-486 | Exactly the pixels of the rectangle are inverted. |
| `RawBitmap.RawBitmap.InvertTwice` | video.cpp:480-486 | Inverting a rectangle twice is the identity. |
| `RawBitmap.RawBitmap.FillWithColor` | term.cpp:417-426 | Filling with the pattern of a colour, on a screen of four layers: every pixel of the rectangle shows exactly the red, green and blue that make up the colour, and no other pixel changes. |
| `TerminalMachine.StepKeeps` | term.cpp:249-450 | One character keeps the cursor on the grid, the parameter index in -2..9 and every parameter read at most 9999. |
| `TerminalMachine.WrittenKeeps` | term.cpp:200-514 | So does every text. |
| `TerminalMachine.WrittenInParts` | term.cpp:200-514 | Writing s+u is writing s and then u, even when the split falls inside a control sequence. |
| `TerminalModule.RunIsCharacters` | term.cpp:457-503 | Drawing a run of text at once is drawing its characters one by one. |
| `TerminalModule.ThreeFillsClear` | term.cpp:420-444 | The three filled rectangles of a clearing operation clear exactly the right places. |
| `TerminalModule.ControlIsExecuted` | term.cpp:257-284 | The operation codes of the control characters do what the one-character machine does. |
| `TerminalModule.FinalIsExecuted` | term.cpp:309-373 | So do those of the final characters of control sequences. |
| `TerminalModule.Terminal.constructor` | term.cpp:36-62 | The empty screen with the cursor at home, whatever the parameters hold. |
| `TerminalModule.Terminal.Move` | term.cpp:380-405 | Cursor movement kept on the grid. |
| `TerminalModule.Terminal.ClearCells` | term.cpp:406-444 | In-place form of clearing. |
| `TerminalModule.Terminal.SetAttributes` | term.cpp:350-371 | The loop over the parameters is the fold of single renditions. |
| `TerminalModule.Terminal.InterpretParameter` | term.cpp:295-373 | A character inside a control sequence. |
| `TerminalModule.Terminal.Interpret` | term.cpp:254-450 | One turn of the interpreting loop is one step, or leaves text to be drawn. |
| `TerminalModule.Terminal.Scan` | term.cpp:233-244 | The scan stops at the first special character. |
| `TerminalModule.Terminal.DrawText` | term.cpp:457-503 | The drawing loop, one line at a time with wrapping and scrolling, is the fold of single characters. |
| `TerminalModule.Terminal.Write` | term.cpp:200-514 | term_write takes the whole text, terminates, and is the fold of the one-character machine. |
| `TerminalSequences.TextAppears` | term.cpp:457-493 | Text that ends before the right edge stands from the cursor on in the current attributes, the cursor behind it, and nothing else changes. |
| `TerminalSequences.NewLine` | term.cpp:261-271 | A linefeed goes to the left edge of the next row; on the last row every row moves up by one and the last one is blank. |
| `TerminalSequences.SelectRendition` | term.cpp:349-371 | ESC [ n m sets, resets or colours exactly as the number says, and other numbers do nothing. |
| `TerminalSequences.NumberArrives` | term.cpp:296-301 | A decimal number of up to four digits arrives as itself, and of a longer one the first four digits. |
| `TerminalCursor.SequenceArrives` | term.cpp:289-308 | ESC [ with up to ten numbers, each of which may be left out, and a final character: the numbers arrive, 0 for one left out. |
| `TerminalCursor.CursorMoves` | term.cpp:309-331 | ESC [ n A, B, C, D move the cursor n rows up or down or n columns right or left, one when n is 0 or left out, to the first or last row or column at most; the rest of the screen and the attributes stay. |
| `TerminalCursor.CursorPosition` | term.cpp:332-338 | ESC [ r ; c H (or f) puts the cursor at row r and column c, counted from one; each is 1 when it is 0 or left out, and the last there is when it is larger; nothing else changes. |
| `TerminalCursor.Home` | term.cpp:332-338 | ESC [ H puts the cursor at the top left. |
| `TerminalCursor.ControlCharacters` | term.cpp:258-281 | Backspace goes one column left, but not over the edge, carriage return to the left edge, and a bell does nothing. |
| `TerminalCursor.EscapedCharacter` | term.cpp:287-294 | ESC with any character but [ behind it has no effect. |
| `TerminalCursor.OtherSequences` | term.cpp:302-374 | A sequence with any other final character, or an erasure with a number above 2, has none. |
| `TerminalCursor.LeftOutIsZero` | term.cpp:291-292 | A sequence without a number is the one with 0. |
| `TerminalCursor.RenditionsInTurn` | term.cpp:349-371 | ESC [ n1 ; n2 ; ... m is ESC [ n1 m followed by ESC [ n2 ; ... m. |
| `TerminalFlow.TextFlows` | term.cpp:457-503 | A text of any length without control characters fills the places from the cursor on, line by line, in the current attributes (swapped when reversed); the screen moves up as far as is needed, blank lines follow, and every other place shows what it did. |
| `TerminalFlow.FlowsOneWay` | term.cpp:457-503 | This leaves one possible screen, cursor and movement. |
| `TerminalSequences.EraseAll` | term.cpp:339-343 | ESC [ 2 J clears every place and leaves the cursor. |
| `TerminalSequences.EraseInLine` | term.cpp:344-348 | ESC [ n K clears from the cursor on, up to but without the cursor, or the whole line. |
| `TerminalSequences.EraseInLineIsStandardExactlyWhen` | term.cpp:438-439 | It agrees with EL of section 8.3.41 of ECMA-48 exactly when n is not 1 or nothing stands under the cursor. |
| `TerminalSequences.EraseInDisplay` | term.cpp:339-343 | ESC [ n J clears from the cursor on, up to but without the cursor, or the whole screen. |
| `TerminalSequences.EraseInDisplayIsStandardExactlyWhen` | term.cpp:420-444 | It agrees with ED of section 8.3.39 of ECMA-48 under the same condition. |
| `TerminalSequences.CharacterSurvives` | term.cpp:438-439 | A character at the left edge, CR, and ESC [ 1 K or ESC [ 1 J: the character is still there. |
| `Division.LongDivision` | rtlib.cpp:134-136 | Dividing the high word first and carrying its remainder is long division. |
| `Division.TwoStepsAre` | rtlib.cpp:119-121 | The two processor divisions give the two quotient words and the remainder. |
| `Division.DivisionIsRight` | rtlib.cpp:111-139 | For every 64-bit dividend and every one-word divisor both helpers return the true quotient and remainder, and fault exactly for zero. |
| `InterruptRing.RoomIsFree` | rtlib.cpp:561-565 | Cells not taken by queued frames are found free. |
| `InterruptRing.OldestGuards` | rtlib.cpp:561-565 | A scan that is too long meets the nonzero number of the oldest frame, although parameters may be zero. |
| `InterruptRing.AcceptedExactlyWhen` | rtlib.cpp:546-567 | What the scan lets through: a frame is written exactly when the ring is empty or the 8-bit required length is free. |
| `InterruptRing.AcceptsWhatFitsExactlyWhen` | rtlib.cpp:546-567 | For every number of parameters up to 255, acceptance is the same as fitting exactly when: up to 253, the ring is not empty or the frame no longer than it; beyond, where the length wraps to 0 or 1, the frame fits, or there are 255 and the ring is full. |
| `InterruptRing.WritingQueues` | rtlib.cpp:571-579 | An accepted frame is queued behind the others and overwrites none of them, with wrap-around. |
| `InterruptRing.SendKeepsQueueExactlyWhen` | rtlib.cpp:546-580 | After a call the queued frames, followed by the new one if it was accepted, are what the ring holds between reader and writer exactly when: up to 253 parameters, the ring was not empty or is long enough; 254, the ring is empty and has 256 cells; 255, it is full. |
| `InterruptRing.ZeroesWipe` | rtlib.cpp:546-577 | Where it is not: 254 zeroes wipe every frame from a ring of at most 254 cells, full or not. |
| `InterruptRing.OldestOverwritten` | rtlib.cpp:546-577 | In a longer ring that is full, a frame of 254 parameters overwrites the oldest frame. |
| `InterruptRing.LongFrameOnEmptyRing` | rtlib.cpp:561-577 | On the empty ring of 10 cells a frame of nine parameters is accepted, and its last parameter stands where the consumer looks for a number. |
| `InterruptRing.ZeroingDequeues` | rtlib.cpp:537-545 | A consumer that zeroes whole frames oldest first leaves a ring with the remaining frames. |
| `InterruptSender.Ring.Scan` | rtlib.cpp:561-565 | The scan loop says whether the cells needed are free. |
| `InterruptSender.Ring.WriteFrame` | rtlib.cpp:571-577 | The writes put number, size and parameters in consecutive cells around the ring, for every length: the last byte written to a cell stays. |
| `InterruptSender.Ring.Send` | rtlib.cpp:546-580 | For every number of parameters: whether the frame is written, every cell and the writer index afterwards, and that reader, writer and memory keep holding the queue exactly under the condition above. |
| `InterruptSender.Ring.Receive` | rtlib.cpp:537-545 | The consumer gets the oldest frame intact: delivery is in order of acceptance. |

## Left out

- The stop of list insertion after five steps and its messages (`include/queue.h:81-100`), and MAINTAIN_RIGHTMOST, which is not defined.
- `condvar_mutexless_signal`: the same statements as `condvar_signal`; `thread_join`: composed of calls that are modelled.
- Kernel.Kernel.TimedWait: stops at the suspension; after it the thread is outside the kernel with its mutex released and may make any call, of which the source's second timed lock is one.
- Kernel.Kernel.Resume: assigns the lock flag of a timed attempt in the same step in which its thread resumes; the source does so after interrupts are enabled (`thread.cpp:157-159`), so that another thread may run in between.
- Scheduler.ReadLock and Scheduler.WriteLock count readers and waiting writers without bound; `_readers` and `_writerq` have 16 bits.
- Scheduler.StepKeepsQueues: a mutex call on a rw-mutex or on a condition variable is not among the steps.
- DiskCacheRuns.CacheIsTransparent: takes calls one at a time and disks that do not overlap; the waits inside a call for a read in progress, the block's own rw-mutex and the cache mutex are not modelled.
- DiskCacheInvariant.AcquireKeepsExactlyWhen: says nothing of the state after a write through a NULL disk.
- DiskCacheModule.DiskModule.AcquireBlock: returns to the caller where the source waits for a block to be released and tries again.
- The partition table, the disabled block-cleaning thread, and the file systems above the cache.
- HeapModule.Heap.WriteWord: writes whole words at multiples of four; the bytes of a word are not modelled.
- HeapModule.Heap.HeapMalloc: requires that the arena ends below address 2^31, and sizes do not wrap round.
- RationalArithmetic.Make: numerators and denominators do not wrap round, which the source's 32-bit fields do.
- RawBitmap.RawBitmap.BitBlt: requires widths that are multiples of the word, rectangles inside their bitmaps, and for a transfer within one bitmap that the source is read in time, the condition that BitmapOverlap.RowsInTimeExactlyWhen shows to be exact; coordinates are not negative.
- Fonts, frames, the mouse and the pixels of the cursor; the terminal model counts in places of its grid.
- TerminalModule.Terminal.Write: leaves out the copy to the standard output stream and the showing and hiding of cursor and mouse.
- TerminalCursor.SequenceArrives: takes up to ten numbers of up to four digits; in a longer list the digits behind the tenth semicolon are read into the tenth number.
- InterruptSender.Ring.Receive: the Scheme consumer is not part of this model; it is taken to zero whole frames, oldest first.
- The notification of Gambit after a frame, and its behaviour when the bridge is down.
- `drivers/ide.cpp`, port input and output, timer chips, interrupt tables, stacks, `restore_context` and statistics.
- `GAMBIT_HIGH_PRIO`, which changes the priority of a queued thread and is disabled.
