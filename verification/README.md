# Synchronisation primitives and protocols, verified

A Dafny model of the locks, lists, queues and small concurrent protocols of this repository, with
proofs of what they promise.  `dafny verify dfyconfig.toml` checks all of it.

## How a concurrent program is modelled

Any number of threads take steps in any order.  A critical section is one step; a call that waits on
a condition variable is cut at the wait, and the section after the wake-up, which re-tests the loop
condition, is a step of its own.  A condition variable is the set of threads asleep on it and the set
of threads woken from it that have not run again; a signal wakes any one sleeper, a broadcast all,
and spurious wake-ups may happen at any time except where "Left out" says otherwise.  A step that
would fail an assertion of the code, or touch freed memory, has no result.  A run is a sequence of
states joined by steps that can be taken; results speak of every state of every run.  Histories that
the code does not keep, such as which thread holds a lock how often, follow only the outcome of the
calls and never the fields of the lock.

Beside each state machine stands a class with the fields of the C structure.  Its methods change the
fields in place as the code does, and each ensures that the new state is exactly what the step
function says of the old one; so the results about runs are results about the methods.

## The parts

| files | what they model |
|---|---|
| `RecMutex`, `RecRwLock`, `MonitorRwLock` | the recursive mutex, the recursive reader/writer lock and the bounded reader/writer monitor |
| `ProducerConsumer`, `RingQueues` | the fill-then-drain program and the two ring queues |
| `GlueThread`, `StudentList` | the intrusive doubly linked list with priority insertion, the singly linked list and the student container |
| `CrudProtocol`, `CrudSteps`, `CrudTheorems`, `CrudIterations`, `CrudProgress`, `CrudProgram` | reader, updater, creator and deleter threads over one list of reference-counted students: steps and invariant, its preservation, what every run keeps, what each iteration of each thread achieves, that no thread is ever stuck, and the program on the student objects and the linked list of `StudentList` |
| `CrudManager`, `CrudArbiter`, `CrudObjects` | status bits, counters and lists of the CRUD manager, its read/write arbitration, and both on objects |
| `AssemblyLine`, `AssemblyLineObject`, `LatePush` | the rotating assembly line, the line on arrays, and when a push into a line that ran empty in the middle of a cycle keeps the line's promise |
| `Base` | thread identities, options and sizes of finite sets |

## Where the code falls short

Each of these is stated with the exact condition, not only with an example.

- The CRUD manager can lose a wake-up.  The comment above the last branch of the read request
  (ThreadSafeCruds/CrudMgr.cpp:441-446) says that access is left to a writer, but the release of a writer
  wakes only the readers while any wait; the last of them to re-test sees the pending writer and sleeps
  again, and then nobody is left to wake either (`CrudArbiter.WakeUpLostExactly`, `CrudArbiter.Stranded`).
  With waiters of one kind only, no wake-up is lost (`CrudArbiter.OneKindIsLive`); some run loses one if
  and only if at least three threads may use the node (`CrudArbiter.LossReachableExactly`).
- The recursive reader/writer lock does not notice an unlock by a thread that holds nothing while some
  reader holds it, as its own comment admits (`RecRwLock.StrangerUnlockCaughtExactly`).
- An 8-bit counter of the CRUD manager that wraps reads 0 while its bit is set
  (`CrudManager.EnterExactly`), and permitted entries alone reach the wrap (`CrudManager.WrapReached`).
- The fill-then-drain program leaves threads asleep unless there are as many producers as consumers, or
  one more (`ProducerConsumer.AllFinishExactly`).
- A limit of 0 keeps its kind of thread out of the monitor for ever (`MonitorRwLock.ZeroLimitBarsReaders`,
  `MonitorRwLock.ZeroLimitBarsWriters`), and it can shut out the other kind as well, for ever: a
  session of the other kind hands over to threads that are never admitted
  (`MonitorRwLock.ZeroLimitStrandsWriters`, `MonitorRwLock.ZeroLimitStrandsReaders`,
  `MonitorRwLock.DeadForEver`).  No wake-up is lost in any run if and only if both limits are at least 1
  (`MonitorRwLock.WakefulExactly`).
- A push that finds an assembly line empty in the middle of a cycle keeps the line's promise (every
  item through all workers in order, in push order, no failing assertion) in every continuation if and
  only if the first worker has not worked in this cycle and the wait list is empty
  (`LatePush.LatePushExactly`).  Otherwise the item leaves without the first worker's operation
  (`LatePush.MissingInput`), or overtakes the items that wait (`LatePush.OvertakingInput`), or the
  engine's next insertion fails its assertion (`LatePush.AbortingInput`).

## Model

| member | source | states |
|---|---|---|
| `RecMutex.AssertionsHold` | recursive_mutex/rec_mutex.c:15-91 | In every run of any threads that unlock only what they hold, with newcomers overtaking woken waiters and spurious wake-ups, no assertion of lock or unlock fails. |
| `RecMutex.UnlockCaughtExactly` | recursive_mutex/rec_mutex.c:54-91 | An unlock is caught by an assertion if and only if the caller has no lock call left to undo. |
| `RecMutex.DepthIsHolds` | recursive_mutex/rec_mutex.c:20-52 | `n` is the number of lock calls the owner has still to undo, nobody else has any, and `n` is 0 exactly when there is no owner. |
| `RecMutex.Refines` | recursive_mutex/rec_mutex.c:15-91 | Every step is the abstract owner-and-depth lock or unlock, or a stutter; a call blocks exactly when another thread owns the mutex. |
| `RecMutex.NoLostWakeup` | recursive_mutex/rec_mutex.c:37-52 | A free mutex with a waiter has a waiter already woken, and any woken one that runs next becomes the owner. |
| `RecMutex.UnlockWakesExactly` | recursive_mutex/rec_mutex.c:66-83 | In every run the owner's last unlock wakes one sleeper if there is one, and an inner unlock wakes nobody. |
| `RecMutex.RecursiveMutex.constructor` | recursive_mutex/rec_mutex.c:5-13 | The new mutex is in the initial state of the runs above. |
| `RecMutex.RecursiveMutex.Lock` | recursive_mutex/rec_mutex.c:15-44 | The critical section up to the return or first wait has exactly the effect of the lock step, and returns granted exactly when the caller now owns the mutex. |
| `RecMutex.RecursiveMutex.ResumeLock` | recursive_mutex/rec_mutex.c:42-52 | The section after a wake-up does the same for the re-test. |
| `RecMutex.RecursiveMutex.Release` | recursive_mutex/rec_mutex.c:54-83 | The owner's unlock has exactly the effect of the unlock step, with some sleeper signalled when there is one. |
| `RecRwLock.AssertionsHold` | rw_locks/rw_locks.c:16-206 | No assertion of the three calls fails in any run whose clients unlock only what they hold. |
| `RecRwLock.Exclusion` | rw_locks/rw_locks.c:21-44 | Read and write holds never coexist, all write holds are the writer thread's, and `n_locks` is the sum of all holds. |
| `RecRwLock.Refines` | rw_locks/rw_locks.c:143-206 | A call returns exactly when the abstract lock (a hold count per thread) admits it and blocks otherwise; an unlock returns and removes one hold of its caller; no other step changes a hold. |
| `RecRwLock.NoLostWakeup` | rw_locks/rw_locks.c:67-141 | No reader sleeps unless a writer holds the lock, nobody sleeps while the lock is free, whoever runs next in a free lock gets in, and the waiting counters are asleep plus woken threads. |
| `RecRwLock.UnlockWakesExactly` | rw_locks/rw_locks.c:67-141 | In every run the unlock that gives back the last hold wakes every sleeper, and any other unlock wakes nobody. |
| `RecRwLock.StrangerUnlockCaughtExactly` | rw_locks/rw_locks.c:101-117 | The misuse the code comments on: an unlock by a thread that holds nothing is caught if and only if no reader holds the lock. |
| `RecRwLock.ReaderWriterLock.RdLock` | rw_locks/rw_locks.c:16-55 | The critical section of a read call has exactly the effect of the read step. |
| `RecRwLock.ReaderWriterLock.RdLockResume` | rw_locks/rw_locks.c:47-65 | The section after a reader's wake-up has exactly the effect of the resumed read step. |
| `RecRwLock.ReaderWriterLock.WrLock` | rw_locks/rw_locks.c:143-195 | The critical section of a write call has exactly the effect of the write step. |
| `RecRwLock.ReaderWriterLock.WrLockResume` | rw_locks/rw_locks.c:178-206 | The section after a writer's wake-up has exactly the effect of the resumed write step. |
| `RecRwLock.ReaderWriterLock.Release` | rw_locks/rw_locks.c:67-141 | The unlock has exactly the effect of the unlock step, which broadcasts when the last hold goes. |
| `MonitorRwLock.AssertionsHold` | rw_locks/monitor/rw_locks.c:20-188 | No assertion of the three calls fails in any run, for any limits of at least 1. |
| `MonitorRwLock.Sessions` | rw_locks/monitor/rw_locks.c:25-57 | Only one kind of thread is inside, between 1 and its limit of them, and `n_locks` counts them. |
| `MonitorRwLock.NoLostWakeup` | rw_locks/monitor/rw_locks.c:98-188 | When the lock is free and somebody waits, some woken thread would be inside if it ran next; for any limits of at least 1. |
| `MonitorRwLock.Replacement` | rw_locks/monitor/rw_locks.c:113-120 | In a session either no thread of the kind sleeps or at least as many have been woken as there are free places, for both kinds. |
| `MonitorRwLock.HandOverToWriters` | rw_locks/monitor/rw_locks.c:163-182 | In every run a reader session that ends while a writer waits is followed next by a writer session. |
| `MonitorRwLock.HandOverToReaders` | rw_locks/monitor/rw_locks.c:122-141 | In every run a writer session that ends while a reader waits is followed next by a reader session. |
| `MonitorRwLock.LastReaderBars` | rw_locks/monitor/rw_locks.c:163-180 | The step that ends a reader session bars further readers if and only if a writer waits. |
| `MonitorRwLock.ReaderLeavesExactly` | rw_locks/monitor/rw_locks.c:146-185 | In every run a reader's unlock that leaves others inside wakes at most its replacement and bars nobody; the last one wakes all writers, no reader, and bars readers if a writer waits, wakes all readers and bars nobody if not. |
| `MonitorRwLock.SwapRun` | rw_locks/monitor/rw_locks.c:59-96 | Exchanging readers and writers turns every run into a run, whatever the limits, so each result holds for both kinds. |
| `MonitorRwLock.ZeroLimitBarsReaders` | rw_locks/monitor/rw_locks.c:25-48 | With a reader limit of 0 no reader is inside in any state of any run. |
| `MonitorRwLock.ZeroLimitBarsWriters` | rw_locks/monitor/rw_locks.c:64-87 | With a writer limit of 0 no writer is inside in any state of any run. |
| `MonitorRwLock.ZeroLimitStrandsWriters` | rw_locks/monitor/rw_locks.c:122-141 | With a reader limit of 0 some run leaves the lock free and dead: a writer and a reader asleep on it, and nobody woken. |
| `MonitorRwLock.ZeroLimitStrandsReaders` | rw_locks/monitor/rw_locks.c:163-182 | The mirror image for a writer limit of 0. |
| `MonitorRwLock.DeadForEver` | rw_locks/monitor/rw_locks.c:20-188 | Whatever any threads do from there on, the lock stays free and nobody of either kind ever gets in. |
| `MonitorRwLock.WakefulExactly` | rw_locks/monitor/rw_locks.c:98-188 | No run loses a wake-up if and only if both limits are at least 1. |
| `MonitorRwLock.Monitor.RdLock` | rw_locks/monitor/rw_locks.c:20-48 | The critical section of a read call has exactly the effect of the read step. |
| `MonitorRwLock.Monitor.RdLockResume` | rw_locks/monitor/rw_locks.c:46-57 | The section after a reader's wake-up has exactly the effect of the resumed read step. |
| `MonitorRwLock.Monitor.WrLock` | rw_locks/monitor/rw_locks.c:59-87 | The critical section of a write call has exactly the effect of the write step, the mirror image of the read step. |
| `MonitorRwLock.Monitor.WrLockResume` | rw_locks/monitor/rw_locks.c:85-96 | The section after a writer's wake-up has exactly the effect of the resumed write step. |
| `MonitorRwLock.Monitor.Release` | rw_locks/monitor/rw_locks.c:98-188 | The unlock has exactly the effect of the unlock step: replacement signal, hand-over flags and broadcasts. |
| `ProducerConsumer.AssertionsHold` | ProducerConsumer/Assignment_prod_cons_on_Q_Solution.c:88-124 | For any number of producers and consumers and any capacity, producers only ever fill an empty queue and consumers only ever drain a full one. |
| `ProducerConsumer.EmptyOrFull` | ProducerConsumer/Assignment_prod_cons_on_Q_Solution.c:71-145 | Whenever the mutex is free the queue is empty or full, and finished producers less finished consumers is 1 when it is full and 0 otherwise. |
| `ProducerConsumer.FinishWakesAll` | ProducerConsumer/Assignment_prod_cons_on_Q_Solution.c:98-99 | Right after a thread has filled or drained the queue nobody sleeps. |
| `ProducerConsumer.ConsumedInOrder` | ProducerConsumer/Assignment_prod_cons_on_Q_Solution.c:90-132 | The consumed values are 1, 2, 3, ... without gap or repetition, a ring of them for every finished consumer, and the queue holds the next ones. |
| `ProducerConsumer.RunsAreFinite` | ProducerConsumer/Assignment_prod_cons_on_Q_Solution.c:81-119 | A run of n threads has at most n(n+2) steps, and two more for every spurious wake-up. |
| `ProducerConsumer.FinalState` | ProducerConsumer/Assignment_prod_cons_on_Q_Solution.c:71-145 | Where a run of p producers and c consumers can go no further, min(p, c+1) producers and min(p, c) consumers have finished. |
| `ProducerConsumer.AllFinishExactly` | ProducerConsumer/Assignment_prod_cons_on_Q_Solution.c:71-145 | All threads finish if and only if there are as many producers as consumers or one more. |
| `ProducerConsumer.Program.Prod` | ProducerConsumer/Assignment_prod_cons_on_Q_Solution.c:77-102 | The producer's critical section, with its filling loop, has exactly the effect of the producer step, and answers whether the producer finished or sleeps. |
| `ProducerConsumer.Program.Fill` | ProducerConsumer/Assignment_prod_cons_on_Q_Solution.c:90-96 | The loop fills an empty ring with the next integers, as many as the capacity. |
| `ProducerConsumer.Program.Cons` | ProducerConsumer/Assignment_prod_cons_on_Q_Solution.c:113-142 | The consumer's critical section, with its draining loop, has exactly the effect of the consumer step, and answers whether the consumer finished or sleeps. |
| `ProducerConsumer.Program.Drain` | ProducerConsumer/Assignment_prod_cons_on_Q_Solution.c:126-132 | The loop takes out everything in the ring, oldest first. |
| `UpwardRing.Queue.Enqueue` | ProducerConsumer/Queue.c:31-56 | Appends at the end of the queued sequence through every wrap-around, and refuses exactly a NULL pointer or a full ring. |
| `UpwardRing.Queue.Deque` | ProducerConsumer/Queue.c:58-81 | Takes the first of the queued sequence, or returns NULL exactly when there is none. |
| `DownwardRing.FifoQueue.constructor` | ThreadSyncAdv/threadlib/Fifo_Queue.c:7-18 | A new queue of either use is empty. |
| `DownwardRing.FifoQueue.Enqueue` | ThreadSyncAdv/threadlib/Fifo_Queue.c:36-73 | As for the upward ring, with slots used downwards. |
| `DownwardRing.FifoQueue.Deque` | ThreadSyncAdv/threadlib/Fifo_Queue.c:75-102 | As for the upward ring, with slots used downwards. |
| `DownwardRing.FifoQueue.InsertOrReplaceAtIndex` | ThreadSyncAdv/threadlib/Fifo_Queue.c:117-136 | Replaces one slot and returns its old content; `count` stays the number of slots in use. |
| `DownwardRing.InUseUpdate` | ThreadSyncAdv/threadlib/Fifo_Queue.c:125-134 | Replacing one slot changes the number of slots in use by what was and what is in it. |
| `GlueThread.AddNext` | gluethread/glthread.c:44-58 | Links a node in behind a given one: both link directions of the list with exactly this insertion are right; behind the last node the new one keeps its own right link, as in the code. |
| `GlueThread.Remove` | gluethread/glthread.c:77-98 | Takes a node out: both link directions of the rest are right and the node is loose. |
| `GlueThread.DequeueFirst` | gluethread/glthread.c:189-198 | Takes out the first node behind the base, with the first of the values, or returns NULL exactly for an empty list. |
| `GlueThread.DeleteList` | gluethread/glthread.c:100-108 | Leaves the base alone and every other node loose. |
| `GlueThread.PriorityInsert` | gluethread/glthread.c:139-187 | Whatever branch is taken, the new node is linked in at the place its value has in the order and the list changes by exactly that insertion. |
| `PriorityOrder.InsertSorted` | gluethread/glthread.c:168-186 | For a total preorder, insertion keeps a sorted list sorted and puts the new value behind exactly those not greater than it. |
| `PriorityOrder.InsertClass` | gluethread/glthread.c:168-186 | Insertion puts the new value last among its equals and moves nothing else in or between the classes of equal values. |
| `PriorityOrder.StableSort` | gluethread/glthread.c:139-187 | Inserting values one by one is a stable sort: sorted, the same values, and every class of equals in order of arrival. |
| `PriorityOrder.StableSortUnique` | gluethread/glthread.c:139-187 | A sorted sequence is determined by its classes of equals, so that stable sort is the only one. |
| `PriorityOrder.QueueInOrder` | gluethread/glthread.c:139-198 | After any sequence of priority insertions and dequeuings the list is sorted, and in every class of equals stand exactly the values not yet taken, in order of arrival. |
| `PriorityOrder.TakesFirstOfLeast` | gluethread/glthread.c:189-198 | What is dequeued next is a least value, and of its equals the first to have arrived. |
| `SinglyList.LinkedList.AddNode` | CRUD/LinkedList/LinkedListApi.c:58-72 | Links a node in at the front, with the node count the length of the chain; refuses NULL; in an empty list the node keeps its own next link, as in the code. |
| `SinglyList.LinkedList.AddNodeByVal` | CRUD/LinkedList/LinkedListApi.c:74-82 | Adds the pointer in front and returns 0 if it is not in the list; otherwise changes nothing and returns -1. |
| `SinglyList.LinkedList.RemoveNode` | CRUD/LinkedList/LinkedListApi.c:121-154 | Removes exactly the node, wherever it is, with the return codes of the code for NULL, a missing node and an empty list; the walk bounded by the node count never leaves the chain. |
| `SinglyList.LinkedList.GetNodeByDataPtr` | CRUD/LinkedList/LinkedListApi.c:206-218 | Finds the first node with the pointer if there is one, in a walk bounded by the node count. |
| `SinglyList.LinkedList.Reverse` | CRUD/LinkedList/LinkedListApi.c:249-265 | Reverses the chain in place and keeps its nodes and data. |
| `SinglyList.LinkedList.DeleteNodeByDataPtr` | CRUD/LinkedList/LinkedListApi.c:317-332 | Removes exactly the first occurrence of the pointer, if any. |
| `StudentList.StudentLst.Lookup` | CRUD/student_list.c:30-44 | Refines map lookup by roll number. |
| `StudentList.StudentLst.Insert` | CRUD/student_list.c:46-56 | Refines map insertion: refused exactly when the roll number is taken; roll numbers stay unique. |
| `StudentList.StudentLst.Remove` | CRUD/student_list.c:58-69 | Refines map removal and returns the student removed, or NULL. |
| `StudentList.RollMapWithout` | CRUD/student_list.c:67-68 | Removing one place of a list without repeated roll numbers removes exactly one key of its map. |
| `StudentList.Student.RefCountInc` | CRUD/refcount.c:11-17 | Raises the count by one and touches nothing else. |
| `StudentList.Student.RefCountDec` | CRUD/refcount.c:19-29 | Lowers a positive count by one and answers whether it is 0 now. |
| `CrudTheorems.NoStepFails` | CRUD/Crud_algo.c:36-227 | For any numbers of readers, updaters, creators and deleters, no step of any interleaving touches a destroyed student or fails an assertion, including the one of the deleter's first decrement. |
| `CrudTheorems.RefCountExact` | CRUD/Crud_algo.c:183-227 | A student's count is the list's reference, if it has one, plus those held by threads, in every reachable state, including the window in which the deleter holds the list's reference. |
| `CrudTheorems.RefCountBound` | CRUD/refcount.c:11-29 | 0 <= count <= readers + updaters + 2, so the count never underflows (4 for the program as shipped, its own upper limit). |
| `CrudTheorems.NoLeakAtRest` | CRUD/Crud_algo.c:6-17 | When all threads are between iterations the live students are exactly the listed ones, each counted once. |
| `CrudTheorems.NoLeak` | CRUD/Crud_algo.c:6-17 | At any time a live student is listed or some thread still refers to it. |
| `CrudTheorems.DestroyedByLastHolder` | CRUD/student_list.c:20-28 | A student is destroyed only with count 0, its lock free, off the list, and with no other thread referring to it. |
| `CrudTheorems.KillerDecremented` | CRUD/Crud_algo.c:74-80 | A thread about to destroy a student has itself, at an earlier step, taken its count from 1 to 0, and has done nothing since. |
| `CrudTheorems.DestroyedOnce` | CRUD/Crud_algo.c:215-222 | A destroyed student never comes back, so it is destroyed at most once. |
| `CrudTheorems.RemovedByDeleter` | CRUD/Crud_algo.c:195-205 | The step with which a deleter takes a student off the list removes it for good in the sense of the next row. |
| `CrudTheorems.NoNewUse` | CRUD/Crud_algo.c:6-17 | A removed student never returns to the list, and every thread that refers to it later already did when it was removed. |
| `CrudTheorems.NoDeadlock` | CRUD/Crud_algo.c:101-130 | In every reachable state some thread can take a step. |
| `CrudProgress.NoThreadStuck` | CRUD/Crud_algo.c:8-9 | No thread is ever stuck: in every reachable state each thread can take its next step, or steps of the other threads alone lead to a state in which it can. |
| `CrudTheorems.ReaderSeesWholeMarks` | CRUD/Crud_algo.c:61-72 | A reader inside a student sees no half-finished update. |
| `CrudTheorems.MarksCountUpdates` | CRUD/Crud_algo.c:121-124 | A student's marks are 5 for every completed update, modulo 100, and 5 more exactly while an update is half done: none is lost or counted twice. |
| `CrudIterations.IterationGoes` | CRUD/Crud_algo.c:36-227 | In every run an iteration of any thread keeps the roll number it drew, and what it has found, made or taken off the list is what the list held when it took the list's lock. |
| `CrudIterations.StepsInOrder` | CRUD/Crud_algo.c:36-227 | In every run each step of a thread leads to the next line of its function, chosen by whether its roll number was listed when it took the lock; no line is skipped and an iteration ends only at its end. |
| `CrudIterations.ListSays` | CRUD/Crud_algo.c:36-227 | In every reachable state a user that missed and a deleter about to let go find their roll number unlisted, a user that found a student finds it listed under its number, and a creator about to let go finds its number listed with a live student. |
| `CrudIterations.UserFinds` | CRUD/Crud_algo.c:46-66 | reader_fn and update_fn miss if and only if their roll number is not listed, and otherwise work with the student listed under it; the list stays as it is while they hold its lock. |
| `CrudIterations.CreatorCreates` | CRUD/Crud_algo.c:158-177 | When create_fn is about to release the list, its roll number is listed with a live student: the list is as it was if the number was listed, and otherwise has gained exactly a student that did not exist before, with marks 0 and counted once. |
| `CrudIterations.CreatorLeavesListed` | CRUD/Crud_algo.c:164-170 | A creator whose roll number is listed changes no student and no list. |
| `CrudIterations.DeleterDeletes` | CRUD/Crud_algo.c:193-222 | delete_fn gives up if and only if its roll number is not listed; otherwise, whatever the count, it takes exactly that entry off the list and works with the student that was listed. |
| `CrudIterations.ReaderSaw` | CRUD/Crud_algo.c:68-72 | What a reader has read are the marks its student had at its reading step, inside the student's lock: 5 for every update completed by then, modulo 100. |
| `CrudIterations.UpdaterUpdated` | CRUD/Crud_algo.c:121-130 | An updater that has released its student has, in this iteration, added 5 to the marks it found and reduced them modulo 100, with nobody else touching them in between. |
| `CrudSteps.InvStep` | CRUD/Crud_algo.c:36-227 | Every step of every thread function that can be taken has a result and keeps the whole invariant. |
| `CrudProgram.Program.Find` | CRUD/student_list.c:30-44 | The walk over the linked list meets only live students and finds the listed student with the roll number, if any. |
| `CrudProgram.Program.AddToList` | CRUD/student_list.c:46-56 | Linking a live student into the linked list adds exactly that entry to the protocol's list. |
| `CrudProgram.Program.TakeOffList` | CRUD/student_list.c:58-69 | Unlinking takes exactly that entry off the protocol's list and returns its student, or changes nothing. |
| `CrudProgram.Program.Destroy` | CRUD/student_list.c:20-28 | Destroying an unreferenced, unlocked student makes exactly that one unusable. |
| `CrudProgram.Program.UserStep` | CRUD/Crud_algo.c:46-66 | The steps of reader_fn and update_fn on the list's lock have exactly the effect of the protocol's step. |
| `CrudProgram.Program.UserStepFind` | CRUD/Crud_algo.c:50-59 | The same for the lookup, by the walk over the linked list, and the new reference. |
| `CrudProgram.Program.UserLocks` | CRUD/Crud_algo.c:114-115 | The same for taking the student's lock. |
| `CrudProgram.Program.ReaderReads` | CRUD/Crud_algo.c:68-69 | The same for the reading of the marks. |
| `CrudProgram.Program.UpdaterAdds` | CRUD/Crud_algo.c:122-123 | The same for the first half of an update. |
| `CrudProgram.Program.UpdaterReduces` | CRUD/Crud_algo.c:124 | The same for the second half. |
| `CrudProgram.Program.UserUnlocks` | CRUD/Crud_algo.c:129-130 | The same for the release of the student's lock. |
| `CrudProgram.Program.CreatorStep` | CRUD/Crud_algo.c:149-181 | The same for create_fn, with lookup and insertion on the linked list; its insertion succeeds. |
| `CrudProgram.Program.DeleterStep` | CRUD/Crud_algo.c:183-211 | The same for delete_fn, with removal from the linked list; its first decrement does not reach 0. |
| `CrudProgram.Program.FinishStep` | CRUD/Crud_algo.c:215-222 | The same for the final decrement and the destruction. |
| `CrudProgram.Program.Step` | CRUD/Crud_algo.c:36-227 | From any state of the invariant any step that can be taken succeeds on the students and the linked list, meets no destroyed student on the way, has the effect of the protocol's step and ends in the invariant. |
| `CrudManager.EnterEffect` | ThreadSafeCruds/CrudMgr.cpp:117-206 | A permitted entry succeeds and keeps bits, counters and lists in agreement: one counter one higher, no_op gone, nothing else changed. |
| `CrudManager.EntryAtFront` | ThreadSafeCruds/CrudMgr.cpp:189-192 | A node that enters a state goes to the front of the state's list. |
| `CrudManager.ExitEffect` | ThreadSafeCruds/CrudMgr.cpp:208-278 | An exit succeeds if and only if the node is in the state; one counter one lower, and a node left in no state shows no_op and no operation. |
| `CrudManager.EnterExactly` | ThreadSafeCruds/CrudMgr.cpp:117-147 | An entry fails an assertion if and only if write, delete or create in progress, pending create or no_op is entered twice, and keeps the agreement if and only if it neither enters no_op nor wraps an 8-bit counter. |
| `CrudManager.WrapReached` | ThreadSafeCruds/CrudMgr.cpp:143-149 | For every node and every state that is not exclusive, 255 permitted entries lead to a 256th that is accepted and leaves the counter 0 with the bit set. |
| `CrudManager.InitialiseEffect` | ThreadSafeCruds/CrudMgr.cpp:1120-1133 | A new node is in no_op only and the others are untouched. |
| `CrudManager.DestroyEffect` | ThreadSafeCruds/CrudMgr.cpp:1151-1178 | A node can be destroyed if and only if it is in no other state and shows no operation. |
| `CrudManager.AgreementOverCalls` | ThreadSafeCruds/CrudMgr.cpp:117-278 | After any sequence of permitted calls on any number of nodes each of the nine bits is set iff its counter is positive iff the node is on the list, no_op is set iff no other bit is, and the next permitted call fails no assertion. |
| `CrudManager.OpOverCalls` | ThreadSafeCruds/CrudMgr.cpp:155-181 | After any calls that enter a state in progress only beside no other, a node shows the read, write, delete or create operation if and only if it is in that state in progress, and none if and only if it is in none. |
| `CrudManager.EntryShowsOp` | ThreadSafeCruds/CrudMgr.cpp:155-181 | A permitted entry keeps the shown operation right if and only if it does not enter a state in progress beside another. |
| `CrudManager.ListsAreScans` | ThreadSafeCruds/CrudMgr.cpp:189-197 | A manager-wide list is empty if and only if a scan of all nodes finds none in the state; the no_op list holds exactly the idle nodes. |
| `CrudManager.CounterIsNet` | ThreadSafeCruds/CrudMgr.cpp:143-189 | A counter is the number of entries of its node and state not yet matched by an exit. |
| `CrudArbiter.NoStepFails` | ThreadSafeCruds/CrudMgr.cpp:281-635 | For any interleaving of read and write requests and releases on any nodes no assertion is reached, in particular not the one that ends each request loop. |
| `CrudArbiter.Exclusion` | ThreadSafeCruds/CrudMgr.cpp:281-635 | At most one writer and never with a reader; the four counters are the numbers of granted and waiting threads; `curr_op` names the operation in progress. |
| `CrudArbiter.ReleaseTakesRightArm` | ThreadSafeCruds/CrudMgr.cpp:883-896 | The operation a release reads without the mutex is still the right one when it acts on it. |
| `CrudArbiter.Refines` | ThreadSafeCruds/CrudMgr.cpp:883-1107 | The program driven by bits, counters and lists refines an arbiter over sets of clients: who is let in, who sleeps and whom the last release wakes. |
| `CrudArbiter.ReadLoopIs` | ThreadSafeCruds/CrudMgr.cpp:332-458 | A read request is granted if and only if no writer is in, and a reader is in or waiting or no writer waits. |
| `CrudArbiter.WriteLoopIs` | ThreadSafeCruds/CrudMgr.cpp:512-633 | A write request is granted if and only if nobody is in. |
| `CrudArbiter.ReadRequestExactly` | ThreadSafeCruds/CrudMgr.cpp:281-458 | Whatever states a node is in, a read request is rejected if and only if a deletion or creation is pending or runs; otherwise it is granted if and only if no write runs and a read runs or waits or no write waits, and waits if not. |
| `CrudArbiter.WriteRequestExactly` | ThreadSafeCruds/CrudMgr.cpp:463-633 | The same for a write request, which is granted if and only if no read and no write runs. |
| `CrudArbiter.ReadResumeExactly` | ThreadSafeCruds/CrudMgr.cpp:341-398 | A woken reader leaves its pending state; it then quits with nothing else changed if and only if a deletion is pending, fails an assertion if and only if another deletion or creation state is set, and goes on as a new request would if not. |
| `CrudArbiter.WriteResumeExactly` | ThreadSafeCruds/CrudMgr.cpp:517-574 | The same for a woken writer. |
| `CrudArbiter.ReleaseExactly` | ThreadSafeCruds/CrudMgr.cpp:1021-1104 | A release succeeds if and only if the operation runs; the last reader and every writer wake all readers if some wait, else one writer, else one deleter, and an earlier reader wakes nobody. |
| `CrudArbiter.OneKindIsLive` | ThreadSafeCruds/CrudMgr.cpp:1021-1104 | A free node whose waiters are all readers, or all writers, always has one of them woken. |
| `CrudArbiter.WakeUpLostExactly` | ThreadSafeCruds/CrudMgr.cpp:447-456 | Waiters come to sleep on a free node with nobody woken if and only if the last waiting reader re-tests it while a writer waits that nobody has woken. |
| `CrudArbiter.Stranded` | ThreadSafeCruds/CrudMgr.cpp:447-456 | From every start there is a run in which a reader and a writer end asleep on a free node with nobody to wake them. |
| `CrudArbiter.LossReachableExactly` | ThreadSafeCruds/CrudMgr.cpp:447-456 | From every start some run comes to sleepers on a free node with nobody woken if and only if at least three threads may use the node. |
| `CrudObjects.CrudMgr.EnterState` | ThreadSafeCruds/CrudMgr.cpp:117-206 | The entry on a 32-bit status word, counters and lists in place has exactly the effect of the entry on sets of states; with the exit it recurs and ends. |
| `CrudObjects.CrudMgr.ExitState` | ThreadSafeCruds/CrudMgr.cpp:208-278 | The same for the exit. |
| `CrudObjects.CrudMgr.ReadRequest` | ThreadSafeCruds/CrudMgr.cpp:281-458 | The critical section of a read request in place, up to its wait or return: refused with the view unchanged, asleep or granted as the row of `CrudArbiter.ReadRequestExactly` says. |
| `CrudObjects.CrudMgr.WriteRequest` | ThreadSafeCruds/CrudMgr.cpp:463-633 | The critical section of a write request in place, up to its wait or return: refused with the view unchanged, asleep or granted as the row of `CrudArbiter.WriteRequestExactly` says. |
| `CrudObjects.CrudMgr.ReadResume` | ThreadSafeCruds/CrudMgr.cpp:392-455 | The section after a reader's wake-up. |
| `CrudObjects.CrudMgr.WriteResume` | ThreadSafeCruds/CrudMgr.cpp:568-603 | The section after a writer's wake-up. |
| `CrudObjects.CrudMgr.ReleaseRequest` | ThreadSafeCruds/CrudMgr.cpp:1021-1104 | The read and write arms of a release, with whom they wake. |
| `CrudObjects.StatesSet` | ThreadSafeCruds/CrudMgr.cpp:40-44 | Setting a flag adds exactly that state to those the word stands for. |
| `CrudObjects.StatesUnset` | ThreadSafeCruds/CrudMgr.cpp:46-50 | Clearing a flag removes exactly that state. |
| `AssemblyLine.NoStepFails` | ThreadSyncAdv/threadlib/threadlib.c:1640-1647 | For any line of at least two workers, any interleaving of workers, engine and pushes, late pushes in time included: the first worker's slot is empty at every insertion and no assertion fails. |
| `AssemblyLine.AllReadyRegister` | ThreadSyncAdv/threadlib/threadlib.c:1706-1734 | When all workers have reported, the line seen from the first worker is shifted by one, and its slot is the one the last worker has cleared. |
| `AssemblyLine.WorkersInStep` | ThreadSyncAdv/threadlib/threadlib.c:1666-1738 | Whenever no cycle is running, worker k is at slot (a + k) mod N from the first worker's slot a, and an item there has been worked on by exactly workers 0 to k-1, in order, and has been through exactly k cycles, counting that in which it met the first worker. |
| `AssemblyLine.FinishedInOrder` | ThreadSyncAdv/threadlib/threadlib.c:1704-1718 | Items leave in push order, worked on by all N workers once each in order, in the N-th cycle, counting the one in which they met the first worker. |
| `AssemblyLine.LeavesOnTime` | ThreadSyncAdv/threadlib/threadlib.c:1862-1882 | The line takes in one waiting item at the end of every cycle: in every run an item with p items before it on the wait list while cycle c runs leaves in cycle c + p + N. |
| `AssemblyLine.Conservation` | ThreadSyncAdv/threadlib/threadlib.c:1920-1952 | Finished items, the line from its end to its start, and the wait list are together the pushed items in order; `count` is the number in the line. |
| `AssemblyLine.IdleIsDone` | ThreadSyncAdv/threadlib/threadlib.c:1865-1882 | A halted line has an empty wait list, empty slots, and every pushed item out. |
| `AssemblyLine.NeverStuck` | ThreadSyncAdv/threadlib/threadlib.c:1847-1883 | While the line is not halted some worker or the engine can take a step. |
| `AssemblyLine.StepsAreBounded` | ThreadSyncAdv/threadlib/threadlib.c:1833-1888 | p pushes cause at most N p cycles and (4N+1) N p + p steps of workers and engine in any run. |
| `AssemblyLine.EveryItemLeaves` | ThreadSyncAdv/threadlib/threadlib.c:1833-1888 | Where a run can go no further without a push, which is after finitely many steps by the row above, every pushed item is out, worked on by all workers in order. |
| `AssemblyLine.PushFailsExactly` | ThreadSyncAdv/threadlib/threadlib.c:1931-1944 | In every reachable state, late pushes included, a push fails its assertion if and only if the line has an item and the wait list is full. |
| `LatePush.LatePushExactly` | ThreadSyncAdv/threadlib/threadlib.c:1931-1933 | At the end of any run, a push that finds the line empty in the middle of a cycle succeeds, and from it every continuation keeps the promise (items out in push order with all operations in order, no failing step) if and only if the first worker has not worked in this cycle and the wait list is empty. |
| `LatePush.LeavesNext` | ThreadSyncAdv/threadlib/threadlib.c:1931-1933 | A late item pushed before the first worker moves on leaves before all waiting ones, and without the first worker's operation if that worker had already worked. |
| `LatePush.EngineAborts` | ThreadSyncAdv/threadlib/threadlib.c:1640-1647 | After a late push behind the first worker some continuation reaches the end of the cycle with an item waiting and the first worker's slot in use, where the engine's insertion fails its assertion. |
| `LatePush.MissingInput` | ThreadSyncAdv/threadlib/threadlib.c:1931-1933 | A run of two workers with a late push whose item leaves with the second worker's operation only. |
| `LatePush.AbortingInput` | ThreadSyncAdv/threadlib/threadlib.c:1640-1647 | A run of two workers with a late push after which the engine's insertion fails its assertion. |
| `LatePush.OvertakingInput` | ThreadSyncAdv/threadlib/threadlib.c:1931-1933 | A run of two workers with a late push before the first worker has worked, whose item leaves before one pushed earlier. |
| `AssemblyLineObject.Line.constructor` | ThreadSyncAdv/threadlib/threadlib.c:1792-1825 | A new line is in the initial state of the runs above. |
| `AssemblyLineObject.Line.EnqueueNewItem` | ThreadSyncAdv/threadlib/threadlib.c:1640-1647 | Fills the first worker's slot in place, exactly as the insertion step. |
| `AssemblyLineObject.Line.PushNewItem` | ThreadSyncAdv/threadlib/threadlib.c:1920-1952 | Exactly the push step. |
| `AssemblyLineObject.Line.WakeWorkers` | ThreadSyncAdv/threadlib/threadlib.c:1849-1857 | The loop over all workers has exactly the effect of starting a cycle. |
| `AssemblyLineObject.Line.CompleteCycle` | ThreadSyncAdv/threadlib/threadlib.c:1865-1882 | Exactly the engine's step at the end of a cycle. |
| `AssemblyLineObject.Line.WorkOnSlot` | ThreadSyncAdv/threadlib/threadlib.c:1695-1704 | Exactly one worker's operation on its slot. |
| `AssemblyLineObject.Line.RemoveFinished` | ThreadSyncAdv/threadlib/threadlib.c:1706-1718 | Exactly the removal by the last worker, and returns the item that was in its slot. |
| `AssemblyLineObject.Line.MoveBack` | ThreadSyncAdv/threadlib/threadlib.c:1721-1726 | Exactly the move to the slot before, around the end. |
| `AssemblyLineObject.Line.Step` | ThreadSyncAdv/threadlib/threadlib.c:1666-1952 | From any state of the invariant, any step that can be taken succeeds on the arrays in place, as the step function says, and ends in the invariant. |

## Left out

- Output, sleeping, thread creation and cancellation, sockets and menus: no state to prove anything about.
- RecMutex.RecursiveMutex.Lock: the counters are unbounded; the wrap of the 16-bit counters is not modelled.
- RecRwLock.ReaderWriterLock.RdLock: the counters are unbounded; the wrap of the 16-bit counters is not modelled.
- RecRwLock.ReaderWriterLock.RdLockResume: as for RdLock.
- RecRwLock.ReaderWriterLock.WrLock: as for RdLock.
- MonitorRwLock.Monitor.RdLock: the counters are unbounded; the wrap of the 16-bit counters is not modelled.
- MonitorRwLock.Monitor.WrLock: as for RdLock.
- StudentList.Student.RefCountInc: the 32-bit count is unbounded here, and `CrudTheorems.RefCountBound` bounds it by the number of threads.  The 8-bit counters of the CRUD manager wrap as in the code, and the runs of `CrudArbiter` have at most 255 threads.
- n_locks is taken to be 0 after both rw_lock_init functions, which leave it unset; changing the limits of the monitor while it is in use is not modelled.
- A call that waits: the loop around the wait is cut at the wait, so the C call as one call (waiting included) is the sequence Lock, ResumeLock, ... of a run; the same holds for the other locks, the producer/consumer threads and the CRUD manager's requests.
- GlueThread.PriorityInsert: the embedding record is one integer, and the offset arithmetic that finds it is not modelled.
- CRUD students are named in the order of their allocation, so a freed address is never reused; student_object_count, which the code updates without a common lock, is left out.
- CrudProgress.NoThreadStuck: the other threads can always make way; that every thread gets its turn in every run depends on the fairness of the read/write locks and is not stated.
- CrudTheorems.NoDeadlock: as for NoThreadStuck, which says more.
- CrudProgram.Program.Find: a walk over the linked list, which the code makes under the list's lock, is one step of the protocol.
- Create and delete requests of the CRUD manager, and the create and delete arms of its release: the delete path passes through no_op without the node's mutex.  Entering and leaving their states is modelled.
- CrudObjects.CrudMgr.ReadResume: a waiter that quits because a deletion is pending also wakes the other waiters and the deleter; as the runs have no deletions, whom it wakes is not modelled.
- CrudObjects.CrudMgr.WriteResume: as for ReadResume.
- CrudObjects.CrudMgr.ExitState: as for EnterState.
- CrudObjects.CrudMgr.EnterState: the manager's intrusive lists are sequences of node names here, and the manager's own mutex is not modelled; each call is one step.
- AssemblyLine.NoStepFails: late pushes that are not in time (see `LatePush.LatePushExactly`), spurious wake-ups of workers and of the halted engine, and a push onto a full wait list (which fails an assertion, see `AssemblyLine.PushFailsExactly`) are not steps of its runs.
- AssemblyLineObject.Line.WorkOnSlot: an operation is recorded as the worker's number on the item; what the registered functions do is not modelled.  The wait list is a sequence here; its ring is `DownwardRing.FifoQueue`.
- The monitor, wait queue and thread pool of threadlib.c, customizable_rw_locks, dining philosophers, the thread barrier and sema.c.
- The other list functions (adding before or last, ordered insertion, removal by value, search by key): easy beside the modelled ones, or (ordered insertion) not ordered in the one-node case.
- The skeleton and demonstration programs and the duplicated copies of glthread.c.
