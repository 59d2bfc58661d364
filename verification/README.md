# Systems programming assignments: a verified model

This project models the four programs of the repository in Dafny and proves what
holds over all their runs.

* **HW3, user-level threads** (`ThreadModel`, `ThreadQueues`, `LockDiscipline`,
  `DispatchOrder`, `LockHistory`, `ThreadProgress`, `BankLedger`, `SchedulerHeap`,
  `MainProgram`). The scheduler's two arrays, rotating cursor, swap-with-last removal
  and direct lock hand-off, with threads that resume where they were suspended.
  `ThreadModel` is the machine over values; `SchedulerHeap` is the code over arrays and
  tcb objects, proved to compute it. The threads are any mix of fibonacci, factorial and bank threads with distinct
  ids, at most `THREAD_MAX` of them; at every yield any signal may be pending.
* **HW4, thread pool** (`PoolModel`, `PoolSafety`, `PoolProgress`, `PoolWaits`,
  `TaskList`). An interleaving transition system with any number of workers and
  tasks and a client that makes any sequence of `tpool_add` and `tpool_wait` calls
  before `tpool_destroy`; spurious wake-ups are allowed. `TaskList` is the linked list.
* **HW2, services** (`CommandText`, `ServiceTree`, `SearchReference`,
  `SearchProtocol`, `CommandResults`, `CommandSequences`, `ServicePrograms`).
  Processes in a tree that pass a command on child by child over pipes, in every
  schedule of their moves, against a preorder reference; the message scanners; the
  linked list of children.
* **HW1, bulletin board** (`BulletinBoard`, `MemoryCopy`, `CopyTrace`, `StalePulls`,
  `UnlockedPulls`, `ServerRequests`, `BoardPrograms`). The circular slot search that
  skips locked slots, the growing record file, its offset and the copy the server
  answers from, with other server processes on the same file, the pull format and
  the client's star-counting loop, and the parsing loops over fixed buffers.
  `CStrings` is shared by the last two programs.

Main results: the thread library never deadlocks, never loses a thread, serves the
lock first come first served, starves nobody, always ends, and prints what a
sequential execution would (`Program` and `MainRun` prove this of the array code). The
pool never
loses a wake-up and never gets stuck; it runs every task exactly once if and only if
the client waits after its last `tpool_add`. A `spawn` or `find` visits exactly the
preorder prefix up to its target under every schedule, and any sequence of them behaves
as one set of names. While no slot is locked, a pull is answered from the current board
if and only if no process wrote since the last read from the start of the file
(`PullCurrentIff` is the condition for any locks), and the client shows an answer
faithfully if and only if no field contains `*`.

Where the code differs from what its names or comments suggest, the model follows
the code:

* `scheduler()` dispatches (`HW3/scheduler.c:83-86`) before it tests for empty queues
  (`HW3/scheduler.c:87-88`), so the last exit does not reach the `return`. A run of
  the model ends there: `NoDeadlock` shows it is the only entry whose dispatch would
  read past the ready queue.
* `tpool_wait` waits for an empty queue, not for the end of the tasks: exactly the
  clients with no wait right after an add can rely on it (`WaitsCompleteIff`,
  `WaitReturnsEarly`). And `tpool_destroy` right after a `tpool_add` can drop tasks,
  because a worker tests `stop` before the queue (`LosesTask`).
* With every slot locked, a post still overwrites slot 0 (`HW1/server.c:194-222`):
  `AllLockedOverwrites`, and `LocksRespectedIff` for the exact condition.
* The read at the top of the server's loop (`HW1/server.c:105`) continues at the file
  offset, which only this process's own posts move back (`HW1/server.c:245`), and puts
  what it finds at the front of the copy that pulls are answered from. So a pull can
  miss a post served before it in the same iteration (`StalePull`) and posts made
  through other servers (`NeverRereadsIff`), and a record that lengthens the file is
  read into the wrong slot (`ShiftedRead`). `PullCurrentIff`, `UnshiftedCurrentIff` and
  `UnlockedCurrentIff` are the exact conditions.

## Model

| member | source | states |
|---|---|---|
| ThreadQueues.StepKeepsIds | HW3/scheduler.c:39-75 | no step loses, duplicates or invents a thread, and the two queues together shrink only by an exit |
| ThreadQueues.WithoutMembers | HW3/scheduler.c:52-53 | swap-with-last removal takes out the thread of the hole and no other |
| LockDiscipline.StepKeepsInv | HW3/scheduler.c:30-89 | the invariant (distinct threads, cursor in range, one ready holder, waiters imply a ready owner) survives every stretch under every signal |
| LockDiscipline.HandOffGrants | HW3/scheduler.c:39-46 | a free lock goes to the first waiter, who joins the ready queue while the others keep their order, and afterwards a waiting thread again implies an owner that is ready |
| LockDiscipline.SignalKeeps | HW3/scheduler.c:77-82 | a signal entry finds no hand-off pending and dispatches in range |
| LockDiscipline.QueuePartition | HW3/scheduler.c:39-75 | in every run each created id is listed exactly once among ready, waiting and freed threads, and the queues fit their arrays |
| LockDiscipline.NoDeadlock | HW3/scheduler.c:76-88 | in every run the dispatched slot is in range exactly while a thread is live, and a waiting thread implies a live ready owner |
| LockDiscipline.MutualExclusion | HW3/threadtools.h:73-86 | in every run at most one thread is between lock and unlock and it is the recorded owner, though a resumed waiter never retests |
| DispatchOrder.YieldTurn | HW3/scheduler.c:12-23 | a yield prints one line; a pending signal adds the handler's line and dispatches the cyclically next slot, without one the thread runs on; all other slots stand |
| DispatchOrder.BlockTurn | HW3/scheduler.c:48-61 | a thread that finds the lock taken goes to the end of the waiting queue, the last ready thread takes its slot and runs |
| DispatchOrder.ExitTurn | HW3/scheduler.c:62-75 | a thread that leaves no waiter to serve is freed, the last ready thread takes its slot and runs |
| DispatchOrder.HandOverTurn | HW3/scheduler.c:39-75 | when the owner leaves while others wait, the first waiter takes over its slot and the lock and is dispatched at once, and nobody else moves |
| DispatchOrder.ReleasedThenAcquired | HW3/scheduler.c:39-86 | in every run a released line printed while a thread waits is directly followed by the acquired line of the first waiter |
| LockHistory.FirstComeFirstServed | HW3/scheduler.c:39-61 | in every run the lock calls are the grants followed by the waiting queue, each thread calls once, and the owner is the last one granted |
| LockHistory.BankIsSequential | HW3/threads.c:52-75 | at any moment the acquired, balance and released lines are a prefix of those of running the granted threads one after another |
| LockHistory.NonInterference | HW3/threads.c:8-49 | at any moment of any run a loop thread has printed its set-up line and exactly the first Fibonacci numbers or factorials, one per round, and all of them once it has exited |
| LockHistory.RoundValue | HW3/threads.c:11-27 | a resumed round computes the next Fibonacci number or factorial from the fields kept in the tcb |
| ThreadProgress.StepWorks | HW3/threads.c:11-74 | remaining rounds plus remaining bank stages strictly decrease on every stretch |
| ThreadProgress.RunEnds | HW3/scheduler.c:47-88 | every run reaches both queues empty within that measure, whatever the signals |
| ThreadProgress.TerminationIff | HW3/main.c:54-64 | all runs end within a common bound if and only if every loop thread's argument passes the guard of its creation |
| ThreadProgress.StepRank | HW3/scheduler.c:39-86 | each scheduler entry dispatches a given ready thread or lowers its cyclic distance plus live threads plus threads yet to call lock |
| ThreadProgress.NoStarvation | HW3/scheduler.c:76-86 | a ready thread is dispatched within as many scheduler entries as its rank, in every run that has that many or goes on to the end |
| ThreadProgress.BoundedWait | HW3/scheduler.c:39-86 | from any moment of any run that is at most three entries for each thread created, in every continuation that has that many or goes on to the end |
| ThreadProgress.CompleteRun | HW3/main.c:54-77 | every long enough run is done, each loop thread has printed its whole sequence, and the bank lines and balance are those of serving each bank thread once in lock-call order |
| ThreadProgress.BalanceAccounts | HW3/threads.c:60-65 | the balance is never negative and is 500 plus the deposits minus the covered withdrawals |
| BankLedger.AccountChain | HW3/threads.c:58-66 | at any moment of any run the balance lines start from 500, each takes up the balance the one before left, in the order of the grants, and the last one left the balance there is now, never negative |
| ThreadProgress.MainStarts | HW3/main.c:54-64 | the guarded creations give a startable set of threads exactly when some argument passes its guard |
| MainProgram.MainThreads | HW3/main.c:54-64 | exactly the four creations whose guards hold, with their ids and arguments, in the order of the ids |
| SchedulerHeap.Scheduler.ThreadSetup | HW3/threadtools.h:47-59 | a tcb is appended to the ready array and its set-up line printed, the rest unchanged |
| SchedulerHeap.Scheduler.ShiftWaiting | HW3/scheduler.c:43-44 | the shifting loop moves every waiter up one slot |
| SchedulerHeap.Scheduler.PassLock | HW3/scheduler.c:39-46 | step 2 over the arrays is the hand-off of the value model |
| SchedulerHeap.Scheduler.BlockRunning | HW3/scheduler.c:48-61 | the blocking branch moves the running tcb to the end of the waiting array and fills its slot |
| SchedulerHeap.Scheduler.FreeRunning | HW3/scheduler.c:62-75 | the exit branch removes the running tcb and fills its slot |
| SchedulerHeap.Scheduler.EnterScheduler | HW3/scheduler.c:30-89 | an entry through sched_buf is the scheduler function of the value model for each return value |
| SchedulerHeap.Scheduler.FibonacciRound | HW3/threads.c:11-18 | the in-place update with its temporary is the recurrence step |
| SchedulerHeap.Scheduler.FactorialRound | HW3/threads.c:35-39 | the in-place update is the recurrence step |
| SchedulerHeap.Scheduler.LoopStretch | HW3/threads.c:8-49 | a resumed loop thread changes only its own tcb and stops where the value model says |
| SchedulerHeap.Scheduler.Lock | HW3/threadtools.h:73-81 | a free lock is taken, a taken one blocks with the environment saved inside lock |
| SchedulerHeap.Scheduler.Unlock | HW3/threadtools.h:83-86 | only the owner's unlock frees the lock |
| SchedulerHeap.Scheduler.Operate | HW3/threads.c:60-64 | deposits always, withdrawals only when covered |
| SchedulerHeap.Scheduler.BankStretch | HW3/threads.c:52-75 | a resumed bank thread does the stage its environment resumes at, as in the value model |
| SchedulerHeap.StartThreading | HW3/main.c:69-72 | the array program runs until both queues are empty and is a run of the value model |
| SchedulerHeap.Program | HW3/main.c:79-94 | the whole array program ends within its budget, with every sequence printed and the bank served sequentially in the order of the lock calls of its own run, each thread once |
| MainProgram.MainRun | HW3/main.c:54-94 | for the four arguments: set-up lines first, Fibonacci numbers and factorials up to theirs, and a bank that starts at 500 and serves the amounts of threads 2 and 3 one after the other, in one of the two orders |
| PoolSafety.StepKeepsInv | HW4/my_pool.c:5-83 | wake-up, conservation and phase invariants survive every step of every thread |
| PoolSafety.AwakeStep | HW4/my_pool.c:11-34 | no worker is ever asleep un-notified while a task is queued or stop is set, though add broadcasts only for the first task |
| PoolSafety.FirstTaskWakes | HW4/my_pool.c:12-22 | a broadcast for a task that is not the first would wake nobody |
| PoolSafety.WaiterStep | HW4/my_pool.c:35-53 | a client asleep on an empty queue always has a worker between its dequeue and its re-check |
| PoolSafety.ConservedStep | HW4/my_pool.c:7-43 | tasks added are those taken followed by the queue, and those taken are the running and the finished ones, counted |
| PoolProgress.NoLostWakeup | HW4/my_pool.c:11-53 | in every interleaving the two wake-up properties and first-in-first-out dequeuing hold |
| PoolProgress.DestroyReturns | HW4/my_pool.c:55-62 | when destroy returns all workers are gone, taken tasks are finished, and added tasks are the finished and the still queued ones |
| PoolProgress.StopFreezes | HW4/my_pool.c:31-34 | once stop is set no task is dequeued again |
| PoolProgress.ExactlyOnce | HW4/my_pool.c:25-68 | a client that waits after its last add finds every task run to completion exactly once when destroy returns |
| PoolProgress.LosesTask | HW4/my_pool.c:28-34 | otherwise some interleaving returns from destroy with a task never run |
| PoolProgress.ExactlyOnceIff | HW4/my_pool.c:25-68 | so exactly-once in all interleavings holds if and only if the client's calls do not end with an add |
| PoolProgress.WaitReturns | HW4/my_pool.c:47-53 | a returning wait has an empty queue, and all tasks so far are finished but for the running ones, no more than there are workers |
| PoolProgress.WaitReturnsEarly | HW4/my_pool.c:47-53 | a concrete interleaving in which wait returns while a task runs |
| PoolWaits.ReturnsEarly | HW4/my_pool.c:47-53 | for any client, a wait that comes after an add with only waits between returns in some interleaving while a task is still running |
| PoolWaits.WaitCompletesIff | HW4/my_pool.c:47-53 | one given wait finds all tasks finished in every interleaving if and only if no add comes before it |
| PoolWaits.WaitsCompleteIff | HW4/my_pool.c:47-53 | all waits of a client find all tasks finished in every interleaving if and only if no wait directly follows an add |
| PoolWaits.AllAtOnce | HW4/my_pool.c:25-39 | for every client with at least n tasks some interleaving has all n workers run one at the same time |
| PoolWaits.WaitTight | HW4/my_pool.c:25-53 | a wait with at least n tasks added before it returns in some interleaving with n of them unfinished, so that bound is tight |
| PoolProgress.StepMeasure | HW4/my_pool.c:25-62 | every step except a spurious wake-up lowers a measure over phases, queue and remaining calls |
| PoolProgress.RunLength | HW4/my_pool.c:25-62 | a run is no longer than that measure plus twice its spurious wake-ups |
| PoolProgress.NeverStuck | HW4/my_pool.c:25-62 | a reachable state in which only spurious wake-ups are possible is one where destroy has returned, and conversely |
| PoolProgress.WhoCanMove | HW4/my_pool.c:25-62 | in every reachable state each worker that is not gone can move, a sleeper by a spurious wake-up, and the client until it has returned, except while it joins a worker that is still there |
| PoolProgress.EndToEnd | HW4/my_pool.c:5-83 | explicit bound on every run, and every maximal run of a waiting client ends with all workers gone and each task run once |
| PoolProgress.WorkerCount | HW4/my_pool.c:70-83 | the pool has exactly the n workers it was created with, in every reachable state |
| PoolProgress.OneWorkerOrder | HW4/my_pool.c:25-46 | a pool of one worker finishes the tasks in the order they were added |
| PoolProgress.NotifiedFindsEmpty | HW4/my_pool.c:40-53 | without spurious wake-ups a client woken inside wait finds the queue empty |
| TaskList.Tpool.Add | HW4/my_pool.c:12-22 | the tail walk appends to the acyclic list, with a broadcast exactly when it was empty |
| TaskList.Tpool.WorkerTurn | HW4/my_pool.c:29-36 | sleep, leave or take the head, as the transition system decides, keeping the list acyclic |
| TaskList.Tpool.IsEmpty | HW4/my_pool.c:41-50 | the head test of the re-check and of wait means an empty queue |
| CommandText.ScanField | HW2/service.c:461-473 | the scanning loop leaves in the buffer exactly the characters after k spaces, NUL-terminated |
| CommandText.FieldOfJoin | HW2/service.c:316-338 | counting spaces finds every word of a text of space-separated words, for any number of words |
| CommandText.CommandRoundTrip | HW2/service.c:162 | scanning the text of spawn, exchange or find gives back its names |
| CommandText.TextFormat | HW2/service.c:162-264 | the texts of the three commands, character by character |
| CommandText.TextInjective | HW2/service.c:264 | different commands have different texts |
| SearchReference.SearchFinds | HW2/service.c:461-513 | the recursive search says yes exactly if the name is live in the tree, announces at the preorder prefix up to it, and adds the child there or changes nothing |
| SearchProtocol.OneMover | HW2/service.c:308-378 | while a command is served exactly one process can move, so all interleavings coincide |
| SearchProtocol.PassOnForecast | HW2/service.c:357-367 | passing a message on from a child is searching the children from there, skipping killed ones |
| SearchProtocol.StepForecast | HW2/service.c:344-378 | no move of any process changes the final answer, tree or remaining announcements |
| SearchProtocol.StepLeft | HW2/service.c:308-378 | every move lowers the number of moves left |
| CommandResults.CommandSearches | HW2/service.c:156-187 | under every schedule a spawn or find ends within a bound, is stuck only when answered, and has the answer, announcements and tree of the preorder reference |
| CommandResults.AddAtPreorder | HW2/service.c:69-79 | the new service is one more name after its parent in preorder, the others keep their order |
| CommandResults.SpawnThenFind | HW2/service.c:217-235 | after a successful spawn a find says yes for the new name and otherwise exactly as before |
| CommandSequences.Conversation | HW2/service.c:156-235 | any spawns and finds one after the other, each under its own schedule: every answer is membership in the set of names that the successful spawns have extended, and the processes end idle as the reference tree |
| ServicePrograms.Children.CreateService | HW2/service.c:69-79 | the tail walk appends one live child to the acyclic list |
| ServicePrograms.Children.Forward | HW2/service.c:357-367 | the loop asks exactly the children that are not killed, each once and in order, up to the first that answers yes |
| ServicePrograms.ForwardSearches | HW2/service.c:171-182 | when the children answer as their searches would, that loop has the verdict and effect of the recursive search |
| BulletinBoard.SearchCovers | HW1/server.c:196-208 | the circular search fails only if every slot is locked |
| BulletinBoard.PostRespectsLocks | HW1/server.c:193-247 | while some slot is free a post writes one slot only, the first unlocked one cyclically after the last used |
| BulletinBoard.AllLockedOverwrites | HW1/server.c:194-222 | with every slot locked a post overwrites slot 0 and leaves the count alone |
| BulletinBoard.LocksRespectedIff | HW1/server.c:193-247 | a post of a new record leaves all locked slots alone if and only if some slot is not locked |
| BulletinBoard.RoundRobin | HW1/server.c:193-247 | without foreign locks slot j holds the latest post whose index is j modulo the slot count, and what the file held there while there is none |
| BulletinBoard.SentIff | HW1/server.c:170-178 | a record is sent if and only if it is in an unlocked slot and neither of its fields is empty |
| BulletinBoard.SentInOrder | HW1/server.c:170-178 | the records are sent in the order of their slots, each slot that qualifies once |
| BulletinBoard.PullRoundTrip | HW1/client.c:41-69 | the client shows the server's pull message as the listing of its records if and only if no field contains a star |
| MemoryCopy.NewBoardReread | HW1/server.c:91-105 | on a new board even a process that never posts reads the first record another one writes |
| MemoryCopy.ShiftedRead | HW1/server.c:105 | on a board of one record, a second one written by another process is read into the slot of the first, so a pull with its slot locked shows it instead of the first |
| CopyTrace.TraceFills | HW1/server.c:91-250 | any run is the run over the sources of the records with the records filled in: where things are read and written does not depend on them |
| CopyTrace.PullCurrentIff | HW1/server.c:91-245 | for files of any length, whatever records they held and were written, a pull is answered as from the current board if and only if the unlocked slots of the copy and of the file list records from the same places in the same order |
| StalePulls.SnapshotIff | HW1/server.c:91-109 | whatever the records, the copy is the board as it was at the last read from the start of the file if and only if no read since then started in its middle |
| StalePulls.UnshiftedCurrentIff | HW1/server.c:91-245 | while no read since then started in the middle, a pull is answered as from the current board, whatever the records, if and only if since that read nobody wrote a slot that is not locked now |
| StalePulls.ShiftedPull | HW1/server.c:91-178 | without that premise the condition is not enough: an input where nothing unlocked is unread and the answer still differs |
| UnlockedPulls.UnlockedCurrentIff | HW1/server.c:91-245 | with no slot locked and no premise on the file: a pull is answered as from the current board, whatever the records, if and only if no process wrote since the last read from the start |
| StalePulls.NeverRereadsIff | HW1/server.c:91-105 | a process that never posts shows the board it found, whatever the records, if and only if nobody lengthens the file before one of its reads |
| ServerRequests.StalePull | HW1/server.c:136-250 | a pull served after a post in the same iteration: on a new board the answer is empty although the posted record is on the board |
| ServerRequests.EmptyFieldNeverShown | HW1/server.c:171-222 | a post with an empty sender or text takes a slot, no pull ever lists it, and the slot is listed as if blank |
| ServerRequests.BoardStep | HW1/server.c:193-247 | over the growing file a post is the post of the board of ten slots, and another process's write changes one slot |
| ServerRequests.PostsShown | HW1/server.c:91-250 | after posts and the read of a later iteration the copy is the board, for a file of any length |
| BoardPrograms.PostIsPost | HW1/client.c:130-135 | no post text is one of the three other request texts |
| BoardPrograms.PostParses | HW1/client.c:130-135 | the text the client sends for a post is parsed by the server to the same record |
| BoardPrograms.ParseLine | HW1/server.c:226-243 | a parsing loop leaves exactly one line in its buffer and stops at its newline, or copies all that is left and terminates nothing |
| BoardPrograms.Server.Refresh | HW1/server.c:105 | the read at the top of the loop brings whatever follows the file offset to the front of the memory copy and leaves the offset at the end of the file |
| BoardPrograms.Server.Search | HW1/server.c:196-208 | the search loop finds, records and flags the first free slot or leaves everything alone |
| BoardPrograms.Server.Post | HW1/server.c:193-249 | a post request stores its two parsed fields in the chosen slot, rewinds the file and releases the slot, also when the second line has no newline |
| BoardPrograms.Server.OtherWrites | HW1/server.c:222-244 | a write by another server process changes the file, which it may lengthen, and neither the copy nor the offset of this one |
| BoardPrograms.Server.WriteRecord | HW1/server.c:222-244 | seeking to a slot and writing leaves a hole of blank records before a slot past the end |
| BoardPrograms.Server.CheckAnswer | HW1/server.c:181-191 | the check request is answered yes exactly when every slot is locked |
| BoardPrograms.Server.PullAnswer | HW1/server.c:168-179 | the message lists the unlocked records of the memory copy with both fields set, in slot order |
| BoardPrograms.Server.Request | HW1/server.c:149-254 | from the text: pull is answered with the records of the copy and check with whether all slots are locked, these and exit change nothing, any other text is stored as a post |
| BoardPrograms.ServeAll | HW1/server.c:91-256 | the server over its arrays answers the pulls among any requests, reads and foreign writes, from a file of any length, as the value model says |
| BoardPrograms.RenderPull | HW1/client.c:85-112 | the counting and printing loops compute the rendering |
| BoardPrograms.Session | HW1/client.c:81-135 | posts stored over any file and then a pull served in a later iteration: the screen shows exactly the records then on the board, if and only if none contains a star |

## Left out

- HW3 machine level: jump buffers, stack frames, signal masks and signals outside a yield, timers, allocation failure. A switch happens only at a yield, in `lock()` or at an exit.
- HW3 dispatch after the last exit, which reads a freed slot; a run ends there.
- SchedulerHeap.Program: numbers and balances are mathematical integers; the overflow of C's `int` for large arguments is not modelled.
- HW4 pthread internals and the order of the frees in `tpool_destroy`. A critical section is one step; `pthread_cond_wait` splits it.
- HW4 several clients waiting at once (one signal wakes one of them), and tasks that call `tpool_add`. Every task is assumed to return, and the pool to have at least one worker.
- CommandResults.CommandSearches: covers spawn and the search half of kill; what kill does after its search and the effects of exchange are not modelled. A find for the root's own name, which the Manager never sends, is treated like any other.
- HW2 process creation is complete when `create_service` returns: the child's own start-up lines and its first read (the parent's name) are not modelled, nor is a child named Manager, which would run the manager's loop, nor names longer than their buffers.
- HW2 pipes are reliable channels of whole messages: coalesced reads and replies without a terminator are not modelled.
- HW1 sockets, `select`, the `fcntl` calls themselves (other processes' locks are any set of slots), and disconnects.
- BoardPrograms.ParseLine: a line longer than its buffer, which the code writes past, is undefined in C and excluded.
- BoardPrograms.Server.Post: excluded is what is undefined in C: over-long fields, a post without any newline, after which an unset index is used, and an unterminated second line in a buffer that holds no NUL past it.
- BoardPrograms.Server.constructor: the memory copy is taken to start out blank; a record file with more than ten records, or with part of one, which these programs never write, is not modelled.
- The judge script, makefiles, sample programs and everything printed only for the user.
