# A verified model of the Xinu kernel core

This project models the process, memory and communication core of Xinu, and three library and network
routines, in Dafny, and proves what the code is meant to guarantee.

**Processes.** Every queue of the kernel (the ready list, the sleep list, one per semaphore) is a doubly
linked list threaded through one shared array in which each process owns one node. `QueueTable.dfy` and
`Queues.dfy` prove the link surgery: an operation on one queue changes that queue as intended and no
other. `KernelSpec.dfy` gives each kernel call as a function on sequences; `Kernel.dfy` has the calls
themselves, over the tables and loops of the code, and proves that they compute those functions.
`KernelInvariants.dfy`, `KernelRuns.dfy`, `KernelFifo.dfy`, `KernelSems.dfy` and `KernelSleep.dfy`
prove what holds in every
state that any run of calls and clock ticks can reach; `KernelMail.dfy` and `KernelTurns.dfy` account over
runs for messages, for turns at the processor and for the clock; `KernelEffects.dfy` and `KernelAnswers.dfy`
say what each call does for its caller and for others, and when it is refused. A run is a sequence of steps; a call is one step up
to the point where it switches to another process, and what it still has to do then is a later step of the
same process. A clock tick can be cut in the same way, inside `wakeup`.

**Ports and buffer pools.** `PortSpec.dfy` to `Ports.dfy`, with `PortAnswers.dfy`, and `BufPoolSpec.dfy`, `BufPools.dfy` do the same
for the bounded message queues and the buffer pools built on semaphores. The subject is the processes that
a semaphore has let through but that have not run yet: slots, messages and buffers promised to them are
part of the accounts. There the semaphores are values of their own; `KernelPorts.dfy` and `KernelBufs.dfy`
put ports and pools on the kernel, their semaphores entries of its table beside all others and its scheduler
deciding who runs, and prove that every such run is one of those.

**Heap.** `HeapSpec.dfy`, `HeapRuns.dfy`, `HeapTouching.dfy` and `Heap.dfy`: first fit from the low end, last fit
from the high end, and release with coalescing, over an address-ordered list kept in the free memory itself.

**Library and network.** `QsortSpec.dfy`, `Qsort.dfy`: the three-way quicksort, in place on bytes.
`DnsSpec.dfy`, `Dns.dfy`: names on the wire, with compression pointers. `TftpSpec.dfy`, `Tftp.dfy`: the
stop-and-wait reader against a bad network. `DecimalSpec.dfy`, `Decimal.dfy`: decimal printing and `atoi`
under 32-bit wraparound.

Assumptions the code states for its callers are preconditions here. The null process never parks itself
(`xinu/fresh-xinu/system/initialize.c:38-44`). Buffers freed are buffers in use. Comparisons given to `qsort`
look only at the bytes of the two elements. One assumption about runs is the model's own: nobody parks while
rescheduling is deferred. `KernelRuns.ApplyInvIff` says that this is exactly what keeps every process in its
place, `KernelRuns.ParkStalls` and `KernelInvariants.StalledStops` what one such call leaves and that the end
of the deferral repairs it; the calls themselves are modelled and proved there too.

Where a property the code suggests is not true of all inputs, the code is modelled as it is and a lemma
says exactly when the property holds: `Queues.SearchStopsIff`, `KernelRuns.ApplyInvIff`,
`KernelSleep.TickExactIff`, `KernelSleep.SleepMsIsExactIff`, `KernelSleep.RecvTimeIsExactIff`,
`PortInvariants.CreateAccountsIff`, `PortInvariants.KillAccountsIff`, `BufPoolSpec.KillAccountsIff`,
`BufPoolSpec.FreeBufSafeIff`, `HeapRuns.GetMemHonestIff`, `HeapRuns.GetStkHonestIff`,
`HeapRuns.FreeMemSafeIff`, `HeapTouching.RestoresIff`, `DnsSpec.QuestionFitsIff`, `DnsSpec.SkipExactIff`,
`DnsSpec.EndsIff`, `Dns.StaysInBufferIff`, `TftpSpec.AlwaysExactIff` and `DecimalSpec.AtoiNeverWrapsIff`.
Under wraparound `atoi` reads back every value `%d` prints, although from 2147483600 on, in absolute value, a
sum on the way does not fit in 32 bits.

`dafny verify dfyconfig.toml` checks the whole project.

## Model

| member | source | states |
|---|---|---|
| `QueueTable.LinkInList` | xinu/fresh-xinu/system/insert.c:22-34 | Linking a process before any member or the tail, by the four link writes, gives a table in which that queue holds it at that place and every other queue is untouched |
| `QueueTable.LinkOutList` | xinu/fresh-xinu/system/getitem.c:53-57 | The two link writes of getitem take the process out of the one queue that holds it and leave every other queue's contents alone; no queue holds it afterwards |
| `QueueTable.InsertNoDup` | xinu/fresh-xinu/system/insert.c:22-34 | Inserting at a place puts the process there once and keeps the order of the rest |
| `QueueTable.UnlinkOne` | xinu/fresh-xinu/system/getitem.c:47-58 | A process is in exactly one queue, so unlinking it removes one member of one list |
| `Queues.Table.constructor` | xinu/fresh-xinu/system/newqueue.c:11 | A table with no queues, in which every process slot is on none |
| `Queues.Table.NewQueue` | xinu/fresh-xinu/system/newqueue.c:14-29 | A new empty queue with its own head and tail, or SYSERR exactly when the table is full; the other queues keep their contents |
| `Queues.Table.FirstIdIs` | xinu/fresh-xinu/include/queue.h:27-32 | The first id of a queue is its first member, or its tail when empty, so isempty, firstid and firstkey answer what they should |
| `Queues.Table.Enqueue` | xinu/fresh-xinu/system/queue.c:18-29 | The process joins at the tail of one queue; SYSERR and no change for a bad queue or process |
| `Queues.Table.Dequeue` | xinu/fresh-xinu/system/queue.c:42-51 | Takes the first member and clears its links; EMPTY for an empty queue; other queues untouched |
| `Queues.Table.GetFirst` | xinu/fresh-xinu/system/getitem.c:16-21 | Takes the first member, or answers EMPTY and changes nothing |
| `Queues.Table.GetLast` | xinu/fresh-xinu/system/getitem.c:35-40 | Takes the last member, or answers EMPTY and changes nothing |
| `Queues.Table.GetItem` | xinu/fresh-xinu/system/getitem.c:53-57 | The process leaves the queue that holds it; keys and all other queues stay |
| `Queues.Table.Insert` | xinu/fresh-xinu/system/insert.c:18-35 | The process goes in front of the first member with a smaller key, that is behind all those with an equal or larger one; SYSERR and no change for bad arguments; only its own key changes |
| `Queues.PlaceIs` | xinu/fresh-xinu/system/insert.c:22-25 | The search stops at the first smaller key, and at the tail because of its key MINKEY |
| `Queues.SearchStopsIff` | xinu/fresh-xinu/system/insert.c:22-25 | The search finds its place in the queue, at the latest at the tail, if and only if the key is not MINKEY; with that key it runs on past the tail, which is why Insert asks for a larger one |
| `Queues.Table.InsertD` | xinu/fresh-xinu/system/insertd.c:18-41 | The process goes behind all whose summed keys do not exceed the delay; it gets what is left of the delay, its successor's key drops by that, and no other key changes |
| `Queues.Table.PassKeyOn` | xinu/fresh-xinu/system/unsleep.c:39-42 | The key of a process about to leave is added to its successor's, if there is one; links and other keys stay |
| `Semaphores.UpNIs` | xinu/fresh-xinu/system/signaln.c:29-33 | n increments raise the count by n and release exactly the n oldest waiters, or all if fewer wait |
| `Semaphores.Released` | xinu/fresh-xinu/system/signal.c:26-28 | With a negative count and a balanced queue signal always finds a waiter to release, and never more than one |
| `KernelInvariants.ReadyNeverEmpty` | xinu/fresh-xinu/system/resched.c:40 | Whenever a switch is forced the ready list holds some process, at the least the null process |
| `KernelInvariants.ReschedPlaced` | xinu/fresh-xinu/system/resched.c:18-44 | After resched with no deferral one process is current and none on the ready list has a higher priority; under deferral nothing moves; queues and states agree |
| `KernelInvariants.ReschedReadied` | xinu/fresh-xinu/system/resched.c:25-43 | resched changes nothing but which of the eligible processes is current |
| `KernelInvariants.MakeReadyPlaced` | xinu/fresh-xinu/system/ready.c:17-28 | A process taken off its queue and readied is on the ready list or running, and the best process runs |
| `KernelInvariants.DeferStartInv` | xinu/fresh-xinu/system/resched.c:61-66 | Starting a deferral keeps every process in its place |
| `KernelInvariants.DeferStopInv` | xinu/fresh-xinu/system/resched.c:68-75 | No reschedule asked for during nested deferral is lost: when the last deferral ends, the best process runs |
| `KernelInvariants.StalledStops` | xinu/fresh-xinu/system/resched.c:68-75 | A caller that gave up the processor under deferral is switched away when the last deferral ends, and every process is then in its place |
| `KernelInvariants.WaitSemInv` | xinu/fresh-xinu/system/wait.c:18-38 | wait keeps states and queues in agreement, counts equal to their queues, and the best process running, if and only if it does not block the null process or a caller that deferred rescheduling |
| `KernelInvariants.SignalInv` | xinu/fresh-xinu/system/signal.c:17-30 | signal keeps the invariant, never dequeues from an empty queue, and changes nobody but the process it releases and whoever then runs |
| `KernelInvariants.SignalNInv` | xinu/fresh-xinu/system/signaln.c:18-36 | n signals under deferral keep the invariant |
| `KernelInvariants.SemResetInv` | xinu/fresh-xinu/system/semreset.c:21-34 | Draining the queue and setting the count keeps the invariant |
| `KernelInvariants.ReleaseAllSems` | xinu/fresh-xinu/system/semdelete.c:30-32 | The release loop of semdelete ends exactly when its queue is empty, so it never readies EMPTY; the entry is left with count max(count, 0) + 1 and no waiters, and other semaphores as they were |
| `KernelInvariants.SemDeleteInv` | xinu/fresh-xinu/system/semdelete.c:17-35 | Deleting a semaphore keeps the invariant |
| `KernelInvariants.SemCreateInv` | xinu/fresh-xinu/system/semcreate.c:18-49 | Creating a semaphore keeps the invariant: a free entry has no waiters |
| `KernelInvariants.SleepMsInv` | xinu/fresh-xinu/system/sleep.c:32-52 | A process that sleeps is on the sleep list and nowhere else, and the best process runs, if and only if it is not the null process and deferred no rescheduling |
| `KernelInvariants.RemoveAsleep` | xinu/fresh-xinu/system/unsleep.c:31-44 | Taking a sleeper off early leaves it on no queue and everyone else in place |
| `KernelInvariants.InsertDeltaFacts` | xinu/fresh-xinu/system/insertd.c:22-39 | Delta insertion adds one sleeper in its place and keeps all keys non-negative |
| `KernelInvariants.RemoveDeltaFacts` | xinu/fresh-xinu/system/unsleep.c:39-44 | Early removal takes out one sleeper and keeps all keys non-negative |
| `KernelInvariants.WakeLoopInv` | xinu/fresh-xinu/system/wakeup.c:14-16 | Releasing every sleeper whose key is used up keeps the invariant |
| `KernelInvariants.TickInv` | xinu/fresh-xinu/system/clkhandler.c:22-51 | A whole clock tick keeps the invariant, also when wakeup switches away in the middle |
| `KernelInvariants.SendInv` | xinu/fresh-xinu/system/send.c:18-40 | Delivering a message keeps the invariant and moves the receiver from wherever it waited to the ready list |
| `KernelInvariants.ReceiveInv` | xinu/fresh-xinu/system/receive.c:16-20 | A process that blocks for a message is on no queue, has none, and the best process runs, under the same condition and only then |
| `KernelInvariants.RecvTimeInv` | xinu/fresh-xinu/system/recvtime.c:17-32 | A timed receive puts its caller on the sleep list and nowhere else, and the best process runs, under the same condition and only then |
| `KernelInvariants.SuspendInv` | xinu/fresh-xinu/system/suspend.c:18-40 | A suspended process is on no queue, and the best process runs, unless it suspends itself under deferral, and only then not |
| `KernelInvariants.ResumeInv` | xinu/fresh-xinu/system/resume.c:18-30 | A resumed process is eligible again |
| `KernelInvariants.KillInv` | xinu/fresh-xinu/system/kill.c:34-55 | A killed process leaves the queue its state names, a waiter gives its semaphore one count back, and the best process runs, unless it kills itself under deferral, and only then not |
| `KernelInvariants.CreateInv` | xinu/fresh-xinu/system/create.c:32-51 | A new process is suspended, on no queue, with priority at least 1 and no message |
| `KernelRuns.ApplyInvIff` | xinu/fresh-xinu/system/resched.c:11-49 | A call keeps the invariant if and only if it does not take the processor from the null process, nor from a caller that deferred rescheduling, without leaving it ready |
| `KernelRuns.ParkStalls` | xinu/fresh-xinu/system/resched.c:18-23 | What such a call leaves under deferral: its caller is on the queue its state names and nevertheless still current, and a reschedule is owed |
| `KernelRuns.StepGood` | xinu/fresh-xinu/system/resched.c:11-49 | Every call by whichever process runs that ApplyInvIff allows, every clock tick, and every later completion of a blocked call keeps the invariant |
| `KernelRuns.RunGood` | xinu/fresh-xinu/system/initialize.c:179-215 | So does every run of such steps, in any order |
| `KernelRuns.BootGood` | xinu/fresh-xinu/system/initialize.c:179-215 | The tables sysinit builds satisfy the invariant |
| `KernelRuns.EveryProcessInItsPlace` | xinu/fresh-xinu/system/kill.c:34-55 | In every reachable state each process is on exactly the queue its state says: ready list, the queue of its semaphore, sleep list, or none, and there once |
| `KernelRuns.BestProcessRuns` | xinu/fresh-xinu/system/resched.c:18-44 | In every reachable state with no deferral outstanding exactly one process is current and its priority is at least that of every ready one |
| `KernelRuns.ReadyIsFifo` | xinu/fresh-xinu/system/insert.c:22-34 | A process made ready goes behind all ready ones of its own priority and in front of those of lower priority |
| `KernelRuns.ReceiveReturnsAMessage` | xinu/fresh-xinu/system/receive.c:17-22 | A process that was blocked in receive and runs again always has a message to return |
| `KernelFifo.StepServed` | xinu/fresh-xinu/system/resched.c:27-43 | In every step the ready list keeps its order, newcomers line up behind everyone of their priority or a higher one, and whoever takes over was ahead of all who stay ready or is of higher priority than they |
| `KernelFifo.NotPassedOver` | xinu/fresh-xinu/system/insert.c:22-34 | Equal priorities are served first come, first served, over every run: while a process stays ready, no process of no higher priority that is not ahead of it gets the processor |
| `KernelSems.CountIsAccounted` | xinu/fresh-xinu/system/wait.c:29-35 | Over any run in which a semaphore is not reset or deleted its count is what it was plus signals, plus killed waiters, minus waits |
| `KernelSems.ReleasedInOrder` | xinu/fresh-xinu/system/signal.c:26-28 | Over any run, kills included, those released, followed by those still waiting, are those waiting at first followed by those who came, in that order and less exactly the waiters killed: first come, first served, also through resets and deletion |
| `KernelSems.SemEffect` | xinu/fresh-xinu/system/signaln.c:26-33 | Each call changes a semaphore in use by its own rule, and every other semaphore not at all |
| `KernelSems.KillStep` | xinu/fresh-xinu/system/kill.c:45-50 | Killing a waiter takes it out of its queue and adds one to the count |
| `KernelSleep.InsertDeadline` | xinu/fresh-xinu/system/insertd.c:22-39 | Inserting a process with a delay gives it that deadline and changes nobody else's, where a deadline is the sum of the keys up to a process |
| `KernelSleep.RemoveDeadline` | xinu/fresh-xinu/system/unsleep.c:39-44 | Early removal changes nobody else's deadline |
| `KernelSleep.TickExactIff` | xinu/fresh-xinu/system/clkhandler.c:35-43 | A tick brings a sleeper's deadline one nearer, or releases it when its time has come, if and only if the first key is at least 1 or its own deadline is already 0 |
| `KernelSleep.TickLost` | xinu/fresh-xinu/system/wakeup.c:13-18 | With a zero key in front, which recvtime(0) leaves, the tick is lost to everyone else |
| `KernelSleep.RecvTimeZeroDelaysOthers` | xinu/fresh-xinu/system/recvtime.c:25-31 | A run from start-up in which that happens: of two processes one calls sleepms(1), the other recvtime(0), and after the next tick the first still sleeps |
| `KernelSleep.TickStep` | xinu/fresh-xinu/system/clkhandler.c:35-43 | In any reachable state a tick brings every sleeper one millisecond nearer, or none if it finds a zero key in front, and makes eligible exactly those with no time left |
| `KernelSleep.PunctualStepIff` | xinu/fresh-xinu/system/recvtime.c:26 | A call puts a zero key in front if and only if it is a recvtime(0) that finds no message |
| `KernelSleep.OthersLeaveDeadline` | xinu/fresh-xinu/system/insertd.c:22-39 | No call of any other process, short of sending to it or killing it, changes a sleeper's deadline |
| `KernelSleep.SleepsOn` | xinu/fresh-xinu/system/clkhandler.c:35-43 | Over any run in which nobody sends to it or kills it, a sleeper's deadline comes nearer by exactly the ticks that found no zero key in front, and it sleeps as long as some of it is left |
| `KernelSleep.WakesOnTick` | xinu/fresh-xinu/system/wakeup.c:13-18 | It is made eligible by exactly the tick with which those ticks have reached its deadline |
| `KernelSleep.SleepMsIsExactIff` | xinu/fresh-xinu/system/sleep.c:43-52 | A process that sleeps for d >= 1 milliseconds is asleep until the d-th later tick and eligible on it if and only if none of the d ticks found a zero key in front, whatever others do meanwhile |
| `KernelSleep.RecvTimeIsExactIff` | xinu/fresh-xinu/system/recvtime.c:24-41 | A process that waits w milliseconds for a message that does not come is asleep until the w-th later tick, the first for w = 0, and eligible on it if and only if w is 0 or none of the ticks found a zero key in front |
| `KernelSleep.NoneLost` | xinu/fresh-xinu/system/recvtime.c:26 | In a run without recvtime(0) none does |
| `KernelEffects.WaitBlocksIff` | xinu/fresh-xinu/system/wait.c:29-35 | wait blocks its caller if and only if the count is not positive; it is then last in the queue and, unless rescheduling is deferred, another process runs; otherwise nothing but the count changes |
| `KernelEffects.SignalLetsOldestThrough` | xinu/fresh-xinu/system/signal.c:26-28 | signal lets the oldest waiter through, if any waits, and every other waiter of any semaphore still waits |
| `KernelEffects.SignalNLetsNThrough` | xinu/fresh-xinu/system/signaln.c:28-34 | signaln lets the n oldest waiters through, or all, and no others |
| `KernelEffects.SemResetLetsAllThrough` | xinu/fresh-xinu/system/semreset.c:26-32 | semreset lets every waiter through, no waiter of another semaphore, and sets the count |
| `KernelEffects.SemDeleteLetsAllThrough` | xinu/fresh-xinu/system/semdelete.c:27-33 | semdelete lets every waiter through, no waiter of another semaphore, and frees the entry |
| `KernelEffects.FindSemIff` | xinu/fresh-xinu/system/semcreate.c:40-49 | The circular search finds an entry if and only if one is free |
| `KernelEffects.FindPidIff` | xinu/fresh-xinu/system/create.c:112-120 | The circular search finds a slot if and only if one is free |
| `KernelEffects.CreateMakes` | xinu/fresh-xinu/system/create.c:32-51 | create fails exactly for a priority below 1, with every slot taken, or without a stack; otherwise one free slot becomes a suspended process of that priority and no other process changes |
| `KernelEffects.ResumeUndoesSuspend` | xinu/fresh-xinu/system/suspend.c:25-37 | A suspended process is on no queue and does not run, except the caller itself under deferral; resume makes it eligible again with its priority |
| `KernelEffects.KillFrees` | xinu/fresh-xinu/system/kill.c:34-55 | A killed process is free and on no queue |
| `KernelEffects.SendDelivers` | xinu/fresh-xinu/system/send.c:18-38 | send fails exactly for a bad process or one that still has a message, and then changes nothing; otherwise the message is there and a process that waited for one is eligible |
| `KernelEffects.SentIsFound` | xinu/fresh-xinu/system/send.c:23-31 | A message that was sent is what its receiver finds, over any run up to then, whoever else sends to it meanwhile |
| `KernelMail.CollectTakes` | xinu/fresh-xinu/system/receive.c:21-24 | A step of receive, recvtime or recvclr that answers a message leaves none waiting and changes nothing else |
| `KernelMail.CollectsNothing` | xinu/fresh-xinu/system/recvtime.c:24-41 | One that finds none answers none: receive and recvtime block, a completed recvtime and recvclr change nothing |
| `KernelMail.MailStep` | xinu/fresh-xinu/system/send.c:23-31 | In every step the message that waits for a process and the one sent to it are the one answered to it, or lost with its slot, and the one that waits then |
| `KernelMail.EachMessageOnce` | xinu/fresh-xinu/system/receive.c:16-24 | Over any run the messages sent to a process successfully are those answered to it and the one that still waits, in order and each once, unless a new process takes over its slot with a message in it |
| `KernelMail.SendBetweenReceipts` | xinu/fresh-xinu/system/send.c:23-31 | Between two messages answered to a process lies a successful send to it |
| `KernelMail.ReceivedAreSent` | xinu/fresh-xinu/system/receive.c:16-24 | From start-up on what a process was answered are the first of the messages sent to it |
| `KernelTurns.CallEnds` | xinu/fresh-xinu/system/resched.c:18-48 | Every call reschedules at most once, at its end, and does so, unless that is deferred, whenever it has made a process eligible |
| `KernelTurns.ReadyGivesWay` | xinu/fresh-xinu/system/ready.c:22-27 | When a step makes any process eligible and nothing is deferred, the process that was running goes on only if everyone ready is of lower priority, and otherwise is behind all of its own |
| `KernelTurns.YieldRotates` | xinu/fresh-xinu/system/sleep.c:36-39 | yield and sleepms of 0 run the first ready process if it is of the caller's priority, with the caller ready behind all of that priority, and otherwise change nothing; under deferral they only ask for a reschedule |
| `KernelTurns.DeferralEnds` | xinu/fresh-xinu/system/resched.c:59-75 | A deferral, nested or not, in which nobody asks for a reschedule changes nothing; one in which the caller yields ends as if it had yielded without it |
| `KernelTurns.QuantumStep` | xinu/fresh-xinu/system/resched.c:40-43 | Whoever takes over the processor has a whole quantum; whoever keeps it loses of it what ticks take, and nothing else |
| `KernelTurns.RoundRobin` | xinu/fresh-xinu/system/clkhandler.c:48-51 | While a process runs and another of its priority is first on the ready list, fewer ticks pass than are left of its quantum |
| `KernelTurns.TickFinishes` | xinu/fresh-xinu/system/clkhandler.c:40-51 | A tick cut short by a switch in wakeup is finished when its process runs again, and no other is |
| `KernelTurns.ClockCounts` | xinu/fresh-xinu/system/clkhandler.c:22-31 | Over every run the seconds, in 32 bits, and the milliseconds count all ticks and nothing else |
| `KernelAnswers.RefusedChangesNothing` | xinu/fresh-xinu/system/send.c:18-28 | A call for which the code answers SYSERR, for whatever reason, changes nothing but where the next search for a free entry begins |
| `KernelAnswers.SemCreateMakes` | xinu/fresh-xinu/system/semcreate.c:18-27 | semcreate fails exactly for a negative count or with every entry in use; otherwise one free entry is in use with that count and no waiters, and nothing else has changed |
| `KernelAnswers.FirstFreeSem` | xinu/fresh-xinu/system/semcreate.c:40-49 | newsem takes the first free entry from where the last search ended, and the next begins behind it |
| `KernelAnswers.FirstFreePid` | xinu/fresh-xinu/system/create.c:112-120 | newpid takes the first free slot from there on, and the next search begins behind it |
| `KernelAnswers.SemCreateTakesNext` | xinu/fresh-xinu/system/semcreate.c:18-27 | semcreate answers that entry |
| `KernelAnswers.CreateTakesNext` | xinu/fresh-xinu/system/create.c:32-36 | create answers that slot, and the search has moved on even if there is then no stack |
| `KernelAnswers.BootMakes` | xinu/fresh-xinu/system/initialize.c:179-215 | At start-up there is the null process, which runs, and nothing else |
| `KernelAnswers.SleepsBehind` | xinu/fresh-xinu/system/insertd.c:22-39 | A new sleeper goes behind exactly those whose deadline is not later than its own |
| `KernelAnswers.TickWakesInOrder` | xinu/fresh-xinu/system/wakeup.c:13-18 | Of two sleepers that one tick wakes the first on the list is served first, unless the other is of higher priority |
| `KernelCalls.Kernel.constructor` | xinu/fresh-xinu/system/initialize.c:179-215 | The tables as built at start-up hold the initial state |
| `KernelCalls.Kernel.Resched` | xinu/fresh-xinu/system/resched.c:18-48 | The code over the shared table takes the abstract state to that of resched, whose properties are the lemmas above |
| `KernelCalls.Kernel.DeferStart` | xinu/fresh-xinu/system/resched.c:61-66 | Counts the deferral and clears the request only for the outermost one |
| `KernelCalls.Kernel.DeferStop` | xinu/fresh-xinu/system/resched.c:68-75 | SYSERR without a deferral; reschedules when the last one ends and one was asked for |
| `KernelCalls.Kernel.MakeReady` | xinu/fresh-xinu/system/ready.c:17-28 | ready over the shared table; SYSERR for a bad process |
| `KernelCalls.Kernel.WaitSem` | xinu/fresh-xinu/system/wait.c:18-38 | wait over the shared table; SYSERR for a bad or free semaphore |
| `KernelCalls.Kernel.Signal` | xinu/fresh-xinu/system/signal.c:17-30 | signal over the shared table |
| `KernelCalls.Kernel.SignalN` | xinu/fresh-xinu/system/signaln.c:18-36 | The signalling loop performs exactly n signals |
| `KernelCalls.Kernel.SemReset` | xinu/fresh-xinu/system/semreset.c:21-34 | The draining loop readies every waiter, oldest first, before the count is set |
| `KernelCalls.Kernel.SemDelete` | xinu/fresh-xinu/system/semdelete.c:17-35 | The loop on the count readies every waiter of the deleted semaphore |
| `KernelCalls.Kernel.NewSem` | xinu/fresh-xinu/system/semcreate.c:40-49 | The circular search finds the first free entry from the static index on, or none |
| `KernelCalls.Kernel.SemCreate` | xinu/fresh-xinu/system/semcreate.c:18-27 | SYSERR for a negative count, before any entry is taken, or when none is free |
| `KernelCalls.Kernel.SleepMs` | xinu/fresh-xinu/system/sleep.c:32-52 | sleepms over the shared table: SYSERR, yield as KernelTurns.YieldRotates says, or delta insertion and a switch |
| `KernelCalls.Kernel.Unsleep` | xinu/fresh-xinu/system/unsleep.c:24-46 | unsleep over the shared table; SYSERR for a process that is not asleep |
| `KernelCalls.Kernel.Wakeup` | xinu/fresh-xinu/system/wakeup.c:13-18 | The loop readies exactly the leading sleepers whose keys are used up |
| `KernelCalls.Kernel.ClkHandler` | xinu/fresh-xinu/system/clkhandler.c:22-51 | One tick over the shared table, up to a switch inside wakeup |
| `KernelCalls.Kernel.ClkHandlerRest` | xinu/fresh-xinu/system/clkhandler.c:48-51 | The preemption counter: its decrement, and the reschedule when the quantum is used up |
| `KernelCalls.Kernel.Send` | xinu/fresh-xinu/system/send.c:18-40 | send over the shared table: SYSERR when the receiver still has a message |
| `KernelCalls.Kernel.Receive` | xinu/fresh-xinu/system/receive.c:16-20 | receive up to its switch |
| `KernelCalls.Kernel.TakeMessage` | xinu/fresh-xinu/system/receive.c:21-24 | receive from there on: the message, which no longer waits afterwards |
| `KernelCalls.Kernel.RecvTime` | xinu/fresh-xinu/system/recvtime.c:17-32 | recvtime up to its switch; SYSERR for a negative wait |
| `KernelCalls.Kernel.RecvTimeRest` | xinu/fresh-xinu/system/recvtime.c:36-43 | recvtime from there on: the message or TIMEOUT |
| `KernelCalls.Kernel.RecvClr` | xinu/fresh-xinu/system/recvclr.c:16-24 | The pending message or OK, and no message waits afterwards |
| `KernelCalls.Kernel.Suspend` | xinu/fresh-xinu/system/suspend.c:18-40 | suspend over the shared table; SYSERR unless the process is current or ready |
| `KernelCalls.Kernel.Resume` | xinu/fresh-xinu/system/resume.c:18-30 | resume over the shared table; SYSERR unless the process is suspended |
| `KernelCalls.Kernel.Yield` | xinu/fresh-xinu/system/yield.c:13-16 | A voluntary reschedule |
| `KernelCalls.Kernel.Kill` | xinu/fresh-xinu/system/kill.c:34-55 | Removal by state over the shared table |
| `KernelCalls.Kernel.NewPid` | xinu/fresh-xinu/system/create.c:112-120 | The circular search finds the first free slot from the static index on, or none |
| `KernelCalls.Kernel.Create` | xinu/fresh-xinu/system/create.c:32-51 | The table entry of a new process; SYSERR for a priority below 1, no free slot, or no stack |
| `PortInvariants.SendEnterInv` | xinu/fresh-xinu/system/ptsend.c:20-30 | Entering ptsend keeps the port's accounts: free slots, slots promised to senders and queued messages make up the limit; queued messages are those counted and those promised to receivers |
| `PortInvariants.SendFinishInv` | xinu/fresh-xinu/system/ptsend.c:30-57 | Completing ptsend keeps them, or fails without touching the port when it was reset meanwhile |
| `PortInvariants.RecvEnterInv` | xinu/fresh-xinu/system/ptrecv.c:19-29 | Entering ptrecv keeps them |
| `PortInvariants.RecvFinishInv` | xinu/fresh-xinu/system/ptrecv.c:29-46 | Completing ptrecv keeps them, and a receiver let through never finds the queue empty |
| `PortInvariants.ClearEnterInv` | xinu/fresh-xinu/system/ptclear.c:21-42 | Putting a port in limbo, splicing its messages to the free list and releasing its senders keeps every port in order |
| `PortInvariants.ClearHalfInv` | xinu/fresh-xinu/system/ptclear.c:43-46 | So does releasing its receivers |
| `PortInvariants.ClearFinishInv` | xinu/fresh-xinu/system/ptclear.c:48 | And opening it again or freeing it |
| `PortInvariants.CreateInv` | xinu/fresh-xinu/system/ptcreate.c:19-45 | A new port starts with its accounts in order |
| `PortInvariants.CreateAccountsIff` | xinu/fresh-xinu/system/ptcreate.c:35-39 | It does so if and only if its size fits in the 16 bits ptmaxcnt has |
| `PortInvariants.KillWaitingInv` | xinu/fresh-xinu/system/kill.c:45-50 | Killing a process that still waits in a port call keeps the accounts |
| `PortInvariants.KillPromised` | xinu/fresh-xinu/system/kill.c:51-54 | With a process that was let through but has not run the slot or message promised to it is lost |
| `PortInvariants.KillAccountsIff` | xinu/fresh-xinu/system/kill.c:34-55 | Killing any process keeps all ports in order if and only if it was not let through into the port as it is now: an idle one, a waiting one, one that clears a port, and one that will find its port reset do no harm |
| `PortRuns.RunInv` | xinu/fresh-xinu/system/ptsend.c:20-58 | Every interleaving of sends, receives, resets, deletions, creations and harmless kills keeps all accounts |
| `PortRuns.InitInv` | xinu/fresh-xinu/system/ptinit.c:29-43 | They hold after ptinit |
| `PortRuns.BoundHolds` | xinu/fresh-xinu/system/ptsend.c:29-56 | In every reachable state an allocated port never holds more messages than its limit, and promises exactly what it has |
| `PortRuns.NodesPartitioned` | xinu/fresh-xinu/system/ptclear.c:34-38 | In every reachable state each node ptinit made is on the free list or in one message list, once, so lists are disjoint and acyclic, also after whole lists are spliced back |
| `PortRuns.PortIsFifo` | xinu/fresh-xinu/system/ptrecv.c:37-44 | Between resets the messages handed out by whatever step are exactly the first of those linked, in order, each once, and the queue holds the others |
| `PortRuns.SeqnoGrows` | xinu/fresh-xinu/system/ptclear.c:23 | Each reset, deletion and re-creation leaves a larger sequence number |
| `PortRuns.StaleCallFails` | xinu/fresh-xinu/system/ptsend.c:30-35 | A call blocked across a reset, or a delete and re-create, fails and touches neither the new generation's queue nor the node list |
| `PortRuns.NeverOutOfNodes` | xinu/fresh-xinu/system/ptsend.c:36-38 | If the limits of the allocated ports add up to no more than the nodes there are, ptsend never runs out of nodes |
| `PortRuns.SomeRunPanics` | xinu/fresh-xinu/system/ptsend.c:36-38 | If they add up to more and nobody is inside a port call, some run of senders reaches the panic |
| `PortRuns.CreateOpensIff` | xinu/fresh-xinu/system/ptcreate.c:19-45 | ptcreate fails exactly for a negative size or with every port taken; otherwise it opens a port that was free, empty, of a later sequence number and with all its room, and changes nothing else |
| `PortAnswers.SendEnterAnswers` | xinu/fresh-xinu/system/ptsend.c:20-30 | ptsend fails at once exactly when the id is out of range or its port not allocated, and then changes nothing; otherwise it waits, behind all others, exactly when queued messages and promised slots leave no room |
| `PortAnswers.SendFinishAnswers` | xinu/fresh-xinu/system/ptsend.c:30-57 | A sender let through fails exactly when its port was cleared meanwhile, and changes nothing; otherwise its message is the last one queued, or no node is free |
| `PortAnswers.RecvEnterAnswers` | xinu/fresh-xinu/system/ptrecv.c:19-29 | ptrecv fails at once likewise; otherwise it waits, behind all others, exactly when every queued message is promised to another receiver |
| `PortAnswers.RecvFinishAnswers` | xinu/fresh-xinu/system/ptrecv.c:29-47 | A receiver let through fails exactly when its port was cleared meanwhile, and changes nothing; otherwise it is handed the first message queued and the others stay |
| `PortAnswers.OnlyFinishesAnswer` | xinu/fresh-xinu/system/ptrecv.c:46-47 | No other step hands out a message or reports one sent |
| `PortAnswers.ClearEnterAnswers` | xinu/fresh-xinu/system/ptclear.c:21-42 | ptreset and ptdelete fail exactly when the id is out of range or its port not allocated, and then change nothing; otherwise the port is in limbo, of a later sequence number and empty, its nodes are free, and exactly those who waited to send go on |
| `PortAnswers.ClearHalfAnswers` | xinu/fresh-xinu/system/ptclear.c:43-46 | Then exactly those who waited to receive go on |
| `PortAnswers.ClearFinishAnswers` | xinu/fresh-xinu/system/ptdelete.c:18-26 | A port that was reset is open, empty and has all its room; one that was deleted is free and the first that ptcreate opens next |
| `PortAnswers.FirstFreePort` | xinu/fresh-xinu/system/ptcreate.c:25-33 | ptcreate takes the first free entry from where the last search ended, and the next begins behind it |
| `PortAnswers.CreateTakesNext` | xinu/fresh-xinu/system/ptcreate.c:25-45 | ptcreate answers that entry |
| `PortAnswers.InitMakes` | xinu/fresh-xinu/system/ptinit.c:29-43 | ptinit makes as many nodes as it is asked for, all free and each once, and leaves every port free |
| `Ports.PortTable.constructor` | xinu/fresh-xinu/system/ptinit.c:29-43 | The loop links all nodes into the free list |
| `Ports.PortTable.PtSend` | xinu/fresh-xinu/system/ptsend.c:20-30 | ptsend up to its wait, over the port table; it fails at once exactly when the id is out of range or its port not allocated |
| `Ports.PortTable.PtSendRest` | xinu/fresh-xinu/system/ptsend.c:30-58 | ptsend from there on: takes a node, hangs it behind the last one, signals a receiver; or fails, or panics |
| `Ports.PortTable.PtRecv` | xinu/fresh-xinu/system/ptrecv.c:19-29 | ptrecv up to its wait; it fails at once exactly when the id is out of range or its port not allocated |
| `Ports.PortTable.PtRecvRest` | xinu/fresh-xinu/system/ptrecv.c:29-47 | ptrecv from there on: the first message, its node back to the free list, a sender signalled; or fails |
| `Ports.PortTable.PtClear` | xinu/fresh-xinu/system/ptclear.c:21-42 | The first part of _ptclear for reset and delete, with the messages handed to the disposal function in order |
| `Ports.PortTable.PtClearHalf` | xinu/fresh-xinu/system/ptclear.c:43-46 | Its second semaphore |
| `Ports.PortTable.PtClearRest` | xinu/fresh-xinu/system/ptdelete.c:23-26 | Its new state, and for ptdelete the next id to try |
| `Ports.PortTable.PtCreate` | xinu/fresh-xinu/system/ptcreate.c:19-45 | The circular search for a free entry, and its initialisation |
| `KernelPorts.SendFinishSim` | xinu/fresh-xinu/system/ptsend.c:30-57 | On the kernel's own semaphores, named by ids: completing ptsend, with its signal and the switch that may follow, is the completion PortSpec describes, and the caller had been let through |
| `KernelPorts.ClearEnterSim` | xinu/fresh-xinu/system/ptclear.c:21-45 | So is the first half of a reset or a deletion, which releases every waiter of the kernel's semaphore or deletes it |
| `KernelPorts.CreateSim` | xinu/fresh-xinu/system/ptcreate.c:19-45 | So is ptcreate, with the entries its two calls of semcreate find |
| `KernelPorts.KillSim` | xinu/fresh-xinu/system/kill.c:34-55 | So is the kernel's kill of a process inside a port call |
| `KernelPorts.KernSim` | xinu/fresh-xinu/system/resched.c:11-49 | Every other kernel call, every tick and every switch leaves the ports and whoever is inside a port call as they are |
| `KernelPorts.ActSim` | xinu/fresh-xinu/system/ptsend.c:20-58 | Every step of the kernel with ports on it is, for the ports, one step of PortRuns or none, and keeps kernel and ports in order |
| `KernelPorts.RunSim` | xinu/fresh-xinu/system/ptsend.c:20-58 | Every run of the kernel with ports on it, in whatever order the scheduler lets processes run, is for the ports a run of PortRuns, so that all that is proved there holds in the kernel |
| `KernelPorts.StartInv` | xinu/fresh-xinu/system/ptinit.c:29-43 | The kernel as sysinit leaves it, after ptinit, is where those runs begin |
| `KernelPorts.PortBoundInKernel` | xinu/fresh-xinu/system/ptsend.c:29-56 | In every reachable state of the kernel the counts of a port's two semaphores in semtab, what is promised and what is queued make up its limit |
| `BufPoolSpec.NewPoolOk` | xinu/fresh-xinu/system/mkbufpool.c:28-52 | mkbufpool carves exactly numbufs buffers of at least the size asked for, disjoint and inside the block getmem gave for them |
| `BufPoolSpec.MkBufPoolMakesIff` | xinu/fresh-xinu/system/mkbufpool.c:20-54 | mkbufpool fails exactly for a size outside 8 to 8192 or a number outside 1 to 2048, with all 20 pools taken, without memory and without a semaphore, and then changes nothing; otherwise the next id names a pool whose buffers, of the size rounded up to words, fill the block one behind the other and are all free |
| `BufPoolSpec.GetBufEnterAnswers` | xinu/fresh-xinu/system/getbuf.c:21-30 | getbuf fails exactly for an id that no pool has, and then changes nothing; otherwise it waits, behind all others, exactly when every buffer on the list is promised to another getter |
| `BufPoolSpec.FreeBufAnswers` | xinu/fresh-xinu/system/freebuf.c:19-36 | freebuf fails exactly when the word in front of the buffer is no pool's id, and then changes nothing; otherwise the buffer is first on that pool's list and whoever waited longest goes on |
| `BufPoolSpec.MkBufPoolInv` | xinu/fresh-xinu/system/mkbufpool.c:20-54 | A new pool keeps every pool in order |
| `BufPoolSpec.GetBufEnterInv` | xinu/fresh-xinu/system/getbuf.c:21-30 | Entering getbuf does |
| `BufPoolSpec.GetBufFinishInv` | xinu/fresh-xinu/system/getbuf.c:31-42 | A getter let through never finds the list empty, and the buffer it takes was in nobody's use |
| `BufPoolSpec.FreeBufInv` | xinu/fresh-xinu/system/freebuf.c:21-38 | A buffer in use goes back to the pool it came from, and is never refused |
| `BufPoolSpec.FreeBufSafeIff` | xinu/fresh-xinu/system/freebuf.c:23-36 | Of any address freebuf keeps every pool in order if and only if the word in front is no pool's id, and it fails, or the address is that of a buffer of that pool in use |
| `BufPoolSpec.KillAccountsIff` | xinu/fresh-xinu/system/kill.c:45-54 | Killing any process keeps every pool in order if and only if it is not inside getbuf with its wait over |
| `BufPoolSpec.RunInv` | xinu/fresh-xinu/system/getbuf.c:21-42 | Every interleaving keeps all pools in order |
| `BufPoolSpec.FreeListLength` | xinu/fresh-xinu/system/getbuf.c:30-35 | In every reachable state a pool's list is as long as max(count, 0) plus the getters let through |
| `BufPoolSpec.EveryBufferOnce` | xinu/fresh-xinu/system/freebuf.c:34-36 | In every reachable state each buffer is on its own pool's list or in use, exactly one of the two |
| `BufPoolSpec.HoldersNeverShare` | xinu/fresh-xinu/system/getbuf.c:39-42 | In every reachable state two buffers in use share no byte |
| `BufPools.PoolTable.CarveBlock` | xinu/fresh-xinu/system/mkbufpool.c:45-52 | The loop links the buffers in address order, the last to NULL, and writes nothing outside the block |
| `BufPools.PoolTable.MkBufPool` | xinu/fresh-xinu/system/mkbufpool.c:20-54 | mkbufpool over the pool table and memory, with all its error exits; it asks getmem for exactly the bytes of the buffers and gives the block back exactly when it gets no semaphore |
| `BufPools.PoolTable.GetBuf` | xinu/fresh-xinu/system/getbuf.c:21-30 | getbuf up to its wait |
| `BufPools.PoolTable.GetBufRest` | xinu/fresh-xinu/system/getbuf.c:31-42 | getbuf from there on: unlink, tag, and the address after the tag |
| `BufPools.PoolTable.FreeBuf` | xinu/fresh-xinu/system/freebuf.c:21-38 | SYSERR and no change for a word that is no pool's id; otherwise, for a buffer in use, links it in front and signals |
| `KernelBufs.MakeSim` | xinu/fresh-xinu/system/mkbufpool.c:29-54 | On the kernel's own semaphores mkbufpool is that of BufPoolSpec, failing when semcreate finds no entry |
| `KernelBufs.FreeSim` | xinu/fresh-xinu/system/freebuf.c:34-36 | freebuf, with its signal and the switch that may follow, is that of BufPoolSpec |
| `KernelBufs.RunSim` | xinu/fresh-xinu/system/getbuf.c:21-42 | Every run of the kernel with buffer pools on it is for the pools a run of BufPoolSpec |
| `KernelBufs.PoolAccountsInKernel` | xinu/fresh-xinu/system/getbuf.c:30-35 | In every reachable state of the kernel a pool's list is as long as the count of its semaphore in semtab and the getters let through say, and a getter that runs on finds it not empty |
| `HeapSpec.RoundMbIs` | xinu/fresh-xinu/include/memory.h:9 | Rounding is up to a multiple of 8 for requests up to 0xFFFFFFF8, and wraps to 0 beyond |
| `HeapSpec.SameBytesSameList` | xinu/fresh-xinu/system/freemem.c:51-67 | Two ordered lists of blocks that do not touch and have the same free bytes are the same list |
| `HeapRuns.GetMemIs` | xinu/fresh-xinu/system/getmem.c:17-49 | getmem fails exactly for a request of 0 bytes and when no block is as large as the rounded size, and otherwise takes exactly that size, 0 when the rounding wraps, from the start of the lowest block that is |
| `HeapRuns.GetMemHonestIff` | xinu/fresh-xinu/system/getmem.c:22-43 | A request that gets an address gets that many bytes if and only if its rounding does not wrap; beyond that it gets the first block's address and nothing is taken |
| `HeapRuns.GetMemWrapExample` | xinu/fresh-xinu/system/getmem.c:22-43 | A concrete request for which that happens |
| `HeapRuns.GetStkIs` | xinu/fresh-xinu/system/getstk.c:18-51 | getstk likewise from the end of the highest block that is large enough |
| `HeapRuns.GetStkNothing` | xinu/fresh-xinu/system/getstk.c:18-23 | Of 0 bytes it fails and changes nothing |
| `HeapRuns.GetStkHonestIff` | xinu/fresh-xinu/system/getstk.c:24-50 | A stack request that gets an address gets that many bytes if and only if its rounding does not wrap; beyond that it gets the last word of the last block and nothing is taken |
| `HeapRuns.ClashesIff` | xinu/fresh-xinu/system/freemem.c:41-44 | The check against the two neighbours finds every overlap with any free block |
| `HeapRuns.FreeMemIs` | xinu/fresh-xinu/system/freemem.c:19-69 | With a rounding that does not wrap and an end that is an address, freemem refuses exactly a size of 0, an address outside the heap and a region with a byte already free, and then changes nothing; otherwise exactly that region joins the free bytes and the list is in order, merged on both sides, again, aligned or not |
| `HeapRuns.FreeMemSafeIff` | xinu/fresh-xinu/system/freemem.c:25-67 | What freemem accepts leaves the list in order with every free byte still free if and only if the end of the rounded region is an address, and the rounding did not wrap to 0 or the region begins where a free block ends, and then nothing changes |
| `HeapRuns.FreeMemInOrderIff` | xinu/fresh-xinu/system/freemem.c:25-67 | It leaves a list in order at all if and only if that holds or the block below is lengthened by so much that its length wraps as well |
| `HeapRuns.FreeAgainAcceptedIff` | xinu/fresh-xinu/system/freemem.c:35-43 | A region whose first byte is free is accepted if and only if it begins at a free block and its rounded size is 0 or its end wraps around, which the check against the next block does not see |
| `HeapRuns.FreeHeldSucceeds` | xinu/fresh-xinu/system/freemem.c:43-47 | Whoever gives back bytes they hold, part of a block or several blocks at once, is never refused |
| `HeapRuns.DoInv` | xinu/fresh-xinu/system/getmem.c:26-47 | Every allocation of any size and every release of any granules that are held keeps the list ordered, disjoint, granular, unmerged nowhere, and every byte free or held exactly once |
| `HeapRuns.NeverShared` | xinu/fresh-xinu/system/getstk.c:30-51 | Over any run of these no byte is held twice or both held and free, and the total is accounted for |
| `HeapRuns.EverythingReturned` | xinu/fresh-xinu/system/freemem.c:28-67 | Any run that has given everything back, in any order and in any pieces, leaves the very list it started with |
| `HeapRuns.FreeUndoesGet` | xinu/fresh-xinu/include/memory.h:16-19 | freestk undoes getstk and freemem undoes getmem exactly |
| `HeapTouching.TouchingBlocksMerge` | xinu/fresh-xinu/system/meminit.c:93-140 | From every ordered list with two blocks that touch, which meminit can build, some run that gives everything back ends in another list |
| `HeapTouching.RestoresIff` | xinu/fresh-xinu/system/meminit.c:93-140 | Every run that gives everything back restores the list it started with if and only if no two of its blocks touch |
| `HeapMemory.Memory.GetMem` | xinu/fresh-xinu/system/getmem.c:17-49 | First fit over the links in memory, with the total in the list head kept up |
| `HeapMemory.Memory.GetStk` | xinu/fresh-xinu/system/getstk.c:18-51 | The scan for the last fit, and the cut at its high end |
| `HeapMemory.Memory.FreeMem` | xinu/fresh-xinu/system/freemem.c:19-69 | The walk, the overlap check, linking and both merges in 32-bit arithmetic over the links in memory, for every size; when the region begins at a free block and is accepted, that block ends up linked to itself |
| `HeapMemory.Memory.LinkFreed` | xinu/fresh-xinu/system/freemem.c:49-67 | Merging below or linking in, then merging above |
| `Qsort.Qsort` | xinu/fresh-xinu/lib/qsort.c:13-23 | For every comparison the call ends, leaves the same elements, touches no byte past them and nests at most log2(n) deep; for a total preorder the elements are in order |
| `Qsort.Qs1` | xinu/fresh-xinu/lib/qsort.c:29-110 | The same for a range, and nothing outside it moves |
| `Qsort.Round` | xinu/fresh-xinu/lib/qsort.c:43-105 | Only the smaller side, at most half the range, is sorted by a recursive call; the other is left to the next round |
| `Qsort.Split` | xinu/fresh-xinu/lib/qsort.c:47-109 | The loop leaves [a,lp) below, [lp,hp] equal to and (hp,l) above the pivot, and only reorders a..l |
| `Qsort.ScanRight` | xinu/fresh-xinu/lib/qsort.c:67-90 | From the label on: works down from j, growing the middle block or exchanging with the waiting left end |
| `Qsort.QsExc` | xinu/fresh-xinu/lib/qsort.c:124-133 | Exchanges two elements byte by byte, which may be the same element |
| `Qsort.QstExc` | xinu/fresh-xinu/lib/qsort.c:150-161 | Rotates three elements byte by byte, of which the last two may be the same |
| `QsortSpec.TieLeft` | xinu/fresh-xinu/lib/qsort.c:55-59 | A tie on the left joins the middle block, also when it is next to it |
| `QsortSpec.TieRight` | xinu/fresh-xinu/lib/qsort.c:70-74 | A tie on the right joins the middle block |
| `QsortSpec.ShiftUp` | xinu/fresh-xinu/lib/qsort.c:77-82 | An element below on the right with no place on the left moves the middle block up by one |
| `QsortSpec.Exchange` | xinu/fresh-xinu/lib/qsort.c:83-86 | An element above on the left and one below on the right change places |
| `QsortSpec.ShiftDown` | xinu/fresh-xinu/lib/qsort.c:107-108 | An element above on the left with no place on the right moves the middle block down by one |
| `QsortSpec.OneSideLeft` | xinu/fresh-xinu/lib/qsort.c:94-103 | Once split and one side sorted, only pairs inside the other side can still be out of order |
| `QsortSpec.HalfDeep` | xinu/fresh-xinu/lib/qsort.c:94-103 | Recursing on at most half keeps the depth logarithmic |
| `QsortSpec.SwapElems` | xinu/fresh-xinu/lib/qsort.c:127-133 | Exchanging bytes exchanges elements |
| `QsortSpec.RotateElems` | xinu/fresh-xinu/lib/qsort.c:154-161 | Rotating bytes rotates elements |
| `Dns.DnsBldq` | xinu/fresh-xinu/net/dns.c:98-148 | Writes exactly the wire form of the name with, behind its zero and in network order, type A and class IN, and answers the packet length; SYSERR if and only if the name has 500 characters or more |
| `DnsSpec.QuestionAsksForAddress` | xinu/fresh-xinu/net/dns.c:128-144 | Behind the zero that ends the name, where the skipping loop leaves the name when its labels have 1 to 63 characters, the two 16-bit fields in network order are type A and class IN |
| `DnsSpec.SplitIsIff` | xinu/fresh-xinu/net/dns.c:115-125 | The labels written are the one list of labels without dots that gives the name when joined by dots |
| `DnsSpec.LabelStands` | xinu/fresh-xinu/net/dns.c:115-125 | Where each label stands in the question, behind a byte with its length modulo 256 |
| `DnsSpec.QuestionFitsIff` | xinu/fresh-xinu/net/dns.c:112-116 | Of the names it accepts, the question fits the 500-byte data area if and only if the name has at most 494 characters |
| `DnsSpec.QuestionReadsBack` | xinu/fresh-xinu/net/dns.c:288-321 | What was written for a name with labels of 1 to 63 characters reads back as the name, from anywhere in a packet, and is skipped exactly |
| `DnsSpec.SkipExactIff` | xinu/fresh-xinu/net/dns.c:176-208 | For labels below 256 characters the skipping loop passes over exactly the bytes written if and only if every label has 1 to 63 characters |
| `Dns.SkipQuestions` | xinu/fresh-xinu/net/dns.c:176-208 | The loop over qcount questions |
| `Dns.SkipsAll` | xinu/fresh-xinu/net/dns.c:172-208 | It passes over exactly as many questions as there are, for any names with labels of 1 to 63 characters |
| `Dns.SkipQuestion` | xinu/fresh-xinu/net/dns.c:178-207 | Passes over the labels, or the first pointer, and the type and class |
| `Dns.DnsGetRname` | xinu/fresh-xinu/net/dns.c:288-321 | For every name that ends: writes the text of the fully expanded name to the buffer with a NUL in place of its last dot, and changes nothing else in memory, except that the NUL of the root name, which has no dot, goes to the byte in front of the buffer; answers only the bytes the name occupies in place |
| `Dns.StaysInBufferIff` | xinu/fresh-xinu/net/dns.c:315-319 | It writes to its buffer alone, whatever the memory holds, if and only if the name has a label |
| `DnsSpec.EndsIff` | xinu/fresh-xinu/net/dns.c:304-313 | A name ends if and only if its chain of pointers does not come back to a name it has been at and does not leave the packet |
| `DnsSpec.CompressionTransparent` | xinu/fresh-xinu/net/dns.c:304-313 | A compressed name reads the same as the name written out in full |
| `DnsSpec.PointerReads` | xinu/fresh-xinu/net/dns.c:304-313 | Labels followed by a pointer read as those labels and the name at its 14-bit target, and take up two bytes more than the labels in place |
| `DnsSpec.SplitDotted` | xinu/fresh-xinu/net/dns.c:115-125 | Splitting a name at its dots and joining the labels again gives the name |
| `TftpSpec.AlwaysExactIff` | xinu/fresh-xinu/net/tftp.c:178-253 | Every successful transfer reports the exact size and has consumed each block once, in order, if and only if the file has at most 65536 blocks; beyond that a network that repeats the first packets makes the reader report a wrong size |
| `TftpSpec.SuccessIsExact` | xinu/fresh-xinu/net/tftp.c:178-253 | For such files, over a network that loses, repeats and reorders packets, with servers following sections 2 and 6 of RFC 1350 |
| `TftpSpec.InStepRun` | xinu/fresh-xinu/net/tftp.c:203-252 | At every point of such a run the reader holds exactly the first blocks of the file |
| `TftpSpec.GivesUpIff` | xinu/fresh-xinu/net/tftp.c:61-93 | The reader gives up if and only if a send or a receive fails, an error packet comes, or three receives time out in waiting for one block |
| `TftpSpec.SendsInTurn` | xinu/fresh-xinu/net/tftp.c:228-236 | Whatever it sends is the request until the first block has come, and then the acknowledgement of the last block that has; and it sends only at the start, after a block and after a timeout |
| `TftpSpec.DeliveredIsRead` | xinu/fresh-xinu/net/tftp.c:178-253 | When no send fails and the socket brings every block before the third timeout, a reader that comes to an end has the whole file, of whatever size |
| `TftpSpec.WireReadsBack` | xinu/fresh-xinu/net/tftp.c:163-173 | A server reads from the bytes sent the request, in octet mode, or the acknowledgement that was meant |
| `Tftp.FormRequest` | xinu/fresh-xinu/net/tftp.c:163-173 | The request as bytes: opcode in network order, file name and mode, each with its NUL, and its length |
| `Tftp.FormAck` | xinu/fresh-xinu/net/tftp.c:228-232 | The acknowledgement as bytes: opcode and block number in network order, over what was in the buffer before |
| `Tftp.TftpSend1` | xinu/fresh-xinu/net/tftp.c:49-94 | Sends once and returns only the data packet with the number expected, an error, or a timeout, discarding all else |
| `Tftp.TryThrice` | xinu/fresh-xinu/net/tftp.c:179-199 | At most three sends, one more after each timeout |
| `Tftp.StoreBlock` | xinu/fresh-xinu/net/tftp.c:212-218 | The buffer gets the bytes it has room for, and every byte is counted |
| `Tftp.TakeBlock` | xinu/fresh-xinu/net/tftp.c:203-226 | Each block goes to the buffer or to the user's function, the last one marked |
| `Tftp.TftpGet` | xinu/fresh-xinu/net/tftp.c:128-253 | Fails before sending anything exactly for bad arguments, and else exactly when a send or a receive fails, an error packet comes, or three receives time out in waiting for one block; when no send fails and every block comes in time it returns the size of the file, and the buffer holds its first bytes, as many as fit; and so does every success over the network of TftpSpec |
| `DecimalSpec.DigitsUnique` | xinu/fresh-xinu/lib/doprnt.c:301-305 | The text of a number is the one string of digits without superfluous zeros that stands for it |
| `Decimal.Prtl10` | xinu/fresh-xinu/lib/doprnt.c:294-305 | Writes exactly the digits of the absolute value and a NUL, for every 32-bit value, the most negative one included |
| `Decimal.PrintD` | xinu/fresh-xinu/lib/doprnt.c:130-138 | %d puts out the exact signed decimal |
| `Decimal.PrintU` | xinu/fresh-xinu/lib/doprnt.c:150-166 | %u puts out the exact unsigned decimal |
| `Decimal.TakeBillions` | xinu/fresh-xinu/lib/doprnt.c:156-162 | The loop ends, and the billions taken off with wraparound plus what is left make up the unsigned value |
| `DecimalSpec.AddLead` | xinu/fresh-xinu/lib/doprnt.c:164 | Adding k to the first digit adds k at its place, with no carry |
| `Decimal.AtoiLoop` | xinu/fresh-xinu/lib/atoi.c:11-33 | Blanks, a sign, and digits summed with 32-bit wraparound |
| `DecimalSpec.AtoiOfSigned` | xinu/fresh-xinu/lib/atoi.c:28-33 | atoi reads back what %d prints, for every 32-bit value |
| `DecimalSpec.AtoiReads` | xinu/fresh-xinu/lib/atoi.c:11-33 | Of any string atoi reads blanks and tabs, one sign or none, and the digits up to the first other character, and answers their value with 32-bit wraparound |
| `DecimalSpec.SumsFitIff` | xinu/fresh-xinu/lib/atoi.c:28-31 | Reading digits, no sum n * 10 + c leaves 32 bits on the way if and only if the value is at most 2^31 - 49 |
| `DecimalSpec.AtoiNeverWrapsIff` | xinu/fresh-xinu/lib/atoi.c:28-31 | So of the values %d prints it is exactly those up to 2147483599 in absolute value that are read back without a sum out of range |
| `DecimalSpec.LargestWraps` | xinu/fresh-xinu/lib/atoi.c:28-31 | For 2147483647 a sum is out of range and the answer nevertheless right |

## Left out

- KernelCalls.Kernel.Kill: models lines 34-55 of kill.c as one step; the message to the parent, the closing of devices and the release of the stack before them can switch context and are not part of it.
- KernelCalls.Kernel.Create: models the table entry only; whether getstk finds a stack is a parameter, and the building of the stack frame is not part of the model.
- KernelCalls.Kernel.ClkHandler: the test of the timer's interrupt status is not part of the model; every call is a tick.
- KernelCalls.Kernel.SleepMs: keys are unbounded integers; the code's have 32 bits, which delays of at most 2^31 - 1 milliseconds and their sums up to a deadline never leave.
- KernelCalls.Kernel.WaitSem: counts are unbounded integers; wrap-around of a semaphore count after 2^31 signals is not modelled.
- Ports.PortTable.PtCreate: the two semaphores of a port are held as values with the transitions proved of the kernel's semaphores, not as ids; sequence numbers do not wrap around.
- KernelPorts.CreateSim: a ptcreate for which semcreate finds no entry, whose answer the code stores unchecked, is excluded; nobody else uses the semaphores of ports, and a process that was let through and has not run on is not killed.
- Ports.PortTable.PtClear: the disposal function's effects are not modelled; the messages it is called with are returned in order.
- BufPools.PoolTable.MkBufPool: the answers of getmem and semcreate are parameters, the latter that of the kernel in KernelBufs.MakeSim; the block getmem answers is assumed to overlap no pool's, which HeapRuns.NeverShared proves of it.
- BufPools.PoolTable.FreeBuf: an address that is no buffer in use but has some pool's id in front of it is excluded, after which BufPoolSpec.FreeBufSafeIff says no pool is in order; users are assumed not to write over the four bytes in front of their buffer.
- HeapMemory.Memory.FreeMem: a region that ends exactly where the address space does, with no free block above it, is excluded: the code then reads through the NULL link. The head of the list has an address of its own below the heap.
- Tftp.TftpGet: UDP registration and the port number replies come from are parameters or left out; the reported size is an unbounded integer, which is that of the code for files below 2 GiB; messages to the console are left out.
- Dns.DnsGetRname: names that do not end and reads outside the packet are excluded by its precondition, which DnsSpec.EndsIff characterises; memory has at least one byte in front of the buffer.
- Queues.Table.Insert: the key MINKEY is excluded, with which the code's search runs past the tail, as Queues.SearchStopsIff says.
- KernelRuns.StepGood: runs end where a call parks its caller under deferral; what the code does from there on, other than ending the deferral, is not followed.
- Decimal.PrintD: field widths, fill characters and justification are not modelled.
- Decimal.PrintU: signed overflow in the billion loop is taken to wrap around, as the code relies on.
- chprio, which changes a priority without re-sorting the ready list, is not a call of the model: priorities are fixed at creation.
- sleep(seconds) is sleepms after a range check.
- ctxsw, interrupt masks and the stack are not modelled; disable and restore are step boundaries.
- The answer section of dns_geta, and dnslookup's retries.
- The checksum code, ARP, ICMP, DHCP and UDP tables, device drivers, the shell and the remote file servers.
- The other conversions of _doprnt, and fdoprnt.c, which nearly repeats it.
