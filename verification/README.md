# Verified model of the Embedded Xinu kernel core

Embedded Xinu is a small uniprocessor operating system kernel.  Threads switch
only inside `resched`, so a kernel call is one atomic step up to the `resched`
or `wait` that it makes; a call that goes on after a switch (`receive`,
`recvtime`, `kill`, the mailbox, monitor and buffer-pool calls) is two steps.
This project models four parts of it and proves what they promise over all
inputs and all runs.

**Threads, semaphores, sleep and messages.**  `Queues.dfy` and
`QueueTable.dfy` show that the doubly linked lists threaded through the one
array `quetab` implement plain sequences, one per queue.  `KernelTables.dfy`
is the kernel's tables as an object whose methods update them in place; every
method is proved equal to a step of `KernelState.dfy`.  `KernelInvariant.dfy`
proves that every step keeps the kernel invariant, `KernelRuns.dfy` that it
holds in every state of every run from boot, and draws the consequences.
`Scheduling.dfy` (priorities, round robin, order of waiters),
`DeltaQueues.dfy` and `SleepRuns.dfy` (delta coding and exact wake-up) and
`Messages.dfy` (conservation of messages) build on it.  `CallEffects.dfy` says
what each call does to the threads and semaphores it is about, without naming
the steps; `EffectRuns.dfy`, `TimedReceives.dfy` and `ThreadCounts.dfy` carry
that over whole runs.

**Heaps.**  `FreeBlocks.dfy` is the theory of canonical block lists: sorted,
disjoint, never adjacent.  `Heap.dfy` is `memget`, `stkget` and `memfree` on a
linked list in memory, `HeapRuns.dfy` their runs.  `RegionLists.dfy`,
`Regions.dfy` and `RegionTable.dfy` are the page allocator, whose records are
indexed by page and held on two doubly linked lists.

**Resource protocols.**  `Mailbox.dfy`, `Monitor.dfy` and `BufferPool.dfy`
prove the protocols over semaphores for every interleaving of any number of
threads; `Semaphores.dfy` is the semaphore they use, and
`Scheduling.KernelSemaphore` shows that the kernel's semaphores behave as it
does.  `Common.dfy` holds what several parts share.

**Shell.**  `Lexer.dfy` is the lexical analyzer with its round trip.

## Assumptions

- Words have 32 bits, and `struct memblock` and `struct poolbuf` have 8 bytes.
- Critical sections nest: leaving an inner one does not end an outer one.
- `resdefer` is 0.
- Table sizes (NTHREAD, NSEM, ...) are parameters.
- Callers: the null thread makes no blocking call (system/initialize.c:63-66);
  `ready` is applied to a thread that is neither running nor in a queue, and,
  for what concerns messages and time, to suspended threads only; `unsleep` is
  called only by the kernel itself; priorities are above MINKEY and timeouts at
  most MAXKEY; threads unlock only monitors that they have locked; a pool is
  not freed, nor a mailbox slot reallocated, under its users.

## Where the code does less than it seems to promise

Each of these is proved as an exact condition, or with a concrete run.

- `kill` has no case for a thread in a timed receive: it is marked free while
  still in the sleep queue (`KernelInvariant.RemoveExactly`); a run from boot
  gets there (`KernelRuns.TimedVictimReached`).  Runs assume that no such
  thread is removed.
- `kill` counts a thread that two threads kill at once twice, and so may halt
  the system early (`ThreadCounts.ThreadsCounted`, `ThreadCounts.HaltsEarly`).
- `ready` and `unsleep` break the invariant for threads in other states
  (`KernelInvariant.ReadyKeeps`, `KernelInvariant.UnsleepExactly`), and `create`
  for the priority MINKEY (`KernelInvariant.CreateKeeps`).
- `chprio` does not move a ready thread in the ready list (`Scheduling.ChprioStale`).
- `recvtime(0)` without a message, and nothing else, puts a zero delta at the
  head of the sleep queue (`SleepRuns.HeadStaysPositive`) and delays all others
  by a tick (`SleepRuns.TickStalls`, `SleepRuns.LateWakeup`).
- `sleep(ms)` wraps above 4294967 ms (`SleepRuns.SleepTicksExact`).
- The guard of `queinit` admits one call too many (`QueueTables.QueinitGuard`).
- `roundmb` wraps to 0 for the last seven sizes (`Heaps.RoundMb`), the slice
  size of a buffer pool for the last eleven (`BufferPools.SliceSizeFits`); so do
  the products that size a pool (`BufferPools.PoolBytesExact`) and a mailbox
  (`Mailboxes.RingBytesExact`).
- `memfree` tests neither the alignment nor the end of the range
  (`Heaps.Heap.Memfree`, `Heaps.FreeBeyondHeap`).
- `memRegionInit` is right only for a page-aligned start (`Regions.InitExact`);
  `memRegionAlloc` passes over exact fits and, for a request that rounds to 0,
  puts one record without pages on both lists (`RegionTables.RegionTable.Alloc`,
  `Regions.SplitAliases`).
- A thread that locks a monitor between an unlock and the run of the thread it
  released leaves the monitor stuck for good (`Monitors.StuckForever`,
  `Monitors.StuckRun`).
- The lexer reads one character behind the line, which matters exactly when a
  quote is open there (`Lexer.StaleExact`, `Lexer.StaleMatters`), and a
  last word that is not followed by anything is a syntax error (`Lexer.LexExact`).

## Model

| member | source | states |
|---|---|---|
| `QueueTables.QueueTable.Queinit` | system/queinit.c:15-35 | appends one empty queue to the queues held by the table, at the next pair of sentinel slots, and leaves all other queues and keys alone |
| `QueueTables.QueinitGuard` | system/queinit.c:22-25 | the guard admits exactly one call more than the table has room for |
| `QueueTables.QueueTable.Getitem` | system/getitem.c:65-76 | removes a thread from the middle of its queue; every other queue and all keys are unchanged |
| `QueueTables.QueueTable.Getfirst` | system/getitem.c:17-32 | removes and returns the head; EMPTY and SYSERR exactly for an empty queue and a bad id |
| `QueueTables.QueueTable.Getlast` | system/getitem.c:41-56 | removes and returns the tail; EMPTY and SYSERR exactly for an empty queue and a bad id |
| `QueueTables.QueueTable.Dequeue` | system/queue.c:47-67 | head removal on the queue's sequence, all other queues unchanged |
| `QueueTables.QueueTable.Enqueue` | system/queue.c:21-38 | append on the queue's sequence, all other queues unchanged; SYSERR and no change for a bad queue or thread |
| `QueueTables.QueueTable.Insert` | system/insert.c:20-43 | stable descending insertion: before the first strictly smaller key, after all equal ones |
| `QueueTables.QueueTable.FindBelow` | system/insert.c:30-34 | the unguarded search loop stops, for every key above MINKEY, at the first smaller key |
| `QueueTables.QueueTable.FindDelta` | system/insertd.c:30-37 | the delta search loop finds the position and the rest of the delta that DeltaPos specifies |
| `QueueTables.QueueTable.Insertd` | system/insertd.c:20-49 | delta insertion: queue and keys become DeltaQueue and DeltaKeys of the old ones |
| `Queues.LinkInInserts` | system/insert.c:36-41 | the four link writes insert one thread in one queue and leave every other queue's sequence as it was |
| `Queues.LinkOutRemoves` | system/getitem.c:65-76 | the two link writes remove one thread from its queue and leave every other queue's sequence as it was |
| `DeltaQueues.InsertdTimes` | system/insertd.c:30-46 | the newcomer's remaining time is the delta asked for, it stands after exactly those due no later, every other sleeper keeps its absolute time, no delta is negative |
| `DeltaQueues.InsertdOrder` | system/insertd.c:32-37 | a sleeper is passed over exactly when its absolute time is at most the new one |
| `DeltaQueues.InsertdOther` | system/insertd.c:43-46 | inserting leaves every other sleeper's absolute time unchanged |
| `DeltaQueues.InsertdNonNegative` | system/insertd.c:32-46 | inserting a delta of at least 0 keeps all deltas non-negative |
| `DeltaQueues.RemovalOther` | system/unsleep.c:41-47 | early removal leaves every other sleeper's absolute time unchanged |
| `DeltaQueues.RemovalNonNegative` | system/send.c:45-54 | early removal keeps all deltas non-negative |
| `KernelTables.Tables.constructor` | system/initialize.c:103-161 | boot makes the NSEM+2 queues, disjoint and exactly filling the table, and a state that satisfies the kernel invariant |
| `KernelTables.Tables.MakeReadyThread` | system/ready.c:19-35 | state READY and an insertion in the ready list by priority |
| `KernelTables.Tables.ReadyCall` | system/ready.c:19-35 | `ready` is the step ReadyThread, SYSERR exactly for a bad thread |
| `KernelTables.Tables.BeatsFirst` | system/resched.c:41-42 | whether the running thread outranks the first ready key |
| `KernelTables.Tables.Switch` | system/resched.c:52-54 | switches to the first ready thread, which always exists |
| `KernelTables.Tables.ReschedCall` | system/resched.c:26-63 | `resched` is the step Resched and keeps the invariant |
| `KernelTables.Tables.WaitCall` | system/wait.c:28-53 | `wait` is the step SemWait and keeps the invariant; SYSERR exactly for a bad semaphore |
| `KernelTables.Tables.SignalOnce` | system/signal.c:38-48 | one signal without its reschedule: count and queue of that semaphore, ready list |
| `KernelTables.Tables.SignalCall` | system/signal.c:27-56 | `signal` is the step SemSignal and keeps the invariant |
| `KernelTables.Tables.SignalnCall` | system/signaln.c:29-58 | `signaln(s, n)` is n signals without reschedule followed by one `resched` |
| `KernelTables.Tables.ReleaseOne` | system/semfree.c:39-47 | one round of the drain loop releases the first waiter and keeps the invariant up to the count |
| `KernelTables.Tables.SemfreeCall` | system/semfree.c:26-53 | `semfree` releases every waiter, leaves the slot free with count 0 and an empty queue, and keeps the invariant |
| `KernelTables.Tables.Semalloc` | system/semcreate.c:53-69 | marks used the first free slot behind the cursor, cyclically, and fails only when none is free |
| `KernelTables.Tables.SemcreateCall` | system/semcreate.c:27-45 | on success exactly one slot of the table changes, to a used semaphore with the count asked for; no change on either failure |
| `KernelTables.Tables.EnterSleep` | system/sleep.c:36-42 | the running thread joins the sleep queue by delta and changes state |
| `KernelTables.Tables.SleepCall` | system/sleep.c:27-50 | `sleep` is the step SleepFor, with the 32-bit product of the code |
| `KernelTables.Tables.LeaveSleep` | system/unsleep.c:41-47 | the successor inherits the delta and the thread is unlinked |
| `KernelTables.Tables.UnsleepCall` | system/unsleep.c:21-50 | `unsleep` is the step Unsleep; SYSERR for a bad thread and for one not asleep |
| `KernelTables.Tables.FirstDue` | system/wakeup.c:21 | whether the first sleeper has no time left |
| `KernelTables.Tables.WakeFirst` | system/wakeup.c:21-24 | one round of `wakeup`: the first sleeper becomes ready |
| `KernelTables.Tables.WakeupCall` | system/wakeup.c:19-27 | wakes every sleeper at the front without time left, then reschedules |
| `KernelTables.Tables.Clkhandler` | system/clkhandler.c:29-48 | one clock interrupt is the step ClockTick on the delta queue and keeps the invariant; seconds and ticks together count the interrupts |
| `KernelTables.Tables.LowerFirst` | system/clkhandler.c:41 | the decrement of the first key is the step Ticked; when the key stays positive there is nobody to wake |
| `KernelTables.Tables.CountTick` | system/clkhandler.c:29-37 | the two counters together go up by one, and the ticks stay below a second |
| `KernelTables.Tables.SendCall` | system/send.c:19-64 | `send` is the step Send, OK exactly when the receiver is live and has no message |
| `KernelTables.Tables.WakeReceiver` | system/send.c:45-58 | the branch for a thread in a timed receive: taken out of the sleep queue, made ready, rescheduled |
| `KernelTables.Tables.ReceiveCall` | system/receive.c:17-35 | `receive` up to its reschedule; returns the message at once exactly when there is one |
| `KernelTables.Tables.ReceiveRest` | system/receive.c:31-34 | the rest of `receive` always finds a message and returns it |
| `KernelTables.Tables.RecvtimeCall` | system/recvtime.c:19-47 | `recvtime` up to its reschedule, including the negative timeout |
| `KernelTables.Tables.RecvtimeRest` | system/recvtime.c:48-58 | returns the message if there is one and TIMEOUT otherwise |
| `KernelTables.Tables.RecvclrCall` | system/recvclr.c:17-35 | returns and clears the message, or NOMSG |
| `KernelTables.Tables.Thrnew` | system/create.c:101-115 | returns the first free slot behind the cursor, cyclically, and fails only when none is free |
| `KernelTables.Tables.CreateCall` | system/create.c:55-93 | the new entry is a suspended child of the caller with the priority asked for and no message, no other entry changes, and none on failure; the invariant is kept if and only if it fails or the priority is above MINKEY |
| `KernelTables.Tables.SuspendCall` | system/suspend.c:19-49 | a ready or running thread other than the null thread ends up suspended, in no queue and not running; otherwise SYSERR |
| `KernelTables.Tables.ResumeCall` | system/resume.c:19-37 | `resume` is the step Resume and keeps the invariant |
| `KernelTables.Tables.ChprioCall` | system/chprio.c:18-35 | changes the priority of that one entry to the new one and returns the old one; queues and keys stay |
| `KernelTables.Tables.KillCall` | system/kill.c:23-45 | `kill` up to and including its `send` to the parent |
| `KernelTables.Tables.RemoveThread` | system/kill.c:49-67 | whatever its state, the victim ends up free and not running, and, unless it was in a timed receive, in no queue |
| `KernelTables.Tables.KillRest` | system/kill.c:49-69 | the rest of `kill` on the state the victim is in by then |
| `KernelInvariant.ReschedKeeps` | system/resched.c:37-54 | `resched` keeps the kernel invariant |
| `KernelInvariant.WaitKeeps` | system/wait.c:39-51 | `wait` keeps the kernel invariant, whatever the count |
| `KernelInvariant.SignalKeeps` | system/signal.c:38-50 | `signal` keeps the kernel invariant |
| `KernelInvariant.SignalnKeeps` | system/signaln.c:40-56 | `signaln` keeps the kernel invariant |
| `KernelInvariant.SemFreeKeeps` | system/semfree.c:37-50 | `semfree` keeps the kernel invariant |
| `KernelInvariant.SleepKeeps` | system/sleep.c:32-48 | `sleep` keeps the kernel invariant |
| `KernelInvariant.TickKeeps` | system/clkhandler.c:41-48 | a clock tick keeps the kernel invariant |
| `KernelInvariant.SendKeeps` | system/send.c:24-63 | `send` keeps the kernel invariant, early removal from the sleep queue included |
| `KernelInvariant.RecvtimeKeeps` | system/recvtime.c:24-46 | `recvtime` keeps the kernel invariant |
| `KernelInvariant.SuspendKeeps` | system/suspend.c:22-47 | `suspend` keeps the kernel invariant |
| `KernelInvariant.ResumeKeeps` | system/resume.c:24-35 | `resume` keeps the kernel invariant |
| `KernelInvariant.CreateKeeps` | system/create.c:66-77 | `create` keeps the invariant if and only if the priority is above MINKEY |
| `KernelInvariant.ReadyKeeps` | system/ready.c:24-34 | `ready` keeps the invariant if and only if its thread is bad, or neither running nor in a queue |
| `KernelInvariant.UnsleepExactly` | system/unsleep.c:28-49 | `unsleep` by itself keeps the invariant if and only if it fails: it leaves the state of the thread to its caller |
| `KernelInvariant.RemoveExactly` | system/kill.c:49-67 | removing a victim keeps the invariant if and only if it is not in a timed receive; otherwise it is marked free while still in the sleep queue |
| `KernelRuns.StepInv` | system/resched.c:26-63 | every enabled call keeps the kernel invariant, `ready` on any thread that is in no queue included |
| `KernelRuns.WideRunInv` | include/queue.h:8-14 | the invariant holds in every state of every run from boot in which `ready` may wake any thread that is in no queue |
| `KernelRuns.RunGood` | include/queue.h:8-14 | with `ready` on suspended threads only, the invariant and what goes with saved contexts hold in every state of every run |
| `KernelRuns.StateFixesQueue` | include/queue.h:8-14 | in every reachable state a thread is in a queue exactly when that queue goes with its state; no thread is in two queues or twice in one; exactly the current thread is CURR |
| `KernelRuns.SemaphoreLaw` | system/wait.c:41-47 | in every reachable state a used semaphore has max(0, -count) waiters and a free one none |
| `KernelRuns.NullThreadAlwaysRuns` | system/resched.c:52 | in every reachable state the null thread is READY or CURR, and `resched` never dequeues from an empty list |
| `KernelRuns.ResumedReceiveHasMessage` | system/receive.c:24-32 | in every run, a thread that continues in `receive` has a message |
| `KernelRuns.TimedVictimReached` | system/kill.c:45-49 | a run from boot reaches a `kill` whose victim is in a timed receive |
| `KernelRuns.TimedVictimBreaks` | system/kill.c:49-67 | finishing such a `kill` breaks the invariant |
| `CallEffects.ReschedSwitches` | system/resched.c:37-54 | a reschedule changes at most two entries: a ready thread becomes current in place of the running one, and every other queue stays |
| `CallEffects.ReadyEffect` | system/ready.c:30-32 | `ready` puts exactly its thread into the ready list and changes no other entry or queue |
| `CallEffects.ResumeEffect` | system/resume.c:26-35 | a suspended thread becomes ready or running, and no other entry but the switched ones changes; any other call does nothing |
| `CallEffects.SuspendEffect` | system/suspend.c:24-47 | a ready or running thread becomes suspended and is in no queue; from READY nothing else changes at all |
| `CallEffects.RemoveEffect` | system/kill.c:49-67 | the victim is free in every case and, unless in a timed receive, in no queue; unless it was running no other entry changes and nobody else is moved |
| `CallEffects.KillCallEffect` | system/kill.c:27-45 | an accepted `kill` counts one thread less and is under way against its victim, or halts exactly when two threads were counted |
| `CallEffects.CreateEffect` | system/create.c:66-77 | the new thread is a suspended child of the caller with the priority asked for |
| `CallEffects.ChprioEffect` | system/chprio.c:30-32 | one priority changes and nothing else |
| `CallEffects.SendEffect` | system/send.c:30-62 | an accepted message is in the slot; a blocked receiver becomes ready or running, any other keeps its state |
| `CallEffects.ReceiveEffect` | system/receive.c:24-33 | without a message the caller is blocked in `receive` and off the processor; with one it takes it and goes on |
| `CallEffects.ReturnEffect` | system/recvtime.c:48-58 | going on after the switch empties the slot, leaves the call and changes nothing else |
| `CallEffects.WaitEffect` | system/wait.c:41-48 | a `wait` without a token puts its caller, waiting, at the end of the queue; with one it changes no entry |
| `CallEffects.SignalEffect` | system/signal.c:38-50 | the longest waiter becomes ready or running |
| `CallEffects.SignalnEffect` | system/signaln.c:40-56 | the first n waiters become ready or running |
| `CallEffects.SemfreeEffect` | system/semfree.c:37-50 | the semaphore is free and exactly its waiters become ready |
| `CallEffects.SemaphoreStep` | system/semcreate.c:38-41 | every step does to every semaphore exactly what its call says, and nothing to the others |
| `EffectRuns.ParkedStays` | system/resume.c:26-35 | in every run from boot a suspended, receiving or free thread keeps its state, and does not run, until a step addressed to it |
| `EffectRuns.SuspendedStays` | system/suspend.c:36-47 | in every run from boot a suspended thread never runs until it is resumed, made ready or removed |
| `EffectRuns.VictimIsFree` | system/kill.c:49-67 | in every run from boot, when a `kill` returns its victim is free and in no queue |
| `EffectRuns.KillCompletes` | system/kill.c:23-70 | in every run from boot, a thread that calls `kill(t)` and later continues has freed t when its call returns |
| `EffectRuns.NewSemaphore` | system/semcreate.c:27-45 | in every run from boot, while nobody signals or frees a new semaphore, a `wait` on it blocks if and only if as many waits as its count came before |
| `ThreadCounts.ThreadsCounted` | system/kill.c:34-37 | in every run from boot `thrcount` is 1 plus creates less accepted kills and at most the number of live threads, equal to it if and only if every accepted kill has removed a live thread |
| `ThreadCounts.HaltsWithLast` | system/kill.c:34-37 | while that is so, `kill` halts the system exactly when its victim is the last thread besides the null thread |
| `ThreadCounts.HaltsEarly` | system/kill.c:34-37 | two kills of one thread count it twice: a run from boot halts with three live threads |
| `ThreadCounts.FreesOnly` | system/kill.c:49-67 | only the end of a `kill` frees a thread, and only its victim |
| `Scheduling.ReschedPicksTop` | system/resched.c:39-54 | after `resched` the running priority is at least that of every ready thread, as long as no key is stale |
| `Scheduling.StepFresh` | system/resched.c:39-54 | every step that reschedules leaves the highest priority running, and every step but a stale `chprio` keeps all ready keys equal to the priorities |
| `Scheduling.HighestPriorityRuns` | system/resched.c:39-54 | in every run from boot in which no `chprio` changed the priority of a ready thread, after every step that reaches `resched` the running priority is at least that of every ready thread |
| `Scheduling.ChprioStale` | system/chprio.c:31-32 | `chprio` leaves a stale key if and only if it changes the priority of a ready thread |
| `Scheduling.YieldRotates` | system/yield.c:16-20 | a yield moves the running thread to the back of its priority group |
| `Scheduling.RoundRobin` | system/resched.c:39-54 | n threads of the top priority that only yield run each exactly once in n turns |
| `Scheduling.KernelSemaphore` | system/signal.c:38-50 | `wait`, `signal` and the kill of a waiter act on a semaphore as the semaphores that the resource protocols use |
| `Scheduling.SignalnReleases` | system/signaln.c:40-56 | `signaln(s, n)` adds n and releases the first min(n, length) waiters in order |
| `Scheduling.StepMoves` | system/signal.c:38-50 | a step changes a semaphore queue only by appending the caller, dropping a prefix or removing a killed thread |
| `Scheduling.NoOvertaking` | system/wait.c:41-47 | in every run waiters leave in arrival order: one behind another stays behind it |
| `SleepRuns.TickLowers` | system/clkhandler.c:41-48 | with a positive head delta, a tick lowers every remaining time by one and wakes exactly those with one tick left |
| `SleepRuns.TickStalls` | system/clkhandler.c:41-48 | with a zero delta at the head, a tick wakes those without time left and delays everybody else by exactly one tick |
| `SleepRuns.StepKept` | system/send.c:45-56 | no call but a tick changes the remaining time of a sleeper that it does not take out |
| `SleepRuns.HeadStaysPositive` | system/recvtime.c:30-38 | from a state whose first sleeper has time left, a step leads to one whose first sleeper has none if and only if it is a `recvtime(0)` that finds no message |
| `SleepRuns.ZeroAtHead` | system/recvtime.c:30-38 | such a call puts its caller, with a zero delta, in front of all sleepers |
| `SleepRuns.TimedExactly` | system/recvtime.c:24-38 | in a run from boot the head delta is positive all along if and only if every `recvtime(0)` finds a message |
| `SleepRuns.AlwaysTimed` | system/recvtime.c:24-38 | in every run from boot in which every `recvtime(0)` finds a message the head delta is positive |
| `SleepRuns.AlwaysCoded` | system/insertd.c:30-46 | in every run from boot no delta is negative |
| `SleepRuns.LateBound` | system/clkhandler.c:41-48 | over every run from boot, each zero timeout makes at most one tick stall, and nothing else does |
| `SleepRuns.TickStep` | system/clkhandler.c:41-48 | a tick, reschedule included, lowers every remaining time by one, or by none when it stalls, and readies exactly those without time left |
| `SleepRuns.LateWakeup` | system/wakeup.c:21-24 | in every run from boot, zero timeouts included, a sleeper with r ticks left is asleep until, and ready after, tick r plus the number of stalled ticks |
| `SleepRuns.ExactWakeup` | system/wakeup.c:21-24 | in every run from boot in which every `recvtime(0)` finds a message, a sleeper with r ticks left is asleep until, and ready after, the r-th tick |
| `SleepRuns.SleepTicksExact` | system/sleep.c:32 | the tick count equals the milliseconds if and only if there are at most 4294967 |
| `SleepRuns.SleepEnters` | system/sleep.c:32-42 | `sleep(ms)` leaves its caller in the sleep queue with exactly ms ticks left |
| `SleepRuns.SleepEndsLate` | system/sleep.c:32-42 | in every run from boot a thread that calls `sleep(ms)` becomes ready at tick ms plus the number of stalled ticks |
| `SleepRuns.SleepEndsOnTime` | system/sleep.c:32-42 | in every run from boot in which every `recvtime(0)` finds a message, a thread that calls `sleep(ms)` becomes ready at exactly the ms-th tick |
| `SleepRuns.RecvtimeEnters` | system/recvtime.c:30-40 | `recvtime(m)` without a message leaves its caller in the sleep queue, in a timed receive with exactly m ticks left |
| `SleepRuns.RecvtimeEndsLate` | system/recvtime.c:30-40 | in every run from boot it stays there, unless a message or a kill reaches it, until tick m plus the number of stalled ticks, which makes it ready |
| `TimedReceives.TimesOut` | system/recvtime.c:48-58 | in every run from boot, if no message is accepted for its caller meanwhile, the call returns TIMEOUT, and not before that tick |
| `TimedReceives.SlotStays` | system/send.c:30-36 | the slot of a live thread changes only when a message is accepted for it or it takes one itself |
| `Messages.StepConserves` | system/send.c:30-59 | every step keeps: accepted messages = received messages, in order, plus the pending one |
| `Messages.MessagesConserved` | system/receive.c:24-32 | in every run from boot no message is lost, invented, duplicated or reordered while its receiver lives |
| `Heaps.Heap.constructor` | system/initialize.c:106-112 | boot makes one free block that spans the heap |
| `Heaps.Heap.FindFirst` | system/memget.c:41-67 | the walk stops at the lowest block that is long enough |
| `Heaps.Heap.Memget` | system/memget.c:27-70 | fails, changing nothing, exactly when no block is long enough; otherwise takes the low part of the lowest fit; the list stays canonical and its length right |
| `Heaps.Heap.FindLast` | system/stkget.c:48-58 | the scan finds the highest block that is long enough |
| `Heaps.Heap.Stkget` | system/stkget.c:29-81 | fails exactly when no block is long enough; otherwise takes the top of the highest fit and returns its last word |
| `Heaps.Heap.FindAround` | system/memfree.c:47-53 | the walk finds the neighbours of an address |
| `Heaps.Heap.PutBetween` | system/memfree.c:73-93 | the relinking puts the range in and merges it on both sides |
| `Heaps.Heap.Memfree` | system/memfree.c:29-96 | rejects, changing nothing, exactly an empty range, one that starts outside the heap or one that meets a free block; otherwise the list is the merged one; it stays valid if and only if the range was aligned and ended in the heap |
| `Heaps.Heap.Stkfree` | include/memory.h:30-33 | with 4-byte words, frees the range below the given last word |
| `Heaps.RoundMb` | system/memget.c:37 | rounds up to a multiple of 8 and wraps to 0 above 0xFFFFFFF8 |
| `Heaps.BlockHolds` | system/memget.c:37 | a request whose size was computed in 32 bits gets a block that large if and only if nothing wraps |
| `Heaps.FreeBeyondHeap` | system/memfree.c:35-37 | the list stays aligned and inside the heap if and only if the freed range is aligned and ends there |
| `Heaps.WrappedTestExact` | system/memfree.c:65-66 | with the 32-bit sum of the code the overlap test is exact if and only if the range does not wrap, or the block in front decides, or no block is behind |
| `FreeBlocks.CanonicalUnique` | system/memfree.c:75-93 | canonical lists that cover the same addresses are equal |
| `FreeBlocks.NeighbourTestExact` | system/memfree.c:65-66 | the test on the two neighbours holds if and only if the range meets any free block |
| `FreeBlocks.FreedCanonical` | system/memfree.c:75-93 | freeing a range that meets no free block keeps the list sorted, disjoint and never adjacent |
| `FreeBlocks.FreedCovers` | system/memfree.c:73-93 | freeing adds exactly the range, in addresses and in total length |
| `FreeBlocks.TakenCanonical` | system/memget.c:45-64 | taking from either end of a block keeps the list canonical |
| `FreeBlocks.TakenCovers` | system/stkget.c:67-78 | taking removes exactly the range, in addresses and in total length |
| `FreeBlocks.TakeThenFree` | system/memfree.c:75-93 | freeing what was taken, low or high, restores the exact list |
| `HeapRuns.AlwaysPartition` | system/memget.c:36-69 | in every run of requests and returns, free and outstanding blocks partition the heap and the free list is canonical and aligned |
| `HeapRuns.ReturnAccepted` | system/memfree.c:65-71 | returning an outstanding block is never rejected |
| `HeapRuns.ReturnUndoes` | include/memory.h:30-33 | `memfree(memget(n), n)` and `stkfree(stkget(n), n)` restore the exact state |
| `HeapRuns.AllReturned` | system/initialize.c:106-112 | when everything is returned, in any order, the list is the single boot-time block |
| `HeapRuns.ServeGet` | system/memget.c:27-70 | the code of `memget` serves a request of the runs: same free list, and the block handed out is the one at its result |
| `HeapRuns.ServeStack` | system/stkget.c:29-81 | the same for `stkget`, whose result is the last word of the block |
| `HeapRuns.ServeReturn` | system/memfree.c:29-96 | the code of `memfree` accepts every block that is out and serves its return |
| `RegionTables.RegionTable.constructor` | mem/memRegionInit.c:22-53 | for a page-aligned start, one free region spans the heap |
| `Regions.InitExact` | mem/memRegionInit.c:29-31 | the first record ends at the end of the heap if and only if the start is page-aligned |
| `RegionTables.RegionTable.Remove` | mem/memRegionRemove.c:15-37 | unlinks one region from its list and changes no other record's extent |
| `RegionTables.RegionTable.FindAfter` | mem/memRegionInsert.c:32-39 | the walk finds the sorted position |
| `RegionTables.RegionTable.LinkBetween` | mem/memRegionInsert.c:41-62 | links a record in between two neighbours |
| `RegionTables.RegionTable.MergeAt` | mem/memRegionInsert.c:80-93 | swallowing the successor merges two blocks of the list |
| `RegionTables.RegionTable.Coalesce` | mem/memRegionInsert.c:76-109 | merges a region with both neighbours where they touch |
| `RegionTables.RegionTable.Insert` | mem/memRegionInsert.c:20-69 | sorted insertion; on the free list the result is the merged list |
| `RegionTables.CoalescedIsFreed` | mem/memRegionInsert.c:76-108 | inserting and coalescing is the canonical merge |
| `Regions.DiscoverPage` | mem/memRegionSplit.c:63-80 | the record found for an address is that of its page |
| `Regions.SplitAliases` | mem/memRegionAlloc.c:23-29 | the record found for the remainder is the region's own if and only if nothing is asked for |
| `Regions.InnerPageUnlisted` | mem/memRegionSplit.c:40-42 | an inner page of a listed region has its record on neither list |
| `Regions.FirstRecordListed` | mem/memRegionSplit.c:63-80 | record 0 is always on one of the lists |
| `RegionTables.RegionTable.Split` | mem/memRegionSplit.c:20-55 | writes the two records of a split and no other; the remainder's record is that of its first page |
| `RegionTables.RegionTable.FindLonger` | mem/memRegionAlloc.c:26-36 | the search finds the first strictly longer region, passing over exact fits |
| `RegionTables.RegionTable.Alloc` | mem/memRegionAlloc.c:18-66 | for every request: the lists still tile the heap afterwards if and only if the request does not round to 0; if it does, the first free record is left with length 0 at the head of the free list and linked into the allocated list |
| `RegionTables.RegionTable.AllocPages` | mem/memRegionAlloc.c:18-66 | takes the low pages of the first strictly longer free region, or fails, changing nothing, when there is none; the lists still tile the heap |
| `RegionTables.RegionTable.AllocNothing` | mem/memRegionAlloc.c:23-62 | a request that rounds to 0: the record found for the remainder is the region's own, which loses its pages and goes on both lists |
| `RegionTables.RegionTable.InsertEmpty` | mem/memRegionInsert.c:20-69 | inserting a record without pages links it at its place and merges nothing |
| `RegionTables.EmptyBreaks` | mem/memRegionAlloc.c:45-62 | with a record of length 0 at the head of the free list there are no lists that tile the heap |
| `Regions.RoundPage` | mem/memRegionAlloc.c:22-23 | rounds up to whole pages, and to 0 exactly for 0 and for requests above 0xFFFFF000 |
| `Regions.AllocTiles` | mem/memRegionAlloc.c:45-62 | after an allocation every page is still in exactly one listed region |
| `Regions.ReclaimTiles` | mem/memRegionReclaim.c:26-31 | after one region is freed every page is still in exactly one listed region |
| `Regions.FreeDetermined` | mem/memRegionInsert.c:76-108 | the free list is determined by the allocated one |
| `RegionTables.RegionTable.Reclaim1` | mem/memRegionReclaim.c:26-31 | moves one allocated region to the free list |
| `RegionTables.RegionTable.ReclaimIfOwned` | mem/memRegionReclaim.c:24-33 | one round of the walk: the regions passed so far are exactly the kept ones, and the saved successor is still the next one |
| `RegionTables.RegionTable.Reclaim` | mem/memRegionReclaim.c:15-35 | terminates although it unlinks while it walks; keeps exactly the other threads' regions in their old order; free pages are the old ones plus all of the thread's |
| `RegionTables.ReclaimedPages` | mem/memRegionReclaim.c:20-34 | exactly the thread's pages become free |
| `Mailboxes.BoundedFifo` | mailbox/mailboxSend.c:37-57 | in every interleaving, kills and mailboxFree included: 0 <= count <= max, no deposit overwrites an unread message, no receive reads an empty slot, received is a prefix of deposited |
| `Mailboxes.TokensConserved` | mailbox/mailboxReceive.c:35-54 | free sender tokens + granted senders + count + lost = max; receiver tokens + granted receivers + lost = count |
| `Mailboxes.NotAllBlocked` | mailbox/mailboxReceive.c:35-54 | senders and receivers are never all blocked, unless a granted thread was killed |
| `Mailboxes.GrantedSenderHasRoom` | mailbox/mailboxSend.c:44-50 | a sender that `wait` let through finds a slot that holds no unread message |
| `Mailboxes.GrantedReceiverHasMessage` | mailbox/mailboxReceive.c:42-49 | a receiver that `wait` let through finds a message |
| `Mailboxes.DepositAppends` | mailbox/mailboxSend.c:47-50 | a deposit appends to the unread messages |
| `Mailboxes.RemovalDropsFirst` | mailbox/mailboxReceive.c:45-49 | a removal drops the oldest unread message |
| `Mailboxes.SlotIsRemainder` | mailbox/mailboxSend.c:48 | the remainder that the code computes is the slot that many places behind the start of the ring |
| `Mailboxes.RingBytesExact` | mailbox/mailboxAlloc.c:43 | the block obtained holds the whole ring if and only if it has at most 0x3FFFFFFE messages |
| `Mailboxes.KillKeeps` | system/kill.c:49-67 | killing any thread keeps the mailbox invariant |
| `Mailboxes.FreeKeeps` | mailbox/mailboxFree.c:37-55 | tear-down keeps what remains of the invariant |
| `Mailboxes.SendCallEffect` | mailbox/mailboxSend.c:39-42 | the call is let through with its message while there is a token, and otherwise waits with it at the end of the queue |
| `Mailboxes.ReceiveCallEffect` | mailbox/mailboxReceive.c:37-40 | the call is let through while there is a token, and otherwise waits at the end of the queue |
| `Mailboxes.MessageDeposited` | mailbox/mailboxSend.c:26-61 | in every interleaving, what mailboxSend was given is what it deposits when its call ends |
| `Mailboxes.FreeEffect` | mailbox/mailboxFree.c:37-49 | the mailbox is free afterwards, and everybody who was blocked on it is let through with what it was sending |
| `Mailboxes.KillEffect` | system/kill.c:49-67 | a killed thread is in neither queue and has no step left; the ring is as it was |
| `Mailboxes.Entry.constructor` | mailbox/mailboxAlloc.c:51-67 | a new mailbox is empty, with max sender tokens and no receiver token |
| `Mailboxes.Entry.SendBeginCall` | mailbox/mailboxSend.c:36-42 | mailboxSend up to its `wait` |
| `Mailboxes.Entry.SendEndCall` | mailbox/mailboxSend.c:44-60 | the deposit, in place in the ring, and the signal; SYSERR if the mailbox was freed meanwhile |
| `Mailboxes.Entry.ReceiveBeginCall` | mailbox/mailboxReceive.c:34-40 | mailboxReceive up to its `wait` |
| `Mailboxes.Entry.ReceiveEndCall` | mailbox/mailboxReceive.c:42-57 | returns the oldest unread message, in place in the ring, and signals |
| `Mailboxes.Entry.FreeCall` | mailbox/mailboxFree.c:37-55 | marks the mailbox free and wakes all waiters |
| `Monitors.MutualExclusion` | system/lock.c:51-72 | in every interleaving at most one thread has the monitor locked, and it is not inside a lock call |
| `Monitors.CountIsDepthPlusClaims` | system/lock.c:51-72 | in every run the count is the holder's depth plus the threads blocked after claiming an unowned monitor |
| `Monitors.LastUnlockReleases` | system/unlock.c:51-61 | a last unlock gives the monitor up if and only if no claim came too late |
| `Monitors.ClaimsAreLate` | system/lock.c:52-57 | claims are left blocked exactly by lock calls between a signal and the run of the thread it released |
| `Monitors.ReleasedWithoutLateClaims` | system/unlock.c:47-61 | in every run without such calls, every last unlock gives the monitor up |
| `Monitors.StuckForever` | system/lock.c:51-56 | after such a call the token never changes hands again and every blocked thread stays blocked |
| `Monitors.StuckRun` | system/lock.c:51-56 | such a run exists: nobody has the monitor locked and a thread is blocked on it |
| `Monitors.LockEffect` | system/lock.c:51-72 | lock takes the monitor once more for its owner, or takes a free one, or puts its caller at the end of the queue |
| `Monitors.LockRestEffect` | system/lock.c:67-70 | a thread let through by the wait has the monitor locked once |
| `Monitors.UnlockEffect` | system/unlock.c:53-61 | unlock gives up one lock; the last one passes the monitor to the longest waiter, or leaves it free, unless a claim came too late |
| `Monitors.DepthCounts` | system/lock.c:51-72 | in every run a thread has the monitor locked as often as its lock calls completed, less its unlocks |
| `Monitors.Monent.constructor` | system/moncreate.c:34-51 | a new monitor has no owner, count 0 and one token |
| `Monitors.Monent.LockCall` | system/lock.c:51-69 | `lock` up to its `wait`, or whole when it does not wait |
| `Monitors.Monent.LockRestCall` | system/lock.c:68-71 | after the wait the monitor is taken over |
| `Monitors.Monent.UnlockCall` | system/unlock.c:43-64 | `unlock` of what the caller has locked |
| `BufferPools.NeverHandedOutTwice` | system/bufpool.c:154-158 | in every interleaving: chained plus outstanding buffers are exactly the nbuf slices; bufget never hands out the address past the end or a buffer that is out; buffree takes back exactly a buffer that is out |
| `BufferPools.SliceAddress` | system/bufpool.c:72-77 | stepping from slice to slice reaches head + i * bufsize |
| `BufferPools.BuffersDisjoint` | system/bufpool.c:72-77 | two different buffers do not overlap and lie within the pool |
| `BufferPools.WaitersMeanAllOut` | system/bufpool.c:184-193 | chain length = tokens + granted takers + pending signals + lost; so when threads wait and nobody is between the parts of a call, all buffers are out |
| `BufferPools.GrantedGetsBuffer` | system/bufpool.c:154-158 | a thread that `wait` let through finds a chained buffer |
| `BufferPools.FreeAcceptsExactly` | system/bufpool.c:184-188 | a buffer of the pool points to itself if and only if it is out |
| `BufferPools.SliceSizeFits` | system/bufpool.c:37 | a slice has room for header and buffer if and only if the size is at most 0xFFFFFFF4 |
| `BufferPools.PoolBytesExact` | system/bufpool.c:64 | the block obtained holds all slices if and only if the 32-bit product of count and slice size does not wrap |
| `BufferPools.KillKeeps` | system/kill.c:49-67 | killing any thread keeps the pool invariant |
| `BufferPools.GetCallEffect` | system/bufpool.c:154 | bufget is let through while there is a token, and otherwise waits at the end of the queue |
| `BufferPools.SignalEffect` | system/bufpool.c:193 | the signal lets the longest waiter through, or leaves a token |
| `BufferPools.KillEffect` | system/kill.c:49-67 | a killed thread is out of the queue and has no step left; the buffers stay where they are |
| `BufferPools.Bfpentry.Bfpalloc` | system/bufpool.c:31-86 | succeeds exactly under the conditions of the code and links all slices into one chain; they fit the block asked for if and only if the product does not wrap |
| `BufferPools.Bfpentry.BufgetCall` | system/bufpool.c:146-154 | bufget up to its `wait`; SYSERR for a free pool |
| `BufferPools.Bfpentry.BufgetRest` | system/bufpool.c:155-160 | takes the first buffer of the chain: a slice that was not out |
| `BufferPools.Bfpentry.BuffreeCall` | system/bufpool.c:182-192 | puts the buffer at the front of the chain, or refuses it, exactly when it is not out |
| `BufferPools.Bfpentry.BuffreeRest` | system/bufpool.c:193 | the signal lets the longest waiter through |
| `Lexer.LexExact` | shell/lexan.c:20-88 | lexan returns tokens ts if and only if the line is ts with white space between, each word maximal; so SYSERR exactly when there is no such split |
| `Lexer.RoundTrip` | shell/lexan.c:26-87 | joining the tokens of any accepted line with single spaces and a newline lexes back to the same tokens |
| `Lexer.SplitsTokens` | shell/lexan.c:26 | at most SHELL_MAXTOK tokens, each a word, a special character or a quoted string |
| `Lexer.StaleExact` | shell/lexan.c:29-75 | the left-over character behind a line changes the result if and only if a quote is still open there and exactly one of the two characters closes it |
| `Lexer.StaleIrrelevant` | shell/lexan.c:29-75 | for a line that ends with an end-of-line character it does not matter |
| `Lexer.StaleMatters` | shell/lexan.c:48-57 | a line where it does: a left-over quote closes an open string |
| `Lexer.SkipBlanks` | shell/lexan.c:29-32 | the skipping loop |
| `Lexer.CopyToken` | shell/lexan.c:43-80 | copies one token to the buffer and overwrites nothing else, also on an error |
| `Lexer.Lexan` | shell/lexan.c:20-88 | SYSERR exactly when the line does not split; otherwise the buffer holds the tokens as C strings at their pointers; at most linelen + 1 + ntok bytes are written and the rest of the buffer is untouched |
| `Lexer.ParseLine` | shell/shell.c:206-219 | the shell's token buffer is large enough for every line that it reads |

## Left out

- Devices, drivers, network stacks, USB, TLB and address-space code, the shell's commands: input and output, or tied to hardware.
- Stacks and `ctxsw`: a switch is a change of `thrcurrent`; `create` and `kill` are modelled without the stack memory that they take and give back, and without names and file descriptors.
- `resdefer` above 0, and `clkupdate`.
- The `safeUnmapRange` call of `memRegionReclaim`.
- 32-bit overflow of semaphore counts, queue keys and message counters: they are unbounded integers here; the arithmetic on sizes, sleep times and addresses wraps as in the code where the contracts say so.
- Heaps.Heap.Memfree: requires that the range does not wrap around the 32-bit address space and that the size is at most 0xFFFFFFF8, because the code's test misses overlaps beyond (`Heaps.WrappedTestExact`).
- Heaps.Heap.Stkfree: the same bound, and 4-byte words; with 8-byte `unsigned long` the macro frees a different range.
- RegionTables.RegionTable.constructor: requires a page-aligned start and at least one page within one 512 MB segment; `Regions.InitExact` shows why.
- KernelTables.Tables.ReadyCall: requires a thread that is neither running nor in a queue; `KernelInvariant.ReadyKeeps` shows what happens otherwise.
- KernelTables.Tables.KillCall: leaves out `memRegionReclaim`, which is modelled by itself.
- KernelTables.Tables.KillRest: leaves out the `stkfree` of the victim's stack.
- QueueTables.QueueTable.Queinit: requires that the table is not full; `QueueTables.QueinitGuard` shows what the guard lets through.
- Mailboxes.Entry.constructor: the state after success; the roll-back after a failure is left out.
- Mailboxes.Entry.FreeCall: leaves out the `memfree` of the ring and the table semaphore.
- The table scans and the failure roll-back of `mailboxAlloc`, `moncreate` and `bfpalloc`, and the table semaphore of mailboxes: easy members.
- `bfpfree`, and memory use after a mailbox or pool is freed: the protocols assume that nobody uses them then.
- Killed monitor owners: the monitor is then never released; the runs of `Monitors` contain no kills.
- BufferPools.Bfpentry.BuffreeCall: for addresses of the pool's slices; an arbitrary address would read an arbitrary header.
- The 16-bit index of `lexan` wraps for lines of 65535 characters, which the shell never passes.
- `memRegionValid`, `memRegionTransfer`, `malloc`, `free`, `getopt`, `tar`, `date`: not part of this model.
