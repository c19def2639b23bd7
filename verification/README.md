# A verified model of the CheviotOS kernel

CheviotOS is a microkernel for one CPU with one big kernel lock. This project models its
kernel monitor, virtual memory, page cache, message passing and file descriptors in Dafny,
and proves what every run of them keeps.

Each component is modelled twice where the source works in place. A datatype and pure step
functions describe the state and carry the invariants, the run theorems and the comparison
with a simpler reference machine. A class with the source's fields and loops follows the C
functions and is proved equal to the step functions. Intrusive lists are sequences, read
head first (`Lists.dfy`).

| file | models |
|---|---|
| `Scheduler.dfy`, `TimingWheel.dfy` | run queues with their bitmap; the hashed timing wheel against a plain set of deadlines |
| `Monitor.dfy`, `MonitorSteps.dfy`, `MonitorEffects.dfy`, `MonitorRuns.dfy`, `ClockRuns.dfy`, `EventRuns.dfy`, `BootRun.dfy`, `KernelCode.dfy` | the kernel lock, sleep and wakeup, events, timed sleeps and interrupts as one state machine; its runs, and time and events in them; its code |
| `CopyOnWrite.dfy`, `CopyOnWriteRuns.dfy`, `CopyOnWriteCode.dfy`, `FaultGap.dfy`, `FrameAccounts.dfy`, `MmapFailure.dfy` | copy-on-write memory against eager copying; a fault that waits for memory; where its frames are |
| `Pmap.dfy`, `MappedMemory.dfy` | two-level page tables with reverse lists against a plain map; copy-on-write memory on top of them |
| `MemRegion.dfy`, `MemRegionCode.dfy`, `RegionRuns.dfy`, `ForeignRegion.dfy` | the region allocator, the hint and the descriptor pool; runs over all address spaces |
| `PageCache.dfy`, `CacheOrder.dfy`, `PageCacheCode.dfy`, `PageCacheData.dfy`, `FileWriters.dfy`, `FileWriterRuns.dfy`, `FileIo.dfy` | the page cache as a protocol between threads, and with its contents; writers of files over it, interleaved; file reads and writes by one caller against a flat file |
| `MsgPort.dfy`, `MsgCopy.dfy`, `MsgTransfer.dfy` | send, receive and reply; scatter/gather and cross-address-space copies against flat copies, alone and together |
| `FileDesc.dfy` | descriptor slots and file reference counts |
| `Futex.dfy` | futex wait and wake against one queue per address |
| `Lookup3.dfy` | the lookup3 hash and its read paths |

A step of a protocol is one stretch of kernel code up to the point where it returns or
sleeps, because the kernel lock is held in between. Interrupts are steps of their own in the
monitor. User code may store to memory between any two steps. Clocks, interrupt sources, the
file server's answers and the outcome of a user copy are inputs of the steps.

Widths are written out where they matter: the hash works on integers modulo 2^32, region
addresses wrap modulo 2^32, and everything else stays far below its C type's range. The page
table bits are those of section B3.5 of the ARM Architecture Reference Manual ARMv7-A/R
(DDI 0406C).

Some properties one would expect do not hold of the code. For each the project has a concrete
input or state that fails it, and the exact condition under which it holds:

- A time-shared thread whose quanta run out moves to another queue without its bitmap bit
  (`Scheduler.DemotionLosesThread`, `Scheduler.AccountBitmap`).
- A round-robin thread that blocks makes Reschedule pass over the next thread of its queue
  (`Scheduler.BlockedTurn`).
- The timer task can go to sleep behind the clock, until the next tick
  (`BootRun.AsleepBehindTheClock`, `ClockRuns.SleepsBehindIff`, `ClockRuns.NextTickWakes`).
- `memregion_free` leaves swallowed free regions on the free list
  (`MemRegionCode.FreeLeavesStaleEntry`, `MemRegion.FreeFromKeeps`, `RegionRuns.FreeListsAgree`),
  and a create can then pick another address space's region (`ForeignRegion.FindsForeignRegion`,
  `RegionRuns.AgreeingFindsOwn`).
- `memregion_create` makes an empty or inverted region for a zero or wrapping size
  (`MemRegionCode.EmptyRegionBreaksTiling`, `MemRegion.CarveKeeps`).
- `pmap_enter` on a mapped page drops its whole page table (`Pmap.EnterTwiceBreaks`,
  `Pmap.EnterMapped`).
- `sys_munmap` leaves references behind, so a page's count is not its number of mappings
  (`FrameAccounts.MunmapLosesFrame`, `FrameAccounts.CountsExactIff`).
- `sys_mmap` over a page that is mapped loses a frame and the caller's pages in the same page
  table (`MmapFailure.MmapOverMappedPage`, `MmapFailure.SysMmapExact`). `memregion_create` comes
  first and refuses a range that is in use, so this needs a region list that has come apart
  from the pages, as when a create picks another space's region.
- Two writers can both take a block to be past the end of a file, and the second then clears
  what the first wrote: the locks around the test of the size do nothing
  (`FileWriterRuns.SecondWriterClears`, `FileWriterRuns.WriteIsLostIff`,
  `FileWriterRuns.SendIsUpdateIff`).
- A read or write whose user copy fails leaves its page busy, and its block out of reach
  (`FileWriterRuns.LostForever`, `FileWriterRuns.LostIffFault`).
- A copy-on-write fault gives its page up before it waits for memory, and may then copy what
  another process stored meanwhile (`FaultGap.ChildSeesStore`, `FaultGap.GapIsInvisibleIff`).
- `open`, `dup` and `fcntl` on a full table hand out a descriptor past its end, if the memory
  there looks like a free slot, and it cannot be closed (`FileDesc.OpenPastFullTable`,
  `FileDesc.InsideIff`, `FileDesc.PastIsForever`).
- A reply to a message the server has not received puts it in two places
  (`MsgPort.AnsweredBeforeReceived`, `MsgPort.ReplyKeeps`), and a refused send leaves its
  thread's id resolving to whatever the stack holds (`MsgPort.RefusedSendMayResolve`,
  `MsgPort.StaysUnresolved`).
- `dup2` of a descriptor onto itself closes it (`FileDesc.Dup2OntoItselfCloses`,
  `FileDesc.Dup2Keeps`).
- Destroying a futex does not look for waiters (`Futex.DestroyUnderWaiter`,
  `Futex.DestroyKeeps`).

A page table that cannot be had would lose a frame of `sys_mmap` too
(`MmapFailure.MmapWithoutTable`), but alloc_page waits for memory and never refuses.

Two more conditions are what internal functions demand of their callers in the kernel, and
all callers modelled here meet them: `brelse` is given a page that is valid, marked bad or
without a block (`PageCache.BrelseKeeps`), and `pmap_protect` does not change MAP_PHYS
(`Pmap.ProtectKeeps`).

`dafny verify dfyconfig.toml` checks the whole project.

## Model

| member | source | states |
|---|---|---|
| `Scheduler.InitParams` | proc/sched.c:266-297 | a requested priority is clamped into the range of its policy, and kept when it is in range already |
| `Scheduler.ReadyKeeps` | proc/sched.c:153-175 | queueing a thread keeps every queue duplicate-free and at its own priority, keeps the bitmap exact, and adds exactly that thread |
| `Scheduler.UnreadyKeeps` | proc/sched.c:180-208 | unqueueing a thread removes exactly that thread and clears its bit exactly when the queue is then empty |
| `Scheduler.AccountKeeps` | proc/sched.c:84-118 | the accounting step at the head of Reschedule keeps the queues and their membership |
| `Scheduler.AccountBitmap` | proc/sched.c:84-118 | after the accounting step the bitmap mirrors the queues if and only if no time-shared thread was demoted, or both the queue it left and the one it joined held other threads |
| `Scheduler.ReadyIsLast` | proc/sched.c:153-175 | a thread made ready is last on the queue of its priority with a whole quantum, and nothing else changes |
| `Scheduler.UnreadyKeepsOrder` | proc/sched.c:180-208 | unqueueing a thread leaves the others in their order, and gives a time-shared one back the priority it asked for |
| `Scheduler.AccountExact` | proc/sched.c:84-104 | a round-robin thread's queue has its head moved to the tail; a time-shared thread at the end of its quantum moves to the tail of the queue below, or goes round on the lowest queues; otherwise no queue changes |
| `Scheduler.AccountParams` | proc/sched.c:84-104 | only the outgoing thread's priority and quantum change, and how |
| `Scheduler.EveryoneRuns` | proc/sched.c:69-118 | with n round-robin threads on the highest queue the i-th runs after i calls of Reschedule, and after n calls the queue is as it was |
| `Scheduler.BlockedTurn` | proc/sched.c:84-118 | a round-robin thread that blocks makes Reschedule pass over the next thread of its queue, if and only if there is another behind that one |
| `Scheduler.DemotionLosesThread` | proc/sched.c:91-97 | a concrete time-shared thread that, once demoted, is on a queue whose bit is clear, so the selection passes it over |
| `Scheduler.PickIsHighest` | proc/sched.c:106-118 | the selection is the head of the highest non-empty queue, and the idle thread exactly when all queues are empty |
| `Scheduler.QueueIsPriority` | proc/sched.c:153-208 | a thread is on queue q exactly when it is queued and q is its priority |
| `TimingWheel.ArmKeeps` | proc/timer.c:299-334 | arming a timer keeps the wheel in order: every armed timer in the bucket of its expiry, once |
| `TimingWheel.ArmIsLast` | proc/timer.c:299-334 | a timer is last in the bucket of its expiry, and no other bucket changes |
| `TimingWheel.DisarmKeeps` | proc/timer.c:430-445 | disarming a timer keeps the wheel in order |
| `TimingWheel.PassFires` | proc/timer.c:418-447 | one pass fires exactly the armed timers of its bucket that are due, each once, and no others |
| `TimingWheel.ScanInOrder` | proc/timer.c:430-449 | a pass fires the due timers in the order of their bucket, so those due at one tick in the order they were armed |
| `TimingWheel.StepRefines` | proc/timer.c:299-456 | every wheel operation does to the armed timers what it does to a plain map of deadlines |
| `TimingWheel.WheelRefinesDeadlines` | proc/timer.c:299-456 | for every run of arm, disarm, tick and pass, the 100-bucket wheel fires in every pass exactly what the plain set of deadlines fires |
| `TimingWheel.NeverEarly` | proc/timer.c:380-456 | in no run does a timer fire before its deadline |
| `TimingWheel.SleepLastsItsSeconds` | proc/timer.c:183-207 | whatever else happens meanwhile, the timer of sys_sleep(s) is off the wheel only after more than 100*s ticks |
| `TimingWheel.FiresInPass` | proc/timer.c:406-456 | an armed timer, overdue or not, fires in exactly one computable pass |
| `MonitorSteps.KassertsHold` | proc/sleep_wakeup_bkl.c:141-163 | whenever the running thread is inside the kernel it owns the lock, and no other runnable thread is inside: the conditions the kernel asserts around a sleep |
| `MonitorSteps.KernelLock` | proc/sleep_wakeup_bkl.c:57-72 | entering the kernel keeps the kernel invariant: lists, lock, run queues, timers and event waits all agree |
| `MonitorSteps.KernelUnlock` | proc/sleep_wakeup_bkl.c:91-114 | leaving the kernel keeps the kernel invariant: lists, lock, run queues, timers and event waits all agree |
| `MonitorSteps.TaskSleep` | proc/sleep_wakeup_bkl.c:131-166 | a sleep up to its switch keeps the kernel invariant: lists, lock, run queues, timers and event waits all agree |
| `MonitorSteps.TaskSleepInterruptible` | proc/sleep_wakeup_bkl.c:180-250 | an interruptible sleep up to its switch keeps the kernel invariant: lists, lock, run queues, timers and event waits all agree |
| `MonitorSteps.EventSignal` | proc/thread_events.c:159-204 | posting an event keeps the kernel invariant: lists, lock, run queues, timers and event waits all agree |
| `MonitorSteps.SetMask` | proc/thread_events.c:55-122 | choosing the awaited events keeps the kernel invariant: lists, lock, run queues, timers and event waits all agree |
| `MonitorSteps.Collect` | proc/thread_events.c:55-122 | collecting events keeps the kernel invariant: lists, lock, run queues, timers and event waits all agree |
| `MonitorSteps.LoopTest` | proc/timer.c:183-207 | the test of the sleep loop keeps the kernel invariant: lists, lock, run queues, timers and event waits all agree |
| `MonitorSteps.TaskPass` | proc/timer.c:426-429 | the timer task's test of the clocks keeps the kernel invariant: lists, lock, run queues, timers and event waits all agree |
| `MonitorSteps.TaskDoze` | proc/timer.c:418-424 | the timer task going to sleep, a step of its own because interrupts are enabled before it, keeps the kernel invariant: lists, lock, run queues, timers and event waits all agree |
| `MonitorSteps.TaskScan` | proc/timer.c:430-449 | one timer visited by the timer task keeps the kernel invariant: lists, lock, run queues, timers and event waits all agree |
| `MonitorSteps.Fire` | proc/sleep_wakeup_bkl.c:286-314 | a sleep timer's callback keeps the kernel invariant: lists, lock, run queues, timers and event waits all agree |
| `MonitorSteps.ThreadStart` | proc/sched.c:214-227 | starting a thread keeps the kernel invariant: lists, lock, run queues, timers and event waits all agree |
| `MonitorSteps.ThreadStop` | proc/sched.c:233-260 | stopping a thread keeps the kernel invariant: lists, lock, run queues, timers and event waits all agree |
| `MonitorSteps.ClockTopHalf` | proc/timer.c:380-393 | the clock interrupt keeps the kernel invariant: lists, lock, run queues, timers and event waits all agree |
| `MonitorSteps.DeviceTopHalf` | proc/thread_events.c:193-204 | a device interrupt that posts events keeps the kernel invariant: lists, lock, run queues, timers and event waits all agree |
| `MonitorSteps.Interrupt` | boards/raspberry_pi_4/interrupt.c:159-201 | any interrupt, lock free or held keeps the kernel invariant: lists, lock, run queues, timers and event waits all agree |
| `MonitorSteps.TaskWakeup` | proc/sleep_wakeup_bkl.c:321-343 | keeps the invariant, and the first waiter, if any, moves to the tail of the lock's list |
| `MonitorSteps.TaskWakeupSpecific` | proc/sleep_wakeup_bkl.c:350-368 | keeps the invariant; a thread is released exactly when it sleeps for one of the reasons given, or no reason is given, and no other thread changes |
| `MonitorSteps.ArmSleep` | proc/timer.c:261-292 | the thread's timer was not armed before, and now is, for exactly the delay asked |
| `MonitorSteps.Resume` | proc/sleep_wakeup_bkl.c:150-250 | a thread that comes back from a switch owns the lock, and its sleep timer is off the wheel once it is back in its system call |
| `MonitorSteps.SignalReaches` | proc/thread_events.c:159-204 | after a signal exactly this event has become pending, and a thread asleep for it, and no other, is in the lock's queue |
| `MonitorSteps.CallbackFindsItsRendez` | proc/sleep_wakeup_bkl.c:286-314 | an armed timer's callback never finds its thread blocked on another rendez than the one it was armed for |
| `MonitorEffects.EnterEffect` | proc/sleep_wakeup_bkl.c:57-72 | a free lock is taken; for a held one the caller queues at the end; nothing else changes |
| `MonitorEffects.LeaveEffect` | proc/sleep_wakeup_bkl.c:91-114 | the lock passes to the first in its queue, or becomes free; the caller is in user mode; nothing else changes |
| `MonitorEffects.SleepEffect` | proc/sleep_wakeup_bkl.c:131-166 | the caller joins the end of the rendez list and the lock passes on, in one step |
| `MonitorEffects.SleepIntrEffect` | proc/sleep_wakeup_bkl.c:180-250 | the sleep happens exactly when no awaited event is pending, and then with the reasons the caller allows, its timer armed for the delay asked, and the next thread chosen |
| `MonitorEffects.WakeEffect` | proc/sleep_wakeup_bkl.c:321-343 | exactly the first waiter moves to the end of the lock's queue |
| `MonitorEffects.WakeThreadEffect` | proc/sleep_wakeup_bkl.c:350-368 | exactly the named thread leaves the list it waits in, when the reason allows it |
| `MonitorEffects.CollectEffect` | proc/thread_events.c:55-122 | exactly the awaited events are taken from the caller's pending ones |
| `MonitorEffects.TakenOnce` | proc/thread_events.c:55-122 | events are collected once: after collecting them the same wait blocks again, on the wanted rendez, with the lock passed on |
| `MonitorEffects.StopEffect` | proc/sched.c:233-260 | the lock passes on, and the thread is on no list and no queue |
| `MonitorEffects.StartEffect` | proc/sched.c:214-227 | the thread is in user mode, last on the queue of its priority clamped to its policy's range, and nothing else changes |
| `MonitorEffects.FireReleases` | proc/sleep_wakeup_bkl.c:286-314 | a fired timer's callback puts exactly the thread it was armed for in the lock's queue |
| `MonitorEffects.LoopEffect` | proc/timer.c:183-207 | the sleep loop sleeps on exactly while its timer is armed, and is left only with the thread's deadline past |
| `MonitorEffects.PassEffect` | proc/timer.c:426-451 | the timer task starts on the bucket of the soft clock exactly while that clock is behind, and otherwise, with the clocks equal, is about to sleep |
| `MonitorEffects.ScanEffect` | proc/timer.c:430-449 | a due timer is taken off the wheel and its thread released, any other is skipped, and the soft clock advances after the bucket |
| `MonitorEffects.ResumeEffect` | proc/sleep_wakeup_bkl.c:150-250 | the thread goes on as the lock's owner; after an interruptible sleep its own timer, and no other, is off |
| `MonitorEffects.DeviceEffect` | proc/thread_events.c:193-204 | every event an interrupt posts is pending afterwards, and none is taken away |
| `MonitorEffects.ClockEffect` | proc/timer.c:380-393 | the hard clock advances by one, no deadline changes, the running thread is charged a tick, and the timer task is woken if it sleeps |
| `MonitorEffects.InterruptEffect` | boards/raspberry_pi_4/interrupt.c:159-174 | an interrupt never takes the lock or the CPU from a thread inside the kernel |
| `Monitor.GrantCore` | proc/sleep_wakeup_bkl.c:94-108 | handing the lock over keeps every list, queue and timer in order |
| `Monitor.ReschedInv` | proc/sched.c:70-149 | rescheduling keeps the kernel invariant |
| `Monitor.ReleaseCore` | proc/sleep_wakeup_bkl.c:321-343 | moving a thread from its rendez list to the lock's list keeps the kernel invariant |
| `MonitorRuns.Step` | proc/sleep_wakeup_bkl.c:57-409 | every atomic step of the kernel keeps the invariant |
| `MonitorRuns.Boot` | boards/raspberry_pi_4/init_proc.c:158-247 | the state in which the scheduler starts, the timer task running, root thread and idle ready, satisfies the invariant |
| `MonitorRuns.MutualExclusion` | proc/sleep_wakeup_bkl.c:57-166 | in every reachable state at most one runnable thread is inside the kernel, and it is the lock's owner |
| `MonitorRuns.OneListEach` | proc/sleep_wakeup_bkl.c:57-409 | in every reachable state each live thread is on exactly the list its state names, and the lock's list is empty while the lock is free |
| `MonitorRuns.NoLostEvent` | proc/sleep_wakeup_bkl.c:180-276 | in no reachable state is a thread asleep for an event that is pending for it |
| `MonitorRuns.TimersFollowSleeps` | proc/sleep_wakeup_bkl.c:213-314 | in every reachable state a thread in user mode or in its system call has no timer armed; an armed one is in exactly the bucket of its expiry, is not overdue, and names the rendez its thread is blocked on |
| `MonitorRuns.BitmapMirrorsQueues` | proc/sched.c:84-208 | in every reachable state without time-shared threads, bit q is set exactly when queue q is not empty |
| `MonitorRuns.RescheduleRunsHighest` | proc/sched.c:84-118 | rescheduling runs the head of the highest non-empty queue, or idle when there is none |
| `MonitorRuns.RescheduleTakesTurns` | proc/sched.c:69-118 | a round-robin thread on the highest queue that stays ready gives way to the next one of its queue |
| `MonitorRuns.StepIsFifo` | proc/sleep_wakeup_bkl.c:57-114 | no step lets a thread overtake another on the lock's list |
| `MonitorRuns.HandoffOrder` | proc/sleep_wakeup_bkl.c:57-114 | over any run the lock is handed to the waiters in the order in which they queued |
| `MonitorRuns.WaiterMovesUp` | proc/sleep_wakeup_bkl.c:57-114 | over any run a waiter moves up by one place for each hand-off |
| `EventRuns.EventWakesSleeper` | proc/sleep_wakeup_bkl.c:180-250 | over any run after a call that blocked, from its arguments: with INTRF_EVENT among its flags no event of the mask is pending while the thread is blocked, and one that is posted puts it in the lock's queue, unless it is there or has the lock; without that flag the event leaves it asleep |
| `EventRuns.ReasonWakesSleeper` | proc/sleep_wakeup_bkl.c:350-368 | over any run a wakeup by name ends the sleep if and only if it gives no reason or one the caller allowed |
| `EventRuns.SleepReturns` | proc/sleep_wakeup_bkl.c:232-249 | over any run: -EINTR exactly if the caller allows events and an awaited one is pending, -ETIMEDOUT exactly if not and its timer has gone off, which is only after the delay asked, and 0 otherwise, with the timer not yet due |
| `EventRuns.InterruptDelivers` | boards/raspberry_pi_4/interrupt.c:159-201 | an interrupt leaves every event it posts pending and moves the clock by its tick, whether it finds the lock held or free |
| `EventRuns.FreeLockPasses` | boards/raspberry_pi_4/interrupt.c:159-201 | a lock that was free passes to the first thread the interrupt has woken, or is free again |
| `ClockRuns.SleepNeverShort` | proc/timer.c:183-292 | whatever happens after a timed sleep is called, over any run its thread is still in that sleep, or more than the requested ticks have passed since the call |
| `ClockRuns.StepAwaits` | proc/timer.c:183-292 | no step of any thread, and no interrupt, ends a thread's timed sleep before its deadline has passed, or moves the deadline |
| `ClockRuns.StepKeeps` | proc/sleep_wakeup_bkl.c:57-409 | no step turns the clock back, or changes where another thread is executing or its deadline |
| `ClockRuns.TopHalfKeeps` | boards/raspberry_pi_4/interrupt.c:159-201 | an interrupt moves no thread, and moves the clock by one exactly when it is a clock interrupt |
| `ClockRuns.DozeGap` | proc/timer.c:449-454 | between the timer task's test of the clocks and its sleep only interrupts come in, and the clock moves by the clock interrupts among them |
| `ClockRuns.SleepsBehindIff` | proc/timer.c:449-454 | the timer task goes to sleep behind the clock if and only if a clock interrupt comes in between its test and its sleep: the case the source asks about |
| `ClockRuns.NextTickWakes` | proc/timer.c:380-393 | the next clock interrupt ends that sleep: the timer task joins the lock's queue, or has the lock if it was free |
| `ClockRuns.OnlyTaskWaits` | proc/timer.c:380-424 | the timer's rendez has the timer task as its one waiter exactly while that task sleeps there |
| `BootRun.AsleepBehindTheClock` | proc/timer.c:380-456 | a concrete run from boot after which the timer task is asleep with the soft clock behind: a clock interrupt came in between its test and its sleep |
| `BootRun.TickRuns` | proc/timer.c:380-393 | while no thread shares time and the timer task alone has the highest priority, a clock interrupt outside the kernel gives the sleeping task the lock and the CPU |
| `BootRun.FirstSleep` | boards/raspberry_pi_4/init_proc.c:158-247 | from boot the timer task runs first, takes the lock and goes to sleep, and the lock is free |
| `KernelCode.RunQueues.SchedReady` | proc/sched.c:153-175 | updates the array of queues in place as the model's Ready does |
| `KernelCode.RunQueues.SchedUnready` | proc/sched.c:180-208 | updates queue and bitmap in place as the model's Unready does |
| `KernelCode.RunQueues.Account` | proc/sched.c:84-104 | the accounting code equals the model's accounting step |
| `KernelCode.RunQueues.Pick` | proc/sched.c:106-118 | the scan of the bitmap finds the model's choice |
| `KernelCode.ClockWheel.Arm` | proc/timer.c:299-334 | puts the timer into the bucket its expiry hashes to |
| `KernelCode.ClockWheel.Disarm` | proc/timer.c:430-445 | takes the timer out of its bucket |
| `KernelCode.ClockWheel.SetTimeout` | proc/timer.c:299-334 | cancels the timer, and re-arms it exactly for a positive delay, for at least the delay asked and at most ten milliseconds more; no other timer changes |
| `KernelCode.ClockWheel.ExpireBucket` | proc/timer.c:418-447 | one turn of the bottom half is one pass of the model |
| `KernelCode.ClockWheel.ScanBucket` | proc/timer.c:418-447 | the loop over a bucket fires what the model's scan fires, although it unlinks as it goes |
| `KernelCode.ClockWheel.CatchUp` | proc/timer.c:406-456 | however far the hard clock is ahead, the loop ends with both clocks equal, has fired exactly the timers that were due, each once, and leaves the others |
| `KernelCode.KernelMonitor.constructor` | boards/raspberry_pi_4/init_proc.c:158-247 | the object starts in the model's start-up state |
| `KernelCode.KernelMonitor.Reschedule` | proc/sched.c:70-149 | equals the model's rescheduling step |
| `KernelCode.KernelMonitor.PassLock` | proc/sleep_wakeup_bkl.c:145-158 | the hand-over code equals the model's hand-over |
| `KernelCode.KernelMonitor.KernelLock` | proc/sleep_wakeup_bkl.c:57-72 | equals the model's step |
| `KernelCode.KernelMonitor.KernelUnlock` | proc/sleep_wakeup_bkl.c:91-114 | equals the model's step |
| `KernelCode.KernelMonitor.TaskSleep` | proc/sleep_wakeup_bkl.c:131-166 | equals the model's step |
| `KernelCode.KernelMonitor.TaskSleepInterruptible` | proc/sleep_wakeup_bkl.c:180-250 | equals the model's step; it reports whether an event cut the sleep off |
| `KernelCode.KernelMonitor.FinishInterruptible` | proc/sleep_wakeup_bkl.c:232-249 | the status returned after an interruptible sleep |
| `KernelCode.KernelMonitor.ThreadStop` | proc/sched.c:233-260 | equals the model's step |
| `KernelCode.KernelMonitor.EventSignal` | proc/thread_events.c:159-204 | equals the model's step |
| `KernelCode.KernelMonitor.TimerTopHalf` | proc/timer.c:380-393 | equals the model's step |
| `KernelCode.KernelMonitor.WakeFirst` | proc/thread_futex.c:156-169 | the wake loop releases min(n, waiters) threads, in the order they queued |
| `KernelCode.KernelMonitor.TaskWakeup` | proc/sleep_wakeup_bkl.c:321-343 | equals the model's step |
| `KernelCode.KernelMonitor.TaskWakeupSpecific` | proc/sleep_wakeup_bkl.c:350-368 | equals the model's step |
| `KernelCode.KernelMonitor.TaskWakeupAll` | proc/sleep_wakeup_bkl.c:386-409 | the loop moves every waiter, in order, to the tail of the lock's list |
| `CopyOnWrite.MmapOneInv` | vm/mmap.c:101-112 | mapping a fresh page keeps: counts equal mappings, a writable page has one mapping, free pages have none |
| `CopyOnWrite.ForkOneInv` | vm/as.c:88-141 | sharing one page at fork keeps the memory invariant |
| `CopyOnWrite.CleanupOneInv` | vm/as.c:173-200 | dropping one page at exit keeps the memory invariant |
| `CopyOnWrite.MunmapOneInv` | vm/mmap.c:167-174 | munmap keeps the invariant with the references it leaves behind accounted for |
| `CopyOnWrite.FaultInv` | vm/pagefault.c:50-141 | a write fault keeps the invariant, succeeds exactly on a writable copy-on-write page, and then leaves the page writable; a free frame is needed only to copy a page that is still shared |
| `CopyOnWriteRuns.FaultAbs` | vm/pagefault.c:50-141 | no process can see a copy-on-write break that does not have to wait for memory |
| `FaultGap.NoGapIsFault` | vm/pagefault.c:87-114 | the part of page_fault before alloc_page and the part after it, without a wait between them, are the fault |
| `FaultGap.BeginFaultKeeps` | vm/pagefault.c:87-93 | while page_fault waits in alloc_page memory is in order, and the process does not see the page at all |
| `FaultGap.EndFaultKeeps` | vm/pagefault.c:95-114 | after the wait memory is in order again, and the page is what the old frame holds by then, or zeros if the new frame is the old one |
| `FaultGap.GapIsInvisibleIff` | vm/pagefault.c:87-114 | whatever other processes do during the wait they see what eager copying shows them, and so does the faulting process if and only if the old frame still holds the bytes it had at the fault, or is handed out again, cleared, and they were zeros |
| `FaultGap.SparedGapIsInvisible` | vm/pagefault.c:87-114 | the wait is invisible when the old frame stays in use and no store reaches it |
| `FaultGap.StepMem` | vm/pagefault.c:50-141 | the bytes of a frame in use change only by a store through a writable mapping, or by one whose fault finds that the page is no longer shared |
| `FaultGap.ChildSeesStore` | vm/pagefault.c:87-114 | a concrete parent and child: the child faults on a shared page and waits, the parent stores to the page, and the child goes on with a copy that has the parent's byte |
| `CopyOnWriteRuns.MmapAbs` | vm/mmap.c:79-116 | mmap gives the process zeroed pages and changes no other memory |
| `CopyOnWriteRuns.ForkAbs` | vm/as.c:65-153 | fork gives the child what a full copy at that moment would give, and changes nothing for the parent |
| `CopyOnWriteRuns.ExitAbs` | vm/as.c:163-209 | exit removes the process's memory and changes no other |
| `CopyOnWriteRuns.StoreAbs` | vm/pagefault.c:50-141 | a store changes the byte in the storing process and in no other, and faults exactly when eager copying would |
| `CopyOnWriteRuns.CowRefinesEager` | vm/as.c:65-209 | for every run of mmap, munmap, fork, stores, faults and exits, copy-on-write gives every process exactly what eager copying gives, store by store; a free frame is asked for only where the code takes one |
| `CopyOnWriteRuns.SharingIsCounted` | vm/pagefault.c:50-141 | after every run a hardware-writable page has one mapping, and a page's count is at least its number of mappings |
| `FrameAccounts.MunmapLeaks` | vm/mmap.c:152-179 | munmap leaves references behind if and only if it unmaps a page of memory; unmapped and device pages cost nothing |
| `FrameAccounts.RunLeaks` | vm/mmap.c:152-179 | over any run references are left behind if and only if some munmap of it unmaps memory |
| `FrameAccounts.CountsExactIff` | vm/mmap.c:152-179 | from exact counts, after a run every count equals its number of mappings if and only if no munmap of the run unmapped memory |
| `FrameAccounts.MunmapLosesFrame` | vm/mmap.c:152-179 | a concrete page mapped and unmapped again: its frame has no mapping, keeps a count of one and is not free |
| `FrameAccounts.CleanupFreesLast` | vm/as.c:173-200 | dropping a page at exit frees its frame exactly with the last reference |
| `FrameAccounts.FreedIsNext` | vm/page.c:82-130 | the frame freed last is the next to be handed out |
| `FrameAccounts.RunLosesNone` | vm/as.c:65-209 | over any run every frame is free or has a reference |
| `FrameAccounts.FramesConserved` | vm/as.c:65-209 | over any run without an munmap of memory a frame is free if and only if no process maps it |
| `CopyOnWriteCode.Memory.AllocPage` | vm/page.c:82-103 | the last page of the free queue, zeroed, with count zero |
| `CopyOnWriteCode.Memory.FreePage` | vm/page.c:119-131 | the count drops, and the page is freed once it is not positive |
| `CopyOnWriteCode.Memory.PageFault` | vm/pagefault.c:37-142 | a write fault equals the model's, with its result code; a read fault changes nothing and fails |
| `CopyOnWriteCode.Memory.TryEnter` | boards/raspberry_pi_4/pmap.c:136-194 | a page that is mapped already is refused and its table dropped; any other is entered |
| `CopyOnWriteCode.Memory.Mmap` | vm/mmap.c:101-143 | the loop over the pages, and the clean-up loop when one is refused, equal the model's mmap whatever is mapped, with its result |
| `CopyOnWriteCode.Memory.ForkAddressSpace` | vm/as.c:65-153 | the nested loops over page tables and pages equal the model's fork; skipping absent tables changes nothing |
| `CopyOnWriteCode.Memory.CleanupAddressSpace` | vm/as.c:163-209 | the nested loops equal the model's exit |
| `MmapFailure.UndoOneInv` | vm/mmap.c:127-137 | undoing one page of a failed mmap keeps the memory invariant |
| `MmapFailure.MmapFailsAbs` | vm/mmap.c:101-143 | an mmap that fails part way leaves every process's memory as it was, except that a refusal for a mapped page takes exactly the pages of that page's table from the caller |
| `MmapFailure.MmapFailsLosesFrames` | vm/mmap.c:101-143 | a failed call loses the frame allocated for the refused entry, which is not free, has no reference and no mapping; a refusal for a mapped page keeps the frames entered in that page's table too; every other page entered is given back, by exact count, and every other frame is free or referenced |
| `MmapFailure.MmapFailsLeaks` | vm/mmap.c:101-143 | a failed call leaves references behind if and only if the table it dropped held memory, the caller's or just entered |
| `MmapFailure.SysMmapExact` | vm/mmap.c:101-143 | mmap succeeds if and only if no page of its range is mapped, and loses no frame if and only if it succeeds; it gives the zeroed pages asked for, or costs the process every page of the table that holds the first mapped one |
| `MmapFailure.MmapOverMappedPage` | vm/mmap.c:101-143 | a concrete page mapped twice: the second call fails, its frame is lost and the page is gone |
| `MmapFailure.MmapWithoutTable` | vm/mmap.c:101-143 | a concrete call refused for want of a page table: its frame is lost |
| `FileIo.FlatWriteAt` | fs/file.c:114-181 | the reference file: a write changes exactly its own bytes, with zeros filled into a hole |
| `FileIo.FlatWriteJoin` | fs/file.c:114-181 | two adjacent writes are one |
| `FileIo.ReadAfterWrite` | fs/file.c:40-181 | what is read back is what was written |
| `FileIo.PageWrite` | fs/cache.c:383-409 | sending the front of the updated page is writing the chunk itself, also in the last page of the file |
| `FileIo.BlockAfterWrite` | fs/cache.c:383-409 | after a write its block is the updated page and every other block is unchanged |
| `FileIo.CachedFile.Evict` | fs/cache.c:81-96 | any page may leave the cache at any time without changing what the file is |
| `FileIo.CachedFile.Bread` | fs/cache.c:318-354 | the page is the file's block, zero-filled past the end, cached or not |
| `FileIo.CachedFile.BreadZero` | fs/cache.c:362-372 | for a block past the end, the zeroed page is the file's block |
| `FileIo.CachedFile.Bwrite` | fs/cache.c:383-409 | the byte count computed with the remainder is the part of the page inside the file, and the server's file becomes the written one |
| `FileIo.CachedFile.ReadFromFile` | fs/file.c:40-98 | the page loop returns exactly the flat read, and advances the offset by its length |
| `FileIo.CachedFile.WriteChunk` | fs/file.c:128-178 | one turn of the write loop is one flat write |
| `FileIo.CachedFile.WriteToFile` | fs/file.c:114-181 | the page loop leaves exactly the flat write behind, for any offset and size, and advances the offset |
| `PageCache.FindIsExact` | fs/cache.c:173-190 | the chain scan finds the page of a block if and only if there is one |
| `PageCache.AttemptKeeps` | fs/cache.c:48-150 | every outcome of a turn of getblk or getblk_anon (found, recycled, asleep, aborted) keeps the cache invariant |
| `PageCache.BrelseKeeps` | fs/cache.c:431-455 | a release keeps the cache in order if and only if the page is valid, marked bad, or has no block |
| `PageCache.PutAnonKeeps` | fs/cache.c:157-164 | returning an anonymous page keeps the cache in order |
| `PageCache.SetFlagsKeeps` | fs/cache.c:338-352 | marking a held page valid or bad keeps the cache in order |
| `PageCache.RunKeeps` | fs/cache.c:48-455 | the invariant holds after any interleaving of any number of threads |
| `PageCache.OnePagePerBlock` | fs/cache.c:48-190 | after any interleaving at most one page caches a given (vnode, offset), and find_blk finds exactly it |
| `PageCache.FreePagesInOrder` | fs/cache.c:48-285 | after any interleaving a page no one holds is on the free queue once, and on one hash chain and one vnode list, once, exactly when it is valid; a held page is not on the free queue |
| `PageCache.OneHolder` | fs/cache.c:48-164 | a page changes hands only through a release by the thread that holds it |
| `PageCache.SleeperIsBlocked` | fs/cache.c:60-78 | no wakeup is lost: after any interleaving a thread still asleep would only go back to sleep if it tried again |
| `PageCache.PagesConserved` | fs/cache.c:218-242 | free pages and held pages add up to all pages |
| `CacheOrder.BlockTurn` | fs/cache.c:48-107 | a turn in getblk gives up on an aborted superblock, waits for the page that caches the block while it is busy, and takes it otherwise |
| `CacheOrder.NewBlockTurn` | fs/cache.c:48-107 | for a block that is not cached the last free page is taken without contents, or a page is waited for |
| `CacheOrder.AnonTurn` | fs/cache.c:114-147 | a turn in getblk_anon takes the last free page, emptied, or waits for one |
| `CacheOrder.LeastRecentlyUsed` | fs/cache.c:200-240 | over any run a page released with good contents is not reused while a page that was free then lies free still, and one without contents is reused before those |
| `PageCacheCode.BlockCache.FindBlk` | fs/cache.c:173-190 | the loop over a chain |
| `PageCacheCode.BlockCache.Getblk` | fs/cache.c:48-108 | one turn of the loop equals the model's turn; a page handed out is busy, held by the caller and has the wanted block |
| `PageCacheCode.BlockCache.GetblkAnon` | fs/cache.c:114-150 | one turn of the loop equals the model's turn; a page handed out has no block |
| `PageCacheCode.BlockCache.BrelsePage` | fs/cache.c:431-455 | equals the model's release, with both wakeups |
| `PageCacheCode.BlockCache.PutblkAnon` | fs/cache.c:157-164 | equals the model's release: waking the list alone is enough, as no one waits for an anonymous page |
| `PageCacheData.NextOk` | fs/cache.c:318-461 | every step of bread, bread_zero, bwrite and the cache protocol keeps each valid, unchanged page equal to its server's block; bread_zero clears any page and so changes it |
| `PageCacheData.ReadsSeeLastWrite` | fs/cache.c:318-409 | over any interleaving of any threads, in front of servers that store anything, a page handed out as valid and not changed since holds what its block was last written with, by whichever thread, or had from the start |
| `PageCacheData.CacheRepeatsServer` | fs/cache.c:318-461 | over any interleaving a page that no one holds and that has a block is valid and equal to the server's block |
| `PageCacheData.ZeroIsBlockIff` | fs/cache.c:362-372 | the page bread_zero returns is the server's block if and only if that block is zeros |
| `PageCacheData.ProtocolPages` | fs/cache.c:48-164 | no step of the protocol makes a page good, or changes the block of a page that is held or stays good |
| `FileWriters.NextOk` | fs/file.c:40-181 | every step of every reader and writer, their failures included, keeps the cache in order, the bytes past the end of every file zero, and each writer's page equal to what its turn has made of the block |
| `FileWriters.NextKept` | fs/cache.c:48-461 | no step disturbs a page that another thread holds, or the server's version of its block |
| `FileWriters.FillPage` | fs/cache.c:318-372 | the page of a writer is the server's block after bread and zeros after bread_zero |
| `FileWriterRuns.RunsKeepFiles` | fs/file.c:40-181 | over any run from boot a block is what it was last written with, holds nothing past the end of its file, and is what every valid page shows that no writer has and no failed copy left behind |
| `FileWriterRuns.SizeIsEnd` | fs/file.c:158-162 | over any run the size of a file is the end of the furthest byte written to it, or what it was at first |
| `FileWriterRuns.SendIsUpdateIff` | fs/file.c:128-178 | bwrite leaves all other blocks alone and puts the writer's bytes into its own, if and only if the writer took the block to be inside the file or the server has nothing else in it; otherwise the block becomes the bytes on zeros |
| `FileWriterRuns.SentIsWhole` | fs/cache.c:393-399 | the byte count that bwrite computes with a remainder covers the written bytes, and the part of the page not sent is what the server has already, whoever moved the end of the file meanwhile |
| `FileWriterRuns.WriteIsLostIff` | fs/file.c:128-178 | from the test of the size to bwrite, whatever others do in between: the block becomes its latest version with the writer's bytes, if and only if the test saw it inside the file or the latest version is zero elsewhere; so it does when no one wrote it since the test |
| `FileWriterRuns.HolderWritesAlone` | fs/cache.c:48-103 | no one else writes a block while a thread holds its page, so what is lost was written before getblk returned |
| `FileWriterRuns.LateTestIsExact` | fs/file.c:136-140 | a block still past the end of the file when getblk has returned is zeros, so bread_zero loses nothing there |
| `FileWriterRuns.SecondWriterClears` | fs/file.c:128-178 | a run of two writers that both find the same block past the end: both writes succeed, the server has the first one's bytes, and then only the second one's |
| `FileWriterRuns.LostForever` | fs/file.c:84-151 | after a copy to or from user memory has failed the page keeps its block and stays busy over any run, and a thread that asks for the block never gets it |
| `FileWriterRuns.LostIffFault` | fs/file.c:84-151 | over any run pages are left behind if and only if a copy failed |
| `Lookup3.MixIsReversible` | include/kernel/hash.h:87-137 | hash_mix has an inverse on both sides |
| `Lookup3.FinalIsReversible` | include/kernel/hash.h:141-173 | hash_final loses nothing of (a, b, c) |
| `Lookup3.MixIsTurns` | include/kernel/hash.h:129-137 | hash_mix is six equal rounds over a table of shift counts |
| `Lookup3.FinalIsTurns` | include/kernel/hash.h:164-173 | hash_final is seven equal rounds over a table of shift counts |
| `Lookup3.EmptyKeyAnswers` | utility/lookup3.c:858-866 | the answers of the driver for the empty key and three pairs of seeds |
| `Lookup3.HashWords32` | utility/lookup3.c:181-222 | the 32-bit path, which reads past the key and masks, hashes exactly the bytes of the key |
| `Lookup3.HashHalves` | utility/lookup3.c:249-291 | the 16-bit path hashes exactly the bytes of the key |
| `Lookup3.HashBytes` | utility/lookup3.c:294-333 | the byte path hashes exactly the bytes of the key |
| `Lookup3.Hashlittle` | utility/lookup3.c:171-338 | the result depends on the key's bytes, length and seed only, not on alignment or on bytes past the key |
| `Lookup3.Hashlittle2` | utility/lookup3.c:351-523 | the same for the two-seed form |
| `Lookup3.ZeroSecondSeed` | utility/lookup3.c:351-363 | with a zero second seed the two-seed hash is the one-seed hash |
| `Lookup3.Hashword` | utility/lookup3.c:62-95 | hashing words equals hashing their little-endian bytes |
| `Lookup3.Hashword2` | utility/lookup3.c:106-141 | the same for the two-seed form |
| `Lookup3.HashKeepsSeeds` | utility/lookup3.c:171-338 | for one key, different registers at the start give different registers at the end |
| `Lookup3.OneBlockShows` | utility/lookup3.c:171-338 | keys of one length that differ within a single twelve-byte block never leave the same registers |
| `MemRegion.AttrRange` | vm/memregion.c:66-89 | in a tiled list every user address has an attribute and no other address has one |
| `MemRegion.Exchange` | vm/memregion.c:95-310 | replacing a stretch of the list by another over the same addresses changes the attributes of those addresses only |
| `MemRegion.CutKeeps` | vm/memregion.c:266-310 | a split changes the type, flags and physical address of no address, and keeps the sorted list, the free list and the pool in order |
| `MemRegion.CarveKeeps` | vm/memregion.c:146-186 | a region carved out of one of the space's own changes exactly its own addresses; the list stays a tiling if and only if the new region is not empty, and the free list stays right if it was |
| `MemRegion.RetypeKeeps` | vm/memregion.c:228-231 | changing a region's type changes exactly its addresses |
| `MemRegion.MergeKeeps` | vm/memregion.c:221-227 | merging a region into a free predecessor frees exactly its addresses |
| `MemRegion.MergeFree` | vm/memregion.c:221-227 | a merge keeps the free list right if and only if the swallowed region was not free itself |
| `MemRegion.GiveBackFree` | vm/memregion.c:228-231 | putting a region on the free list keeps it right if and only if the region was not free already |
| `MemRegion.FreeFromKeeps` | vm/memregion.c:212-257 | the loop of memregion_free and the merge after it free exactly the range; the free list agrees afterwards if and only if nothing in the range was free and no free region above was merged |
| `MemRegion.CleanByAddress` | vm/memregion.c:212-257 | that condition in terms of the addresses a caller can look up beforehand |
| `MemRegion.ScanFinds` | vm/memregion.c:66-89 | any region that holds the address is the one a full scan finds, so the hint cannot mislead |
| `MemRegion.SystemKeeps` | vm/memregion.c:95-421 | what one address space does keeps every other one in order and every descriptor accounted for |
| `MemRegion.DescriptorsTotal` | vm/memregion.c:325-421 | unused descriptors and the regions of all address spaces add up to the table |
| `MemRegionCode.AddressSpace.FindSorted` | vm/memregion.c:66-89 | hinted or not, the result is that of a full scan; it fails exactly outside the user range |
| `MemRegionCode.AddressSpace.FindFree` | vm/memregion.c:37-60 | while the free list agrees, hinted or not, a free region is found exactly when the address is in one; on any list the space stays in order if and only if what is found is its own |
| `MemRegionCode.AddressSpace.Split` | vm/memregion.c:266-310 | changes no attribute; fails exactly outside the range or, inside a region, with an empty pool; makes the address a region edge |
| `MemRegionCode.AddressSpace.Create` | vm/memregion.c:95-190 | on any free list, stale or not, that leads to a region of the space: fails exactly when no region suits or fewer than two descriptors are unused, and then changes nothing but the hint; otherwise turns exactly a free [at, at + size) into the new region; the list stays a tiling if and only if the size is not zero and does not wrap |
| `MemRegionCode.AddressSpace.FreeRange` | vm/memregion.c:196-260 | frees exactly [addr, addr + size) or, exactly when an end lies outside the range or the pool is short, changes no attribute; says exactly when the free list still agrees |
| `MemRegionCode.ReleasedIsReused` | vm/memregion.c:196-260 | the region released last is the first that a request it suits is met from |
| `MemRegionCode.RestIsReused` | vm/memregion.c:95-190 | what a create has left above its new region is the first that a request it suits is met from |
| `MemRegionCode.AddressSpace.FreeAll` | vm/memregion.c:325-342 | returns every descriptor to the pool and empties both lists |
| `MemRegionCode.AddressSpace.Init` | vm/memregion.c:348-375 | one free region over the whole user range, or nothing when the pool is empty |
| `MemRegionCode.AddressSpace.Fork` | vm/memregion.c:381-421 | the child's regions equal the parent's, in order, with an exact free list; or, exactly when the pool is too small, everything is given back |
| `MemRegionCode.AgreesFindsOwn` | vm/memregion.c:95-127 | while the free list agrees, a request comes upon a region of the space, and picks the one it deserves: by address, or the first that fits |
| `MemRegionCode.EmptyRegionBreaksTiling` | vm/memregion.c:146-186 | a concrete address space in which a created region of size zero leaves the list no tiling |
| `MemRegionCode.FreeLeavesStaleEntry` | vm/memregion.c:244-256 | a concrete address space in which freeing a page below free space leaves a dead entry on the free list |
| `RegionRuns.RunKeeps` | vm/memregion.c:95-421 | over any run of create, free, split, fork, free_all and init on any address spaces, untidy releases included as long as no create comes upon a region of another space, each remains a gapless tiling or is torn down, every descriptor is in the pool or in one list, once, and their number does not change |
| `RegionRuns.RegionsRefineMap` | vm/memregion.c:95-421 | over any such run the attribute of every address of every address space is the one the calls, read as updates of a plain map, give it |
| `RegionRuns.FreeListsAgree` | vm/memregion.c:196-260 | over any such run the free lists agree with the region lists throughout if and only if no release found free memory in its range or just above it |
| `RegionRuns.CallMeans` | vm/memregion.c:95-421 | one call sets the attributes of the addresses it should and of no other address in any address space |
| `RegionRuns.AgreeingFindsOwn` | vm/memregion.c:95-127 | while the free lists agree no create comes upon a region of another space |
| `ForeignRegion.FindsForeignRegion` | vm/memregion.c:95-375 | a run of six calls on three address spaces after boot: a descriptor that a release swallowed and left on the free list of the first becomes the region of the third, and a request to the first picks it |
| `RegionRuns.StartOk` | vm/memregion.c:348-375 | with all descriptors in the pool and no regions the system is in order |
| `Pmap.EncodeIsFaithful` | boards/raspberry_pi_4/pmap.c:44-91 | read as the hardware reads it, an entry is a small page at its address, user code may read it, may write it exactly when PROT_WRITE is set and MAP_COW is not, may execute it exactly with PROT_EXEC, and it is cached as asked for: by default memory write-back and devices not at all |
| `Pmap.HardwareAgrees` | boards/raspberry_pi_4/pmap.c:44-91 | in every state the entry of a mapped page says to the hardware what the tables mean |
| `Pmap.EnterKeeps` | boards/raspberry_pi_4/pmap.c:136-194 | maps exactly one page of one address space, and fails exactly for address zero, a mapped page, or want of a page table |
| `Pmap.EnterMapped` | boards/raspberry_pi_4/pmap.c:172-177 | entering a mapped page drops its whole table; what is left is in order if and only if the table had no other entry and the page was a physical mapping |
| `Pmap.EnterTwiceBreaks` | boards/raspberry_pi_4/pmap.c:172-177 | a concrete page entered twice, after which the tables are not in order |
| `Pmap.RemoveKeeps` | boards/raspberry_pi_4/pmap.c:200-258 | unmaps exactly one page, and fails without effect exactly for address zero or an unmapped page |
| `Pmap.ProtectKeeps` | boards/raspberry_pi_4/pmap.c:264-307 | changes the flags of exactly one page; the reverse lists stay right if and only if MAP_PHYS does not change |
| `Pmap.TableIffMapped` | boards/raspberry_pi_4/pmap.c:244-255 | a page table exists exactly as long as some page in its reach is mapped |
| `Pmap.ReverseListIsExact` | boards/raspberry_pi_4/pmap.c:179-241 | a frame's list has exactly the entries that map it |
| `Pmap.RunRefines` | boards/raspberry_pi_4/pmap.c:136-307 | for every run, every call returns what it would on a plain map from pages to addresses and flags, told only when memory is short, and the tables of all address spaces stand for that map |
| `Pmap.PageTables.ClearTable` | boards/raspberry_pi_4/pmap.c:417-444 | whatever the page held, the new table is empty |
| `Pmap.PageTables.FreePageTable` | boards/raspberry_pi_4/pmap.c:460-466 | the page is given back once its count is not positive |
| `Pmap.PageTables.PmapEnter` | boards/raspberry_pi_4/pmap.c:136-194 | equals the model's operation |
| `Pmap.PageTables.PmapRemove` | boards/raspberry_pi_4/pmap.c:200-258 | equals the model's operation and keeps the tables in order |
| `Pmap.PageTables.PmapProtect` | boards/raspberry_pi_4/pmap.c:264-307 | equals the model's operation: the page's flags change, its address does not, and every other page of every address space is unchanged |
| `Pmap.PageTables.PmapExtract` | boards/raspberry_pi_4/pmap.c:313-358 | returns what the plain map says |
| `MappedMemory.CallFollows` | boards/raspberry_pi_4/pmap.c:136-307 | each pmap call changes the tables as the copy-on-write step changes its entries; only pmap_enter can fail, for want of memory, and then changes nothing |
| `MappedMemory.CallsMakeStep` | vm/pagefault.c:83-133 | the pmap calls of mmap, munmap, fork, the write fault and exit on one page are all in order, and together make the change of the copy-on-write model |
| `MappedMemory.TablesFollowMemory` | vm/as.c:65-209 | over any run the page tables of all address spaces stand for the entries of the copy-on-write model, and both invariants hold |
| `MappedMemory.MappedEntryDropsTable` | boards/raspberry_pi_4/pmap.c:172-177 | entering a mapped page fails, and the tables then map what is left when that page's whole table is dropped from the copy-on-write entries, in every address space |
| `MappedMemory.WritableIsAlone` | vm/pagefault.c:83-133 | in such a state a frame that any table entry lets user code write is mapped by that entry only |
| `MappedMemory.ReverseListCounts` | boards/raspberry_pi_4/pmap.c:179-241 | in such a state a frame's reverse list has one entry for each page that maps it, so its reference count is the length of that list plus what munmap left behind |
| `MsgCopy.SeekIov` | fs/msg.c:883-915 | finds the part that holds the offset; fails exactly for a negative offset or one at or past the end |
| `MsgCopy.ReadMsg` | fs/msg.c:194-235 | for any parts, empty ones included, returns min(buf_sz, total - offset) bytes of the concatenation; fails exactly for no parts, too many, or a bad offset |
| `MsgCopy.WriteMsg` | fs/msg.c:279-321 | replaces exactly min(buf_sz, total - offset) bytes of the concatenation, and every part keeps its size |
| `MsgCopy.PatchPart` | fs/msg.c:283-321 | writing into one part is writing into the concatenation |
| `MsgCopy.PatchRead` | fs/msg.c:168-322 | what was written at an offset is what a read there returns |
| `MsgCopy.PhysicalMemory.IpCopy` | vm/ipcopy.c:40-102 | for any misalignments the page-sized chunks add up to a byte-wise copy of the virtual ranges; nothing else changes; it stops early only at an unmapped page |
| `MsgTransfer.ReadMsgAcross` | fs/msg.c:168-236 | across address spaces: on success the buffer holds exactly min(buf_sz, total - offset) bytes of the message as memory held them; a fault leaves the bytes before it delivered and has its cause at the next byte: it is not mapped on one side, or the piece of the part there, or of the buffer, is not in the user range |
| `MsgTransfer.WriteMsgAcross` | fs/msg.c:253-322 | the same from the buffer to the reply parts; where parts overlap the last byte sent stays |
| `MsgTransfer.GatherMore` | fs/msg.c:205-234 | one more piece copied page by page extends the bytes delivered |
| `MsgTransfer.ScatterByte` | fs/msg.c:289-320 | one more piece copied page by page extends the bytes placed, later pieces over earlier ones |
| `MsgPort.SendKeeps` | fs/msg.c:618-652 | a sent message joins the tail of its port, and is in that one place |
| `MsgPort.GetKeeps` | fs/msg.c:55-100 | the server takes the first message, which is then in its hands only |
| `MsgPort.ReplyKeeps` | fs/msg.c:115-153 | a reply keeps every message in one place if and only if the server has received that message |
| `MsgPort.FinishKeeps` | fs/msg.c:666-672 | the sender takes its own message from its reply port, with the status of the answer |
| `MsgPort.RunKeeps` | fs/msg.c:55-153 | whatever clients and servers do, every message is in one place |
| `MsgPort.FifoDelivery` | fs/msg.c:740-797 | over any run each port's messages are received in the order sent |
| `MsgPort.OnePlace` | fs/msg.c:618-797 | over any run a message is pending, held, or on its reply port, never two of these and never twice |
| `MsgPort.AnswersStand` | fs/msg.c:115-153 | a message is answered once: no later step changes its answer |
| `MsgPort.ReturnsTheAnswer` | fs/msg.c:666-672 | the recorded return value of a message is its recorded answer |
| `MsgPort.SenderGetsStatus` | fs/msg.c:104-153 | over any run, from the calls alone: ksendmsg returns exactly when the server of the port has replied, with the status of that reply, or -EFAULT if and only if the reply data wanted was not supplied or could not be read |
| `MsgPort.ServerGetsNext` | fs/msg.c:55-101 | over any run, from the calls alone: a server receives the messages of its port in the order of the sends, each once |
| `MsgPort.AnsweredBeforeReceived` | fs/msg.c:115-153 | a concrete message answered before it is received, after which it is pending and on the reply port at once |
| `MsgPort.StaysUnresolved` | fs/msg.c:857-877 | over any run an id that does not resolve on a port stays so until its thread sends there again, except that it may resolve if and only if the last send of that thread, to any port, was refused |
| `MsgPort.RefusedSendMayResolve` | fs/msg.c:634-655 | a concrete run: one send to a shut port, and the id may resolve on every port |
| `MsgPort.ReplyUnresolves` | fs/msg.c:761-774 | after a reply the id does not resolve on the port |
| `MsgPort.MessagePorts.SendMsg` | fs/msg.c:618-652 | equals the model's step, with what a refused send leaves in the thread; refused exactly on a shut port |
| `MsgPort.MessagePorts.GetMsg` | fs/msg.c:55-100 | equals the model's step |
| `MsgPort.MessagePorts.ReplyMsg` | fs/msg.c:115-153 | equals the model's step, the status for missing reply data included; refused exactly when the id does not resolve |
| `MsgPort.MessagePorts.FinishMsg` | fs/msg.c:666-672 | returns the answer recorded for the message |
| `FileDesc.FirstFree` | fs/filedesc.c:195-215 | the first slot of the range that looks free, or none; the one past the table is memory of another owner, and what it looks like an input |
| `FileDesc.SearchEnds` | fs/filedesc.c:195-215 | the search ends in the table, or one slot past it if and only if its bound lets it, every slot from the lower bound on is taken and what follows the table looks free |
| `FileDesc.DupKeeps` | fs/filedesc.c:158-189 | succeeds exactly when the descriptor is open and a slot of the range looks free, takes the lowest one, shares the filp, and changes nothing on failure; says exactly when it goes past a full table, and that the filp then has a reference without a slot |
| `FileDesc.Dup2Keeps` | fs/filedesc.c:132-152 | says exactly when dup2 succeeds and what is left of the table when it fails |
| `FileDesc.Dup2OntoItselfCloses` | fs/filedesc.c:144-151 | dup2 of a descriptor onto itself closes it and returns an error |
| `FileDesc.CloseKeeps` | fs/close.c:43-113 | closes exactly an open descriptor |
| `FileDesc.DropKeeps` | fs/filp.c:121-143 | releasing a reference keeps counts and free list exact |
| `FileDesc.OpenBeginKeeps` | fs/open.c:124-141 | sets the lowest slot that looks free and an unused filp aside; says exactly when it goes past a full table; counts and free list account for the descriptor past it too |
| `FileDesc.OpenEndKeeps` | fs/open.c:148-179 | the slot becomes valid, or slot and filp are given back; counts and free list stay exact |
| `FileDesc.ForkKeeps` | fs/filedesc.c:266-308 | the child shares exactly the parent's open files, flags included |
| `FileDesc.ExecKeeps` | fs/filedesc.c:318-333 | exec closes exactly the close-on-exec descriptors of the process |
| `FileDesc.ExitKeeps` | fs/fproc.c:69-88 | exit closes exactly the descriptors of the process |
| `FileDesc.CountsAreReferences` | fs/filedesc.c:132-333 | after any run by any processes, full tables included, a filp's count is the number of slots that refer to it and of descriptors past a table that do, and it is on the free list, once, exactly when that is zero |
| `FileDesc.InsideIff` | fs/filedesc.c:195-215 | over any run no slot is allocated past a table if and only if no open or dup of it comes upon a full table with what follows looking free |
| `FileDesc.CountsAreSlotsIff` | fs/filedesc.c:132-333 | after any run a filp's count is the number of slots that refer to it if and only if the run leaves no reference to it past a table, where an open that failed has given its own back |
| `FileDesc.CountsAreSlots` | fs/filedesc.c:132-333 | after any such run that stays inside the tables a filp's count is the number of slots that refer to it, and it is free exactly when that is zero |
| `FileDesc.PastIsForever` | fs/close.c:43-60 | a filp once held by an open descriptor past a table is never free again, whatever the processes do |
| `FileDesc.FullTableReached` | fs/filedesc.c:114-124 | one open and 511 dups from boot fill a table |
| `FileDesc.OpenPastFullTable` | fs/open.c:124-141 | then the next open hands out descriptor 512, whose filp has a count of one and no slot, and close refuses it |
| `FileDesc.DescriptorTables.FdAlloc` | fs/filedesc.c:195-215 | the scan finds the first slot that looks free, and leaves the table exactly when it is full from the lower bound on, the bound lets it and what follows looks free |
| `FileDesc.DescriptorTables.FilpRelease` | fs/filp.c:121-143 | the last reference puts the filp on the free list |
| `FileDesc.DescriptorTables.DoClose` | fs/close.c:43-113 | equals the model's operation |
| `FileDesc.DescriptorTables.DupFd` | fs/filedesc.c:158-189 | equals the model's operation |
| `FileDesc.DescriptorTables.SysDup2` | fs/filedesc.c:132-152 | equals the model's operation |
| `FileDesc.DescriptorTables.OpenReserve` | fs/open.c:124-141 | equals the model's operation |
| `FileDesc.DescriptorTables.ForkFds` | fs/filedesc.c:266-308 | the loop copies exactly the valid slots and counts each |
| `FileDesc.DescriptorTables.CloseFds` | fs/filedesc.c:318-333 | the loop closes exactly the slots asked for |
| `Futex.FindIsExact` | proc/thread_futex.c:182-202 | the search finds the futex of (process, address) if and only if there is one |
| `Futex.CreateKeeps` | proc/thread_futex.c:263-286 | a new futex is findable, listed once and has no waiters |
| `Futex.WaitKeeps` | proc/thread_futex.c:64-109 | a thread is queued, in the step that checks the value, exactly when the table is free, the word can be read and still has the expected value and a futex is to be had; the other outcomes change no queue, and only running out of futexes leaves the table locked |
| `Futex.WaitOutcome` | proc/thread_futex.c:64-109 | what a wait returns, case by case and if and only if: table locked, word unreadable, another value, misaligned, no futex left, asleep |
| `Futex.WakeKeeps` | proc/thread_futex.c:125-176 | a wake at a valid address releases min(n, waiters) threads from the front and touches no other queue; any other wake changes no queue |
| `Futex.WakeOutcome` | proc/thread_futex.c:115-179 | what a wake returns, case by case: address zero, table locked, misaligned, no futex left, and else the smaller of the number asked for and of the waiters |
| `Futex.DestroyKeeps` | proc/thread_futex.c:37-58 | destroying a futex is in order if and only if no thread waits on it |
| `Futex.StepRefinesQueues` | proc/thread_futex.c:37-298 | hash chains and reused futexes never show: each address has one first-in first-out queue |
| `Futex.WokenExactly` | proc/thread_futex.c:64-176 | over any run a thread asleep behind i others runs again exactly when wakes at its address have asked for more than i threads while the table was not left locked |
| `Futex.FreeTableCountsAll` | proc/thread_futex.c:230-248 | if the table is not left locked after a run it never was, and every wake of the run counted |
| `Futex.DestroyUnderWaiter` | proc/thread_futex.c:37-58 | a concrete futex destroyed under a waiting thread, after which the table is not in order |
| `Futex.FutexTable.FindFutex` | proc/thread_futex.c:182-202 | the loop over a chain |
| `Futex.FutexTable.FutexGet` | proc/thread_futex.c:182-212 | equals the model's lookup with creation, or finds no futex to be had |
| `Futex.FutexTable.FutexWait` | proc/thread_futex.c:64-109 | equals the model's wait |
| `Futex.FutexTable.FutexWake` | proc/thread_futex.c:125-176 | the loop equals the model's wake |

## Left out

- Selection among time-shared (SCHED_OTHER) threads: the demotion breaks the bitmap, so the selection and bitmap theorems are for the other policies, with the exact condition proved.
- sys_thread_setschedparams and priority changes of running threads.
- Interrupts inside the lock hand-over itself: each monitor function runs with interrupts disabled and is one step; where the timer task enables them, the steps are apart.
- MonitorRuns.Boot: the thread reaper, a kernel thread started beside the root thread, is not in the start-up state; the root thread can start threads.
- MonitorSteps.ThreadStart: a new thread starts in user mode, because the entry stubs are assembly.
- Futex timeouts and requeue: the requeue call passes its two queues the wrong way round, and the timeout copy has its test inverted.
- Running out of futexes: the process is killed with the futex table locked, and later callers are stuck; the model has both, but not the exit of the killed process.
- do_cleanup_futexes at exit: easy once no thread of the process waits.
- CopyOnWriteCode.Memory.Mmap: page frames are waited for by alloc_page, so the model maps and copies pages only while enough are free; alloc_page is one step. A fault that waits is in `FaultGap`, for processes of one thread: what another thread of the faulting process does at the missing page is not modelled.
- MmapFailure.SysMmapExact: the device branch of mmap, which allocates no frames, and the region given back afterwards; the pages and the regions of a process are modelled apart.
- Page-table pages in the copy-on-write model: they are the subject of `Pmap`; `MappedMemory` joins the two models, but the frames each allocates are kept apart, and its runs have no pmap_enter fail.
- Copy-on-write faults taken by ipcopy for a process other than the current one: page_fault always uses the current process, so destination pages are already writable.
- sys_mprotect and memregion_protect: compiled out or empty.
- MemRegionCode.AddressSpace.Create: the owner field of descriptors is not modelled; the source sets it on the wrong descriptor for the upper remainder. A swallowed descriptor that is used again goes on the free list a second time and makes it cyclic, so the code may never reach an entry that the model's list has behind it; this and the runs of `RegionRuns` read the free list as a sequence.
- RegionRuns.RunKeeps: its runs end before a create that comes upon a region of another space, after which one descriptor is on the lists of two, and make no region that would be empty; `MemRegion.CarveKeeps` and `MemRegionCode.AddressSpace.FindFree` say exactly when those happen.
- MemRegionCode.AddressSpace.FreeRange: a region added twice to the free list makes that list cyclic in memory; the model only says that the list no longer agrees.
- Pmap.PaBits: the header with the access-permission constants of the Raspberry Pi 4 is not part of this model; the AP values are those of the architecture manual.
- TLB and cache maintenance, page directories and their pool, kernel mappings.
- btruncatev, binvalidatev and bsyncv: they unlink pages that brelse unlinks again.
- SBF_ABORT in bread_zero: the source would use a missing page; the file model has a superblock that is not aborted, the cache protocol has the abort.
- FileIo.CachedFile.ReadFromFile: one file and one caller at a time, with servers that answer with the file's bytes and copies to user memory that succeed; interleaved callers, failures and failed copies are in `FileWriters`, block by block.
- FileWriterRuns.WriteIsLostIff: block by block; what a call of write over several blocks leaves when others write in between, and the offset a shared filp ends up with, are not stated. The vnode locks are left out because their bodies are compiled out. A vnode's size only grows: btruncatev is left out.
- The truncation of 64-bit file sizes to 32 bits in bwrite and write_to_file.
- Inode numbers that change while pages of the vnode are cached.
- The abort path of ksendmsg: unreachable, as the wait cannot be interrupted.
- MsgPort.RunKeeps: no server replies to an id whose thread's last send was refused; what such a reply does depends on dead stack memory.
- sys_readmsgiov and sys_writemsgiov: their advance steps use the wrong vector.
- MsgCopy.ReadMsg: copies succeed here, and may fail in `MsgTransfer`; the read of the size one past the last part is modelled as a value that is not used.
- MsgTransfer.ReadMsgAcross: the pages of the two address spaces are apart, and no page is unmapped during a copy.
- FileDesc.CountsAreReferences: what a write past a table does to the memory it hits, and the kernel's stop when that memory has flags that no slot has.
- vnode, superblock and pipe reference counts, and what closing a file does to its vnode.
- hashbig, and the hash's use as a checksum.
- Pipes, sockets, path lookup, exec loading, sessions, waitpid, device drivers and debugging code: they would only add easy members, or their lists are inconsistent as written.
