/**
  Runs of the kernel monitor: every interleaving of system calls, the timer task
  and interrupts, from boot on.
 */
module MonitorRuns {
  import opened Lists
  import opened Monitor
  import opened MonitorSteps
  import S = Scheduler
  import W = TimingWheel

  datatype Action =
    | Enter                                              // a thread outside the kernel traps into it
    | Exit                                               // the system call returns
    | Sleep(r: Rendez)
    | SleepIntr(r: Rendez, timeout: Option<nat>, flags: set<Intr>)
    | DoResume                                           // the running thread goes on after its Reschedule
    | Wake(r: Rendez)
    | WakeThread(t: Tid, reason: set<Intr>)
    | Post(t: Tid, e: nat)
    | Await(mask: set<nat>)
    | Take
    | Arm(ticks: nat)
    | Loop
    | StartTask                                          // the timer task begins its first sleep
    | TimerPass
    | TimerDoze
    | TimerScan
    | Spawn(t: Tid, policy: S.Policy, priority: int)
    | Stop
    | Irq(src: Source)

  /** What the running thread, or the interrupt controller, may do next. */
  predicate Enabled(k: Kernel, a: Action) {
    k.cur in k.threads &&
    var loc := k.threads[k.cur].loc;
    match a
    case Enter => loc.User? && k.cur != k.idle
    case Exit => loc.Body? && k.cur != k.idle
    case Sleep(r) => loc.Body? && k.cur != k.idle && r != OfTimer
    case SleepIntr(r, _, _) => loc.Body? && k.cur != k.idle && r != OfTimer
    case DoResume => loc.LockWait? || loc.Slept? || loc.SleptIntr?
    case Wake(_) => loc.Body?
    case WakeThread(t, _) => loc.Body? && t in k.threads
    case Post(t, e) => loc.Body? && t in k.threads && e < 32
    case Await(_) => loc.Body?
    case Take => loc.Body?
    case Arm(_) => loc.Body? && k.cur != k.idle
    case Loop => loc.SleepLoop?
    case StartTask => loc.Body? && k.cur == k.timerTask && k.cur != k.idle
    case TimerPass => loc.Pass?
    case TimerDoze => loc.Dozing?
    case TimerScan => loc.Scanning?
    case Spawn(t, policy, _) => loc.Body? && t !in k.threads && policy != S.Idle
    case Stop => loc.Body? && k.cur != k.idle
    case Irq(src) => SourceOk(k, src)
  }

  function Step(k: Kernel, a: Action): (n: Kernel)
    requires Inv(k) && Enabled(k, a)
    ensures Inv(n)
  {
    hide Inv;
    KassertsHold(k);
    match a
    case Enter => KernelLock(k)
    case Exit => KernelUnlock(k)
    case Sleep(r) => TaskSleep(k, r, ToBody)
    case SleepIntr(r, timeout, flags) => TaskSleepInterruptible(k, r, timeout, flags)
    case DoResume => Resume(k)
    case Wake(r) => TaskWakeup(k, r)
    case WakeThread(t, reason) => TaskWakeupSpecific(k, t, reason)
    case Post(t, e) => EventSignal(k, t, e)
    case Await(mask) => SetMask(k, mask)
    case Take => Collect(k)
    case Arm(ticks) => ArmSleep(k, ticks)
    case Loop => LoopTest(k)
    case StartTask => TaskSleep(k, OfTimer, ToPass)
    case TimerPass => TaskPass(k)
    case TimerDoze => TaskDoze(k)
    case TimerScan => TaskScan(k)
    case Spawn(t, policy, priority) => ThreadStart(k, t, policy, priority)
    case Stop => ThreadStop(k)
    case Irq(src) => Interrupt(k, src)
  }

  /** A sequence of actions each of which is enabled when its turn comes. */
  ghost predicate IsRun(k: Kernel, acts: seq<Action>)
    requires Inv(k)
    decreases acts
  {
    acts == [] || (Enabled(k, acts[0]) && IsRun(Step(k, acts[0]), acts[1..]))
  }

  ghost function Run(k: Kernel, acts: seq<Action>): (n: Kernel)
    requires Inv(k) && IsRun(k, acts)
    ensures Inv(n)
    decreases acts
  {
    if acts == [] then k else Run(Step(k, acts[0]), acts[1..])
  }

  /** start_scheduler: the timer task, which has the highest priority, runs; the root thread and idle are ready. */
  function Boot(idle: Tid, timerTask: Tid, root: Tid): (k: Kernel)
    requires Distinct(idle, timerTask, root)
    ensures Inv(k)
  {
    BootSched(idle, timerTask, root);
    hide SchedOk, S.Members, S.AtHead;
    var threads := map[idle := Fresh, timerTask := Fresh.(state := Running), root := Fresh];
    assert threads.Keys == {idle, timerTask, root};
    Kernel(threads, false, None, [], map[], BootQueues(idle, timerTask, root), W.Init(), timerTask, idle, timerTask)
  }

  predicate Distinct(idle: Tid, timerTask: Tid, root: Tid) {
    idle != timerTask && idle != root && timerTask != root
  }

  function BootQueues(idle: Tid, timerTask: Tid, root: Tid): S.Sched {
    S.Sched(seq(S.NQUEUES, i => if i == 31 then [timerTask] else if i == 16 then [root] else []), {16, 31},
            BootParams(idle, timerTask, root))
  }

  function BootParams(idle: Tid, timerTask: Tid, root: Tid): map<Tid, S.Params> {
    map[idle := S.Params(S.Idle, 0, 0, 0), timerTask := S.Params(S.RoundRobin, 31, 31, 0),
        root := S.Params(S.RoundRobin, 16, 16, 0)]
  }

  lemma BootSched(idle: Tid, timerTask: Tid, root: Tid)
    requires Distinct(idle, timerTask, root)
    ensures var s := BootQueues(idle, timerTask, root);
            && SchedOk(s, {idle, timerTask, root}, idle) && S.Members(s) == {timerTask, root}
            && S.AtHead(s, timerTask)
  {
  }

  // ---------------------------------------------------------------------
  // What every reachable state satisfies
  // ---------------------------------------------------------------------

  ghost predicate Reachable(k: Kernel) {
    exists idle: Tid, timerTask: Tid, root: Tid, acts: seq<Action> ::
      && Distinct(idle, timerTask, root)
      && IsRun(Boot(idle, timerTask, root), acts) && k == Run(Boot(idle, timerTask, root), acts)
  }

  /** At most one runnable thread is inside the kernel, and it is bkl_owner: so a thread that
      resumes from any sleep owns the lock, and the kasserts on the lock never fail. */
  lemma MutualExclusion(k: Kernel, t: Tid, u: Tid)
    requires Reachable(k) && t in k.threads && u in k.threads
    requires Runnable(k.threads[t]) && InKernel(k.threads[t])
    ensures k.locked && k.owner == Some(t)
    ensures Runnable(k.threads[u]) && InKernel(k.threads[u]) ==> u == t
  {
    hide SchedOk, ListsOk, ThreadsOk, WheelOk;
    assert Inv(k);
  }

  /** The list a live thread is on. */
  datatype Place = RunQueue(q: nat) | LockList | RendezList(r: Rendez) | Nowhere

  ghost predicate IsAt(k: Kernel, t: Tid, p: Place) {
    match p
    case RunQueue(q) => q < |k.sched.queues| && t in k.sched.queues[q]
    case LockList => t in k.bkl
    case RendezList(r) => t in Waiters(k.rendez, r)
    case Nowhere => false
  }

  function PlaceOf(k: Kernel, t: Tid): Place
    requires t in k.threads && t in k.sched.params
  {
    match k.threads[t].state
    case Ready => RunQueue(k.sched.params[t].prio)
    case Running => RunQueue(k.sched.params[t].prio)
    case BklBlocked => LockList
    case RendezBlocked => if k.threads[t].blocking.Some? then RendezList(k.threads[t].blocking.value) else Nowhere
    case Init => Nowhere
    case Exited => Nowhere
  }

  /** Every thread but idle is on exactly the list its state names; the lock's list is empty while the lock is free. */
  lemma OneListEach(k: Kernel, t: Tid, p: Place)
    requires Reachable(k) && t in k.threads && t != k.idle
    ensures t in k.sched.params
    ensures IsAt(k, t, p) <==> p == PlaceOf(k, t) && !p.Nowhere?
    ensures !k.locked ==> k.bkl == []
  {
    hide Inv, IsAt, PlaceOf;
    assert Inv(k);
    ListedOnce(k, t, p);
    if !k.locked {
      FreeLockNoQueue(k);
    }
  }

  lemma FreeLockNoQueue(k: Kernel)
    requires Inv(k) && !k.locked
    ensures k.bkl == []
  {
    hide SchedOk, ListsOk, ThreadsOk, WheelOk;
  }

  lemma ListedOnce(k: Kernel, t: Tid, p: Place)
    requires Inv(k) && t in k.threads && t != k.idle
    ensures t in k.sched.params
    ensures IsAt(k, t, p) <==> p == PlaceOf(k, t) && !p.Nowhere?
  {
    hide ThreadsOk, WheelOk, LockOk, CurOk, NoDup, S.BitmapOk, S.Valid, S.Members;
    assert ListsAt(t, k.threads[t], k.bkl, k.rendez, S.Members(k.sched), k.idle);
    if p.RunQueue? {
      S.QueueIsPriority(k.sched, t, p.q);
    }
  }

  /** No lost wakeup: a thread asleep for events has none of them pending. */
  lemma NoLostEvent(k: Kernel, t: Tid)
    requires Reachable(k) && t in k.threads
    requires k.threads[t].state == RendezBlocked && Event in k.threads[t].intr
    ensures k.threads[t].pending * k.threads[t].mask == {}
  {
    hide SchedOk, ListsOk, LockOk, WheelOk;
    assert Inv(k);
    assert ThreadAt(t, k.threads[t], k.wheel, k.idle, k.timerTask);
  }

  /** A sleep timer is armed only inside the sleep that armed it, sits once in the bucket of its expiry, is not
      overdue, and never names a rendez other than the one its thread is blocked on. */
  lemma TimersFollowSleeps(k: Kernel, t: Tid)
    requires Reachable(k) && t in k.threads
    ensures |k.wheel.buckets| == W.JIFFIES
    ensures k.threads[t].loc.Body? || k.threads[t].loc.User? ==> t !in k.wheel.expiry
    ensures forall b :: 0 <= b < W.JIFFIES ==>
              (t in k.wheel.buckets[b] <==> t in k.wheel.expiry && b == k.wheel.expiry[t] % W.JIFFIES)
    ensures t in k.wheel.expiry ==> k.wheel.soft <= k.wheel.expiry[t]
    ensures t in k.wheel.expiry && k.threads[t].callback.TimedSleep? && k.threads[t].state == RendezBlocked ==>
              k.threads[t].blocking == Some(k.threads[t].callback.r)
  {
    hide SchedOk, ListsOk, LockOk;
    assert Inv(k);
    assert ThreadAt(t, k.threads[t], k.wheel, k.idle, k.timerTask);
  }

  ghost predicate NoTimeSharing(k: Kernel) {
    forall t :: t in k.threads ==> t in k.sched.params && k.sched.params[t].policy != S.Other
  }

  /** While no thread uses SCHED_OTHER, the bitmap of every reachable state mirrors the run queues. */
  lemma BitmapMirrorsQueues(k: Kernel)
    requires Reachable(k) && NoTimeSharing(k)
    ensures S.Valid(k.sched) && S.BitmapOk(k.sched)
  {
    hide ListsOk, LockOk, ThreadsOk, WheelOk;
    assert Inv(k);
  }

  /** Reschedule switches to the head of the highest non-empty queue, or to idle when all are empty. */
  lemma RescheduleRunsHighest(k: Kernel, q: nat)
    requires Core(k, {}) && S.CurrentOk(k.sched, k.cur) && NoTimeSharing(k) && q < S.NQUEUES
    ensures var n := Resched(k);
            && |n.sched.queues| == S.NQUEUES
            && ((forall h :: q < h < S.NQUEUES ==> n.sched.queues[h] == []) && n.sched.queues[q] != [] ==>
                  n.cur == n.sched.queues[q][0])
            && ((forall h :: 0 <= h < S.NQUEUES ==> n.sched.queues[h] == []) ==> n.cur == k.idle)
  {
    hide ListsOk, LockOk, ThreadsOk, WheelOk;
    ReschedSched(k);
    S.AccountKeeps(k.sched, k.cur);
    S.PickIsHighest(S.Account(k.sched, k.cur), k.idle);
  }

  /** And a round-robin thread on the highest queue that stays ready gives way to the next one of its queue. */
  lemma RescheduleTakesTurns(k: Kernel, q: nat)
    requires Core(k, {}) && S.TopRound(k.sched, q) && k.cur == k.sched.queues[q][0]
    ensures S.CurrentOk(k.sched, k.cur)
    ensures var a := k.sched.queues[q]; var n := Resched(k);
            && n.cur == (if |a| == 1 then a[0] else a[1])
            && |n.sched.queues| == S.NQUEUES && n.sched.queues[q] == a[1..] + [a[0]]
  {
    hide SchedOk, ListsOk, LockOk, ThreadsOk, WheelOk;
    S.NextTurn(k.sched, q, k.idle);
    ReschedSched(k);
  }

  // ---------------------------------------------------------------------
  // Hand-off order
  // ---------------------------------------------------------------------

  /** Waiters only move up: the lock stays put and the list grows at its tail, or the head gets the lock. */
  predicate Fifo(k: Kernel, n: Kernel) {
    k.bkl != [] ==>
      || (n.owner == k.owner && k.bkl <= n.bkl)
      || (n.owner == Some(k.bkl[0]) && k.owner != n.owner && k.bkl[1..] <= n.bkl)
  }

  lemma StepIsFifo(k: Kernel, a: Action)
    requires Inv(k) && Enabled(k, a)
    ensures Fifo(k, Step(k, a))
  {
    hide Inv;
    KassertsHold(k);
    if k.bkl != [] {
      WaitersNeedLock(k);
      match a
      case Enter => FifoEnter(k);
      case Exit => FifoLeave(k);
      case Sleep(r) => FifoSleep(k, r, ToBody);
      case SleepIntr(r, timeout, flags) => FifoSleepIntr(k, r, timeout, flags);
      case Loop => FifoLoop(k);
      case StartTask => FifoSleep(k, OfTimer, ToPass);
      case TimerDoze => FifoDoze(k);
      case TimerScan => FifoScan(k);
      case Stop => FifoStop(k);
      case Irq(src) => FifoTop(k, src);
      case _ => FifoPlain(k, a);
    }
  }

  lemma WaitersNeedLock(k: Kernel)
    requires Inv(k) && k.bkl != []
    ensures k.locked && k.owner.Some? && k.owner.value in k.threads && k.owner != Some(k.bkl[0])
  {
    hide SchedOk, ThreadsOk, WheelOk;
    assert k.bkl[0] in k.bkl;
    var t := k.bkl[0];
    assert ListsAt(t, k.threads[t], k.bkl, k.rendez, S.Members(k.sched), k.idle);
  }

  lemma FifoEnter(k: Kernel)
    requires Inv(k) && Enabled(k, Enter) && k.bkl != [] && k.locked
    ensures Fifo(k, KernelLock(k))
  {
    hide SchedOk, ListsOk, LockOk, ThreadsOk, WheelOk, CurOk;
    assert k.bkl <= k.bkl + [k.cur];
  }

  lemma FifoLeave(k: Kernel)
    requires Inv(k) && Enabled(k, Exit) && k.bkl != [] && k.owner != Some(k.bkl[0])
    ensures Fifo(k, KernelUnlock(k))
  {
    hide SchedOk, ListsOk, LockOk, ThreadsOk, WheelOk, CurOk;
  }

  lemma FifoSleep(k: Kernel, r: Rendez, c: Cont)
    requires Inv(k) && MaySleep(k, r, c) && k.bkl != [] && k.owner != Some(k.bkl[0])
    ensures Fifo(k, TaskSleep(k, r, c))
  {
    hide SchedOk, ListsOk, LockOk, ThreadsOk, WheelOk, CurOk;
  }

  lemma FifoSleepIntr(k: Kernel, r: Rendez, timeout: Option<nat>, flags: set<Intr>)
    requires Inv(k) && AtLoc(k, Body) && k.cur != k.idle && r != OfTimer && k.bkl != [] && k.owner != Some(k.bkl[0])
    ensures Fifo(k, TaskSleepInterruptible(k, r, timeout, flags))
  {
    hide SchedOk, ListsOk, LockOk, ThreadsOk, CurOk;
  }

  lemma FifoLoop(k: Kernel)
    requires Inv(k) && AtLoc(k, SleepLoop) && k.bkl != [] && k.owner != Some(k.bkl[0])
    ensures Fifo(k, LoopTest(k))
  {
    hide SchedOk, ListsOk, LockOk, WheelOk, CurOk, TaskSleep;
    KassertsHold(k);
    CurThread(k, {});
    if k.cur in k.wheel.expiry {
      FifoSleep(k, OfThread(k.cur), ToSleepLoop);
    }
  }

  lemma FifoDoze(k: Kernel)
    requires Inv(k) && AtLoc(k, Dozing) && k.bkl != [] && k.owner != Some(k.bkl[0])
    ensures Fifo(k, TaskDoze(k))
  {
    hide SchedOk, ListsOk, LockOk, CurOk, TaskSleep;
    CurThread(k, {});
    FifoSleep(k, OfTimer, ToPass);
  }

  lemma FifoScan(k: Kernel)
    requires Inv(k) && k.threads[k.cur].loc.Scanning? && k.bkl != []
    ensures Fifo(k, TaskScan(k))
  {
    hide Inv, W.Disarm;
  }

  lemma FifoStop(k: Kernel)
    requires Inv(k) && AtLoc(k, Body) && k.cur != k.idle && k.bkl != [] && k.owner != Some(k.bkl[0])
    ensures Fifo(k, ThreadStop(k))
  {
    hide SchedOk, ListsOk, LockOk, ThreadsOk, WheelOk, CurOk;
  }

  lemma {:induction false} FifoDevice(k: Kernel, events: seq<(Tid, nat)>)
    requires Inv(k) && k.locked && EventsOk(k.threads.Keys, events)
    ensures k.bkl <= DeviceTopHalf(k, events).bkl
    decreases events
  {
    hide Inv;
    if events != [] {
      var m := EventSignal(k, events[0].0, events[0].1);
      assert EventsOk(m.threads.Keys, events[1..]);
      FifoDevice(m, events[1..]);
    }
  }

  lemma FifoTop(k: Kernel, src: Source)
    requires Inv(k) && SourceOk(k, src) && k.locked && k.bkl != []
    ensures Fifo(k, Interrupt(k, src))
  {
    hide Inv, DeviceTopHalf;
    if src.Device? {
      FifoDevice(k, src.events);
    }
  }

  lemma FifoPlain(k: Kernel, a: Action)
    requires Inv(k) && Enabled(k, a) && k.bkl != [] && k.locked
    requires a.DoResume? || a.Wake? || a.WakeThread? || a.Post? || a.Await? || a.Take? || a.Arm? || a.Spawn?
             || a.TimerPass?
    ensures Fifo(k, Step(k, a))
  {
    hide Inv;
    KassertsHold(k);
  }

  predicate Handoff(k: Kernel, n: Kernel) {
    k.bkl != [] && n.owner != k.owner
  }

  /** How often the lock passes to a waiter during a run, and who holds it right after the j-th time. */
  ghost function Handoffs(k: Kernel, acts: seq<Action>): nat
    requires Inv(k) && IsRun(k, acts)
    decreases acts
  {
    if acts == [] then 0
    else
      var n := Step(k, acts[0]);
      (if Handoff(k, n) then 1 else 0) + Handoffs(n, acts[1..])
  }

  ghost function OwnerAfter(k: Kernel, acts: seq<Action>, j: nat): Option<Tid>
    requires Inv(k) && IsRun(k, acts) && j < Handoffs(k, acts)
    decreases acts
  {
    var n := Step(k, acts[0]);
    if Handoff(k, n) then (if j == 0 then n.owner else OwnerAfter(n, acts[1..], j - 1))
    else OwnerAfter(n, acts[1..], j)
  }

  /** Strict FIFO with no barging: along every run the j-th hand-off goes to the j-th waiter. */
  lemma {:induction false} HandoffOrder(k: Kernel, acts: seq<Action>, j: nat)
    requires Inv(k) && IsRun(k, acts) && j < |k.bkl| && j < Handoffs(k, acts)
    ensures OwnerAfter(k, acts, j) == Some(k.bkl[j])
    decreases acts
  {
    hide Inv, Step;
    StepIsFifo(k, acts[0]);
    var n := Step(k, acts[0]);
    if Handoff(k, n) {
      if j > 0 {
        HandoffOrder(n, acts[1..], j - 1);
      }
    } else {
      HandoffOrder(n, acts[1..], j);
    }
  }

  /** Until its turn comes, every hand-off moves a waiter up by exactly one place. */
  lemma {:induction false} WaiterMovesUp(k: Kernel, acts: seq<Action>, j: nat)
    requires Inv(k) && IsRun(k, acts) && j < |k.bkl| && Handoffs(k, acts) <= j
    ensures j - Handoffs(k, acts) < |Run(k, acts).bkl|
    ensures Run(k, acts).bkl[j - Handoffs(k, acts)] == k.bkl[j]
    decreases acts
  {
    hide Inv, Step;
    if acts != [] {
      StepIsFifo(k, acts[0]);
      var n := Step(k, acts[0]);
      if Handoff(k, n) {
        WaiterMovesUp(n, acts[1..], j - 1);
      } else {
        WaiterMovesUp(n, acts[1..], j);
      }
    }
  }
}
