/**
  Time in runs of the kernel monitor: a thread stays in its sleep until the clock has
  passed the delay it asked for, and what a clock interrupt does to a timer task that is
  on its way to sleep (proc/timer.c:183-270, 380-456).
 */
module ClockRuns {
  import opened Lists
  import opened Monitor
  import opened MonitorSteps
  import opened MonitorEffects
  import opened MonitorRuns
  import S = Scheduler
  import W = TimingWheel

  // ---------------------------------------------------------------------
  // What a step leaves alone
  // ---------------------------------------------------------------------

  ghost predicate SamePlace(k: Kernel, n: Kernel, ex: set<Tid>) {
    && k.threads.Keys <= n.threads.Keys
    && forall t :: t in k.threads && t !in ex ==>
         && n.threads[t].loc == k.threads[t].loc && n.threads[t].expiration == k.threads[t].expiration
         && n.threads[t].intr == k.threads[t].intr && n.threads[t].mask == k.threads[t].mask
  }

  /**
    The clock does not go back, and threads not in `ex` stay where they are, with the deadline
    they have and waiting for what they wait for.
   */
  ghost predicate Keeps(k: Kernel, n: Kernel, ex: set<Tid>) {
    k.wheel.hard <= n.wheel.hard && SamePlace(k, n, ex)
  }

  lemma ReschedKeeps(k: Kernel)
    requires Core(k, {}) && S.CurrentOk(k.sched, k.cur)
    ensures Keeps(k, Resched(k), {})
  {
    hide SchedOk, ListsOk, LockOk, ThreadsOk, WheelOk, S.Account, S.Pick, S.CurrentOk;
    PickInThreads(k);
  }

  lemma GrantKeeps(k: Kernel)
    requires Inv(k)
    ensures Keeps(k, Grant(k), {}) && Grant(k).cur == k.cur
  {
    hide SchedOk, LockOk, ThreadsOk, WheelOk, CurOk;
  }

  lemma EnterKeeps(k: Kernel)
    requires Inv(k) && AtLoc(k, User) && (k.locked ==> k.cur != k.idle)
    ensures Keeps(k, KernelLock(k), {k.cur})
  {
    hide SchedOk, ListsOk, LockOk, ThreadsOk, WheelOk, Resched;
    if k.locked {
      LockBusy(k);
      ReschedKeeps(QueueForLock(k));
    }
  }

  lemma LeaveKeeps(k: Kernel)
    requires Inv(k) && AtLoc(k, Body)
    ensures Keeps(k, KernelUnlock(k), {k.cur})
  {
    hide SchedOk, ListsOk, LockOk, ThreadsOk, WheelOk, Resched, Grant;
    GrantKeeps(k);
    LeaveInv(k);
    if k.bkl != [] {
      ReschedKeeps(Leave(k));
    }
  }

  lemma SleepKeeps(k: Kernel, r: Rendez, c: Cont)
    requires Inv(k) && MaySleep(k, r, c)
    ensures Keeps(k, TaskSleep(k, r, c), {k.cur})
    ensures TaskSleep(k, r, c).threads[k.cur].expiration == k.threads[k.cur].expiration
  {
    hide SchedOk, ListsOk, LockOk, ThreadsOk, WheelOk, CurOk, Resched, Grant, S.Unready;
    GrantKeeps(k);
    SleepCore(k, r, c);
    var th := k.threads[k.cur];
    ReschedKeeps(Block(Grant(k), r, Slept(c), th.intr, th.callback, th.expiration, k.wheel));
  }

  lemma SleepIntrKeeps(k: Kernel, r: Rendez, timeout: Option<nat>, flags: set<Intr>)
    requires Inv(k) && AtLoc(k, Body) && k.cur != k.idle && r != OfTimer
    ensures Keeps(k, TaskSleepInterruptible(k, r, timeout, flags), {k.cur})
  {
    hide SchedOk, ListsOk, LockOk, ThreadsOk, WheelOk, CurOk, Resched, Grant, S.Unready;
    var th := k.threads[k.cur];
    WheelSize(k);
    if !EventPending(th, flags) {
      GrantKeeps(k);
      SleepIntrCore(k, r, timeout, flags);
      ReschedKeeps(Block(Grant(k), r, SleptIntr(timeout.Some?), flags, TimeoutCallback(th, r, timeout),
                         TimeoutExpiry(th, k.wheel, timeout), TimeoutWheel(k.wheel, k.cur, timeout)));
    }
  }

  lemma StopKeeps(k: Kernel)
    requires Inv(k) && AtLoc(k, Body) && k.cur != k.idle
    ensures Keeps(k, ThreadStop(k), {k.cur})
  {
    hide SchedOk, ListsOk, LockOk, ThreadsOk, WheelOk, Resched, Grant, S.Unready;
    GrantKeeps(k);
    StopCore(k);
    ReschedKeeps(Stopped(Grant(k)));
  }

  lemma WakeKeeps(k: Kernel, r: Rendez)
    requires Inv(k) && k.locked
    ensures Keeps(k, TaskWakeup(k, r), {}) && TaskWakeup(k, r).wheel == k.wheel
  {
    hide SchedOk, LockOk, ThreadsOk, WheelOk, CurOk, Without;
    if Waiters(k.rendez, r) != [] {
      HeadIsBlocked(k, r);
    }
  }

  lemma WakeThreadKeeps(k: Kernel, t: Tid, reason: set<Intr>)
    requires Inv(k) && k.locked && t in k.threads
    ensures Keeps(k, TaskWakeupSpecific(k, t, reason), {}) && TaskWakeupSpecific(k, t, reason).wheel == k.wheel
  {
    hide Inv, Without;
    if Interruptible(k.threads[t], reason) {
      ReleaseInv(k, t);
    }
  }

  lemma SignalKeeps(k: Kernel, t: Tid, e: nat)
    requires Inv(k) && k.locked && t in k.threads
    ensures Keeps(k, EventSignal(k, t, e), {}) && EventSignal(k, t, e).wheel == k.wheel
  {
    hide Inv, TaskWakeupSpecific;
    WakeThreadKeeps(k, t, {Event});
  }

  lemma FireKeeps(k: Kernel, x: Tid)
    requires Inv(k) && k.locked && x in k.threads
    ensures Keeps(k, Fire(k, x), {})
  {
    hide Inv, TaskWakeup, Without;
    if k.threads[x].callback == WakeOwner {
      WakeKeeps(k, OfThread(x));
    } else if k.threads[x].state == RendezBlocked {
      ReleaseInv(k, x);
    }
  }

  lemma ScanKeeps(k: Kernel)
    requires Inv(k) && k.threads[k.cur].loc.Scanning?
    ensures Keeps(k, TaskScan(k), {k.cur})
  {
    hide SchedOk, ListsOk, LockOk, ThreadsOk, WheelOk, CurOk, Fire;
    KassertsHold(k);
    ScanFacts(k);
    var th := k.threads[k.cur];
    var rest := th.loc.rest;
    if rest != [] && k.wheel.expiry[rest[0]] <= k.wheel.soft {
      ScanFire(k);
      FireKeeps(k.(wheel := W.Disarm(k.wheel, rest[0]),
                   threads := k.threads[k.cur := th.(loc := Scanning(rest[1..]))]), rest[0]);
    }
  }

  lemma ResumeKeeps(k: Kernel)
    requires Inv(k) && MayResume(k)
    ensures Keeps(k, Resume(k), {k.cur}) && Resume(k).threads[k.cur].expiration == k.threads[k.cur].expiration
  {
    hide SchedOk, ListsOk, LockOk, ThreadsOk, WheelOk, CurOk;
    WheelSize(k);
  }

  // ---------------------------------------------------------------------
  // Interrupts
  // ---------------------------------------------------------------------

  lemma ClockKeeps(k: Kernel)
    requires Inv(k) && k.locked
    ensures Keeps(k, ClockTopHalf(k), {})
  {
    hide Inv, S.Charge, TaskWakeup;
    ClockInv(k);
    WakeKeeps(k.(sched := S.Charge(k.sched, k.cur), wheel := W.Tick(k.wheel)), OfTimer);
  }

  lemma {:induction false} DeviceKeeps(k: Kernel, events: seq<(Tid, nat)>)
    requires Inv(k) && k.locked && EventsOk(k.threads.Keys, events)
    ensures Keeps(k, DeviceTopHalf(k, events), {}) && DeviceTopHalf(k, events).wheel == k.wheel
    decreases events
  {
    hide Inv, EventSignal;
    if events != [] {
      var m := EventSignal(k, events[0].0, events[0].1);
      SignalKeeps(k, events[0].0, events[0].1);
      assert EventsOk(m.threads.Keys, events[1..]);
      DeviceKeeps(m, events[1..]);
    }
  }

  function TickOf(src: Source): nat {
    if src.Clock? then 1 else 0
  }

  /** The top half of an interrupt moves no thread, and the clock only for a clock interrupt. */
  lemma TopHalfKeeps(k: Kernel, src: Source)
    requires Inv(k) && k.locked && SourceOk(k, src)
    ensures Keeps(k, TopHalf(k, src), {})
    ensures TopHalf(k, src).wheel == k.wheel.(hard := k.wheel.hard + TickOf(src))
  {
    hide Inv, ClockTopHalf, DeviceTopHalf, Keeps;
    match src
    case Clock => ClockKeeps(k); ClockEffect(k);
    case Device(events) => DeviceKeeps(k, events);
  }

  /** So does an interrupt that finds the lock held; one that finds it free finds a thread outside the kernel. */
  lemma IrqKeeps(k: Kernel, src: Source)
    requires Inv(k) && SourceOk(k, src)
    ensures Keeps(k, Interrupt(k, src), if k.locked then {} else {k.cur})
    ensures k.locked ==> Interrupt(k, src).wheel == k.wheel.(hard := k.wheel.hard + TickOf(src))
    ensures !k.locked ==> AtLoc(k, User)
  {
    hide Inv, KernelLock, KernelUnlock, TopHalf;
    if k.locked {
      TopHalfKeeps(k, src);
    } else {
      FreeMeansUser(k);
      EnterEffect(k);
      EnterKeeps(k);
      TopHalfKeeps(KernelLock(k), src);
      LeaveKeeps(TopHalf(KernelLock(k), src));
    }
  }

  // ---------------------------------------------------------------------
  // Every step
  // ---------------------------------------------------------------------

  lemma StepKeeps(k: Kernel, a: Action)
    requires Inv(k) && Enabled(k, a)
    ensures Keeps(k, Step(k, a), if a.Irq? && k.locked then {} else {k.cur})
  {
    hide Inv, Keeps, KernelLock, KernelUnlock, TaskSleep, TaskSleepInterruptible, Resume, TaskWakeup,
      TaskWakeupSpecific, EventSignal, ThreadStart, ThreadStop, TaskScan, Interrupt, Collect;
    KassertsHold(k);
    match a
    case Enter => EnterKeeps(k);
    case Exit => LeaveKeeps(k);
    case Sleep(r) => SleepKeeps(k, r, ToBody);
    case SleepIntr(r, timeout, flags) => SleepIntrKeeps(k, r, timeout, flags);
    case DoResume => ResumeKeeps(k);
    case Wake(r) => WakeKeeps(k, r); FewerExempt(k, Step(k, a), {k.cur});
    case WakeThread(t, reason) => WakeThreadKeeps(k, t, reason); FewerExempt(k, Step(k, a), {k.cur});
    case Post(t, e) => SignalKeeps(k, t, e); FewerExempt(k, Step(k, a), {k.cur});
    case Await(_) => OwnKeeps(k, Step(k, a));
    case Take => CollectEffect(k); OwnKeeps(k, Step(k, a));
    case Arm(_) => OwnKeeps(k, Step(k, a));
    case Loop => LoopKeeps(k);
    case StartTask => SleepKeeps(k, OfTimer, ToPass);
    case TimerPass => PassEffect(k); OwnKeeps(k, Step(k, a));
    case TimerDoze => DozeMay(k); SleepKeeps(k, OfTimer, ToPass);
    case TimerScan => ScanKeeps(k);
    case Spawn(t, policy, priority) => StartEffect(k, t, policy, priority); OwnKeeps(k, Step(k, a));
    case Stop => StopKeeps(k);
    case Irq(src) => IrqKeeps(k, src);
  }

  lemma FewerExempt(k: Kernel, n: Kernel, ex: set<Tid>)
    requires Keeps(k, n, {})
    ensures Keeps(k, n, ex)
  {
  }

  lemma OwnKeeps(k: Kernel, n: Kernel)
    requires k.wheel.hard <= n.wheel.hard && k.threads.Keys <= n.threads.Keys
    requires forall t :: t in k.threads && t != k.cur ==> n.threads[t] == k.threads[t]
    ensures Keeps(k, n, {k.cur})
  {
  }

  lemma DozeMay(k: Kernel)
    requires Inv(k) && AtLoc(k, Dozing)
    ensures MaySleep(k, OfTimer, ToPass)
  {
    hide SchedOk, ListsOk, LockOk, WheelOk;
    CurThread(k, {});
  }

  lemma LoopKeeps(k: Kernel)
    requires Inv(k) && AtLoc(k, SleepLoop)
    ensures Keeps(k, LoopTest(k), {k.cur})
  {
    hide SchedOk, ListsOk, LockOk, WheelOk, TaskSleep;
    CurThread(k, {});
    if k.cur in k.wheel.expiry {
      SleepKeeps(k, OfThread(k.cur), ToSleepLoop);
    }
  }

  // ---------------------------------------------------------------------
  // A sleep lasts its ticks
  // ---------------------------------------------------------------------

  /** Thread t is in the loop of sys_sleep, or asleep there. */
  predicate InLoop(k: Kernel, t: Tid) {
    t in k.threads && (k.threads[t].loc.SleepLoop? || k.threads[t].loc == Slept(ToSleepLoop))
  }

  /** t sleeps on with deadline e, or e has passed. */
  predicate Awaits(k: Kernel, t: Tid, e: nat) {
    (InLoop(k, t) && k.threads[t].expiration == e) || e < k.wheel.hard
  }

  lemma OwnStep(k: Kernel, a: Action)
    requires Inv(k) && Enabled(k, a) && InLoop(k, k.cur) && !a.Irq?
    ensures Awaits(Step(k, a), k.cur, k.threads[k.cur].expiration)
  {
    hide Inv, TaskSleep, Resume, LoopTest;
    if a.Loop? {
      LoopStep(k);
    } else {
      ResumeEffect(k);
      ResumeKeeps(k);
    }
  }

  lemma LoopStep(k: Kernel)
    requires Inv(k) && AtLoc(k, SleepLoop)
    ensures Awaits(LoopTest(k), k.cur, k.threads[k.cur].expiration)
  {
    hide SchedOk, ListsOk, LockOk, ThreadsOk, WheelOk, CurOk, TaskSleep;
    CurThread(k, {});
    LoopEffect(k);
    if k.cur in k.wheel.expiry {
      SleepKeeps(k, OfThread(k.cur), ToSleepLoop);
    }
  }

  lemma StepAwaits(k: Kernel, a: Action, t: Tid, e: nat)
    requires Inv(k) && Enabled(k, a) && Awaits(k, t, e)
    ensures Awaits(Step(k, a), t, e)
  {
    hide Inv, Step;
    StepKeeps(k, a);
    if k.wheel.hard <= e && t == k.cur {
      LoopLocks(k);
      if !a.Irq? {
        OwnStep(k, a);
      }
    }
  }

  lemma LoopLocks(k: Kernel)
    requires Inv(k) && InLoop(k, k.cur)
    ensures k.locked
  {
    hide Inv;
    KassertsHold(k);
  }

  lemma {:induction false} RunAwaits(k: Kernel, acts: seq<Action>, t: Tid, e: nat)
    requires Inv(k) && IsRun(k, acts) && Awaits(k, t, e)
    ensures Awaits(Run(k, acts), t, e)
    decreases acts
  {
    hide Inv, Step, Awaits, Enabled;
    if acts != [] {
      StepAwaits(k, acts[0], t, e);
      RunAwaits(Step(k, acts[0]), acts[1..], t, e);
    }
  }

  /**
    A sleep is never short: whatever happens after the call, its thread is still in the
    sleep, or more than the requested ticks have passed since.
   */
  lemma SleepNeverShort(k: Kernel, ticks: nat, acts: seq<Action>)
    requires Inv(k) && Enabled(k, Arm(ticks)) && IsRun(Step(k, Arm(ticks)), acts)
    ensures var n := Run(Step(k, Arm(ticks)), acts);
            InLoop(n, k.cur) || n.wheel.hard > k.wheel.hard + ticks
  {
    hide Inv, IsRun, Run;
    assert Awaits(Step(k, Arm(ticks)), k.cur, k.wheel.hard + ticks);
    RunAwaits(Step(k, Arm(ticks)), acts, k.cur, k.wheel.hard + ticks);
  }

  // ---------------------------------------------------------------------
  // The timer task on its way to sleep
  // ---------------------------------------------------------------------

  ghost function Ticks(acts: seq<Action>): nat {
    if acts == [] then 0 else (if acts[0].Irq? then TickOf(acts[0].src) else 0) + Ticks(acts[1..])
  }

  /** Between the clock test and the sleep only interrupts come in, and the clock moves with the ticks among them. */
  lemma {:induction false} DozeGap(k: Kernel, acts: seq<Action>)
    requires Inv(k) && AtLoc(k, Dozing) && IsRun(k, acts) && TimerDoze !in acts
    ensures var n := Run(k, acts);
            AtLoc(n, Dozing) && n.wheel == k.wheel.(hard := k.wheel.hard + Ticks(acts))
    decreases acts
  {
    hide Inv, Step;
    if acts != [] {
      var a := acts[0];
      assert a in acts && a.Irq?;
      DozeIrq(k, a);
      DozeGap(Step(k, a), acts[1..]);
    }
  }

  lemma DozeIrq(k: Kernel, a: Action)
    requires Inv(k) && AtLoc(k, Dozing) && Enabled(k, a) && a.Irq?
    ensures var n := Step(k, a);
            AtLoc(n, Dozing) && n.wheel == k.wheel.(hard := k.wheel.hard + TickOf(a.src))
  {
    hide Inv, Interrupt;
    KassertsHold(k);
    IrqKeeps(k, a.src);
    InterruptEffect(k, a.src);
  }

  lemma {:induction false} TickIn(acts: seq<Action>)
    ensures Ticks(acts) > 0 <==> Irq(Clock) in acts
  {
    if acts != [] {
      TickIn(acts[1..]);
      assert acts == [acts[0]] + acts[1..];
    }
  }

  /**
    The timer task goes to sleep behind the clock exactly when a clock interrupt comes in
    between its test of the clocks and its sleep.
   */
  lemma SleepsBehindIff(k: Kernel, p: Kernel, acts: seq<Action>)
    requires Inv(k) && AtLoc(k, Pass) && !(k.wheel.soft < k.wheel.hard)
    requires p == TaskPass(k) && Inv(p) && IsRun(p, acts) && TimerDoze !in acts
    ensures AtLoc(Run(p, acts), Dozing)
    ensures var n := TaskDoze(Run(p, acts));
            && Run(p, acts).cur in Waiters(n.rendez, OfTimer)
            && (n.wheel.soft < n.wheel.hard <==> Irq(Clock) in acts)
  {
    hide Inv, IsRun, Run, TaskSleep;
    PassEffect(k);
    DozeGap(p, acts);
    TickIn(acts);
    var d := Run(p, acts);
    DozeMay(d);
    SleepEffect(d, OfTimer, ToPass);
  }

  /**
    And the next clock interrupt ends that sleep: the timer task joins the lock's queue, or
    has the lock if it was free.
   */
  lemma NextTickWakes(k: Kernel)
    requires Inv(k) && k.threads[k.timerTask].state == RendezBlocked && k.threads[k.timerTask].loc == Slept(ToPass)
    ensures var n := Interrupt(k, Clock);
            && Waiters(n.rendez, OfTimer) == []
            && n.wheel == k.wheel.(hard := k.wheel.hard + 1)
            && (k.locked ==> n.owner == k.owner && n.bkl == k.bkl + [k.timerTask])
            && (!k.locked ==> n.owner == Some(k.timerTask) && n.bkl == [])
  {
    hide Inv, ClockTopHalf, KernelLock, KernelUnlock;
    OnlyTaskWaits(k);
    if k.locked {
      ClockEffect(k);
    } else {
      FreeMeansUser(k);
      FreeLockNoQueue(k);
      EnterEffect(k);
      var e := KernelLock(k);
      ClockEffect(e);
      LeaveEffect(ClockTopHalf(e));
    }
  }

  /** While the timer task sleeps it is the one thread on the timer's rendez, and no other thread ever is. */
  lemma OnlyTaskWaits(k: Kernel)
    requires Inv(k)
    ensures var th := k.threads[k.timerTask];
            Waiters(k.rendez, OfTimer) == if th.state == RendezBlocked && th.loc == Slept(ToPass) then [k.timerTask]
              else []
  {
    hide SchedOk, LockOk, WheelOk, CurOk;
    var q := Waiters(k.rendez, OfTimer);
    forall t | t in q
      ensures t == k.timerTask
    {
      assert ListsAt(t, k.threads[t], k.bkl, k.rendez, S.Members(k.sched), k.idle);
      assert ThreadAt(t, k.threads[t], k.wheel, k.idle, k.timerTask);
    }
    var t := k.timerTask;
    assert ListsAt(t, k.threads[t], k.bkl, k.rendez, S.Members(k.sched), k.idle);
    assert ThreadAt(t, k.threads[t], k.wheel, k.idle, k.timerTask);
    AtMostOne(q, t);
  }
}
