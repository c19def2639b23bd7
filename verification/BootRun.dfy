/**
  A run of the kernel monitor from boot: the timer task sleeps, a tick wakes it and gives it
  the CPU, and a second tick in the wrong place leaves it asleep behind the clock
  (boards/raspberry_pi_4/init_proc.c:158-247, proc/timer.c:380-456).
 */
module BootRun {
  import opened Lists
  import opened Monitor
  import opened MonitorSteps
  import opened MonitorEffects
  import opened MonitorRuns
  import opened ClockRuns
  import S = Scheduler
  import W = TimingWheel

  /** Policies and priorities are kept, time-shared threads aside. */
  ghost predicate SamePrio(a: S.Sched, b: S.Sched) {
    && b.params.Keys == a.params.Keys
    && forall t :: t in a.params ==>
         && b.params[t].policy == a.params[t].policy
         && (a.params[t].policy != S.Other ==> b.params[t].prio == a.params[t].prio)
  }

  /** The timer task alone has the highest priority, and nobody shares time. */
  ghost predicate TaskOnTop(k: Kernel) {
    && NoTimeSharing(k)
    && k.timerTask in k.sched.params
    && k.sched.params[k.timerTask].prio == 31
    && (forall t :: t in k.sched.params ==> k.sched.params[t].policy != S.Other)
    && (forall t :: t in k.sched.params && t != k.timerTask ==> k.sched.params[t].prio < 31)
  }

  lemma OnTopStays(k: Kernel, n: Kernel)
    requires TaskOnTop(k) && SamePrio(k.sched, n.sched) && n.timerTask == k.timerTask
             && n.threads.Keys == k.threads.Keys
    ensures TaskOnTop(n)
  {
  }

  lemma ReschedPrio(k: Kernel)
    requires Core(k, {}) && S.CurrentOk(k.sched, k.cur)
    ensures SamePrio(k.sched, Resched(k).sched) && Resched(k).timerTask == k.timerTask
    ensures Resched(k).threads.Keys == k.threads.Keys
  {
    hide ListsOk, LockOk, ThreadsOk, WheelOk, S.Pick, S.BitmapOk;
    PickInThreads(k);
  }

  lemma SleepPrio(k: Kernel, r: Rendez, c: Cont)
    requires Inv(k) && MaySleep(k, r, c) && k.bkl == []
    ensures var n := TaskSleep(k, r, c);
            SamePrio(k.sched, n.sched) && n.timerTask == k.timerTask && n.threads.Keys == k.threads.Keys
  {
    hide ListsOk, LockOk, ThreadsOk, WheelOk, CurOk, Resched, S.BitmapOk;
    SleepCore(k, r, c);
    var th := k.threads[k.cur];
    ReschedPrio(Block(Grant(k), r, Slept(c), th.intr, th.callback, th.expiration, k.wheel));
  }

  /** A runnable timer task heads queue 31. */
  lemma TaskHeads(n: Kernel)
    requires Inv(n) && TaskOnTop(n) && Runnable(n.threads[n.timerTask])
    ensures |n.sched.queues| == S.NQUEUES && n.sched.queues[31] != [] && n.sched.queues[31][0] == n.timerTask
  {
    hide LockOk, WheelOk, NoDup, S.BitmapOk;
    var t := n.timerTask;
    assert ListsAt(t, n.threads[t], n.bkl, n.rendez, S.Members(n.sched), n.idle);
    S.QueueIsPriority(n.sched, t, 31);
    QueuePrio(n.sched, 31);
  }

  lemma QueuePrio(s: S.Sched, q: nat)
    requires S.Valid(s) && q < S.NQUEUES && s.queues[q] != []
    ensures s.queues[q][0] in s.params && s.params[s.queues[q][0]].prio == q
  {
    assert s.queues[q][0] in s.queues[q];
  }

  /** Reschedule runs the timer task if it is runnable. */
  lemma TopRuns(k: Kernel)
    requires Core(k, {}) && S.CurrentOk(k.sched, k.cur) && TaskOnTop(k)
    requires k.timerTask in k.threads && Runnable(k.threads[k.timerTask])
    ensures Resched(k).cur == k.timerTask
  {
    hide Core, Inv, Resched, S.CurrentOk, S.BitmapOk, S.Valid;
    var n := Resched(k);
    ReschedPrio(k);
    ReschedInv(k);
    ReschedEffect(k);
    OnTopStays(k, n);
    RescheduleRunsHighest(k, 31);
    TaskHeads(n);
  }

  /** A clock interrupt outside the kernel gives a sleeping timer task the lock and the CPU. */
  lemma TickRuns(k: Kernel)
    requires Inv(k) && !k.locked && TaskOnTop(k)
    requires k.threads[k.timerTask].state == RendezBlocked && k.threads[k.timerTask].loc == Slept(ToPass)
    ensures var n := Interrupt(k, Clock);
            && n.cur == k.timerTask == n.timerTask && AtLoc(n, Slept(ToPass))
            && n.wheel == k.wheel.(hard := k.wheel.hard + 1) && n.bkl == []
  {
    hide Inv, Resched, Grant, ClockTopHalf, KernelLock, KernelUnlock;
    FreeMeansUser(k);
    FreeLockNoQueue(k);
    EnterEffect(k);
    NextTickWakes(k);
    IrqKeeps(k, Clock);
    AsleepNotRunning(k);
    UnlockRuns(k);
  }

  lemma AsleepNotRunning(k: Kernel)
    requires Inv(k) && k.threads[k.timerTask].state == RendezBlocked
    ensures k.cur != k.timerTask && k.timerTask in k.threads
  {
    hide SchedOk, ListsOk, LockOk, WheelOk;
  }

  /** What the interrupt runs before it gives the lock back. */
  lemma TopPrio(k: Kernel)
    requires Inv(k) && !k.locked && AtLoc(k, User) && TaskOnTop(k)
    ensures var m := ClockTopHalf(KernelLock(k));
            TaskOnTop(m) && m.timerTask == k.timerTask && AtLoc(m, Body)
  {
    hide ListsOk, LockOk, ThreadsOk, WheelOk, CurOk, S.BitmapOk, TaskWakeup;
    var e := KernelLock(k);
    ClockInv(e);
    var c := e.(sched := S.Charge(e.sched, e.cur), wheel := W.Tick(e.wheel));
    WakeSched(c);
    OnTopStays(k, ClockTopHalf(e));
  }

  lemma WakeSched(c: Kernel)
    requires Inv(c) && c.locked
    ensures var m := TaskWakeup(c, OfTimer);
            m.sched == c.sched && m.timerTask == c.timerTask && m.threads.Keys == c.threads.Keys
  {
    hide SchedOk, LockOk, ThreadsOk, WheelOk, CurOk, Without;
    if Waiters(c.rendez, OfTimer) != [] {
      HeadIsBlocked(c, OfTimer);
    }
  }

  lemma UnlockRuns(k: Kernel)
    requires Inv(k) && !k.locked && AtLoc(k, User) && TaskOnTop(k) && k.bkl == []
    requires k.threads[k.timerTask].state == RendezBlocked && k.threads[k.timerTask].loc == Slept(ToPass)
    ensures var n := Interrupt(k, Clock); n.cur == k.timerTask == n.timerTask
  {
    hide Inv, ClockTopHalf, KernelLock, KernelUnlock;
    FreeMeansUser(k);
    EnterEffect(k);
    TopPrio(k);
    var e := KernelLock(k);
    var m := ClockTopHalf(e);
    OnlyTaskWaits(k);
    ClockEffect(e);
    assert m.bkl == [k.timerTask];
    UnlockTop(m);
  }

  lemma UnlockTop(m: Kernel)
    requires Inv(m) && AtLoc(m, Body) && TaskOnTop(m) && m.bkl == [m.timerTask]
    ensures KernelUnlock(m).cur == m.timerTask == KernelUnlock(m).timerTask
  {
    hide Core, CurOk, Resched, Grant, Leave, TaskOnTop;
    LeaveInv(m);
    LeaveTop(m);
    TopRuns(Leave(m));
    ReschedPrio(Leave(m));
  }

  lemma LeaveTop(m: Kernel)
    requires Inv(m) && AtLoc(m, Body) && TaskOnTop(m) && m.bkl == [m.timerTask]
    ensures var l := Leave(m);
            TaskOnTop(l) && l.cur == m.cur && l.timerTask == m.timerTask && l.timerTask in l.threads
              && Runnable(l.threads[l.timerTask])
  {
    hide LockOk, ThreadsOk, WheelOk, CurOk, SchedOk, S.BitmapOk, S.Ready, S.Members;
    assert m.bkl[0] in m.bkl;
    assert m.threads.Keys == Leave(m).threads.Keys;
    GrantPrio(m);
    OnTopStays(m, Leave(m));
  }

  lemma GrantPrio(m: Kernel)
    requires Inv(m) && m.bkl != []
    ensures SamePrio(m.sched, Grant(m).sched)
  {
    hide LockOk, ThreadsOk, WheelOk, CurOk, S.BitmapOk, S.Members;
    assert m.bkl[0] in m.bkl;
  }

  // ---------------------------------------------------------------------
  // The run
  // ---------------------------------------------------------------------

  /** The timer task enters the kernel and goes to sleep for the first time. */
  lemma FirstSleep(idle: Tid, timerTask: Tid, root: Tid)
    requires Distinct(idle, timerTask, root)
    ensures var b := Boot(idle, timerTask, root);
            && Enabled(b, Enter) && Enabled(Step(b, Enter), StartTask)
            && var n := Step(Step(b, Enter), StartTask);
               && !n.locked && TaskOnTop(n) && n.timerTask == timerTask && n.wheel == W.Init()
               && n.threads[timerTask].state == RendezBlocked && n.threads[timerTask].loc == Slept(ToPass)
  {
    hide Inv, KernelLock, TaskSleep;
    var b := Boot(idle, timerTask, root);
    BootTop(idle, timerTask, root);
    EnterEffect(b);
    EnterSame(b);
    var e := Step(b, Enter);
    SleepEffect(e, OfTimer, ToPass);
    SleepPrio(e, OfTimer, ToPass);
    var n := Step(e, StartTask);
    OnTopStays(e, n);
    NobodyOwns(n);
    WaiterBlocked(n, timerTask, OfTimer);
  }

  lemma BootTop(idle: Tid, timerTask: Tid, root: Tid)
    requires Distinct(idle, timerTask, root)
    ensures TaskOnTop(Boot(idle, timerTask, root))
  {
    hide Inv;
  }

  lemma EnterSame(k: Kernel)
    requires Inv(k) && AtLoc(k, User) && !k.locked
    ensures var e := KernelLock(k);
            e.sched == k.sched && e.timerTask == k.timerTask && e.idle == k.idle && e.threads.Keys == k.threads.Keys
  {
    hide Inv;
  }

  lemma NobodyOwns(n: Kernel)
    requires Inv(n) && n.owner.None?
    ensures !n.locked
  {
    hide SchedOk, ListsOk, ThreadsOk, WheelOk;
  }

  lemma WaiterBlocked(n: Kernel, t: Tid, r: Rendez)
    requires Inv(n) && t in n.threads && t in Waiters(n.rendez, r)
    ensures n.threads[t].state == RendezBlocked
  {
    hide SchedOk, LockOk, ThreadsOk, WheelOk;
    assert ListsAt(t, n.threads[t], n.bkl, n.rendez, S.Members(n.sched), n.idle);
  }

  /** The timer task, woken by the first tick, passes its empty bucket and is about to sleep again. */
  lemma FirstPass(k: Kernel)
    requires Inv(k) && AtLoc(k, Slept(ToPass)) && k.wheel == W.Init().(hard := 1)
    ensures var acts := [DoResume, TimerPass, TimerScan, TimerPass];
            && IsRun(k, acts)
            && var n := Run(k, acts); AtLoc(n, Dozing) && n.wheel.soft == 1 == n.wheel.hard
  {
    hide Inv, Step, IsRun, Run, Enabled;
    StepResume(k);
    var p := Step(k, DoResume);
    StepPass(p);
    var s := Step(p, TimerPass);
    StepScan(s);
    var q := Step(s, TimerScan);
    StepPass(q);
    RunOne(q, TimerPass);
    RunCons(s, TimerScan, [TimerPass]);
    RunCons(p, TimerPass, [TimerScan, TimerPass]);
    RunCons(k, DoResume, [TimerPass, TimerScan, TimerPass]);
    assert [TimerScan] + [TimerPass] == [TimerScan, TimerPass];
    assert [TimerPass] + [TimerScan, TimerPass] == [TimerPass, TimerScan, TimerPass];
    assert [DoResume] + [TimerPass, TimerScan, TimerPass] == [DoResume, TimerPass, TimerScan, TimerPass];
  }

  lemma StepResume(k: Kernel)
    requires Inv(k) && AtLoc(k, Slept(ToPass))
    ensures Enabled(k, DoResume) && AtLoc(Step(k, DoResume), Pass) && Step(k, DoResume).wheel == k.wheel
  {
    hide Inv, Resume;
    ResumeEffect(k);
  }

  lemma StepPass(k: Kernel)
    requires Inv(k) && AtLoc(k, Pass)
    ensures |k.wheel.buckets| == W.JIFFIES && Enabled(k, TimerPass) && Step(k, TimerPass).wheel == k.wheel
    ensures AtLoc(Step(k, TimerPass), if k.wheel.soft < k.wheel.hard
                                      then Scanning(k.wheel.buckets[k.wheel.soft % W.JIFFIES]) else Dozing)
  {
    hide Inv, TaskPass;
    PassEffect(k);
  }

  lemma StepScan(k: Kernel)
    requires Inv(k) && AtLoc(k, Scanning([]))
    ensures Enabled(k, TimerScan) && AtLoc(Step(k, TimerScan), Pass)
    ensures Step(k, TimerScan).wheel == k.wheel.(soft := k.wheel.soft + 1)
  {
    hide Inv, TaskScan;
    ScanLast(k);
  }

  lemma RunOne(k: Kernel, a: Action)
    requires Inv(k) && Enabled(k, a)
    ensures IsRun(k, [a]) && Run(k, [a]) == Step(k, a)
  {
    hide Inv, Step, Enabled;
    assert [a][1..] == [];
  }

  lemma ScanLast(k: Kernel)
    requires Inv(k) && AtLoc(k, Scanning([]))
    ensures var n := TaskScan(k); n.wheel == k.wheel.(soft := k.wheel.soft + 1) && n.cur == k.cur && AtLoc(n, Pass)
  {
    hide Inv;
  }

  lemma RunCons(k: Kernel, a: Action, rest: seq<Action>)
    requires Inv(k)
    ensures IsRun(k, [a] + rest) <==> Enabled(k, a) && IsRun(Step(k, a), rest)
    ensures IsRun(k, [a] + rest) ==> Run(k, [a] + rest) == Run(Step(k, a), rest)
  {
    hide Inv, Step, Enabled;
    assert ([a] + rest)[1..] == rest;
  }

  /** Two ticks, the second between the timer task's test of the clocks and its sleep. */
  function Script(): seq<Action> {
    [Enter] + ([StartTask] + ([Irq(Clock)] + ([DoResume, TimerPass, TimerScan, TimerPass] + [Irq(Clock), TimerDoze])))
  }

  lemma {:induction false} RunJoin(k: Kernel, xs: seq<Action>, ys: seq<Action>)
    requires Inv(k) && IsRun(k, xs) && IsRun(Run(k, xs), ys)
    ensures IsRun(k, xs + ys) && Run(k, xs + ys) == Run(Run(k, xs), ys)
    decreases xs
  {
    hide Inv, Step, Enabled;
    if xs == [] {
      assert xs + ys == ys;
    } else {
      RunJoin(Step(k, xs[0]), xs[1..], ys);
      assert (xs + ys)[1..] == xs[1..] + ys;
    }
  }

  /** From boot, the timer task can be asleep with the soft clock behind. */
  lemma AsleepBehindTheClock(idle: Tid, timerTask: Tid, root: Tid)
    requires Distinct(idle, timerTask, root)
    ensures var b := Boot(idle, timerTask, root);
            && IsRun(b, Script())
            && var n := Run(b, Script());
               n.wheel.soft < n.wheel.hard && Waiters(n.rendez, OfTimer) != []
  {
    hide Inv, Boot, Step, Enabled, IsRun, Run;
    var b := Boot(idle, timerTask, root);
    FirstSleep(idle, timerTask, root);
    var e := Step(b, Enter);
    var s := Step(e, StartTask);
    FromSleep(s);
    RunCons(e, StartTask, Script()[2..]);
    assert [StartTask] + Script()[2..] == Script()[1..];
    RunCons(b, Enter, Script()[1..]);
    assert [Enter] + Script()[1..] == Script();
  }

  lemma FromSleep(s: Kernel)
    requires Inv(s) && !s.locked && TaskOnTop(s) && s.wheel == W.Init()
    requires s.threads[s.timerTask].state == RendezBlocked && s.threads[s.timerTask].loc == Slept(ToPass)
    ensures IsRun(s, Script()[2..])
    ensures var n := Run(s, Script()[2..]); n.wheel.soft < n.wheel.hard && Waiters(n.rendez, OfTimer) != []
  {
    hide Inv, Interrupt, IsRun, Run;
    FreeMeansUser(s);
    TickRuns(s);
    var t := Step(s, Irq(Clock));
    FirstPass(t);
    var pass := [DoResume, TimerPass, TimerScan, TimerPass];
    FromDoze(Run(t, pass));
    RunJoin(t, pass, [Irq(Clock), TimerDoze]);
    RunCons(s, Irq(Clock), pass + [Irq(Clock), TimerDoze]);
    assert Script()[2..] == [Irq(Clock)] + (pass + [Irq(Clock), TimerDoze]);
  }

  lemma FromDoze(d: Kernel)
    requires Inv(d) && AtLoc(d, Dozing) && d.wheel.soft == d.wheel.hard
    ensures IsRun(d, [Irq(Clock), TimerDoze])
    ensures var n := Run(d, [Irq(Clock), TimerDoze]); n.wheel.soft < n.wheel.hard && Waiters(n.rendez, OfTimer) != []
  {
    hide Inv, Step, IsRun, Run, Interrupt;
    DozeIrq(d, Irq(Clock));
    var g := Step(d, Irq(Clock));
    StepDoze(g);
    RunOne(g, TimerDoze);
    RunCons(d, Irq(Clock), [TimerDoze]);
    assert [Irq(Clock)] + [TimerDoze] == [Irq(Clock), TimerDoze];
  }

  lemma StepDoze(g: Kernel)
    requires Inv(g) && AtLoc(g, Dozing)
    ensures Enabled(g, TimerDoze) && Step(g, TimerDoze).wheel == g.wheel
    ensures Waiters(Step(g, TimerDoze).rendez, OfTimer) != []
  {
    hide Inv, TaskSleep;
    DozeMay(g);
    SleepEffect(g, OfTimer, ToPass);
  }
}
