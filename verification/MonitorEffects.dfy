/**
  What each step of the kernel monitor does, seen from outside: who owns the lock, who
  queues for it, who waits where, and which events and timers are set. Thread states, run
  queues and the choice of the next thread do not appear in these statements.
 */
module MonitorEffects {
  import opened Lists
  import opened Monitor
  import opened MonitorSteps
  import S = Scheduler
  import W = TimingWheel

  /** The lock passes to the first thread that queues for it, and is free if there is none. */
  function Passed(queue: seq<Tid>): (Option<Tid>, seq<Tid>) {
    if queue == [] then (None, []) else (Some(queue[0]), queue[1..])
  }

  ghost predicate SameEvents(k: Kernel, n: Kernel) {
    n.threads.Keys == k.threads.Keys
    && forall t :: t in k.threads ==> n.threads[t].pending == k.threads[t].pending
                                      && n.threads[t].mask == k.threads[t].mask
  }

  /** Only the waiting list of r differs, and it is q. */
  ghost predicate Waiting(k: Kernel, n: Kernel, r: Rendez, q: seq<Tid>) {
    forall x :: Waiters(n.rendez, x) == if x == r then q else Waiters(k.rendez, x)
  }

  lemma ReschedEffect(k: Kernel)
    requires Core(k, {}) && S.CurrentOk(k.sched, k.cur)
    ensures var n := Resched(k);
            && n.owner == k.owner && n.bkl == k.bkl && n.rendez == k.rendez && n.wheel == k.wheel && SameEvents(k, n)
            && (forall t :: t in k.threads ==>
                  n.threads[t].loc == k.threads[t].loc && n.threads[t].intr == k.threads[t].intr)
            && (forall t :: t in k.threads && t != n.cur ==> n.threads[t] == k.threads[t])
            && n.threads[n.cur].state == Running && Chosen(n) && n.idle == k.idle
  {
    hide SchedOk, ListsOk, LockOk, ThreadsOk, WheelOk, S.Account, S.Pick, S.CurrentOk;
    PickInThreads(k);
  }

  /** The running thread is the one the run queues name: their choice has just been made. */
  predicate Chosen(n: Kernel) {
    |n.sched.queues| == S.NQUEUES && n.cur == S.Pick(n.sched, n.idle)
  }

  lemma GrantEffect(k: Kernel)
    requires Inv(k)
    ensures var g := Grant(k);
            && (g.owner, g.bkl) == Passed(k.bkl) && g.rendez == k.rendez && g.wheel == k.wheel && g.cur == k.cur
               && g.idle == k.idle && SameEvents(k, g)
            && (forall t :: t in k.threads ==> g.threads[t].loc == k.threads[t].loc)
  {
    hide SchedOk, LockOk, ThreadsOk, WheelOk, CurOk;
  }

  /** Entering: a free lock is taken; a held one is queued for, at the end. */
  lemma EnterEffect(k: Kernel)
    requires Inv(k) && AtLoc(k, User) && (k.locked ==> k.cur != k.idle)
    ensures var n := KernelLock(k);
            && (if k.locked then && n.owner == k.owner && n.bkl == k.bkl + [k.cur]
                                 && n.threads[k.cur].loc == LockWait && Chosen(n)
                else n.owner == Some(k.cur) && n.bkl == k.bkl && n.cur == k.cur && n.threads[k.cur].loc == Body)
            && n.rendez == k.rendez && n.wheel == k.wheel && SameEvents(k, n)
  {
    hide SchedOk, ListsOk, LockOk, ThreadsOk, WheelOk, Resched;
    if k.locked {
      LockBusy(k);
      ReschedEffect(QueueForLock(k));
    }
  }

  /** Leaving: the lock passes on, and the caller is back in user mode. */
  lemma LeaveEffect(k: Kernel)
    requires Inv(k) && AtLoc(k, Body)
    ensures var n := KernelUnlock(k);
            && (n.owner, n.bkl) == Passed(k.bkl) && n.threads.Keys == k.threads.Keys && n.threads[k.cur].loc == User
            && n.rendez == k.rendez && n.wheel == k.wheel && SameEvents(k, n)
            && (if k.bkl == [] then n.cur == k.cur else Chosen(n))
  {
    hide SchedOk, ListsOk, LockOk, ThreadsOk, WheelOk, Resched, Grant;
    GrantEffect(k);
    LeaveInv(k);
    if k.bkl != [] {
      ReschedEffect(Leave(k));
    }
  }

  lemma BlockEffect(g: Kernel, r: Rendez, loc: Loc, intr: set<Intr>, cb: Callback, e: nat, w: W.Wheel)
    requires Core(g, {g.cur})
    ensures var b := Block(g, r, loc, intr, cb, e, w);
            && b.owner == g.owner && b.bkl == g.bkl && b.wheel == w && b.cur == g.cur
            && Waiting(g, b, r, Waiters(g.rendez, r) + [g.cur])
            && (g.cur in g.threads ==> SameEvents(g, b) && b.threads[g.cur].loc == loc
                                       && b.threads[g.cur].blocking == Some(r) && b.threads[g.cur].intr == intr
                                       && b.threads[g.cur].callback == cb && b.threads[g.cur].expiration == e)
  {
    hide SchedOk, ListsOk, LockOk, ThreadsOk, WheelOk, S.Unready;
  }

  /** Sleeping: the caller joins the end of the waiting list and the lock passes on, in one step. */
  lemma SleepEffect(k: Kernel, r: Rendez, c: Cont)
    requires Inv(k) && MaySleep(k, r, c)
    ensures var n := TaskSleep(k, r, c);
            && (n.owner, n.bkl) == Passed(k.bkl) && Waiting(k, n, r, Waiters(k.rendez, r) + [k.cur])
            && n.wheel == k.wheel && SameEvents(k, n) && n.threads[k.cur].loc == Slept(c) && Chosen(n)
  {
    hide SchedOk, ListsOk, LockOk, ThreadsOk, WheelOk, CurOk, Resched, Grant, Block;
    GrantEffect(k);
    SleepCore(k, r, c);
    var th := k.threads[k.cur];
    BlockEffect(Grant(k), r, Slept(c), th.intr, th.callback, th.expiration, k.wheel);
    var b := Block(Grant(k), r, Slept(c), th.intr, th.callback, th.expiration, k.wheel);
    ReschedEffect(b);
    Chain(k, Grant(k), b, Resched(b), r);
  }

  /**
    An interruptible sleep happens exactly when no awaited event is pending. It may be ended by
    what the caller allows, and with a timeout it has armed its timer.
   */
  lemma SleepIntrEffect(k: Kernel, r: Rendez, timeout: Option<nat>, flags: set<Intr>)
    requires Inv(k) && AtLoc(k, Body) && k.cur != k.idle && r != OfTimer
    ensures var n := TaskSleepInterruptible(k, r, timeout, flags);
            if EventPending(k.threads[k.cur], flags) then n == k
            else && (n.owner, n.bkl) == Passed(k.bkl) && Waiting(k, n, r, Waiters(k.rendez, r) + [k.cur])
                 && SameEvents(k, n) && n.threads[k.cur].loc == SleptIntr(timeout.Some?)
                 && n.threads[k.cur].intr == flags && Chosen(n)
                 && (timeout.None? ==> n.wheel == k.wheel)
                 && (timeout.Some? ==> k.cur in n.wheel.expiry && n.wheel.expiry[k.cur] == k.wheel.hard + timeout.value)
  {
    hide SchedOk, ListsOk, LockOk, ThreadsOk, WheelOk, CurOk, Resched, Grant, Block;
    var th := k.threads[k.cur];
    WheelSize(k);
    if !EventPending(th, flags) {
      GrantEffect(k);
      SleepIntrCore(k, r, timeout, flags);
      var cb, e, w := TimeoutCallback(th, r, timeout), TimeoutExpiry(th, k.wheel, timeout),
        TimeoutWheel(k.wheel, k.cur, timeout);
      BlockEffect(Grant(k), r, SleptIntr(timeout.Some?), flags, cb, e, w);
      var b := Block(Grant(k), r, SleptIntr(timeout.Some?), flags, cb, e, w);
      ReschedEffect(b);
      Chain(k, Grant(k), b, Resched(b), r);
    }
  }

  lemma WheelSize(k: Kernel)
    requires Inv(k)
    ensures |k.wheel.buckets| == W.JIFFIES
  {
    hide SchedOk, ListsOk, LockOk, ThreadsOk;
  }

  lemma Chain(k: Kernel, g: Kernel, b: Kernel, n: Kernel, r: Rendez)
    requires SameEvents(k, g) && SameEvents(g, b) && SameEvents(b, n)
    requires g.rendez == k.rendez && Waiting(g, b, r, Waiters(g.rendez, r) + [k.cur]) && n.rendez == b.rendez
    ensures SameEvents(k, n) && Waiting(k, n, r, Waiters(k.rendez, r) + [k.cur])
  {
  }

  /** Waking moves the first waiter, if any, to the end of the lock's queue and changes no other list. */
  lemma WakeEffect(k: Kernel, r: Rendez)
    requires Inv(k) && k.locked
    ensures var n := TaskWakeup(k, r); var q := Waiters(k.rendez, r);
            && n.owner == k.owner
            && n.bkl == k.bkl + (if q == [] then [] else [q[0]])
            && Waiting(k, n, r, if q == [] then [] else q[1..])
            && n.wheel == k.wheel && SameEvents(k, n)
  {
    hide SchedOk, LockOk, ThreadsOk, WheelOk, CurOk, Without;
    var q := Waiters(k.rendez, r);
    if q != [] {
      HeadIsBlocked(k, r);
      assert NoDup(q);
      WithoutHead(q);
    }
  }

  /** Waking one thread by name takes it out of the list it waits in, wherever it stands there. */
  lemma WakeThreadEffect(k: Kernel, t: Tid, reason: set<Intr>)
    requires Inv(k) && k.locked && t in k.threads
    ensures var n := TaskWakeupSpecific(k, t, reason); var th := k.threads[t];
            if th.state == RendezBlocked && (reason == {} || th.intr * reason != {})
            then && th.blocking.Some? && n.bkl == k.bkl + [t] && n.owner == k.owner && n.wheel == k.wheel
                 && SameEvents(k, n)
                 && Waiting(k, n, th.blocking.value, Without(Waiters(k.rendez, th.blocking.value), t))
            else n == k
  {
    hide SchedOk, LockOk, ThreadsOk, WheelOk, CurOk, Without;
    if k.threads[t].state == RendezBlocked {
      assert ListsAt(t, k.threads[t], k.bkl, k.rendez, S.Members(k.sched), k.idle);
    }
  }

  /** Collecting takes exactly the awaited events away from the caller's pending ones. */
  lemma CollectEffect(k: Kernel)
    requires Inv(k) && AtLoc(k, Body)
    ensures var n := Collect(k); var th := k.threads[k.cur];
            && n.threads[k.cur].pending * th.mask == {} && n.threads[k.cur].pending + th.pending * th.mask == th.pending
            && n.threads.Keys == k.threads.Keys && (forall t :: t in k.threads && t != k.cur ==>
                                                    n.threads[t] == k.threads[t])
            && n.owner == k.owner && n.bkl == k.bkl && n.rendez == k.rendez && n.wheel == k.wheel
  {
    hide SchedOk, ListsOk, LockOk, ThreadsOk, WheelOk;
  }

  /** Events are collected once: the same wait blocks again until another event comes. */
  lemma TakenOnce(k: Kernel, r: Rendez, timeout: Option<nat>, flags: set<Intr>)
    requires Inv(k) && AtLoc(k, Body) && k.cur != k.idle && r != OfTimer
    ensures AtLoc(Collect(k), Body) && Collect(k).cur == k.cur
    ensures var n := TaskSleepInterruptible(Collect(k), r, timeout, flags);
            && (n.owner, n.bkl) == Passed(k.bkl) && Waiting(k, n, r, Waiters(k.rendez, r) + [k.cur])
            && n.threads[k.cur].loc == SleptIntr(timeout.Some?)
  {
    hide Inv, TaskSleepInterruptible;
    CollectEffect(k);
    SleepIntrEffect(Collect(k), r, timeout, flags);
  }

  /** A thread that stops passes the lock on and is on no list and no queue. */
  lemma StopEffect(k: Kernel)
    requires Inv(k) && AtLoc(k, Body) && k.cur != k.idle
    ensures var n := ThreadStop(k);
            && (n.owner, n.bkl) == Passed(k.bkl) && n.rendez == k.rendez && n.wheel == k.wheel
            && n.threads[k.cur].loc == Gone && n.threads[k.cur].state == Exited
            && k.cur !in n.bkl && (forall r :: k.cur !in Waiters(n.rendez, r)) && k.cur !in S.Members(n.sched)
            && Chosen(n)
  {
    hide SchedOk, ListsOk, LockOk, ThreadsOk, WheelOk, Resched, Grant;
    GrantEffect(k);
    StopCore(k);
    var b := Stopped(Grant(k));
    ReschedEffect(b);
    StoppedStays(b, k.cur);
  }

  lemma PickIsQueued(b: Kernel)
    requires Core(b, {}) && S.CurrentOk(b.sched, b.cur)
    ensures var n := Resched(b); n.cur == b.idle || n.cur in S.Members(b.sched)
    ensures S.Members(Resched(b).sched) == S.Members(b.sched)
  {
    hide ListsOk, LockOk, ThreadsOk, WheelOk, S.Members, S.AtHead, S.Account, S.Pick;
    PickInThreads(b);
    S.AccountKeeps(b.sched, b.cur);
    S.PickAtHead(S.Account(b.sched, b.cur), b.idle);
  }

  lemma StoppedStays(b: Kernel, t: Tid)
    requires Core(b, {}) && S.CurrentOk(b.sched, b.cur) && t in b.threads && b.threads[t].state == Exited && t != b.idle
    ensures var n := Resched(b);
            && t in n.threads && n.threads[t].state == Exited
            && t !in n.bkl && (forall r :: t !in Waiters(n.rendez, r)) && t !in S.Members(n.sched)
  {
    hide SchedOk, LockOk, ThreadsOk, WheelOk, Resched, S.Members, S.CurrentOk;
    assert ListsAt(t, b.threads[t], b.bkl, b.rendez, S.Members(b.sched), b.idle);
    ReschedEffect(b);
    PickIsQueued(b);
  }

  /**
    A new thread is in user mode, last on the queue of the priority it asked for, clamped to
    the range of its policy, and disturbs no one.
   */
  lemma StartEffect(k: Kernel, t: Tid, policy: S.Policy, priority: int)
    requires Inv(k) && AtLoc(k, Body) && t !in k.threads && policy != S.Idle
    ensures var n := ThreadStart(k, t, policy, priority);
            && n.threads.Keys == k.threads.Keys + {t} && n.threads[t].loc == User && n.threads[t].state == Ready
            && n.threads[t].pending == {} && n.threads[t].mask == {}
            && t in S.Members(n.sched) && StartedAt(k.sched, n.sched, t, policy, priority)
            && (forall u :: u in k.threads ==> n.threads[u] == k.threads[u])
            && n.owner == k.owner && n.bkl == k.bkl && n.rendez == k.rendez && n.wheel == k.wheel && n.cur == k.cur
  {
    hide ListsOk, LockOk, ThreadsOk, WheelOk, S.Valid, S.Members, S.AtHead, S.BitmapOk, S.Ready, StartedAt;
    StartSched(k.sched, t, S.InitParams(policy, priority), k.threads.Keys, k.idle);
    StartQueues(k.sched, t, policy, priority);
  }

  lemma StartQueues(s: S.Sched, t: Tid, policy: S.Policy, priority: int)
    requires S.Valid(s) && t !in s.params && policy != S.Idle
    ensures StartedAt(s, S.Ready(S.Register(s, t, S.InitParams(policy, priority)), t), t, policy, priority)
  {
    hide S.Valid, S.Members, S.AtHead, S.BitmapOk, S.Ready;
    var p := S.InitParams(policy, priority);
    S.RegisterKeeps(s, t, p);
    S.ReadyIsLast(S.Register(s, t, p), t);
    Clamped(policy, priority);
    ManyQueues(s);
  }

  lemma ManyQueues(s: S.Sched)
    requires S.Valid(s)
    ensures |s.queues| == S.NQUEUES
  {
  }

  /** The nearest priority of the policy's range; a time-shared thread that asks for more gets the lowest. */
  function ClampedTo(policy: S.Policy, priority: int): int {
    if policy == S.Other then (if priority >= 16 || priority < 0 then 0 else priority)
    else if priority < 16 then 16
    else if priority > 31 then 31
    else priority
  }

  lemma Clamped(policy: S.Policy, priority: int)
    requires policy != S.Idle
    ensures S.InitParams(policy, priority).prio == ClampedTo(policy, priority)
  {
  }

  ghost predicate StartedAt(s: S.Sched, r: S.Sched, t: Tid, policy: S.Policy, priority: int) {
    var q := ClampedTo(policy, priority);
    && |s.queues| == |r.queues| == S.NQUEUES && 0 <= q < S.NQUEUES
    && r.queues[q] == s.queues[q] + [t]
    && (forall h :: 0 <= h < S.NQUEUES && h != q ==> r.queues[h] == s.queues[h])
    && t in r.params && r.params[t] == S.Params(policy, q, q, 0)
    && (forall u :: u in s.params ==> u in r.params && r.params[u] == s.params[u])
  }

  /**
    The clock interrupt advances the hard clock by one, leaves every deadline, charges the
    running thread a tick, and wakes the timer task if it sleeps.
   */
  lemma ClockEffect(k: Kernel)
    requires Inv(k) && k.locked
    ensures var n := ClockTopHalf(k); var q := Waiters(k.rendez, OfTimer);
            && n.wheel == k.wheel.(hard := k.wheel.hard + 1)
            && n.owner == k.owner && n.bkl == k.bkl + (if q == [] then [] else [q[0]])
            && Waiting(k, n, OfTimer, if q == [] then [] else q[1..]) && SameEvents(k, n)
            && n.sched.queues == k.sched.queues && k.cur in k.sched.params && n.sched.params.Keys == k.sched.params.Keys
            && n.sched.params[k.cur].quanta == k.sched.params[k.cur].quanta + 1
            && (forall t :: t in k.sched.params && t != k.cur ==> n.sched.params[t] == k.sched.params[t])
  {
    hide SchedOk, ListsOk, LockOk, ThreadsOk, WheelOk, CurOk;
    ClockInv(k);
    WakeEffect(k.(sched := S.Charge(k.sched, k.cur), wheel := W.Tick(k.wheel)), OfTimer);
  }

  /** An interrupt never makes a thread that is inside the kernel lose the lock or the CPU. */
  lemma InterruptEffect(k: Kernel, src: Source)
    requires Inv(k) && SourceOk(k, src)
    ensures var n := Interrupt(k, src);
            k.locked ==> n.owner == k.owner && n.cur == k.cur && n.threads[n.cur].loc == k.threads[k.cur].loc
  {
    hide Inv;
  }

  /** The sleep loop sleeps on exactly while its timer is armed, and is left only with its deadline past. */
  lemma LoopEffect(k: Kernel)
    requires Inv(k) && AtLoc(k, SleepLoop)
    ensures var n := LoopTest(k);
            if k.cur in k.wheel.expiry
            then (n.owner, n.bkl) == Passed(k.bkl)
                 && Waiting(k, n, OfThread(k.cur), Waiters(k.rendez, OfThread(k.cur)) + [k.cur])
                 && n.wheel == k.wheel && SameEvents(k, n) && n.threads[k.cur].loc == Slept(ToSleepLoop)
            else n.threads[k.cur].loc == Body && k.threads[k.cur].expiration < n.wheel.hard
                 && n.owner == k.owner && n.bkl == k.bkl && n.rendez == k.rendez && n.wheel == k.wheel
  {
    hide SchedOk, ListsOk, LockOk, WheelOk, CurOk, TaskSleep;
    KassertsHold(k);
    CurThread(k, {});
    if k.cur in k.wheel.expiry {
      SleepEffect(k, OfThread(k.cur), ToSleepLoop);
    }
  }

  /** The running thread goes on elsewhere, and nothing else changes. */
  function WithLoc(k: Kernel, l: Loc): Kernel
    requires k.cur in k.threads
  {
    k.(threads := k.threads[k.cur := k.threads[k.cur].(loc := l)])
  }

  /**
    The timer task starts on the bucket of the soft clock exactly while that clock is behind,
    and else is about to sleep.
   */
  lemma PassEffect(k: Kernel)
    requires Inv(k) && AtLoc(k, Pass)
    ensures |k.wheel.buckets| == W.JIFFIES
    ensures var n := TaskPass(k);
            if k.wheel.soft < k.wheel.hard
            then n == WithLoc(k, Scanning(k.wheel.buckets[k.wheel.soft % W.JIFFIES]))
            else k.wheel.soft == k.wheel.hard && n == WithLoc(k, Dozing)
  {
    hide SchedOk, ListsOk, LockOk, CurOk;
    WheelSize(k);
    KassertsHold(k);
    CurThread(k, {});
  }

  /** The thread, if any, that the callback of x's timer releases. */
  function Released(k: Kernel, x: Tid): seq<Tid>
    requires x in k.threads
  {
    match k.threads[x].callback
    case WakeOwner => var q := Waiters(k.rendez, OfThread(x)); if q == [] then [] else [q[0]]
    case TimedSleep(_) => if k.threads[x].state == RendezBlocked then [x] else []
  }

  lemma FireReleases(k: Kernel, x: Tid)
    requires Inv(k) && k.locked && x in k.threads
    ensures var n := Fire(k, x); n.bkl == k.bkl + Released(k, x) && n.owner == k.owner && n.wheel == k.wheel
  {
    hide SchedOk, LockOk, ThreadsOk, WheelOk, CurOk;
    if k.threads[x].callback == WakeOwner {
      WakeEffect(k, OfThread(x));
    } else if k.threads[x].state == RendezBlocked {
      assert ListsAt(x, k.threads[x], k.bkl, k.rendez, S.Members(k.sched), k.idle);
    }
  }

  /**
    The scan takes a due timer off the wheel and releases its thread, skips any other, and
    ends by advancing the soft clock.
   */
  lemma ScanEffect(k: Kernel)
    requires Inv(k) && k.threads[k.cur].loc.Scanning?
    ensures var n := TaskScan(k); var rest := k.threads[k.cur].loc.rest;
            && n.owner == k.owner
            && (rest == [] ==> n.wheel == k.wheel.(soft := k.wheel.soft + 1) && n.bkl == k.bkl
                               && n.threads[k.cur].loc == Pass)
            && (rest != [] ==>
                  && rest[0] in k.wheel.expiry && rest[0] in k.threads && |k.wheel.buckets| == W.JIFFIES
                  && if k.wheel.expiry[rest[0]] <= k.wheel.soft
                     then n.wheel == W.Disarm(k.wheel, rest[0]) && n.bkl == k.bkl + ScanReleased(k, rest)
                     else n.wheel == k.wheel && n.bkl == k.bkl && n.threads[k.cur].loc == Scanning(rest[1..]))
  {
    hide SchedOk, ListsOk, LockOk, ThreadsOk, WheelOk, CurOk, Fire, W.Disarm;
    KassertsHold(k);
    ScanFacts(k);
    var rest := k.threads[k.cur].loc.rest;
    if rest != [] && k.wheel.expiry[rest[0]] <= k.wheel.soft {
      ScanFire(k);
      var f := k.(wheel := W.Disarm(k.wheel, rest[0]),
                  threads := k.threads[k.cur := k.threads[k.cur].(loc := Scanning(rest[1..]))]);
      FireReleases(f, rest[0]);
    }
  }

  /** Whom the scan releases at a due timer. */
  function ScanReleased(k: Kernel, rest: seq<Tid>): seq<Tid>
    requires rest != [] && rest[0] in k.threads && k.cur in k.threads
  {
    Released(k.(threads := k.threads[k.cur := k.threads[k.cur].(loc := Scanning(rest[1..]))]), rest[0])
  }

  /**
    After a switch the thread goes on as the owner; after an interruptible sleep its own
    timer, and no other, is off.
   */
  lemma ResumeEffect(k: Kernel)
    requires Inv(k) && MayResume(k)
    ensures var n := Resume(k); var loc := k.threads[k.cur].loc;
            && n.owner == k.owner == Some(k.cur) && n.bkl == k.bkl && n.rendez == k.rendez && SameEvents(k, n)
            && (loc.SleptIntr? ==> n.threads[k.cur].loc == Body && n.wheel.expiry == k.wheel.expiry - {k.cur})
            && (loc.LockWait? ==> n.threads[k.cur].loc == Body && n.wheel == k.wheel)
            && (loc.Slept? ==> n.threads[k.cur].loc == AfterCont(loc.k) && n.wheel == k.wheel)
  {
    hide SchedOk, ListsOk, LockOk, ThreadsOk, WheelOk, CurOk;
    KassertsHold(k);
    CurThread(k, {});
    if k.threads[k.cur].loc.SleptIntr? {
      ResumeIntr(k);
      if k.cur !in k.wheel.expiry {
        assert k.wheel.expiry - {k.cur} == k.wheel.expiry;
      }
    }
  }

  lemma PostKeepsPending(k: Kernel, t: Tid, e: nat, u: Tid, f: nat)
    requires Inv(k) && k.locked && t in k.threads && u in k.threads && f in k.threads[u].pending
    ensures f in EventSignal(k, t, e).threads[u].pending
  {
    hide Inv, Release;
  }

  /** A device interrupt leaves every event it posts pending, and takes none away. */
  lemma {:induction false} DeviceEffect(k: Kernel, events: seq<(Tid, nat)>, u: Tid, f: nat)
    requires Inv(k) && k.locked && EventsOk(k.threads.Keys, events) && u in k.threads
    requires f in k.threads[u].pending || (u, f) in events
    ensures f in DeviceTopHalf(k, events).threads[u].pending
    decreases events
  {
    hide Inv, EventSignal;
    if events != [] {
      var m := EventSignal(k, events[0].0, events[0].1);
      if f in k.threads[u].pending {
        PostKeepsPending(k, events[0].0, events[0].1, u, f);
      } else if events[0] == (u, f) {
        SignalReaches(k, u, f);
      }
      assert EventsOk(m.threads.Keys, events[1..]);
      DeviceEffect(m, events[1..], u, f);
    }
  }
}
