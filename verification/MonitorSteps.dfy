/**
  The operations of the kernel monitor.  Each keeps `Inv`, so every thread that
  resumes inside the kernel owns the lock, whatever the interleaving.
 */
module MonitorSteps {
  import opened Lists
  import opened Monitor
  import S = Scheduler
  import W = TimingWheel

  /** The running thread is executing kernel code as the owner of the lock. */
  predicate AtLoc(k: Kernel, l: Loc) {
    k.cur in k.threads && k.threads[k.cur].loc == l
  }

  /** The kasserts on bkl_locked and bkl_owner hold wherever the running thread is in the kernel. */
  lemma KassertsHold(k: Kernel)
    requires Inv(k)
    ensures InKernel(k.threads[k.cur]) ==> k.locked && k.owner == Some(k.cur)
    ensures forall t :: t in k.threads && t != k.cur && Runnable(k.threads[t]) && InKernel(k.threads[t])
              ==> !InKernel(k.threads[k.cur])
  {
  }

  /** A change to the running owner that leaves it running inside the kernel. */
  lemma CurUpdate(k: Kernel, th: Thread, v: W.Wheel)
    requires Inv(k) && k.owner == Some(k.cur)
    requires th.state == k.threads[k.cur].state && th.blocking == k.threads[k.cur].blocking && InKernel(th)
    requires WheelOk(v, k.threads.Keys) && ThreadAt(k.cur, th, v, k.idle, k.timerTask)
    requires forall u :: u != k.cur ==> Later(k.wheel, v, u)
    requires ScanOk(v, if k.cur == k.timerTask then th.loc else k.threads[k.timerTask].loc)
    ensures Inv(k.(threads := k.threads[k.cur := th], wheel := v))
  {
    assert k.threads[k.cur := th].Keys == k.threads.Keys;
    ListsKeep(k.threads, k.cur, th, k.bkl, k.rendez, S.Members(k.sched), k.idle);
    ThreadsSet(k.threads, k.cur, th, k.wheel, v, k.idle, k.timerTask);
    LockSet(k.threads, k.cur, th, k.locked, k.owner, k.bkl, {});
  }

  lemma CurThread(k: Kernel, ex: set<Tid>)
    requires Core(k, ex)
    ensures ThreadAt(k.cur, k.threads[k.cur], k.wheel, k.idle, k.timerTask)
    ensures ListsAt(k.cur, k.threads[k.cur], k.bkl, k.rendez, S.Members(k.sched), k.idle)
  {
  }

  // ---------------------------------------------------------------------
  // Entering and leaving the kernel
  // ---------------------------------------------------------------------

  /** KernelLock. */
  function KernelLock(k: Kernel): (n: Kernel)
    requires Inv(k) && AtLoc(k, User) && (k.locked ==> k.cur != k.idle)
    ensures Inv(n)
  {
    var th := k.threads[k.cur];
    if !k.locked then
      LockFree(k);
      k.(locked := true, owner := Some(k.cur), threads := k.threads[k.cur := th.(loc := Body)])
    else
      LockBusy(k);
      ReschedInv(QueueForLock(k));
      Resched(QueueForLock(k))
  }

  function QueueForLock(k: Kernel): Kernel
    requires Inv(k)
  {
    k.(bkl := k.bkl + [k.cur],
       threads := k.threads[k.cur := k.threads[k.cur].(state := BklBlocked, loc := LockWait)],
       sched := S.Unready(k.sched, k.cur))
  }

  lemma LockFree(k: Kernel)
    requires Inv(k) && AtLoc(k, User) && !k.locked
    ensures Inv(k.(locked := true, owner := Some(k.cur),
                   threads := k.threads[k.cur := k.threads[k.cur].(loc := Body)]))
  {
    hide SchedOk, ListsOk, WheelOk;

    var th := k.threads[k.cur].(loc := Body);
    CurThread(k, {});
    assert k.threads[k.cur := th].Keys == k.threads.Keys;
    ListsKeep(k.threads, k.cur, th, k.bkl, k.rendez, S.Members(k.sched), k.idle);
    ThreadsSet(k.threads, k.cur, th, k.wheel, k.wheel, k.idle, k.timerTask);
    assert LockOk(k.threads[k.cur := th], true, Some(k.cur), k.bkl, {});
  }

  lemma LockBusy(k: Kernel)
    requires Inv(k) && AtLoc(k, User) && k.locked && k.cur != k.idle
    ensures Core(QueueForLock(k), {}) && S.CurrentOk(QueueForLock(k).sched, k.cur)
  {
    hide SchedOk, ListsOk, WheelOk;
    var th := k.threads[k.cur].(state := BklBlocked, loc := LockWait);
    CurThread(k, {});
    assert k.threads[k.cur := th].Keys == k.threads.Keys;
    ListsToBkl(k.threads, k.cur, th, k.bkl, k.rendez, S.Members(k.sched), k.idle);
    ThreadsSet(k.threads, k.cur, th, k.wheel, k.wheel, k.idle, k.timerTask);
    assert LockOk(k.threads[k.cur := th], k.locked, k.owner, k.bkl + [k.cur], {});
    UnreadySched(k.sched, k.cur, k.threads.Keys, k.idle);
  }

  /** KernelUnlock. */
  function KernelUnlock(k: Kernel): (n: Kernel)
    requires Inv(k) && AtLoc(k, Body)
    ensures Inv(n)
  {
    LeaveInv(k);
    if k.bkl == [] then Leave(k) else ReschedInv(Leave(k)); Resched(Leave(k))
  }

  function Leave(k: Kernel): Kernel
    requires Inv(k)
  {
    var g := Grant(k);
    g.(threads := g.threads[k.cur := g.threads[k.cur].(loc := User)])
  }

  lemma LeaveInv(k: Kernel)
    requires Inv(k) && AtLoc(k, Body)
    ensures Inv(Leave(k)) && S.CurrentOk(Leave(k).sched, k.cur)
  {
    hide SchedOk, ListsOk, LockOk, WheelOk, ThreadsOk;

    KassertsHold(k);
    Granted(k);
    LeaveGranted(Grant(k));
  }

  lemma LeaveGranted(g: Kernel)
    requires Core(g, {g.cur}) && CurOk(g.threads, g.sched, g.cur, g.idle) && g.owner != Some(g.cur)
    requires AtLoc(g, Body)
    ensures Inv(g.(threads := g.threads[g.cur := g.threads[g.cur].(loc := User)]))
    ensures S.CurrentOk(g.sched, g.cur)
  {
    hide ListsOk, LockOk, WheelOk, S.BitmapOk;

    var th := g.threads[g.cur].(loc := User);
    CurThread(g, {g.cur});
    assert g.threads[g.cur := th].Keys == g.threads.Keys;
    ListsKeep(g.threads, g.cur, th, g.bkl, g.rendez, S.Members(g.sched), g.idle);
    ThreadsSet(g.threads, g.cur, th, g.wheel, g.wheel, g.idle, g.timerTask);
    LockSet(g.threads, g.cur, th, g.locked, g.owner, g.bkl, {g.cur});
    assert {g.cur} - {g.cur} == {};
  }

  /** Giving up the lock leaves the former owner as it was. */
  lemma Granted(k: Kernel)
    requires Inv(k) && k.owner == Some(k.cur)
    ensures Core(Grant(k), {k.cur}) && CurOk(Grant(k).threads, Grant(k).sched, k.cur, k.idle)
    ensures Grant(k).threads[k.cur] == k.threads[k.cur] && Grant(k).owner != Some(k.cur)
    ensures Grant(k).threads[k.timerTask].loc == k.threads[k.timerTask].loc
    ensures Grant(k).threads.Keys == k.threads.Keys
  {
    hide S.Valid, S.BitmapOk, WheelOk, ListsOk, LockOk, ThreadsOk;
    GrantCore(k, {});
    assert {} + {k.cur} == {k.cur};
  }

  // ---------------------------------------------------------------------
  // Sleeping
  // ---------------------------------------------------------------------

  /** The location a thread sleeps at and where it goes on from there. */
  predicate MaySleep(k: Kernel, r: Rendez, c: Cont) {
    && k.cur in k.threads && k.cur != k.idle
    && match c
       case ToBody => k.threads[k.cur].loc.Body? && r != OfTimer
       case ToSleepLoop => k.threads[k.cur].loc.SleepLoop? && r == OfThread(k.cur)
       case ToPass => k.cur == k.timerTask && r == OfTimer
                      && (k.threads[k.cur].loc.Body? || k.threads[k.cur].loc.Dozing?)
  }

  /** TaskSleep, up to its Reschedule. */
  function TaskSleep(k: Kernel, r: Rendez, c: Cont): (n: Kernel)
    requires Inv(k) && MaySleep(k, r, c)
    ensures Inv(n)
  {
    SleepCore(k, r, c);
    var th := k.threads[k.cur];
    var b := Block(Grant(k), r, Slept(c), th.intr, th.callback, th.expiration, k.wheel);
    ReschedInv(b);
    Resched(b)
  }

  lemma SleepCore(k: Kernel, r: Rendez, c: Cont)
    requires Inv(k) && MaySleep(k, r, c)
    ensures Core(Grant(k), {k.cur}) && Grant(k).cur == k.cur
    ensures var b := Block(Grant(k), r, Slept(c), k.threads[k.cur].intr, k.threads[k.cur].callback,
                           k.threads[k.cur].expiration, k.wheel);
            Core(b, {}) && S.CurrentOk(b.sched, b.cur)
  {
    hide SchedOk, ListsOk, LockOk, WheelOk, ThreadsOk;

    KassertsHold(k);
    Granted(k);
    SleepGranted(Grant(k), r, c);
  }

  lemma SleepGranted(g: Kernel, r: Rendez, c: Cont)
    requires Core(g, {g.cur}) && Runnable(g.threads[g.cur]) && g.owner != Some(g.cur) && MaySleep(g, r, c)
    ensures var b := Block(g, r, Slept(c), g.threads[g.cur].intr, g.threads[g.cur].callback,
                           g.threads[g.cur].expiration, g.wheel);
            Core(b, {}) && S.CurrentOk(b.sched, b.cur)
  {
    hide SchedOk, ListsOk, LockOk, WheelOk;

    CurThread(g, {g.cur});
    BlockCore(g, r, Slept(c), g.threads[g.cur].intr, g.threads[g.cur].callback,
                           g.threads[g.cur].expiration, g.wheel);
  }

  /** TaskCheckInterruptible: is an event the thread waits for pending? */
  predicate EventPending(th: Thread, flags: set<Intr>) {
    Event in flags && th.pending * th.mask != {}
  }

  function TimeoutWheel(w: W.Wheel, t: Tid, timeout: Option<nat>): W.Wheel
    requires |w.buckets| == W.JIFFIES
  {
    if timeout.Some? then W.Arm(w, t, timeout.value) else w
  }

  function TimeoutExpiry(th: Thread, w: W.Wheel, timeout: Option<nat>): nat {
    if timeout.Some? then w.hard + timeout.value else th.expiration
  }

  function TimeoutCallback(th: Thread, r: Rendez, timeout: Option<nat>): Callback {
    if timeout.Some? then TimedSleep(r) else th.callback
  }

  /** TaskSleepInterruptible: returns at once when interrupted, otherwise runs up to its Reschedule. */
  function TaskSleepInterruptible(k: Kernel, r: Rendez, timeout: Option<nat>, flags: set<Intr>): (n: Kernel)
    requires Inv(k) && AtLoc(k, Body) && k.cur != k.idle && r != OfTimer
    ensures Inv(n)
  {
    var th := k.threads[k.cur];
    if EventPending(th, flags) then k
    else
      SleepIntrCore(k, r, timeout, flags);
      var b := Block(Grant(k), r, SleptIntr(timeout.Some?), flags, TimeoutCallback(th, r, timeout),
                     TimeoutExpiry(th, k.wheel, timeout), TimeoutWheel(k.wheel, k.cur, timeout));
      ReschedInv(b);
      Resched(b)
  }

  lemma SleepIntrCore(k: Kernel, r: Rendez, timeout: Option<nat>, flags: set<Intr>)
    requires Inv(k) && AtLoc(k, Body) && k.cur != k.idle && r != OfTimer && !EventPending(k.threads[k.cur], flags)
    ensures Core(Grant(k), {k.cur})
    ensures var b := Block(Grant(k), r, SleptIntr(timeout.Some?), flags,
                           TimeoutCallback(k.threads[k.cur], r, timeout),
                           TimeoutExpiry(k.threads[k.cur], k.wheel, timeout), TimeoutWheel(k.wheel, k.cur, timeout));
            Core(b, {}) && S.CurrentOk(b.sched, b.cur)
  {
    hide SchedOk, ListsOk, LockOk, ThreadsOk;
    KassertsHold(k);
    Granted(k);
    NotScanning(k);
    SleepIntrGranted(Grant(k), r, timeout, flags);
  }

  lemma SleepIntrGranted(g: Kernel, r: Rendez, timeout: Option<nat>, flags: set<Intr>)
    requires Core(g, {g.cur}) && Runnable(g.threads[g.cur]) && g.owner != Some(g.cur) && AtLoc(g, Body)
    requires g.cur != g.idle && r != OfTimer && !EventPending(g.threads[g.cur], flags)
             && !g.threads[g.timerTask].loc.Scanning?
    ensures var b := Block(g, r, SleptIntr(timeout.Some?), flags,
                           TimeoutCallback(g.threads[g.cur], r, timeout),
                           TimeoutExpiry(g.threads[g.cur], g.wheel, timeout), TimeoutWheel(g.wheel, g.cur, timeout));
            Core(b, {}) && S.CurrentOk(b.sched, b.cur)
  {
    hide SchedOk, ListsOk, LockOk;

    CurThread(g, {g.cur});
    if timeout.Some? {
      W.ArmKeeps(g.wheel, g.cur, timeout.value);
    }
    BlockCore(g, r, SleptIntr(timeout.Some?), flags, TimeoutCallback(g.threads[g.cur], r, timeout),
              TimeoutExpiry(g.threads[g.cur], g.wheel, timeout), TimeoutWheel(g.wheel, g.cur, timeout));
  }

  /** Only the owner of the lock can be part-way through a bucket. */
  lemma NotScanning(k: Kernel)
    requires Inv(k) && AtLoc(k, Body)
    ensures !k.threads[k.timerTask].loc.Scanning?
  {
    hide SchedOk, ListsOk, WheelOk;

    KassertsHold(k);
    var t := k.timerTask;
    assert ThreadAt(t, k.threads[t], k.wheel, k.idle, k.timerTask);
  }

  // ---------------------------------------------------------------------
  // Resuming
  // ---------------------------------------------------------------------

  predicate MayResume(k: Kernel) {
    k.cur in k.threads &&
    (k.threads[k.cur].loc.LockWait? || k.threads[k.cur].loc.Slept? || k.threads[k.cur].loc.SleptIntr?)
  }

  function AfterCont(c: Cont): Loc {
    match c
    case ToBody => Body
    case ToSleepLoop => SleepLoop
    case ToPass => Pass
  }

  /** A thread that was switched to goes on after the Reschedule that switched away from it. */
  function Resume(k: Kernel): (n: Kernel)
    requires Inv(k) && MayResume(k)
    ensures Inv(n) && k.locked && k.owner == Some(k.cur) && n.cur == k.cur
    ensures n.threads[k.cur].loc.Body? ==> k.cur !in n.wheel.expiry
  {
    KassertsHold(k);
    var th := k.threads[k.cur];
    match th.loc
    case LockWait => ResumeAt(k, Body); k.(threads := k.threads[k.cur := th.(loc := Body)])
    case Slept(c) => ResumeAt(k, AfterCont(c)); k.(threads := k.threads[k.cur := th.(loc := AfterCont(c))])
    case SleptIntr(timed) =>
      ResumeIntr(k);
      k.(threads := k.threads[k.cur := th.(loc := Body, intr := {})],
         wheel := if timed && k.cur in k.wheel.expiry then W.Disarm(k.wheel, k.cur) else k.wheel)
  }

  /** The status TaskSleepInterruptible returns when it resumes. */
  datatype Status = Ok | Interrupted | TimedOut

  function ResumeStatus(k: Kernel): Status
    requires Inv(k) && MayResume(k) && k.threads[k.cur].loc.SleptIntr?
  {
    var th := k.threads[k.cur];
    if EventPending(th, th.intr) then Interrupted
    else if th.loc.timed && k.cur !in k.wheel.expiry then TimedOut
    else Ok
  }

  lemma ResumeAt(k: Kernel, l: Loc)
    requires Inv(k) && k.owner == Some(k.cur)
    requires match k.threads[k.cur].loc
             case LockWait => l == Body
             case Slept(c) => l == AfterCont(c)
             case _ => false
    ensures Inv(k.(threads := k.threads[k.cur := k.threads[k.cur].(loc := l)]))
    ensures l.Body? ==> k.cur !in k.wheel.expiry
  {
    hide SchedOk, ListsOk, LockOk, WheelOk;
    CurThread(k, {});
    CurUpdate(k, k.threads[k.cur].(loc := l), k.wheel);
  }

  lemma ResumeIntr(k: Kernel)
    requires Inv(k) && k.owner == Some(k.cur) && k.threads[k.cur].loc.SleptIntr?
    ensures |k.wheel.buckets| == W.JIFFIES
    ensures var th := k.threads[k.cur];
            var v := if th.loc.timed && k.cur in k.wheel.expiry then W.Disarm(k.wheel, k.cur) else k.wheel;
            Inv(k.(threads := k.threads[k.cur := th.(loc := Body, intr := {})], wheel := v)) && k.cur !in v.expiry
  {
    hide SchedOk, ListsOk, LockOk;
    CurThread(k, {});
    var th := k.threads[k.cur];
    var v := if th.loc.timed && k.cur in k.wheel.expiry then W.Disarm(k.wheel, k.cur) else k.wheel;
    if k.cur in k.wheel.expiry {
      W.DisarmKeeps(k.wheel, k.cur);
    }
    OwnerScans(k);
    CurUpdate(k, th.(loc := Body, intr := {}), v);
  }

  /** Nobody else holds the lock, so nobody else is part-way through a bucket. */
  lemma OwnerScans(k: Kernel)
    requires Inv(k) && k.owner == Some(k.cur) && !k.threads[k.cur].loc.Scanning?
    ensures !k.threads[k.timerTask].loc.Scanning?
  {
    hide SchedOk, ListsOk, WheelOk;
    var t := k.timerTask;
    assert ThreadAt(t, k.threads[t], k.wheel, k.idle, k.timerTask);
  }

  // ---------------------------------------------------------------------
  // Waking
  // ---------------------------------------------------------------------

  lemma ReleaseInv(k: Kernel, t: Tid)
    requires Inv(k) && k.locked && t in k.threads && k.threads[t].state == RendezBlocked
    ensures k.threads[t].blocking.Some? && Inv(Release(k, t))
  {
    hide SchedOk, ListsOk, LockOk, ThreadsOk, WheelOk, CurOk;
    ReleaseCore(k, t, {});
  }

  lemma HeadIsBlocked(k: Kernel, r: Rendez)
    requires Core(k, {}) && Waiters(k.rendez, r) != []
    ensures var t := Waiters(k.rendez, r)[0];
            t in k.threads && k.threads[t].state == RendezBlocked && k.threads[t].blocking == Some(r)
  {
    hide SchedOk, LockOk, ThreadsOk, WheelOk;
    var t := Waiters(k.rendez, r)[0];
    assert t in Waiters(k.rendez, r);
    assert ListsAt(t, k.threads[t], k.bkl, k.rendez, S.Members(k.sched), k.idle);
  }

  /** TaskWakeup. */
  function TaskWakeup(k: Kernel, r: Rendez): (n: Kernel)
    requires Inv(k) && k.locked
    ensures Inv(n) && n.locked && n.owner == k.owner && n.cur == k.cur && n.threads.Keys == k.threads.Keys
    ensures n.threads[n.cur].loc == k.threads[k.cur].loc
    ensures n.bkl == k.bkl + (if Waiters(k.rendez, r) == [] then [] else [Waiters(k.rendez, r)[0]])
  {
    var q := Waiters(k.rendez, r);
    if q == [] then k
    else HeadIsBlocked(k, r); ReleaseInv(k, q[0]); Release(k, q[0])
  }

  /** TaskWakeupSpecific: an empty reason wakes the thread whatever it sleeps for. */
  function TaskWakeupSpecific(k: Kernel, t: Tid, reason: set<Intr>): (n: Kernel)
    requires Inv(k) && k.locked && t in k.threads
    ensures Inv(n) && n.locked && n.owner == k.owner && n.cur == k.cur && n.threads.Keys == k.threads.Keys
    ensures n.threads[n.cur].loc == k.threads[k.cur].loc
    ensures forall u :: u in k.threads && u != t ==> n.threads[u] == k.threads[u]
    ensures if Interruptible(k.threads[t], reason) then
              n.bkl == k.bkl + [t] && n.threads[t] == k.threads[t].(state := BklBlocked, blocking := None)
            else n == k
  {
    hide Inv;
    if Interruptible(k.threads[t], reason) then ReleaseInv(k, t); Release(k, t)
    else k
  }

  predicate Interruptible(th: Thread, reason: set<Intr>) {
    th.state == RendezBlocked && (th.intr * reason != {} || reason == {})
  }

  // ---------------------------------------------------------------------
  // Events
  // ---------------------------------------------------------------------

  /** A change to a thread's event words only. */
  lemma EventUpdate(k: Kernel, t: Tid, pending: set<nat>, mask: set<nat>)
    requires Inv(k) && t in k.threads
    requires k.threads[t].state == RendezBlocked && Event in k.threads[t].intr ==> pending * mask == {}
    ensures Inv(k.(threads := k.threads[t := k.threads[t].(pending := pending, mask := mask)]))
  {
    hide SchedOk, WheelOk;
    var th := k.threads[t].(pending := pending, mask := mask);
    assert ThreadAt(t, k.threads[t], k.wheel, k.idle, k.timerTask);
    assert k.threads[t := th].Keys == k.threads.Keys;
    ListsKeep(k.threads, t, th, k.bkl, k.rendez, S.Members(k.sched), k.idle);
    ThreadsSet(k.threads, t, th, k.wheel, k.wheel, k.idle, k.timerTask);
    assert LockOk(k.threads[t := th], k.locked, k.owner, k.bkl, {});
  }

  /** do_thread_event_signal and isr_thread_event_signal: post an event and wake its waiter. */
  function EventSignal(k: Kernel, t: Tid, e: nat): (n: Kernel)
    requires Inv(k) && k.locked && t in k.threads
    ensures Inv(n) && n.locked && n.owner == k.owner && n.cur == k.cur && n.threads.Keys == k.threads.Keys
    ensures n.threads[n.cur].loc == k.threads[k.cur].loc
  {
    hide Inv;
    var w := SignalWake(k, t, e);
    SignalInv(k, w, t, e);
    w.(threads := w.threads[t := w.threads[t].(pending := k.threads[t].pending + {e})])
  }

  function SignalWake(k: Kernel, t: Tid, e: nat): (w: Kernel)
    requires Inv(k) && k.locked && t in k.threads
    ensures Inv(w) && w.locked && w.owner == k.owner && w.cur == k.cur && w.threads.Keys == k.threads.Keys
    ensures w.threads[w.cur].loc == k.threads[k.cur].loc
  {
    if (k.threads[t].pending + {e}) * k.threads[t].mask != {} then TaskWakeupSpecific(k, t, {Event}) else k
  }

  lemma SignalInv(k: Kernel, w: Kernel, t: Tid, e: nat)
    requires Inv(k) && k.locked && t in k.threads && w == SignalWake(k, t, e)
    ensures Inv(w.(threads := w.threads[t := w.threads[t].(pending := k.threads[t].pending + {e})]))
  {
    hide Inv, Release;
    var th := k.threads[t];
    if Event in th.intr {
      assert Event in th.intr * {Event};
    }
    EventUpdate(w, t, th.pending + {e}, w.threads[t].mask);
  }

  /**
    An event reaches its thread: it alone becomes pending there, and a thread asleep for it,
    and no other, joins the lock's list.
   */
  lemma SignalReaches(k: Kernel, t: Tid, e: nat)
    requires Inv(k) && k.locked && t in k.threads
    ensures var n := EventSignal(k, t, e);
            && n.threads[t].pending == k.threads[t].pending + {e}
            && (forall u :: u in k.threads ==> n.threads[u].loc == k.threads[u].loc)
            && (forall u :: u in k.threads && u != t ==> n.threads[u] == k.threads[u])
            && (e in k.threads[t].mask && k.threads[t].state == RendezBlocked && Event in k.threads[t].intr ==>
                  n.bkl == k.bkl + [t] && n.threads[t].state == BklBlocked)
            && (e !in k.threads[t].mask && k.threads[t].pending * k.threads[t].mask == {} ==>
                  n.bkl == k.bkl && n.threads[t].state == k.threads[t].state)
            && (k.threads[t].state != RendezBlocked || Event !in k.threads[t].intr ==>
                  n.bkl == k.bkl && n.threads[t].state == k.threads[t].state)
  {
    hide Inv, Release;
    var th := k.threads[t];
    if e in th.mask && Event in th.intr {
      assert e in (th.pending + {e}) * th.mask && Event in th.intr * {Event};
    }
  }

  /** sys_thread_event_wait: choose the awaited events, and later collect those that came. */
  function SetMask(k: Kernel, mask: set<nat>): (n: Kernel)
    requires Inv(k) && AtLoc(k, Body)
    ensures Inv(n) && n.threads.Keys == k.threads.Keys
    ensures n.threads[k.cur].mask == mask && n.threads[k.cur].pending == k.threads[k.cur].pending
    ensures forall t :: t in k.threads && t != k.cur ==> n.threads[t] == k.threads[t]
  {
    EventUpdate(k, k.cur, k.threads[k.cur].pending, mask);
    hide Inv;
    k.(threads := k.threads[k.cur := k.threads[k.cur].(mask := mask)])
  }

  function Collect(k: Kernel): (n: Kernel)
    requires Inv(k) && AtLoc(k, Body)
    ensures Inv(n)
  {
    var th := k.threads[k.cur];
    EventUpdate(k, k.cur, th.pending - th.mask, th.mask);
    k.(threads := k.threads[k.cur := th.(pending := th.pending - th.mask)])
  }

  // ---------------------------------------------------------------------
  // Sleeping on the clock
  // ---------------------------------------------------------------------

  /** sys_sleep, sys_nanosleep and sleep_ticks: arm the sleep timer, then loop. */
  function ArmSleep(k: Kernel, ticks: nat): (n: Kernel)
    requires Inv(k) && AtLoc(k, Body) && k.cur != k.idle
    ensures k.cur !in k.wheel.expiry
    ensures Inv(n) && n.cur == k.cur && k.cur in n.wheel.expiry && n.wheel.expiry[k.cur] == k.wheel.hard + ticks
  {
    KassertsHold(k);
    ArmSleepInv(k, ticks);
    k.(wheel := W.Arm(k.wheel, k.cur, ticks),
       threads := k.threads[k.cur := k.threads[k.cur].(loc := SleepLoop, callback := WakeOwner,
                                                       expiration := k.wheel.hard + ticks)])
  }

  lemma ArmSleepInv(k: Kernel, ticks: nat)
    requires Inv(k) && AtLoc(k, Body) && k.cur != k.idle && k.owner == Some(k.cur)
    ensures k.cur !in k.wheel.expiry && |k.wheel.buckets| == W.JIFFIES
    ensures Inv(k.(wheel := W.Arm(k.wheel, k.cur, ticks),
                   threads := k.threads[k.cur := k.threads[k.cur].(loc := SleepLoop, callback := WakeOwner,
                                                                   expiration := k.wheel.hard + ticks)]))
  {
    hide SchedOk, ListsOk, LockOk;
    CurThread(k, {});
    W.ArmKeeps(k.wheel, k.cur, ticks);
    OwnerScans(k);
    CurUpdate(k, k.threads[k.cur].(loc := SleepLoop, callback := WakeOwner, expiration := k.wheel.hard + ticks),
              W.Arm(k.wheel, k.cur, ticks));
  }

  /** The test of the while loop: sleep again while the timer is armed. */
  function LoopTest(k: Kernel): (n: Kernel)
    requires Inv(k) && AtLoc(k, SleepLoop)
    ensures Inv(n)
  {
    KassertsHold(k);
    CurThread(k, {});
    if k.cur in k.wheel.expiry then TaskSleep(k, OfThread(k.cur), ToSleepLoop)
    else
      LoopDone(k);
      k.(threads := k.threads[k.cur := k.threads[k.cur].(loc := Body)])
  }

  lemma LoopDone(k: Kernel)
    requires Inv(k) && AtLoc(k, SleepLoop) && k.owner == Some(k.cur) && k.cur !in k.wheel.expiry
    ensures Inv(k.(threads := k.threads[k.cur := k.threads[k.cur].(loc := Body)]))
  {
    hide SchedOk, ListsOk, LockOk, WheelOk;
    CurThread(k, {});
    OwnerScans(k);
    CurUpdate(k, k.threads[k.cur].(loc := Body), k.wheel);
  }

  // ---------------------------------------------------------------------
  // The timer task
  // ---------------------------------------------------------------------

  /** timer_bottom_half_task: the test of the while loop, with interrupts disabled; they are enabled after it. */
  function TaskPass(k: Kernel): (n: Kernel)
    requires Inv(k) && AtLoc(k, Pass)
    ensures Inv(n)
  {
    KassertsHold(k);
    CurThread(k, {});
    if k.wheel.soft < k.wheel.hard then
      PassInv(k);
      k.(threads := k.threads[k.cur := k.threads[k.cur].(
           loc := Scanning(k.wheel.buckets[k.wheel.soft % W.JIFFIES]))])
    else
      DozeInv(k);
      k.(threads := k.threads[k.cur := k.threads[k.cur].(loc := Dozing)])
  }

  lemma DozeInv(k: Kernel)
    requires Inv(k) && AtLoc(k, Pass) && k.owner == Some(k.cur)
    ensures Inv(k.(threads := k.threads[k.cur := k.threads[k.cur].(loc := Dozing)]))
  {
    hide SchedOk, ListsOk, LockOk, WheelOk;
    CurThread(k, {});
    CurUpdate(k, k.threads[k.cur].(loc := Dozing), k.wheel);
  }

  /** The sleep at the head of the timer task's endless loop, entered with interrupts enabled. */
  function TaskDoze(k: Kernel): (n: Kernel)
    requires Inv(k) && AtLoc(k, Dozing)
    ensures Inv(n)
  {
    CurThread(k, {});
    TaskSleep(k, OfTimer, ToPass)
  }

  lemma PassInv(k: Kernel)
    requires Inv(k) && AtLoc(k, Pass) && k.owner == Some(k.cur) && k.wheel.soft < k.wheel.hard
    ensures |k.wheel.buckets| == W.JIFFIES
    ensures Inv(k.(threads := k.threads[k.cur := k.threads[k.cur].(
                     loc := Scanning(k.wheel.buckets[k.wheel.soft % W.JIFFIES]))]))
  {
    hide SchedOk, ListsOk, LockOk;
    CurThread(k, {});
    CurUpdate(k, k.threads[k.cur].(loc := Scanning(k.wheel.buckets[k.wheel.soft % W.JIFFIES])), k.wheel);
  }

  /** The inner loop: visit one timer of the bucket, or finish the bucket and advance softclock. */
  function TaskScan(k: Kernel): (n: Kernel)
    requires Inv(k) && k.threads[k.cur].loc.Scanning?
    ensures Inv(n)
  {
    KassertsHold(k);
    var th := k.threads[k.cur];
    var rest := th.loc.rest;
    ScanFacts(k);
    if rest == [] then
      ScanDone(k);
      k.(wheel := k.wheel.(soft := k.wheel.soft + 1), threads := k.threads[k.cur := th.(loc := Pass)])
    else
      var x := rest[0];
      if k.wheel.expiry[x] <= k.wheel.soft then
        ScanFire(k);
        var f := k.(wheel := W.Disarm(k.wheel, x), threads := k.threads[k.cur := th.(loc := Scanning(rest[1..]))]);
        Fire(f, x)
      else
        ScanSkip(k);
        k.(threads := k.threads[k.cur := th.(loc := Scanning(rest[1..]))])
  }

  /** The callback of a fired sleep timer: SleepCallback or TaskTimedSleepCallback. */
  function Fire(k: Kernel, x: Tid): (n: Kernel)
    requires Inv(k) && k.locked && x in k.threads
    ensures Inv(n)
  {
    match k.threads[x].callback
    case WakeOwner => TaskWakeup(k, OfThread(x))
    case TimedSleep(_) => if k.threads[x].state == RendezBlocked then ReleaseInv(k, x); Release(k, x) else k
  }

  lemma ScanFacts(k: Kernel)
    requires Inv(k) && k.threads[k.cur].loc.Scanning?
    ensures k.cur == k.timerTask && |k.wheel.buckets| == W.JIFFIES
    ensures forall i :: i in k.threads[k.cur].loc.rest ==> i in k.wheel.expiry && i in k.threads
  {
    hide SchedOk, ListsOk, LockOk;
    CurThread(k, {});
  }

  lemma ScanDone(k: Kernel)
    requires Inv(k) && k.threads[k.cur].loc == Scanning([]) && k.owner == Some(k.cur)
    ensures Inv(k.(wheel := k.wheel.(soft := k.wheel.soft + 1),
                   threads := k.threads[k.cur := k.threads[k.cur].(loc := Pass)]))
  {
    hide SchedOk, ListsOk, LockOk;
    CurThread(k, {});
    var v := k.wheel.(soft := k.wheel.soft + 1);
    assert W.Valid(v) && W.NoneOverdue(v);
    CurUpdate(k, k.threads[k.cur].(loc := Pass), v);
  }

  lemma ScanFire(k: Kernel)
    requires Inv(k) && k.threads[k.cur].loc.Scanning? && k.threads[k.cur].loc.rest != [] && k.owner == Some(k.cur)
    requires k.threads[k.cur].loc.rest[0] in k.wheel.expiry
    requires k.wheel.expiry[k.threads[k.cur].loc.rest[0]] <= k.wheel.soft
    ensures var rest := k.threads[k.cur].loc.rest;
            && rest[0] in k.wheel.expiry && rest[0] in k.threads && |k.wheel.buckets| == W.JIFFIES
            && Inv(k.(wheel := W.Disarm(k.wheel, rest[0]),
                      threads := k.threads[k.cur := k.threads[k.cur].(loc := Scanning(rest[1..]))]))
  {
    hide SchedOk, ListsOk, LockOk;
    CurThread(k, {});
    var rest := k.threads[k.cur].loc.rest;
    NoDupTail(rest);
    W.DisarmKeeps(k.wheel, rest[0]);
    CurUpdate(k, k.threads[k.cur].(loc := Scanning(rest[1..])), W.Disarm(k.wheel, rest[0]));
  }

  lemma ScanSkip(k: Kernel)
    requires Inv(k) && k.threads[k.cur].loc.Scanning? && k.threads[k.cur].loc.rest != [] && k.owner == Some(k.cur)
    requires k.threads[k.cur].loc.rest[0] in k.wheel.expiry
    requires k.wheel.expiry[k.threads[k.cur].loc.rest[0]] > k.wheel.soft
    ensures Inv(k.(threads := k.threads[k.cur := k.threads[k.cur].(loc := Scanning(k.threads[k.cur].loc.rest[1..]))]))
  {
    hide SchedOk, ListsOk, LockOk;
    CurThread(k, {});
    var rest := k.threads[k.cur].loc.rest;
    NoDupTail(rest);
    CurUpdate(k, k.threads[k.cur].(loc := Scanning(rest[1..])), k.wheel);
  }

  /** The kassert of TaskTimedSleepCallback: a timer about to fire names the rendez its thread sleeps on. */
  lemma CallbackFindsItsRendez(k: Kernel, x: Tid)
    requires Inv(k) && x in k.wheel.expiry && k.threads[x].callback.TimedSleep?
    ensures k.threads[x].state == RendezBlocked ==> k.threads[x].blocking == Some(k.threads[x].callback.r)
  {
    hide SchedOk, ListsOk, LockOk;
    assert ThreadAt(x, k.threads[x], k.wheel, k.idle, k.timerTask);
  }

  // ---------------------------------------------------------------------
  // Threads coming and going
  // ---------------------------------------------------------------------

  const Fresh: Thread := Thread(Ready, User, None, {}, {}, {}, WakeOwner, 0)

  /** init_schedparams and thread_start: a new thread is made ready, outside the kernel. */
  function ThreadStart(k: Kernel, t: Tid, policy: S.Policy, priority: int): (n: Kernel)
    requires Inv(k) && AtLoc(k, Body) && t !in k.threads && policy != S.Idle
    ensures Inv(n)
  {
    StartInv(k, t, S.InitParams(policy, priority));
    k.(threads := k.threads[t := Fresh],
       sched := S.Ready(S.Register(k.sched, t, S.InitParams(policy, priority)), t))
  }

  lemma StartInv(k: Kernel, t: Tid, p: S.Params)
    requires Inv(k) && t !in k.threads && p.policy != S.Idle && S.ParamsOk(p)
    ensures |k.sched.queues| == S.NQUEUES
    ensures Inv(k.(threads := k.threads[t := Fresh], sched := S.Ready(S.Register(k.sched, t, p), t)))
  {
    hide ListsOk, ThreadsOk, S.BitmapOk, S.Ready, S.AtHead, S.Members;
    StartLists(k.threads, t, k.bkl, k.rendez, S.Members(k.sched), k.idle);
    StartThreads(k.threads, t, k.wheel, k.idle, k.timerTask);
    StartSched(k.sched, t, p, k.threads.Keys, k.idle);
    assert k.threads[t := Fresh].Keys == k.threads.Keys + {t};
    assert LockOk(k.threads[t := Fresh], k.locked, k.owner, k.bkl, {});
  }

  lemma StartSched(sched: S.Sched, t: Tid, p: S.Params, ids: set<Tid>, idle: Tid)
    requires SchedOk(sched, ids, idle) && t !in ids && p.policy != S.Idle && S.ParamsOk(p)
    ensures var n := S.Ready(S.Register(sched, t, p), t);
            && SchedOk(n, ids + {t}, idle) && S.Members(n) == S.Members(sched) + {t}
            && (forall u :: S.AtHead(sched, u) ==> S.AtHead(n, u))
  {
    S.RegisterKeeps(sched, t, p);
    hide S.BitmapOk, S.AtHead, S.Members, S.Ready;
    StartReady(S.Register(sched, t, p), t);
  }

  lemma StartReady(m: S.Sched, t: Tid)
    requires S.Valid(m) && t in m.params && t !in S.Members(m) && m.params[t].policy != S.Idle
    ensures var n := S.Ready(m, t);
            && S.Valid(n) && n.params.Keys == m.params.Keys && S.Members(n) == S.Members(m) + {t}
            && (forall u :: u in m.params ==> n.params[u].policy == m.params[u].policy)
            && (S.BitmapOk(m) ==> S.BitmapOk(n))
            && (forall u :: S.AtHead(m, u) && u != t ==> S.AtHead(n, u))
  {
    hide S.Valid, S.BitmapOk, S.AtHead, S.Members, S.Ready;
    S.ReadyKeeps(m, t);
  }

  lemma StartLists(threads: map<Tid, Thread>, t: Tid, bkl: seq<Tid>, rendez: map<Rendez, seq<Tid>>,
                   queued: set<Tid>, idle: Tid)
    requires ListsOk(threads, bkl, rendez, queued, idle) && t !in threads && idle in threads
    ensures ListsOk(threads[t := Fresh], bkl, rendez, queued + {t}, idle)
  {
    var n := threads[t := Fresh];
    forall u | u in n
      ensures ListsAt(u, n[u], bkl, rendez, queued + {t}, idle)
    {
      if u != t {
        assert ListsAt(u, threads[u], bkl, rendez, queued, idle);
      }
    }
  }

  lemma StartThreads(threads: map<Tid, Thread>, t: Tid, w: W.Wheel, idle: Tid, timerTask: Tid)
    requires ThreadsOk(threads, w, idle, timerTask) && t !in threads && t !in w.expiry && idle in threads
    ensures ThreadsOk(threads[t := Fresh], w, idle, timerTask)
  {
    var n := threads[t := Fresh];
    forall u | u in n
      ensures ThreadAt(u, n[u], w, idle, timerTask)
    {
      if u != t {
        assert ThreadAt(u, threads[u], w, idle, timerTask);
      }
    }
  }

  /** thread_stop: the current thread gives up the lock and leaves every list. */
  function ThreadStop(k: Kernel): (n: Kernel)
    requires Inv(k) && AtLoc(k, Body) && k.cur != k.idle
    ensures Inv(n)
  {
    StopCore(k);
    ReschedInv(Stopped(Grant(k)));
    Resched(Stopped(Grant(k)))
  }

  function Stopped(g: Kernel): Kernel
    requires Core(g, {g.cur})
  {
    g.(threads := g.threads[g.cur := g.threads[g.cur].(state := Exited, loc := Gone)],
       sched := S.Unready(g.sched, g.cur))
  }

  lemma StopCore(k: Kernel)
    requires Inv(k) && AtLoc(k, Body) && k.cur != k.idle
    ensures Core(Grant(k), {k.cur}) && Core(Stopped(Grant(k)), {}) && S.CurrentOk(Stopped(Grant(k)).sched, k.cur)
  {
    hide SchedOk, ListsOk, LockOk, ThreadsOk, WheelOk;
    KassertsHold(k);
    Granted(k);
    StopGranted(Grant(k));
  }

  lemma StopGranted(g: Kernel)
    requires Core(g, {g.cur}) && Runnable(g.threads[g.cur]) && g.owner != Some(g.cur) && AtLoc(g, Body)
    requires g.cur != g.idle
    ensures Core(Stopped(g), {}) && S.CurrentOk(Stopped(g).sched, g.cur)
  {
    hide SchedOk, LockOk, ListsOk, WheelOk;
    CurThread(g, {g.cur});
    var th := g.threads[g.cur].(state := Exited, loc := Gone);
    assert g.threads[g.cur := th].Keys == g.threads.Keys;
    ListsExit(g.threads, g.cur, th, g.bkl, g.rendez, S.Members(g.sched), g.idle);
    ThreadsSet(g.threads, g.cur, th, g.wheel, g.wheel, g.idle, g.timerTask);
    LockSet(g.threads, g.cur, th, g.locked, g.owner, g.bkl, {g.cur});
    assert {g.cur} - {g.cur} == {};
    UnreadySched(g.sched, g.cur, g.threads.Keys, g.idle);
  }

  // ---------------------------------------------------------------------
  // Interrupts
  // ---------------------------------------------------------------------

  datatype Source = Clock | Device(events: seq<(Tid, nat)>)

  /** TimerTopHalf: charge the running thread, advance hardclock, wake the timer task. */
  function ClockTopHalf(k: Kernel): (n: Kernel)
    requires Inv(k) && k.locked
    ensures Inv(n) && n.locked && n.owner == k.owner && n.cur == k.cur && n.threads.Keys == k.threads.Keys
    ensures n.threads[n.cur].loc == k.threads[k.cur].loc
  {
    ClockInv(k);
    TaskWakeup(k.(sched := S.Charge(k.sched, k.cur), wheel := W.Tick(k.wheel)), OfTimer)
  }

  lemma ClockInv(k: Kernel)
    requires Inv(k)
    ensures k.cur in k.sched.params
    ensures Inv(k.(sched := S.Charge(k.sched, k.cur), wheel := W.Tick(k.wheel)))
  {
    hide ListsOk, LockOk, ThreadsOk, WheelOk, S.Members, S.AtHead, S.BitmapOk, S.Charge;
    S.ChargeKeeps(k.sched, k.cur);
    TickThreads(k.threads, k.wheel, k.idle, k.timerTask);
  }

  lemma TickThreads(threads: map<Tid, Thread>, w: W.Wheel, idle: Tid, timerTask: Tid)
    requires ThreadsOk(threads, w, idle, timerTask) && WheelOk(w, threads.Keys)
    ensures ThreadsOk(threads, W.Tick(w), idle, timerTask) && WheelOk(W.Tick(w), threads.Keys)
  {
  }

  /** Every registered handler names a live thread. */
  predicate EventsOk(ids: set<Tid>, events: seq<(Tid, nat)>) {
    forall i :: 0 <= i < |events| ==> events[i].0 in ids
  }

  /** interrupt_server_broadcast_event: post an event to every registered thread. */
  function DeviceTopHalf(k: Kernel, events: seq<(Tid, nat)>): (n: Kernel)
    requires Inv(k) && k.locked && EventsOk(k.threads.Keys, events)
    ensures Inv(n) && n.locked && n.owner == k.owner && n.cur == k.cur && n.threads.Keys == k.threads.Keys
    ensures n.threads[n.cur].loc == k.threads[k.cur].loc
    decreases events
  {
    hide Inv, EventSignal;
    if events == [] then k
    else
      var m := EventSignal(k, events[0].0, events[0].1);
      assert EventsOk(m.threads.Keys, events[1..]);
      DeviceTopHalf(m, events[1..])
  }

  predicate SourceOk(k: Kernel, src: Source) {
    src.Device? ==> EventsOk(k.threads.Keys, src.events)
  }

  function TopHalf(k: Kernel, src: Source): (n: Kernel)
    requires Inv(k) && k.locked && SourceOk(k, src)
    ensures Inv(n) && n.locked && n.owner == k.owner && n.cur == k.cur && n.threads.Keys == k.threads.Keys
    ensures n.threads[n.cur].loc == k.threads[k.cur].loc
  {
    match src
    case Clock => ClockTopHalf(k)
    case Device(events) => DeviceTopHalf(k, events)
  }

  /** interrupt_handler: take the lock only when it is free, and pass it on afterwards. */
  function Interrupt(k: Kernel, src: Source): (n: Kernel)
    requires Inv(k) && SourceOk(k, src)
    ensures Inv(n)
  {
    if k.locked then TopHalf(k, src)
    else FreeMeansUser(k); KernelUnlock(TopHalf(KernelLock(k), src))
  }

  lemma FreeMeansUser(k: Kernel)
    requires Inv(k) && !k.locked
    ensures AtLoc(k, User)
    ensures KernelLock(k).locked && AtLoc(KernelLock(k), Body) && KernelLock(k).threads.Keys == k.threads.Keys
  {
    hide SchedOk, ListsOk, WheelOk;
    CurThread(k, {});
  }
}
