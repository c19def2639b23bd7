/**
  Interruptible sleeps in runs of the kernel monitor (proc/sleep_wakeup_bkl.c:188-284,
  proc/thread_events.c): what ends such a sleep, and what it returns, follows from what its
  caller asked for.
 */
module EventRuns {
  import opened Lists
  import opened Monitor
  import opened MonitorSteps
  import opened MonitorEffects
  import opened MonitorRuns
  import opened ClockRuns
  import S = Scheduler

  /** The run goes by without thread t going on after its Reschedule. */
  ghost predicate Unresumed(k: Kernel, acts: seq<Action>, t: Tid)
    requires Inv(k) && IsRun(k, acts)
    decreases acts
  {
    acts == [] || (!(acts[0].DoResume? && k.cur == t) && Unresumed(Step(k, acts[0]), acts[1..], t))
  }

  /** What thread t waits for, where, and until when. */
  ghost predicate WaitsFor(k: Kernel, t: Tid, timed: bool, flags: set<Intr>, mask: set<nat>, deadline: nat) {
    && t in k.threads
    && k.threads[t].loc == SleptIntr(timed) && k.threads[t].intr == flags && k.threads[t].mask == mask
    && k.threads[t].expiration == deadline
  }

  lemma StepWaits(k: Kernel, a: Action, t: Tid, timed: bool, flags: set<Intr>, mask: set<nat>, deadline: nat)
    requires Inv(k) && Enabled(k, a) && WaitsFor(k, t, timed, flags, mask, deadline) && !(a.DoResume? && k.cur == t)
    ensures WaitsFor(Step(k, a), t, timed, flags, mask, deadline)
  {
    hide Inv, Step;
    StepKeeps(k, a);
    if t == k.cur {
      KassertsHold(k);
    }
  }

  lemma {:induction false} RunWaits(k: Kernel, acts: seq<Action>, t: Tid, timed: bool, flags: set<Intr>, mask: set<nat>,
                                    deadline: nat)
    requires Inv(k) && IsRun(k, acts) && WaitsFor(k, t, timed, flags, mask, deadline) && Unresumed(k, acts, t)
    ensures WaitsFor(Run(k, acts), t, timed, flags, mask, deadline)
    decreases acts
  {
    hide Inv, Step, WaitsFor, Enabled;
    if acts != [] {
      StepWaits(k, acts[0], t, timed, flags, mask, deadline);
      RunWaits(Step(k, acts[0]), acts[1..], t, timed, flags, mask, deadline);
    }
  }

  /** The state after a run that follows a call of TaskSleepInterruptible which blocked, before its thread goes on. */
  ghost predicate SleptInto(k: Kernel, r: Rendez, timeout: Option<nat>, flags: set<Intr>, acts: seq<Action>,
                            m: Kernel)
  {
    && Inv(k) && Enabled(k, SleepIntr(r, timeout, flags))
    && !(Event in flags && k.threads[k.cur].pending * k.threads[k.cur].mask != {})
    && var n := Step(k, SleepIntr(r, timeout, flags));
       IsRun(n, acts) && Unresumed(n, acts, k.cur) && m == Run(n, acts)
  }

  lemma SleeperWaits(k: Kernel, r: Rendez, timeout: Option<nat>, flags: set<Intr>, acts: seq<Action>, m: Kernel)
    requires SleptInto(k, r, timeout, flags, acts, m)
    ensures Inv(m) && k.cur in m.threads
    ensures var th := m.threads[k.cur];
            && WaitsFor(m, k.cur, timeout.Some?, flags, k.threads[k.cur].mask, th.expiration)
            && (timeout.Some? ==> th.expiration == k.wheel.hard + timeout.value)
  {
    hide Inv, IsRun, Run, Unresumed, TaskSleepInterruptible;
    var n := Step(k, SleepIntr(r, timeout, flags));
    SleepIntrEffect(k, r, timeout, flags);
    if timeout.Some? {
      ArmedExpiration(n, k.cur);
    }
    RunWaits(n, acts, k.cur, timeout.Some?, flags, k.threads[k.cur].mask, n.threads[k.cur].expiration);
  }

  lemma ArmedExpiration(k: Kernel, t: Tid)
    requires Inv(k) && t in k.threads
    ensures t in k.wheel.expiry ==> k.wheel.expiry[t] == k.threads[t].expiration
    ensures k.threads[t].loc == SleptIntr(true) ==> t in k.wheel.expiry || k.threads[t].expiration < k.wheel.hard
    ensures k.threads[t].loc == SleptIntr(false) ==> t !in k.wheel.expiry
    ensures t in k.wheel.expiry ==> k.wheel.soft <= k.wheel.expiry[t]
  {
    hide SchedOk, ListsOk, LockOk;
    assert ThreadAt(t, k.threads[t], k.wheel, k.idle, k.timerTask);
  }

  /** A thread that slept and has not gone on is still blocked, in the lock's queue, or has the lock. */
  lemma SleeperIsSomewhere(m: Kernel, t: Tid)
    requires Inv(m) && t in m.threads && m.threads[t].loc.SleptIntr?
    ensures m.threads[t].state == RendezBlocked || t in m.bkl || m.owner == Some(t)
    ensures m.threads[t].state == RendezBlocked ==> m.threads[t].blocking.Some?
  {
    hide SchedOk, WheelOk;
    assert ThreadAt(t, m.threads[t], m.wheel, m.idle, m.timerTask);
    assert ListsAt(t, m.threads[t], m.bkl, m.rendez, S.Members(m.sched), m.idle);
  }

  /**
    An event wakes whoever sleeps for it: whatever happens after a thread has gone to sleep
    with INTRF_EVENT among its flags, as long as it is blocked none of the events of its mask
    is pending, and one that is then posted puts it into the lock's queue, unless it is there
    or has the lock already. Without that flag the event leaves it asleep.
   */
  lemma EventWakesSleeper(k: Kernel, r: Rendez, timeout: Option<nat>, flags: set<Intr>, acts: seq<Action>, m: Kernel,
                          e: nat)
    requires SleptInto(k, r, timeout, flags, acts, m)
    requires m.locked && e in k.threads[k.cur].mask
    ensures Inv(m) && k.cur in m.threads
    ensures var n := EventSignal(m, k.cur, e);
            && (Event in flags ==> k.cur in n.bkl || n.owner == Some(k.cur))
            && (Event in flags && m.threads[k.cur].state == RendezBlocked ==>
                  m.threads[k.cur].pending * k.threads[k.cur].mask == {} && n.bkl == m.bkl + [k.cur])
            && (Event !in flags ==> n.bkl == m.bkl && n.threads[k.cur].state == m.threads[k.cur].state)
  {
    hide Inv, IsRun, Run, Unresumed, SleptInto, Release;
    SleeperWaits(k, r, timeout, flags, acts, m);
    SleeperIsSomewhere(m, k.cur);
    SignalReaches(m, k.cur, e);
    if Event in flags && m.threads[k.cur].state == RendezBlocked {
      NonePending(m, k.cur);
    }
    if Event !in flags {
      assert flags * {Event} == {};
    }
  }

  lemma NonePending(m: Kernel, t: Tid)
    requires Inv(m) && t in m.threads && m.threads[t].state == RendezBlocked && Event in m.threads[t].intr
    ensures m.threads[t].pending * m.threads[t].mask == {}
  {
    hide SchedOk, ListsOk, LockOk, WheelOk;
    assert ThreadAt(t, m.threads[t], m.wheel, m.idle, m.timerTask);
  }

  /** A wakeup by name ends the sleep exactly when it gives no reason or one of those the caller allowed. */
  lemma ReasonWakesSleeper(k: Kernel, r: Rendez, timeout: Option<nat>, flags: set<Intr>, acts: seq<Action>, m: Kernel,
                           reason: set<Intr>)
    requires SleptInto(k, r, timeout, flags, acts, m) && m.locked
    ensures Inv(m) && k.cur in m.threads
    ensures m.threads[k.cur].state == RendezBlocked ==>
              TaskWakeupSpecific(m, k.cur, reason).bkl ==
              m.bkl + if reason == {} || flags * reason != {} then [k.cur] else []
  {
    hide Inv, IsRun, Run, Unresumed, SleptInto, Release;
    SleeperWaits(k, r, timeout, flags, acts, m);
  }

  /**
    What the sleep returns once its thread goes on: interrupted exactly if it may be and an
    awaited event is pending; timed out exactly if that is not so and its timer has gone off,
    which is only after the time it asked for; and otherwise success, with the timer, if any,
    not yet due.
   */
  lemma SleepReturns(k: Kernel, r: Rendez, timeout: Option<nat>, flags: set<Intr>, acts: seq<Action>, m: Kernel)
    requires SleptInto(k, r, timeout, flags, acts, m) && m.cur == k.cur
    ensures Inv(m) && MayResume(m) && m.threads[m.cur].loc.SleptIntr?
    ensures var s := ResumeStatus(m); var th := m.threads[k.cur];
            && (s == Interrupted <==> Event in flags && th.pending * k.threads[k.cur].mask != {})
            && (s == TimedOut <==> s != Interrupted && timeout.Some? && k.cur !in m.wheel.expiry)
            && (s == TimedOut ==> k.wheel.hard + timeout.value < m.wheel.hard)
            && (s == Ok && timeout.Some? ==>
                  m.wheel.soft <= k.wheel.hard + timeout.value && k.cur in m.wheel.expiry)
  {
    hide Inv, IsRun, Run, Unresumed, SleptInto;
    SleeperWaits(k, r, timeout, flags, acts, m);
    ArmedExpiration(m, k.cur);
  }

  /**
    An interrupt does its work whether it finds the lock held or free: every event it posts is
    pending afterwards, none that was is lost, and the clock moves by its tick.
   */
  lemma InterruptDelivers(k: Kernel, src: Source, u: Tid, f: nat)
    requires Inv(k) && SourceOk(k, src) && u in k.threads
    ensures var n := Interrupt(k, src);
            && n.wheel == k.wheel.(hard := k.wheel.hard + TickOf(src)) && n.threads.Keys == k.threads.Keys
            && (f in k.threads[u].pending || (src.Device? && (u, f) in src.events) ==> f in n.threads[u].pending)
  {
    hide Inv, KernelLock, KernelUnlock, TopHalf;
    if k.locked {
      TopHalfDelivers(k, src, u, f);
    } else {
      FreeMeansUser(k);
      EnterEffect(k);
      var e := KernelLock(k);
      TopHalfDelivers(e, src, u, f);
      LeaveEffect(TopHalf(e, src));
    }
  }

  lemma TopHalfDelivers(k: Kernel, src: Source, u: Tid, f: nat)
    requires Inv(k) && k.locked && SourceOk(k, src) && u in k.threads
    ensures var n := TopHalf(k, src);
            && n.wheel == k.wheel.(hard := k.wheel.hard + TickOf(src))
            && (f in k.threads[u].pending || (src.Device? && (u, f) in src.events) ==> f in n.threads[u].pending)
  {
    hide Inv, ClockTopHalf, DeviceTopHalf;
    TopHalfKeeps(k, src);
    match src
    case Clock => ClockEffect(k);
    case Device(events) =>
      if f in k.threads[u].pending || (u, f) in events {
        DeviceEffect(k, events, u, f);
      }
  }

  /** A lock that was free passes to the first thread the interrupt has woken, or is free again. */
  lemma FreeLockPasses(k: Kernel, src: Source, e: Kernel)
    requires Inv(k) && SourceOk(k, src) && !k.locked && AtLoc(k, User) && e == KernelLock(k)
    requires e.locked && e.threads.Keys == k.threads.Keys
    ensures var n := Interrupt(k, src); (n.owner, n.bkl) == Passed(TopHalf(e, src).bkl)
  {
    hide Inv, KernelLock, KernelUnlock, TopHalf;
    FreeMeansUser(k);
    EnterEffect(k);
    LeaveEffect(TopHalf(e, src));
  }
}
