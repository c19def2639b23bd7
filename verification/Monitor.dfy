/**
  The kernel monitor: the big kernel lock, rendez sleep and wakeup, thread events,
  timed sleeps and the scheduler, as one state machine.

  Each C function runs with interrupts disabled, so each is one atomic step here.
  A function that gives up the CPU in the middle is two steps: the part up to
  Reschedule, and `Resume`, which runs when the thread is next switched to.
  Interrupts are steps of their own and may come between any two others.
 */
module Monitor {
  import opened Lists
  import S = Scheduler
  import W = TimingWheel

  type Tid = nat

  /** The condition variables: each thread's own, the timer task's, and all others. */
  datatype Rendez = OfThread(t: Tid) | OfTimer | OfObject(n: nat)

  datatype ThreadState = Init | Ready | Running | RendezBlocked | BklBlocked | Exited

  datatype Intr = Signal | Event | Cancel | Timer

  /** What a thread's sleep timer does when it fires. */
  datatype Callback = WakeOwner | TimedSleep(r: Rendez)

  datatype Cont = ToBody | ToSleepLoop | ToPass

  /** Where a thread is executing, or where it resumes once switched to. */
  datatype Loc =
    | User                          // outside the kernel
    | Body                          // inside a system call
    | SleepLoop                     // at the test of sys_sleep's while loop
    | Pass                          // timer task: at the test of its outer loop
    | Scanning(rest: seq<Tid>)      // timer task: timers of the bucket still to visit
    | Dozing                        // timer task: done with its loops, about to sleep
    | LockWait                      // in KernelLock, after Reschedule
    | Slept(k: Cont)                // in TaskSleep, after Reschedule
    | SleptIntr(timed: bool)        // in TaskSleepInterruptible, after Reschedule
    | Gone

  datatype Thread = Thread(state: ThreadState, loc: Loc, blocking: Option<Rendez>, intr: set<Intr>,
                           pending: set<nat>, mask: set<nat>, callback: Callback, expiration: nat)

  datatype Kernel = Kernel(threads: map<Tid, Thread>, locked: bool, owner: Option<Tid>, bkl: seq<Tid>,
                           rendez: map<Rendez, seq<Tid>>, sched: S.Sched, wheel: W.Wheel,
                           cur: Tid, idle: Tid, timerTask: Tid)

  function Waiters(rendez: map<Rendez, seq<Tid>>, r: Rendez): seq<Tid> {
    if r in rendez then rendez[r] else []
  }

  predicate Runnable(th: Thread) {
    th.state == Ready || th.state == Running
  }

  predicate InKernel(th: Thread) {
    th.loc != User && th.loc != Gone
  }

  // ---------------------------------------------------------------------
  // The invariant
  // ---------------------------------------------------------------------

  ghost predicate SchedOk(sched: S.Sched, ids: set<Tid>, idle: Tid) {
    && S.Valid(sched)
    && sched.params.Keys == ids
    && idle in ids
    && (forall t :: t in ids ==> (sched.params[t].policy == S.Idle <==> t == idle))
    && ((forall t :: t in ids ==> sched.params[t].policy != S.Other) ==> S.BitmapOk(sched))
  }

  /** A thread is on the list its state names and on no other; `queued` are the threads on run queues. */
  ghost predicate ListsAt(t: Tid, th: Thread, bkl: seq<Tid>, rendez: map<Rendez, seq<Tid>>, queued: set<Tid>,
                          idle: Tid)
  {
    && (t in bkl <==> th.state == BklBlocked)
    && (forall r :: t in Waiters(rendez, r) <==> th.state == RendezBlocked && th.blocking == Some(r))
    && (t in queued <==> Runnable(th) && t != idle)
    && (th.blocking.Some? <==> th.state == RendezBlocked)
  }

  ghost predicate ListsOk(threads: map<Tid, Thread>, bkl: seq<Tid>, rendez: map<Rendez, seq<Tid>>, queued: set<Tid>,
                          idle: Tid)
  {
    && (forall t :: t in threads ==> ListsAt(t, threads[t], bkl, rendez, queued, idle))
    && (forall t :: t in bkl ==> t in threads)
    && (forall r, t :: t in Waiters(rendez, r) ==> t in threads)
    && NoDup(bkl)
    && (forall r :: NoDup(Waiters(rendez, r)))
  }

  /** Mutual exclusion: only the owner is runnable inside the kernel (threads of `ex` aside). */
  ghost predicate LockOk(threads: map<Tid, Thread>, locked: bool, owner: Option<Tid>, bkl: seq<Tid>, ex: set<Tid>) {
    && (locked <==> owner.Some?)
    && (!locked ==> bkl == [])
    && (owner.Some? ==> owner.value in threads && Runnable(threads[owner.value]) && InKernel(threads[owner.value]))
    && (forall t :: t in threads && t !in ex && Runnable(threads[t]) && InKernel(threads[t]) ==> owner == Some(t))
  }

  predicate TaskLoc(l: Loc) {
    l.Pass? || l.Scanning? || l.Dozing? || l == Slept(ToPass)
  }

  predicate LocAt(t: Tid, th: Thread, idle: Tid, timerTask: Tid) {
    && (th.state == BklBlocked ==> th.loc.LockWait? || th.loc.Slept? || th.loc.SleptIntr?)
    && (th.state == RendezBlocked ==>
          (th.loc.Slept? || th.loc.SleptIntr?) && (th.blocking == Some(OfTimer) <==> th.loc == Slept(ToPass)))
    && (th.state == Exited <==> th.loc.Gone?)
    && (th.state == Init ==> th.loc.User?)
    && (t == idle ==> Runnable(th) && (th.loc.User? || th.loc.Body?))
    && (TaskLoc(th.loc) ==> t == timerTask)
  }

  /** No lost event: nobody sleeps interruptibly on events while one it waits for is pending. */
  predicate IntrAt(th: Thread) {
    && (!th.loc.SleptIntr? ==> th.intr == {})
    && (th.state == RendezBlocked && Event in th.intr ==> th.pending * th.mask == {})
  }

  /** An armed sleep timer belongs to a thread that is inside the sleep that armed it. */
  predicate TimerAt(th: Thread, armed: bool) {
    armed ==>
      || ((th.loc.SleepLoop? || th.loc == Slept(ToSleepLoop)) && th.callback.WakeOwner?)
      || (th.loc == SleptIntr(true) && th.callback.TimedSleep? &&
          (th.state == RendezBlocked ==> th.blocking == Some(th.callback.r)))
  }

  /** A thread in a timed sleep still has its timer armed, or the clock is past the time it asked for. */
  predicate SleepAt(t: Tid, th: Thread, w: W.Wheel) {
    && (t in w.expiry ==> w.expiry[t] == th.expiration)
    && (th.loc.SleepLoop? || th.loc == Slept(ToSleepLoop) || th.loc == SleptIntr(true) ==>
          t in w.expiry || th.expiration < w.hard)
  }

  predicate ThreadAt(t: Tid, th: Thread, w: W.Wheel, idle: Tid, timerTask: Tid) {
    LocAt(t, th, idle, timerTask) && IntrAt(th) && TimerAt(th, t in w.expiry) && SleepAt(t, th, w)
  }

  /** From w to v the clock does not go back, and only timers that are past are disarmed. */
  ghost predicate Later(w: W.Wheel, v: W.Wheel, u: Tid) {
    && w.hard <= v.hard
    && (u in v.expiry ==> u in w.expiry && v.expiry[u] == w.expiry[u])
    && (u in w.expiry && u !in v.expiry ==> w.expiry[u] < v.hard)
  }

  /** While a bucket is being scanned, the timers due now are still to be visited. */
  ghost predicate ScanOk(w: W.Wheel, l: Loc) {
    l.Scanning? ==>
      && w.soft < w.hard
      && NoDup(l.rest)
      && (forall i :: i in l.rest ==> i in w.expiry)
      && (forall i :: i in w.expiry && w.expiry[i] == w.soft ==> i in l.rest)
  }

  ghost predicate WheelOk(w: W.Wheel, ids: set<Tid>) {
    && W.Valid(w) && W.NoneOverdue(w)
    && (forall t :: t in w.expiry ==> t in ids)
  }

  ghost predicate ThreadsOk(threads: map<Tid, Thread>, w: W.Wheel, idle: Tid, timerTask: Tid) {
    && timerTask in threads && idle != timerTask
    && (forall t :: t in threads ==> ThreadAt(t, threads[t], w, idle, timerTask))
    && ScanOk(w, threads[timerTask].loc)
  }

  ghost predicate Core(k: Kernel, ex: set<Tid>) {
    && SchedOk(k.sched, k.threads.Keys, k.idle)
    && ListsOk(k.threads, k.bkl, k.rendez, S.Members(k.sched), k.idle)
    && LockOk(k.threads, k.locked, k.owner, k.bkl, ex)
    && ThreadsOk(k.threads, k.wheel, k.idle, k.timerTask)
    && WheelOk(k.wheel, k.threads.Keys)
    && k.cur in k.threads
  }

  /** The running thread is runnable and, unless idle, heads its run queue. */
  ghost predicate CurOk(threads: map<Tid, Thread>, sched: S.Sched, cur: Tid, idle: Tid)
  {
    && cur in threads && Runnable(threads[cur])
    && (cur != idle ==> S.AtHead(sched, cur))
  }

  ghost predicate Inv(k: Kernel) {
    Core(k, {}) && CurOk(k.threads, k.sched, k.cur, k.idle)
  }

  // ---------------------------------------------------------------------
  // The pieces the C functions share
  // ---------------------------------------------------------------------

  /** Give the lock to the head of bkl_blocked_list, or free it when nobody waits. */
  function Grant(k: Kernel): Kernel
    requires SchedOk(k.sched, k.threads.Keys, k.idle)
    requires ListsOk(k.threads, k.bkl, k.rendez, S.Members(k.sched), k.idle)
  {
    if k.bkl == [] then k.(locked := false, owner := None)
    else
      var t := k.bkl[0];
      k.(bkl := k.bkl[1..], locked := true, owner := Some(t),
         threads := WithState(k.threads, t, Ready), sched := S.Ready(k.sched, t))
  }

  /** Reschedule. */
  function Resched(k: Kernel): Kernel
    requires Core(k, {}) && S.CurrentOk(k.sched, k.cur)
  {
    PickInThreads(k);
    var sched := S.Account(k.sched, k.cur);
    var next := S.Pick(sched, k.idle);
    k.(sched := sched, threads := WithState(k.threads, next, Running), cur := next)
  }

  lemma PickInThreads(k: Kernel)
    requires Core(k, {}) && S.CurrentOk(k.sched, k.cur)
    ensures S.Valid(S.Account(k.sched, k.cur))
    ensures S.Pick(S.Account(k.sched, k.cur), k.idle) in k.threads
  {
    S.AccountKeeps(k.sched, k.cur);
    S.PickAtHead(S.Account(k.sched, k.cur), k.idle);
  }

  /** A thread blocked on a rendez joins the tail of bkl_blocked_list. */
  function Release(k: Kernel, t: Tid): Kernel
    requires t in k.threads && k.threads[t].blocking.Some?
  {
    var th := k.threads[t];
    var r := th.blocking.value;
    k.(rendez := k.rendez[r := Without(Waiters(k.rendez, r), t)],
       bkl := k.bkl + [t],
       threads := k.threads[t := th.(state := BklBlocked, blocking := None)])
  }

  function WithState(threads: map<Tid, Thread>, t: Tid, st: ThreadState): map<Tid, Thread>
    requires t in threads
  {
    threads[t := threads[t].(state := st)]
  }

  lemma GrantCore(k: Kernel, ex: set<Tid>)
    requires Core(k, ex) && k.owner.Some?
    ensures var g := Grant(k);
            && Core(g, ex + {k.owner.value})
            && (CurOk(k.threads, k.sched, k.cur, k.idle) ==> CurOk(g.threads, g.sched, k.cur, k.idle))
            && g.threads.Keys == k.threads.Keys && g.owner != k.owner
            && (forall t :: t in k.threads ==> g.threads[t].loc == k.threads[t].loc)
            && (forall t :: t in k.threads && Runnable(k.threads[t]) ==> g.threads[t] == k.threads[t])
  {
    hide SchedOk, ListsOk, ThreadsOk, LockOk, WheelOk, S.Ready, S.Members, S.AtHead;
    CoreAtoms(k, ex);
    if k.bkl != [] {
      var t := k.bkl[0];
      ListsGrant(k.threads, k.bkl, k.rendez, S.Members(k.sched), k.idle);
      assert WithState(k.threads, t, Ready).Keys == k.threads.Keys;
      ThreadsGrant(k.threads, t, k.wheel, k.idle, k.timerTask);
      LockGrant(k.threads, k.owner, k.bkl, ex, k.idle, k.timerTask, k.wheel);
      GrantSched(k.sched, t, k.threads.Keys, k.idle);
    } else {
      LockDrop(k.threads, k.owner, ex);
    }
  }

  lemma CoreAtoms(k: Kernel, ex: set<Tid>)
    requires Core(k, ex)
    ensures k.idle in k.threads && Runnable(k.threads[k.idle])
    ensures k.owner.Some? <==> k.locked
    ensures k.owner.Some? ==> k.owner.value in k.threads && Runnable(k.threads[k.owner.value])
  {
    assert ThreadAt(k.idle, k.threads[k.idle], k.wheel, k.idle, k.timerTask);
  }

  lemma LockDrop(threads: map<Tid, Thread>, owner: Option<Tid>, ex: set<Tid>)
    requires LockOk(threads, true, owner, [], ex)
    ensures LockOk(threads, false, None, [], ex + {owner.value})
  {
  }

  lemma GrantSched(sched: S.Sched, t: Tid, ids: set<Tid>, idle: Tid)
    requires SchedOk(sched, ids, idle) && t in ids && t !in S.Members(sched) && t != idle
    ensures SchedOk(S.Ready(sched, t), ids, idle)
    ensures S.Members(S.Ready(sched, t)) == S.Members(sched) + {t}
    ensures forall u :: S.AtHead(sched, u) && u != t ==> S.AtHead(S.Ready(sched, t), u)
  {
    S.ReadyKeeps(sched, t);
    hide S.Valid, S.BitmapOk, S.AtHead, S.Members, S.Ready;
  }

  lemma ListsGrant(threads: map<Tid, Thread>, bkl: seq<Tid>, rendez: map<Rendez, seq<Tid>>, queued: set<Tid>, idle: Tid)
    requires ListsOk(threads, bkl, rendez, queued, idle) && bkl != []
    requires idle in threads && Runnable(threads[idle])
    ensures ListsOk(WithState(threads, bkl[0], Ready), bkl[1..], rendez, queued + {bkl[0]}, idle)
    ensures bkl[0] in threads && threads[bkl[0]].state == BklBlocked && bkl[0] !in queued && bkl[0] != idle
  {
    var t := bkl[0];
    NoDupTail(bkl);
    assert ListsAt(t, threads[t], bkl, rendez, queued, idle);
    assert ListsAt(idle, threads[idle], bkl, rendez, queued, idle);
    forall u | u in threads
      ensures ListsAt(u, WithState(threads, t, Ready)[u], bkl[1..], rendez, queued + {t}, idle)
    {
      assert ListsAt(u, threads[u], bkl, rendez, queued, idle);
    }
  }

  lemma ThreadsGrant(threads: map<Tid, Thread>, t: Tid, w: W.Wheel, idle: Tid, timerTask: Tid)
    requires ThreadsOk(threads, w, idle, timerTask) && t in threads && threads[t].state == BklBlocked
    ensures ThreadsOk(WithState(threads, t, Ready), w, idle, timerTask)
  {
    forall u | u in threads
      ensures ThreadAt(u, WithState(threads, t, Ready)[u], w, idle, timerTask)
    {
      assert ThreadAt(u, threads[u], w, idle, timerTask);
    }
  }

  lemma LockGrant(threads: map<Tid, Thread>, owner: Option<Tid>, bkl: seq<Tid>, ex: set<Tid>,
                  idle: Tid, timerTask: Tid, w: W.Wheel)
    requires LockOk(threads, true, owner, bkl, ex) && bkl != [] && bkl[0] in threads
    requires ThreadsOk(threads, w, idle, timerTask) && threads[bkl[0]].state == BklBlocked
    ensures LockOk(WithState(threads, bkl[0], Ready), true, Some(bkl[0]), bkl[1..], ex + {owner.value})
  {
    assert ThreadAt(bkl[0], threads[bkl[0]], w, idle, timerTask);
  }

  // ---------------------------------------------------------------------
  // Changing one thread
  // ---------------------------------------------------------------------

  lemma ThreadsSet(threads: map<Tid, Thread>, t: Tid, th: Thread, w: W.Wheel, v: W.Wheel, idle: Tid, timerTask: Tid)
    requires ThreadsOk(threads, w, idle, timerTask) && t in threads
    requires ThreadAt(t, th, v, idle, timerTask)
    requires forall u :: u in threads && u != t ==> Later(w, v, u)
    requires ScanOk(v, if t == timerTask then th.loc else threads[timerTask].loc)
    ensures ThreadsOk(threads[t := th], v, idle, timerTask)
  {
    forall u | u in threads
      ensures ThreadAt(u, threads[t := th][u], v, idle, timerTask)
    {
      assert ThreadAt(u, threads[u], w, idle, timerTask);
    }
  }

  lemma LockSet(threads: map<Tid, Thread>, t: Tid, th: Thread, locked: bool, owner: Option<Tid>, bkl: seq<Tid>,
                ex: set<Tid>)
    requires LockOk(threads, locked, owner, bkl, ex) && t in threads
    requires owner == Some(t) <==> Runnable(th) && InKernel(th)
    ensures LockOk(threads[t := th], locked, owner, bkl, ex - {t})
  {
  }

  /** A change that keeps the thread on the list it is on. */
  lemma ListsKeep(threads: map<Tid, Thread>, t: Tid, th: Thread, bkl: seq<Tid>, rendez: map<Rendez, seq<Tid>>,
                  queued: set<Tid>, idle: Tid)
    requires ListsOk(threads, bkl, rendez, queued, idle) && t in threads
    requires th.blocking == threads[t].blocking
    requires th.state == threads[t].state || (Runnable(th) && Runnable(threads[t]))
    ensures ListsOk(threads[t := th], bkl, rendez, queued, idle)
  {
    forall u | u in threads
      ensures ListsAt(u, threads[t := th][u], bkl, rendez, queued, idle)
    {
      assert ListsAt(u, threads[u], bkl, rendez, queued, idle);
    }
  }

  /** A runnable thread leaves its run queue for the tail of a rendez list. */
  lemma ListsToRendez(threads: map<Tid, Thread>, t: Tid, th: Thread, bkl: seq<Tid>, rendez: map<Rendez, seq<Tid>>,
                      r: Rendez, queued: set<Tid>, idle: Tid)
    requires ListsOk(threads, bkl, rendez, queued, idle) && t in threads && Runnable(threads[t]) && t != idle
    requires th.state == RendezBlocked && th.blocking == Some(r)
    ensures ListsOk(threads[t := th], bkl, rendez[r := Waiters(rendez, r) + [t]], queued - {t}, idle)
  {
    assert ListsAt(t, threads[t], bkl, rendez, queued, idle);
    NoDupAppend(Waiters(rendez, r), t);
    var rendez' := rendez[r := Waiters(rendez, r) + [t]];
    assert forall q :: Waiters(rendez', q) == if q == r then Waiters(rendez, q) + [t] else Waiters(rendez, q);
    forall u | u in threads
      ensures ListsAt(u, threads[t := th][u], bkl, rendez', queued - {t}, idle)
    {
      assert ListsAt(u, threads[u], bkl, rendez, queued, idle);
    }
  }

  /** A runnable thread leaves its run queue for the tail of the lock's list. */
  lemma ListsToBkl(threads: map<Tid, Thread>, t: Tid, th: Thread, bkl: seq<Tid>, rendez: map<Rendez, seq<Tid>>,
                   queued: set<Tid>, idle: Tid)
    requires ListsOk(threads, bkl, rendez, queued, idle) && t in threads && Runnable(threads[t]) && t != idle
    requires th.state == BklBlocked && th.blocking.None?
    ensures ListsOk(threads[t := th], bkl + [t], rendez, queued - {t}, idle)
  {
    assert ListsAt(t, threads[t], bkl, rendez, queued, idle);
    NoDupAppend(bkl, t);
    forall u | u in threads
      ensures ListsAt(u, threads[t := th][u], bkl + [t], rendez, queued - {t}, idle)
    {
      assert ListsAt(u, threads[u], bkl, rendez, queued, idle);
    }
  }

  /** A runnable thread leaves its run queue for good. */
  lemma ListsExit(threads: map<Tid, Thread>, t: Tid, th: Thread, bkl: seq<Tid>, rendez: map<Rendez, seq<Tid>>,
                  queued: set<Tid>, idle: Tid)
    requires ListsOk(threads, bkl, rendez, queued, idle) && t in threads && Runnable(threads[t]) && t != idle
    requires th.state == Exited && th.blocking.None?
    ensures ListsOk(threads[t := th], bkl, rendez, queued - {t}, idle)
  {
    forall u | u in threads
      ensures ListsAt(u, threads[t := th][u], bkl, rendez, queued - {t}, idle)
    {
      assert ListsAt(u, threads[u], bkl, rendez, queued, idle);
    }
    assert ListsAt(t, threads[t], bkl, rendez, queued, idle);
  }

  /** A sleeping thread moves from its rendez list to the tail of the lock's list. */
  lemma ListsRelease(threads: map<Tid, Thread>, t: Tid, bkl: seq<Tid>, rendez: map<Rendez, seq<Tid>>,
                     queued: set<Tid>, idle: Tid)
    requires ListsOk(threads, bkl, rendez, queued, idle) && t in threads && threads[t].state == RendezBlocked
    ensures threads[t].blocking.Some?
    ensures var r := threads[t].blocking.value;
            ListsOk(threads[t := threads[t].(state := BklBlocked, blocking := None)], bkl + [t],
                    rendez[r := Without(Waiters(rendez, r), t)], queued, idle)
  {
    assert ListsAt(t, threads[t], bkl, rendez, queued, idle);
    var r := threads[t].blocking.value;
    var rendez' := rendez[r := Without(Waiters(rendez, r), t)];
    WaitersWithout(rendez, r, t);
    NoDupAppend(bkl, t);
    forall u | u in threads
      ensures ListsAt(u, threads[t := threads[t].(state := BklBlocked, blocking := None)][u], bkl + [t],
                      rendez', queued, idle)
    {
      ReleaseAt(threads, t, u, bkl, rendez, queued, idle);
    }
  }

  lemma WaitersWithout(rendez: map<Rendez, seq<Tid>>, r: Rendez, t: Tid)
    requires forall q :: NoDup(Waiters(rendez, q))
    ensures var rendez' := rendez[r := Without(Waiters(rendez, r), t)];
            && (forall q :: NoDup(Waiters(rendez', q)))
            && (forall q, u :: u in Waiters(rendez', q) ==> u in Waiters(rendez, q))
  {
    var rendez' := rendez[r := Without(Waiters(rendez, r), t)];
    assert forall q :: Waiters(rendez', q) == if q == r then Without(Waiters(rendez, q), t) else Waiters(rendez, q);
  }

  lemma ReleaseAt(threads: map<Tid, Thread>, t: Tid, u: Tid, bkl: seq<Tid>, rendez: map<Rendez, seq<Tid>>,
                  queued: set<Tid>, idle: Tid)
    requires t in threads && u in threads && threads[t].state == RendezBlocked && threads[t].blocking.Some?
    requires ListsAt(t, threads[t], bkl, rendez, queued, idle) && ListsAt(u, threads[u], bkl, rendez, queued, idle)
    ensures var r := threads[t].blocking.value;
            ListsAt(u, threads[t := threads[t].(state := BklBlocked, blocking := None)][u], bkl + [t],
                    rendez[r := Without(Waiters(rendez, r), t)], queued, idle)
  {
    var r := threads[t].blocking.value;
    var rendez' := rendez[r := Without(Waiters(rendez, r), t)];
    assert forall q :: Waiters(rendez', q) == if q == r then Without(Waiters(rendez, q), t) else Waiters(rendez, q);
  }

  // ---------------------------------------------------------------------
  // Blocking, releasing, rescheduling
  // ---------------------------------------------------------------------

  /** The current thread as it is once blocked on a rendez. */
  function Asleep(th: Thread, r: Rendez, loc: Loc, intr: set<Intr>, cb: Callback, e: nat): Thread {
    th.(state := RendezBlocked, blocking := Some(r), loc := loc, intr := intr, callback := cb, expiration := e)
  }

  /** The current thread joins the tail of a rendez list and leaves its run queue;
      `w` is the wheel with the thread's sleep timer armed, if it asked for one. */
  function Block(k: Kernel, r: Rendez, loc: Loc, intr: set<Intr>, cb: Callback, e: nat, w: W.Wheel): Kernel
    requires Core(k, {k.cur})
  {
    k.(rendez := k.rendez[r := Waiters(k.rendez, r) + [k.cur]],
       threads := k.threads[k.cur := Asleep(k.threads[k.cur], r, loc, intr, cb, e)],
       sched := S.Unready(k.sched, k.cur),
       wheel := w)
  }

  lemma BlockCore(k: Kernel, r: Rendez, loc: Loc, intr: set<Intr>, cb: Callback, e: nat, w: W.Wheel)
    requires Core(k, {k.cur}) && k.owner != Some(k.cur) && Runnable(k.threads[k.cur]) && k.cur != k.idle
    requires ThreadAt(k.cur, Asleep(k.threads[k.cur], r, loc, intr, cb, e), w, k.idle, k.timerTask)
    requires WheelOk(w, k.threads.Keys) && (forall u :: u != k.cur ==> Later(k.wheel, w, u))
    requires ScanOk(w, if k.cur == k.timerTask then loc else k.threads[k.timerTask].loc)
    ensures Core(Block(k, r, loc, intr, cb, e, w), {})
    ensures S.CurrentOk(Block(k, r, loc, intr, cb, e, w).sched, k.cur)
  {
    hide SchedOk, LockOk, WheelOk, ThreadsOk;

    var th := Asleep(k.threads[k.cur], r, loc, intr, cb, e);
    assert k.threads[k.cur := th].Keys == k.threads.Keys;
    assert ListsAt(k.cur, k.threads[k.cur], k.bkl, k.rendez, S.Members(k.sched), k.idle);
    ListsToRendez(k.threads, k.cur, th, k.bkl, k.rendez, r, S.Members(k.sched), k.idle);
    ThreadsSet(k.threads, k.cur, th, k.wheel, w, k.idle, k.timerTask);
    LockSet(k.threads, k.cur, th, k.locked, k.owner, k.bkl, {k.cur});
    assert {k.cur} - {k.cur} == {};
    UnreadySched(k.sched, k.cur, k.threads.Keys, k.idle);
  }

  lemma UnreadySched(sched: S.Sched, t: Tid, ids: set<Tid>, idle: Tid)
    requires SchedOk(sched, ids, idle) && t in S.Members(sched) && t != idle
    ensures SchedOk(S.Unready(sched, t), ids, idle)
    ensures S.Members(S.Unready(sched, t)) == S.Members(sched) - {t}
    ensures S.CurrentOk(S.Unready(sched, t), t)
  {
    S.UnreadyKeeps(sched, t);
    S.UnreadyQueued(sched, t);
    hide S.Valid, S.BitmapOk, S.Members;
  }

  lemma ReschedInv(k: Kernel)
    requires Core(k, {}) && S.CurrentOk(k.sched, k.cur)
    ensures Inv(Resched(k))
  {
    S.AccountKeeps(k.sched, k.cur);
    var sched := S.Account(k.sched, k.cur);
    S.PickAtHead(sched, k.idle);
    var next := S.Pick(sched, k.idle);
    ReschedSched(k);
    assert ListsAt(next, k.threads[next], k.bkl, k.rendez, S.Members(k.sched), k.idle);
    assert ThreadAt(k.idle, k.threads[k.idle], k.wheel, k.idle, k.timerTask);
    ReschedRest(k, next);
  }

  lemma ReschedSched(k: Kernel)
    requires Core(k, {}) && S.CurrentOk(k.sched, k.cur)
    ensures SchedOk(S.Account(k.sched, k.cur), k.threads.Keys, k.idle)
  {
    S.AccountKeeps(k.sched, k.cur);
    if forall t :: t in k.threads ==> k.sched.params[t].policy != S.Other {
      S.AccountBitmap(k.sched, k.cur);
    }
  }

  lemma ReschedRest(k: Kernel, next: Tid)
    requires Core(k, {}) && next in k.threads && Runnable(k.threads[next])
    ensures ListsOk(WithState(k.threads, next, Running), k.bkl, k.rendez, S.Members(k.sched), k.idle)
    ensures LockOk(WithState(k.threads, next, Running), k.locked, k.owner, k.bkl, {})
    ensures ThreadsOk(WithState(k.threads, next, Running), k.wheel, k.idle, k.timerTask)
    ensures WithState(k.threads, next, Running).Keys == k.threads.Keys
  {
    var th := k.threads[next].(state := Running);
    ListsKeep(k.threads, next, th, k.bkl, k.rendez, S.Members(k.sched), k.idle);
    assert ThreadAt(next, k.threads[next], k.wheel, k.idle, k.timerTask);
    ThreadsSet(k.threads, next, th, k.wheel, k.wheel, k.idle, k.timerTask);
    LockSet(k.threads, next, th, k.locked, k.owner, k.bkl, {});
  }

  lemma ReleaseCore(k: Kernel, t: Tid, ex: set<Tid>)
    requires Core(k, ex) && k.locked && t in k.threads && k.threads[t].state == RendezBlocked
    ensures k.threads[t].blocking.Some?
    ensures Core(Release(k, t), ex)
    ensures CurOk(k.threads, k.sched, k.cur, k.idle) ==> CurOk(Release(k, t).threads, k.sched, k.cur, k.idle)
  {
    hide SchedOk, WheelOk;

    ListsRelease(k.threads, t, k.bkl, k.rendez, S.Members(k.sched), k.idle);
    var th := k.threads[t].(state := BklBlocked, blocking := None);
    assert ThreadAt(t, k.threads[t], k.wheel, k.idle, k.timerTask);
    ThreadsSet(k.threads, t, th, k.wheel, k.wheel, k.idle, k.timerTask);
    assert k.threads[t := th].Keys == k.threads.Keys;
    assert LockOk(k.threads[t := th], k.locked, k.owner, k.bkl + [t], ex);
  }
}
