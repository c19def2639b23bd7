/**
  The mutable form of proc/sched.c, proc/timer.c and proc/sleep_wakeup_bkl.c.  Each
  method follows the C function of its name and is proved equal to the operation
  of the monitor that describes it.
 */
module KernelCode {
  import opened Lists
  import opened Monitor
  import M = MonitorSteps
  import R = MonitorRuns
  import S = Scheduler
  import W = TimingWheel

  class RunQueues {
    const queues: array<seq<Tid>>
    var bitmap: set<nat>
    var params: map<Tid, S.Params>

    ghost predicate Valid()
      reads this
    {
      queues.Length == S.NQUEUES
    }

    ghost function View(): S.Sched
      reads this, queues
    {
      S.Sched(queues[..], bitmap, params)
    }

    constructor ()
      ensures Valid() && fresh(queues) && bitmap == {} && params == map[]
      ensures forall q :: 0 <= q < S.NQUEUES ==> queues[q] == []
    {
      queues := new seq<Tid>[S.NQUEUES](_ => []);
      bitmap := {};
      params := map[];
    }

    method SchedReady(t: Tid)
      requires Valid() && t in params && params[t].prio < S.NQUEUES
      modifies this, queues
      ensures View() == S.Ready(old(View()), t)
    {
      var p := params[t];
      if p.policy != S.Idle {
        queues[p.prio] := queues[p.prio] + [t];
        bitmap := bitmap + {p.prio};
      }
      params := params[t := p.(quanta := 0)];
    }

    method SchedUnready(t: Tid)
      requires Valid() && t in params && params[t].prio < S.NQUEUES
      modifies this, queues
      ensures View() == S.Unready(old(View()), t)
    {
      var p := params[t];
      if p.policy != S.Idle {
        queues[p.prio] := Without(queues[p.prio], t);
        if queues[p.prio] == [] {
          bitmap := bitmap - {p.prio};
        }
        if p.policy == S.Other {
          params := params[t := p.(prio := p.desired, quanta := 0)];
        } else {
          params := params[t := p.(quanta := 0)];
        }
      }
    }

    /** Reschedule, first half: charge, rotate or demote the outgoing thread. */
    method Account(cur: Tid)
      requires Valid() && S.Valid(View()) && S.CurrentOk(View(), cur)
      modifies this, queues
      ensures View() == S.Account(old(View()), cur)
    {
      params := params[cur := params[cur].(quanta := params[cur].quanta + 1)];
      var p := params[cur];
      if p.policy == S.RoundRobin {
        assert 16 <= p.prio < 32;                       // the kassert on the priority
        if queues[p.prio] != [] {
          queues[p.prio] := Forward(queues[p.prio]);
          params := params[cur := p.(quanta := 0)];
        }
      } else if p.policy == S.Other {
        if p.quanta == S.QUANTA_JIFFIES {
          if p.prio > 1 {
            assert S.Queued(old(View()), cur);
            queues[p.prio] := queues[p.prio][1..];
            params := params[cur := p.(prio := p.prio - 1, quanta := 0)];
            queues[p.prio - 1] := queues[p.prio - 1] + [cur];
          } else {
            queues[p.prio] := Forward(queues[p.prio]);
            params := params[cur := p.(quanta := 0)];
          }
        }
      }
    }

    /** Reschedule, second half: scan the bitmap from the top for the next thread. */
    method Pick(idle: Tid) returns (next: Tid)
      requires Valid()
      ensures next == S.Pick(View(), idle)
    {
      next := idle;
      if bitmap != {} {
        var q := S.NQUEUES - 1;
        while q >= 0 && q !in bitmap
          invariant -1 <= q < S.NQUEUES
          invariant forall h :: q < h < S.NQUEUES ==> h !in bitmap
        {
          q := q - 1;
        }
        if q >= 0 && queues[q] != [] {
          next := queues[q][0];
        }
      }
    }
  }

  class ClockWheel {
    const buckets: array<seq<W.Id>>
    var expiry: map<W.Id, nat>          // the timers whose `armed` flag is set
    var soft: nat
    var hard: nat

    ghost predicate Valid()
      reads this
    {
      buckets.Length == W.JIFFIES
    }

    ghost function View(): W.Wheel
      reads this, buckets
    {
      W.Wheel(buckets[..], expiry, soft, hard)
    }

    constructor ()
      ensures Valid() && fresh(buckets) && View() == W.Init()
    {
      buckets := new seq<W.Id>[W.JIFFIES](_ => []);
      expiry, soft, hard := map[], 0, 0;
    }

    method Arm(i: W.Id, ticks: nat)
      requires Valid()
      modifies this, buckets
      ensures View() == W.Arm(old(View()), i, ticks)
    {
      expiry := expiry[i := hard + ticks];
      var b := expiry[i] % W.JIFFIES;
      buckets[b] := buckets[b] + [i];
    }

    method Disarm(i: W.Id)
      requires Valid() && i in expiry
      modifies this, buckets
      ensures View() == W.Disarm(old(View()), i)
    {
      var b := expiry[i] % W.JIFFIES;
      buckets[b] := Without(buckets[b], i);
      expiry := expiry - {i};
    }

    /** SetTimeout: cancel a timeout still armed, then arm it again when a delay is given. */
    method SetTimeout(i: W.Id, milliseconds: int)
      requires Valid() && W.Valid(View()) && W.NoneOverdue(View())
      modifies this, buckets
      ensures W.Valid(View()) && W.NoneOverdue(View()) && soft == old(soft) && hard == old(hard)
      ensures milliseconds <= 0 ==> expiry == old(expiry) - {i}
      ensures milliseconds > 0 ==> i in expiry && expiry == old(expiry)[i := expiry[i]] &&
                                   (expiry[i] - hard - 1) * 10 <= milliseconds < (expiry[i] - hard) * 10
    {
      if i in expiry {
        W.DisarmKeeps(View(), i);
        Disarm(i);
      }
      if milliseconds > 0 {
        W.ArmKeeps(View(), i, milliseconds / 10 + 1);
        Arm(i, milliseconds / 10 + 1);
      }
    }

    /** timer_bottom_half_task: one turn of its outer loop, returning the timers whose callbacks run. */
    method ExpireBucket() returns (fired: seq<W.Id>)
      requires Valid() && W.Valid(View()) && soft < hard
      modifies this, buckets
      ensures (View(), fired) == W.Pass(old(View()))
    {
      fired := ScanBucket(buckets[soft % W.JIFFIES]);
      soft := soft + 1;
    }

    /** The inner loop.  The next timer is fetched before the current one may be unlinked. */
    method ScanBucket(bucket: seq<W.Id>) returns (fired: seq<W.Id>)
      requires Valid() && W.Valid(View()) && NoDup(bucket) && forall i :: i in bucket ==> i in expiry
      modifies this, buckets
      ensures (View(), fired) == W.Scan(old(View()), bucket)
    {
      hide W.Valid, NoDup;
      ghost var goal := W.Scan(View(), bucket);
      var rest := bucket;
      fired := [];
      assert fired + goal.1 == goal.1;
      while rest != []
        invariant W.Valid(View()) && NoDup(rest) && forall i :: i in rest ==> i in expiry
        invariant goal == (W.Scan(View(), rest).0, fired + W.Scan(View(), rest).1)
        decreases rest
      {
        var timer, next := rest[0], rest[1..];
        NoDupTail(rest);
        if expiry[timer] <= soft {
          W.DisarmKeeps(View(), timer);
          Disarm(timer);
          ghost var later := W.Scan(View(), next).1;
          assert fired + ([timer] + later) == fired + [timer] + later;
          fired := fired + [timer];
        }
        rest := next;
      }
      assert goal.1 == fired;
    }

    /** The outer loop: softclock catches up with hardclock, whatever the distance, and nothing stays due. */
    method CatchUp() returns (fired: seq<W.Id>)
      requires Valid() && W.Valid(View()) && W.NoneOverdue(View())
      modifies this, buckets
      ensures W.Valid(View()) && W.NoneOverdue(View()) && soft == hard == old(hard)
      ensures NoDup(fired)
      ensures forall i :: i in fired <==> i in old(expiry) && old(expiry)[i] < hard
      ensures expiry == old(expiry) - (set i | i in fired)
    {
      fired := [];
      ghost var all, start := expiry, soft;
      while soft < hard
        invariant W.Valid(View()) && W.NoneOverdue(View()) && hard == old(hard) && start <= soft <= hard
        invariant NoDup(fired)
        invariant forall i :: i in fired <==> i in all && all[i] < soft
        invariant expiry == all - (set i | i in fired)
      {
        W.PassFires(View());
        W.StepRefines(View(), W.OpPass);
        ghost var before, prev, now := expiry, fired, soft;
        var f := ExpireBucket();
        assert forall i :: i in f <==> i in before && before[i] == now;
        AppendNoDup(fired, f);
        fired := fired + f;
        assert forall i :: i in fired <==> i in prev || i in f;
        assert before - (set i | i in f) == all - (set i | i in fired);
      }
    }
  }

  /** A kernel whose current thread has just armed its sleep timer. */
  ghost function Armed(k: Kernel, cb: Callback, e: nat, w: W.Wheel): Kernel
    requires k.cur in k.threads
  {
    k.(threads := k.threads[k.cur := k.threads[k.cur].(callback := cb, expiration := e)], wheel := w)
  }

  /** proc/sleep_wakeup_bkl.c: the lock, its list, and the threads' sleep state. */
  class KernelMonitor {
    const rq: RunQueues
    const clock: ClockWheel
    const idle: Tid
    const timerTask: Tid
    var threads: map<Tid, Thread>
    var locked: bool
    var owner: Option<Tid>
    var bkl: seq<Tid>
    var rendez: map<Rendez, seq<Tid>>
    var cur: Tid

    ghost predicate Valid()
      reads this, rq, clock
    {
      rq.Valid() && clock.Valid() && rq.queues != clock.buckets
    }

    ghost function View(): Kernel
      reads this, rq, rq.queues, clock, clock.buckets
    {
      Kernel(threads, locked, owner, bkl, rendez, rq.View(), clock.View(), cur, idle, timerTask)
    }

    constructor (idle: Tid, timerTask: Tid, root: Tid)
      requires R.Distinct(idle, timerTask, root)
      ensures Valid() && View() == R.Boot(idle, timerTask, root)
    {
      hide Inv;
      this.idle, this.timerTask, cur := idle, timerTask, timerTask;
      threads := map[idle := M.Fresh, timerTask := M.Fresh.(state := Running), root := M.Fresh];
      locked, owner, bkl, rendez := false, None, [], map[];
      rq := new RunQueues();
      clock := new ClockWheel();
      new;
      rq.params := R.BootParams(idle, timerTask, root);
      BootReady(rq.View(), idle, timerTask, root);
      rq.SchedReady(root);
      rq.SchedReady(timerTask);
    }

    method Reschedule()
      requires Valid() && Core(View(), {}) && S.CurrentOk(rq.View(), cur)
      modifies this, rq, rq.queues
      ensures Valid() && View() == Resched(old(View()))
    {
      hide ListsOk, LockOk, ThreadsOk, WheelOk;
      PickInThreads(View());
      rq.Account(cur);
      var next := rq.Pick(idle);
      threads := threads[next := threads[next].(state := Running)];
      cur := next;
    }

    /** The release shared by TaskSleep, TaskSleepInterruptible and thread_stop. */
    method PassLock()
      requires Valid() && Inv(View())
      modifies this, rq, rq.queues
      ensures Valid() && View() == Grant(old(View()))
    {
      hide LockOk, ThreadsOk, WheelOk, CurOk, SchedOk, S.Ready, S.Members;
      if bkl != [] {
        var thread := bkl[0];
        InParams(View(), {}, thread);
        bkl := bkl[1..];
        threads := threads[thread := threads[thread].(state := Ready)];
        locked, owner := true, Some(thread);
        rq.SchedReady(thread);
      } else {
        locked, owner := false, None;
      }
    }

    method KernelLock()
      requires Valid() && Inv(View()) && M.AtLoc(View(), User) && (locked ==> cur != idle)
      modifies this, rq, rq.queues
      ensures Valid() && View() == M.KernelLock(old(View()))
    {
      hide SchedOk, ListsOk, LockOk, ThreadsOk, WheelOk, CurOk;

      if !locked {
        locked, owner := true, Some(cur);
        threads := threads[cur := threads[cur].(loc := Body)];
      } else {
        M.LockBusy(View());
        InParams(View(), {}, cur);
        bkl := bkl + [cur];
        threads := threads[cur := threads[cur].(state := BklBlocked, loc := LockWait)];
        rq.SchedUnready(cur);
        Reschedule();
      }
    }

    method KernelUnlock()
      requires Valid() && Inv(View()) && M.AtLoc(View(), Body)
      modifies this, rq, rq.queues
      ensures Valid() && View() == M.KernelUnlock(old(View()))
    {
      hide SchedOk, ListsOk, LockOk, ThreadsOk, WheelOk, CurOk;

      M.KassertsHold(View());
      M.LeaveInv(View());
      var handOver := bkl != [];
      PassLock();
      threads := threads[cur := threads[cur].(loc := User)];
      if handOver {
        Reschedule();
      }
    }

    method TaskSleep(r: Rendez, c: Cont)
      requires Valid() && Inv(View()) && M.MaySleep(View(), r, c)
      modifies this, rq, rq.queues
      ensures Valid() && View() == M.TaskSleep(old(View()), r, c)
    {
      hide SchedOk, ListsOk, LockOk, ThreadsOk, WheelOk, CurOk;

      M.KassertsHold(View());
      assert locked && owner == Some(cur);              // the kasserts on entry
      M.SleepCore(View(), r, c);
      M.Granted(View());
      PassLock();
      ghost var g := View();
      assert g.threads == g.threads[cur := g.threads[cur]];
      BlockCurrent(r, Slept(c), threads[cur].intr, g, g.threads[cur].callback, g.threads[cur].expiration, g.wheel);
    }

    /** The common end of the two sleeps: queue on the rendez, leave the run queue, reschedule. */
    method BlockCurrent(r: Rendez, loc: Loc, intr: set<Intr>, ghost g: Kernel, ghost cb: Callback, ghost e: nat,
                        ghost w: W.Wheel)
      requires Valid() && Core(g, {g.cur}) && View() == Armed(g, cb, e, w)
      requires Core(Block(g, r, loc, intr, cb, e, w), {}) && S.CurrentOk(Block(g, r, loc, intr, cb, e, w).sched, g.cur)
      modifies this, rq, rq.queues
      ensures Valid() && View() == Resched(Block(g, r, loc, intr, cb, e, w))
    {
      hide SchedOk, ListsOk, LockOk, ThreadsOk, WheelOk, CurOk;
      InParams(g, {cur}, cur);
      rendez := rendez[r := Waiters(rendez, r) + [cur]];
      threads := threads[cur := threads[cur].(state := RendezBlocked, blocking := Some(r), loc := loc, intr := intr)];
      assert threads == g.threads[cur := Asleep(g.threads[cur], r, loc, intr, cb, e)];
      rq.SchedUnready(cur);
      assert View() == Block(g, r, loc, intr, cb, e, w);
      Reschedule();
    }

    /** The timer part of TaskSleepInterruptible. */
    method ArmTimeout(r: Rendez, timeout: Option<nat>)
      requires Valid() && cur in threads
      modifies this, clock, clock.buckets
      ensures Valid()
      ensures var k := old(View());
              View() == Armed(k, M.TimeoutCallback(k.threads[k.cur], r, timeout),
                              M.TimeoutExpiry(k.threads[k.cur], k.wheel, timeout),
                              M.TimeoutWheel(k.wheel, k.cur, timeout))
    {
      if timeout.Some? {
        threads := threads[cur := threads[cur].(callback := TimedSleep(r), expiration := clock.hard + timeout.value)];
        clock.Arm(cur, timeout.value);
      } else {
        assert threads == threads[cur := threads[cur]];
      }
    }

    /** TaskSleepInterruptible, up to its Reschedule; the result says whether it returned -EINTR at once. */
    method TaskSleepInterruptible(r: Rendez, timeout: Option<nat>, flags: set<Intr>) returns (interrupted: bool)
      requires Valid() && Inv(View()) && M.AtLoc(View(), Body) && cur != idle && r != OfTimer
      modifies this, rq, rq.queues, clock, clock.buckets
      ensures Valid() && View() == M.TaskSleepInterruptible(old(View()), r, timeout, flags)
      ensures interrupted <==> M.EventPending(old(View()).threads[old(cur)], flags)
    {
      hide SchedOk, ListsOk, LockOk, ThreadsOk, WheelOk, CurOk, M.TimeoutWheel, M.TimeoutExpiry, M.TimeoutCallback;
      M.KassertsHold(View());
      assert locked && owner == Some(cur);              // the kasserts on entry
      interrupted := Event in flags && threads[cur].pending * threads[cur].mask != {};
      if !interrupted {
        M.SleepIntrCore(View(), r, timeout, flags);
        M.Granted(View());
        PassLock();
        InParams(View(), {cur}, cur);
        ghost var g := View();
        ArmTimeout(r, timeout);
        BlockCurrent(r, SleptIntr(timeout.Some?), flags, g, M.TimeoutCallback(g.threads[cur], r, timeout),
                     M.TimeoutExpiry(g.threads[cur], g.wheel, timeout), M.TimeoutWheel(g.wheel, cur, timeout));
      }
    }

    /** TaskSleepInterruptible, from its Reschedule on: cancel the timer if it is still armed. */
    method FinishInterruptible() returns (status: M.Status)
      requires Valid() && Inv(View()) && cur in threads && threads[cur].loc.SleptIntr?
      modifies this, clock, clock.buckets
      ensures Valid() && View() == M.Resume(old(View())) && status == M.ResumeStatus(old(View()))
    {
      hide SchedOk, ListsOk, LockOk, ThreadsOk, CurOk;
      var th := threads[cur];
      status := if Event in th.intr && th.pending * th.mask != {} then M.Interrupted else M.Ok;
      threads := threads[cur := th.(loc := Body, intr := {})];
      if th.loc.timed {
        if cur in clock.expiry {
          clock.Disarm(cur);
        } else if status == M.Ok {
          status := M.TimedOut;
        }
      }
    }

    method ThreadStop()
      requires Valid() && Inv(View()) && M.AtLoc(View(), Body) && cur != idle
      modifies this, rq, rq.queues
      ensures Valid() && View() == M.ThreadStop(old(View()))
    {
      hide SchedOk, ListsOk, LockOk, ThreadsOk, WheelOk, CurOk;
      M.KassertsHold(View());
      M.StopCore(View());
      M.Granted(View());
      PassLock();
      InParams(View(), {cur}, cur);
      threads := threads[cur := threads[cur].(state := Exited, loc := Gone)];
      rq.SchedUnready(cur);
      Reschedule();
    }

    /** do_thread_event_signal. */
    method EventSignal(t: Tid, e: nat)
      requires Valid() && Inv(View()) && locked && t in threads
      modifies this
      ensures Valid() && View() == M.EventSignal(old(View()), t, e)
    {
      hide Inv;
      var pending := threads[t].pending + {e};
      if pending * threads[t].mask != {} {
        TaskWakeupSpecific(t, {Event});
      }
      threads := threads[t := threads[t].(pending := pending)];
    }

    method TimerTopHalf()
      requires Valid() && Inv(View()) && locked
      modifies this, rq, clock
      ensures Valid() && View() == M.ClockTopHalf(old(View()))
    {
      hide SchedOk, ListsOk, LockOk, ThreadsOk, WheelOk, CurOk;
      M.ClockInv(View());
      rq.params := rq.params[cur := rq.params[cur].(quanta := rq.params[cur].quanta + 1)];
      clock.hard := clock.hard + 1;
      TaskWakeup(OfTimer);
    }

    /** sys_futex_wake's loop over the futex's rendez: releases min(n, waiters) threads in FIFO order. */
    method WakeFirst(r: Rendez, n: nat) returns (count: nat)
      requires Valid() && Inv(View()) && locked
      modifies this
      ensures Valid() && Inv(View()) && locked && owner == old(owner) && cur == old(cur)
      ensures count == if n <= |old(Waiters(rendez, r))| then n else |old(Waiters(rendez, r))|
      ensures bkl == old(bkl) + old(Waiters(rendez, r))[..count]
      ensures Waiters(rendez, r) == old(Waiters(rendez, r))[count..]
    {
      hide Inv, M.TaskWakeupSpecific;
      count := 0;
      ghost var k, q := View(), Waiters(rendez, r);
      while Waiters(rendez, r) != [] && count < n
        invariant View() == k && Inv(k) && k.locked && k.owner == old(owner) && k.cur == old(cur)
        invariant count <= n && count <= |q| && Waiters(k.rendez, r) == q[count..]
        invariant k.bkl == old(bkl) + q[..count]
      {
        WakeHeadSpecific(k, r);
        TaskWakeupSpecific(Waiters(rendez, r)[0], {});
        k := M.TaskWakeupSpecific(k, Waiters(k.rendez, r)[0], {});
        assert q[..count] + [q[count]] == q[..count + 1];
        count := count + 1;
      }
      assert q[|q|..] == [];
    }

    method TaskWakeup(r: Rendez)
      requires Valid() && Inv(View()) && locked
      modifies this
      ensures Valid() && View() == M.TaskWakeup(old(View()), r)
    {
      hide SchedOk, ListsOk, LockOk, ThreadsOk, WheelOk, CurOk;

      if Waiters(rendez, r) != [] {
        M.HeadIsBlocked(View(), r);
        WaitersNoDup(View(), r);
        var thread := Waiters(rendez, r)[0];
        assert threads[thread].blocking == Some(r) && threads[thread].state == RendezBlocked;   // its kasserts
        WithoutHead(Waiters(rendez, r));
        rendez := rendez[r := Waiters(rendez, r)[1..]];
        bkl := bkl + [thread];
        threads := threads[thread := threads[thread].(blocking := None, state := BklBlocked)];
      }
    }

    method TaskWakeupSpecific(t: Tid, reason: set<Intr>)
      requires Valid() && Inv(View()) && locked && t in threads
      modifies this
      ensures Valid() && View() == M.TaskWakeupSpecific(old(View()), t, reason)
    {
      hide SchedOk, ListsOk, LockOk, ThreadsOk, WheelOk, CurOk;

      if threads[t].state == RendezBlocked && (threads[t].intr * reason != {} || reason == {}) {
        M.ReleaseInv(View(), t);
        var r := threads[t].blocking.value;
        rendez := rendez[r := Without(Waiters(rendez, r), t)];
        bkl := bkl + [t];
        threads := threads[t := threads[t].(blocking := None, state := BklBlocked)];
      }
    }

    /** TaskWakeupAll: the do-while loop moves the whole rendez list, in order, to the lock's list. */
    method TaskWakeupAll(r: Rendez)
      requires Valid() && Inv(View()) && locked
      modifies this
      ensures Valid() && Inv(View()) && locked && owner == old(owner) && cur == old(cur)
      ensures bkl == old(bkl) + old(Waiters(rendez, r)) && Waiters(rendez, r) == []
    {
      hide Inv, M.TaskWakeup;

      var more := true;
      ghost var k, total := View(), bkl + Waiters(rendez, r);
      while more
        invariant View() == k && Inv(k) && k.locked && k.owner == old(owner) && k.cur == old(cur)
        invariant k.bkl + Waiters(k.rendez, r) == total
        invariant !more ==> Waiters(k.rendez, r) == []
        decreases more, |Waiters(k.rendez, r)|
      {
        WakeShrinks(k, r);
        TaskWakeup(r);
        k := M.TaskWakeup(k, r);
        more := Waiters(rendez, r) != [];
      }
    }
  }

  lemma InParams(k: Kernel, ex: set<Tid>, t: Tid)
    requires Core(k, ex) && (t == k.cur || t in k.bkl)
    ensures t in k.threads && t in k.sched.params && k.sched.params[t].prio < S.NQUEUES
  {
  }

  lemma BootReady(empty: S.Sched, idle: Tid, timerTask: Tid, root: Tid)
    requires R.Distinct(idle, timerTask, root) && |empty.queues| == S.NQUEUES && empty.bitmap == {}
    requires empty.params == R.BootParams(idle, timerTask, root)
    requires forall q :: 0 <= q < S.NQUEUES ==> empty.queues[q] == []
    ensures S.Ready(S.Ready(empty, root), timerTask) == R.BootQueues(idle, timerTask, root)
  {
    var s, b := S.Ready(S.Ready(empty, root), timerTask), R.BootQueues(idle, timerTask, root);
    assert forall q :: 0 <= q < S.NQUEUES ==> s.queues[q] == b.queues[q];
    assert s.bitmap == {16, 31};
    assert s.params == b.params;
  }

  lemma WaitersNoDup(k: Kernel, r: Rendez)
    requires Inv(k)
    ensures NoDup(Waiters(k.rendez, r))
  {
  }

  /** Waking the head of a rendez by name, with no reason given, pops it from the list. */
  lemma WakeHeadSpecific(k: Kernel, r: Rendez)
    requires Inv(k) && k.locked && Waiters(k.rendez, r) != []
    ensures var q := Waiters(k.rendez, r);
            && q[0] in k.threads
            && Waiters(M.TaskWakeupSpecific(k, q[0], {}).rendez, r) == q[1..]
            && M.TaskWakeupSpecific(k, q[0], {}).bkl == k.bkl + [q[0]]
  {
    hide SchedOk, LockOk, ThreadsOk, WheelOk, CurOk;
    WaitersNoDup(k, r);
    M.HeadIsBlocked(k, r);
    WithoutHead(Waiters(k.rendez, r));
  }

  lemma WakeShrinks(k: Kernel, r: Rendez)
    requires Inv(k) && k.locked
    ensures var q := Waiters(k.rendez, r);
            && Waiters(M.TaskWakeup(k, r).rendez, r) == (if q == [] then [] else q[1..])
            && M.TaskWakeup(k, r).bkl + Waiters(M.TaskWakeup(k, r).rendez, r) == k.bkl + q
  {
    hide Core, CurOk, Without;
    var q := Waiters(k.rendez, r);
    if q != [] {
      WaitersNoDup(k, r);
      M.HeadIsBlocked(k, r);
      WithoutHead(q);
      assert k.bkl + [q[0]] + q[1..] == k.bkl + q;
    }
  }

  lemma AppendNoDup<T(!new)>(a: seq<T>, b: seq<T>)
    requires NoDup(a) && NoDup(b) && forall x :: x in a ==> x !in b
    ensures NoDup(a + b)
  {
    forall i, j | 0 <= i < j < |a + b|
      ensures (a + b)[i] != (a + b)[j]
    {
      if i < |a| <= j {
        assert a[i] in a && b[j - |a|] in b;
      }
    }
  }
}
