/**
  The run queues of proc/sched.c: thirty-two circular queues, a bitmap of the
  non-empty ones, and the per-thread scheduling parameters.

  The 32-bit word `sched_queue_bitmap` is read as the set of its one bits, and a
  CIRCLEQ as the sequence that starts at its head.
 */
module Scheduler {
  import opened Lists

  type Tid = nat

  const NQUEUES: nat := 32
  const QUANTA_JIFFIES: nat := 5

  datatype Policy = RoundRobin | Fifo | Other | Idle

  datatype Params = Params(policy: Policy, prio: nat, desired: nat, quanta: nat)

  datatype Sched = Sched(queues: seq<seq<Tid>>, bitmap: set<nat>, params: map<Tid, Params>)

  predicate ParamsOk(p: Params) {
    && p.prio < NQUEUES
    && p.desired < NQUEUES
    && (p.policy == RoundRobin || p.policy == Fifo ==> 16 <= p.prio)
    && (p.policy == Other ==> p.prio < 16 && p.desired < 16)
  }

  /** Every queue holds distinct threads, each of them at its own priority. */
  ghost predicate Valid(s: Sched) {
    && |s.queues| == NQUEUES
    && (forall t :: t in s.params ==> ParamsOk(s.params[t]))
    && (forall q :: 0 <= q < NQUEUES ==> NoDup(s.queues[q]))
    && (forall q, t :: 0 <= q < NQUEUES && t in s.queues[q] ==>
          t in s.params && s.params[t].prio == q && s.params[t].policy != Idle)
  }

  /** Bit q is set exactly when queue q is non-empty. */
  ghost predicate BitmapOk(s: Sched)
    requires |s.queues| == NQUEUES
  {
    && (forall q :: 0 <= q < NQUEUES ==> (q in s.bitmap <==> s.queues[q] != []))
    && (forall q :: q in s.bitmap ==> q < NQUEUES)
  }

  predicate Queued(s: Sched, t: Tid) {
    t in s.params && s.params[t].prio < |s.queues| && t in s.queues[s.params[t].prio]
  }

  /** The threads on some run queue. */
  ghost function Members(s: Sched): set<Tid> {
    set t | t in s.params && Queued(s, t)
  }

  /** A thread on a run queue is on the queue of its priority. */
  lemma QueueIsPriority(s: Sched, t: Tid, q: nat)
    requires Valid(s) && t in s.params
    ensures q < |s.queues| && t in s.queues[q] <==> t in Members(s) && q == s.params[t].prio
  {
    hide NoDup, ParamsOk;
  }

  /** init_schedparams: the clamping of a requested priority. */
  function InitParams(policy: Policy, priority: int): (p: Params)
    ensures ParamsOk(p) && p.policy == policy && p.prio == p.desired && p.quanta == 0
    ensures (policy.RoundRobin? || policy.Fifo?) && 16 <= priority < 32 ==> p.prio == priority
    ensures policy.Other? && 0 <= priority < 16 ==> p.prio == priority
  {
    var c: nat := if priority < 0 then 0 else if priority > 31 then 31 else priority;
    match policy
    case RoundRobin => var v := if c >= 16 then c else 16; Params(policy, v, v, 0)
    case Fifo => var v := if c >= 16 then c else 16; Params(policy, v, v, 0)
    case Other => var v := if c < 16 then c else 0; Params(policy, v, v, 0)
    case Idle => Params(policy, 0, 0, 0)
  }

  /** SchedReady. */
  function Ready(s: Sched, t: Tid): Sched
    requires |s.queues| == NQUEUES && t in s.params && s.params[t].prio < NQUEUES
  {
    var p := s.params[t];
    if p.policy == Idle then s.(params := s.params[t := p.(quanta := 0)])
    else s.(queues := s.queues[p.prio := s.queues[p.prio] + [t]],
            bitmap := s.bitmap + {p.prio},
            params := s.params[t := p.(quanta := 0)])
  }

  /** SchedUnready. */
  function Unready(s: Sched, t: Tid): Sched
    requires |s.queues| == NQUEUES && t in s.params && s.params[t].prio < NQUEUES
  {
    var p := s.params[t];
    if p.policy == Idle then s
    else
      var rest := Without(s.queues[p.prio], t);
      s.(queues := s.queues[p.prio := rest],
         bitmap := if rest == [] then s.bitmap - {p.prio} else s.bitmap,
         params := s.params[t := p.(quanta := 0, prio := if p.policy == Other then p.desired else p.prio)])
  }

  /** Does Reschedule move the current SCHED_OTHER thread down one priority? */
  predicate Demotes(s: Sched, cur: Tid)
    requires cur in s.params
  {
    var p := s.params[cur];
    p.policy == Other && p.quanta + 1 == QUANTA_JIFFIES && p.prio > 1
  }

  /** The accounting half of Reschedule: rotate or demote the outgoing thread. */
  function Account(s: Sched, cur: Tid): Sched
    requires |s.queues| == NQUEUES && cur in s.params && s.params[cur].prio < NQUEUES
  {
    var p := s.params[cur];
    var used := p.quanta + 1;
    if p.policy == RoundRobin && s.queues[p.prio] != [] then
      s.(queues := s.queues[p.prio := Forward(s.queues[p.prio])], params := s.params[cur := p.(quanta := 0)])
    else if Demotes(s, cur) then
      var q := s.queues[p.prio];
      var cut := s.queues[p.prio := if q == [] then [] else q[1..]];
      s.(queues := cut[p.prio - 1 := cut[p.prio - 1] + [cur]],
         params := s.params[cur := p.(quanta := 0, prio := p.prio - 1)])
    else if p.policy == Other && used == QUANTA_JIFFIES then
      s.(queues := s.queues[p.prio := Forward(s.queues[p.prio])], params := s.params[cur := p.(quanta := 0)])
    else s.(params := s.params[cur := p.(quanta := used)])
  }

  function MaxBit(b: set<nat>, n: nat): (q: nat)
    requires exists x :: x in b && x < n
    ensures q in b && q < n && forall x :: x in b && x < n ==> x <= q
  {
    if n - 1 in b then n - 1 else MaxBit(b, n - 1)
  }

  /** The selection half of Reschedule. */
  function Pick(s: Sched, idle: Tid): Tid
    requires |s.queues| == NQUEUES
  {
    if exists x :: x in s.bitmap && x < NQUEUES then
      var q := s.queues[MaxBit(s.bitmap, NQUEUES)];
      if q == [] then idle else q[0]
    else idle
  }

  lemma ReadyKeeps(s: Sched, t: Tid)
    requires Valid(s) && t in s.params && t !in Members(s)
    ensures Valid(Ready(s, t)) && Ready(s, t).params.Keys == s.params.Keys
    ensures Members(Ready(s, t)) == if s.params[t].policy == Idle then Members(s) else Members(s) + {t}
    ensures forall u :: u in s.params ==> Ready(s, t).params[u].policy == s.params[u].policy
    ensures BitmapOk(s) ==> BitmapOk(Ready(s, t))
    ensures forall u :: AtHead(s, u) && u != t ==> AtHead(Ready(s, t), u)
  {
    ReadyQueued(s, t);
    hide Queued;
  }

  /** A thread made ready is last on the queue of its priority and has a whole quantum; nothing else changes. */
  lemma ReadyIsLast(s: Sched, t: Tid)
    requires Valid(s) && t in s.params && s.params[t].policy != Idle
    ensures var r := Ready(s, t); var p := s.params[t];
            && |r.queues| == NQUEUES && r.queues[p.prio] == s.queues[p.prio] + [t]
            && (forall h :: 0 <= h < NQUEUES && h != p.prio ==> r.queues[h] == s.queues[h])
            && t in r.params && r.params[t].prio == p.prio && r.params[t].quanta == 0
            && r.params[t].desired == p.desired && r.params[t].policy == p.policy
            && (forall u :: u in s.params && u != t ==> u in r.params && r.params[u] == s.params[u])
  {
  }

  lemma ReadyQueued(s: Sched, t: Tid)
    requires Valid(s) && t in s.params
    ensures forall u :: u in s.params && u != t ==> (Queued(Ready(s, t), u) <==> Queued(s, u))
    ensures Queued(Ready(s, t), t) <==> (Queued(s, t) || s.params[t].policy != Idle)
    ensures forall u :: AtHead(s, u) && u != t ==> AtHead(Ready(s, t), u)
  {
  }

  lemma UnreadyKeeps(s: Sched, t: Tid)
    requires Valid(s) && t in s.params && (t in Members(s) || s.params[t].policy == Idle)
    ensures Valid(Unready(s, t)) && Unready(s, t).params.Keys == s.params.Keys
    ensures Members(Unready(s, t)) == Members(s) - {t}
    ensures forall u :: u in s.params ==> Unready(s, t).params[u].policy == s.params[u].policy
    ensures BitmapOk(s) ==> BitmapOk(Unready(s, t))
    ensures s.params[t].policy != Idle ==> Unready(s, t).params[t].quanta == 0
  {
    UnreadyQueued(s, t);
    hide Queued;
  }

  /**
    A thread taken off its queue leaves the order of the others, and a time-shared one gets
    back the priority it asked for.
   */
  lemma UnreadyKeepsOrder(s: Sched, t: Tid, i: nat)
    requires Valid(s) && t in s.params && s.params[t].policy != Idle
    requires i < |s.queues[s.params[t].prio]| && s.queues[s.params[t].prio][i] == t
    ensures var r := Unready(s, t); var p := s.params[t]; var q := s.queues[p.prio];
            && |r.queues| == NQUEUES && r.queues[p.prio] == q[..i] + q[i + 1..]
            && (forall h :: 0 <= h < NQUEUES && h != p.prio ==> r.queues[h] == s.queues[h])
            && t in r.params && r.params[t].prio == (if p.policy == Other then p.desired else p.prio)
            && r.params[t].desired == p.desired && r.params[t].policy == p.policy
            && (forall u :: u in s.params && u != t ==> u in r.params && r.params[u] == s.params[u])
  {
    WithoutAt(s.queues[s.params[t].prio], i);
  }

  lemma UnreadyQueued(s: Sched, t: Tid)
    requires Valid(s) && t in s.params
    ensures forall u :: u in s.params && u != t ==> (Queued(Unready(s, t), u) <==> Queued(s, u))
    ensures !Queued(Unready(s, t), t)
  {
  }

  /** The thread heads its run queue. */
  predicate AtHead(s: Sched, t: Tid) {
    Queued(s, t) && s.queues[s.params[t].prio][0] == t
  }

  /** TimerTopHalf's charge of one tick to a thread. */
  function Charge(s: Sched, t: Tid): Sched
    requires t in s.params
  {
    s.(params := s.params[t := s.params[t].(quanta := s.params[t].quanta + 1)])
  }

  lemma ChargeKeeps(s: Sched, t: Tid)
    requires Valid(s) && t in s.params
    ensures Valid(Charge(s, t)) && Charge(s, t).params.Keys == s.params.Keys
    ensures Members(Charge(s, t)) == Members(s)
    ensures forall u :: u in s.params ==> Charge(s, t).params[u].policy == s.params[u].policy
    ensures BitmapOk(s) ==> BitmapOk(Charge(s, t))
    ensures forall u :: AtHead(s, u) ==> AtHead(Charge(s, t), u)
  {
    SameMembersKeeps(s, Charge(s, t));
    hide Queued;
  }

  /** A new thread's parameters, before it is queued. */
  function Register(s: Sched, t: Tid, p: Params): Sched {
    s.(params := s.params[t := p])
  }

  lemma RegisterKeeps(s: Sched, t: Tid, p: Params)
    requires Valid(s) && t !in s.params && ParamsOk(p)
    ensures Valid(Register(s, t, p)) && Register(s, t, p).params.Keys == s.params.Keys + {t}
    ensures Members(Register(s, t, p)) == Members(s) && t !in Members(s)
    ensures forall u :: u in s.params ==> Register(s, t, p).params[u] == s.params[u]
    ensures BitmapOk(s) ==> BitmapOk(Register(s, t, p))
    ensures forall u :: AtHead(s, u) ==> AtHead(Register(s, t, p), u) && u != t
  {
    assert forall u :: u in s.params ==> (Queued(Register(s, t, p), u) <==> Queued(s, u));
    assert !Queued(Register(s, t, p), t);
    hide Queued;
  }

  /** The outgoing thread is idle, off its queue, or at the head of it. */
  ghost predicate CurrentOk(s: Sched, cur: Tid) {
    cur in s.params &&
    (Queued(s, cur) ==> AtHead(s, cur)) &&
    (s.params[cur].policy == Other && !Queued(s, cur) ==> s.params[cur].quanta + 1 < QUANTA_JIFFIES)
  }

  lemma AccountKeeps(s: Sched, cur: Tid)
    requires Valid(s) && CurrentOk(s, cur)
    ensures Valid(Account(s, cur)) && Account(s, cur).params.Keys == s.params.Keys
    ensures Members(Account(s, cur)) == Members(s)
    ensures forall u :: u in s.params ==> Account(s, cur).params[u].policy == s.params[u].policy
  {
    if Demotes(s, cur) {
      DemoteKeeps(s, cur);
    } else {
      var r := Account(s, cur);
      forall q | 0 <= q < NQUEUES
        ensures r.queues[q] == s.queues[q] || r.queues[q] == Forward(s.queues[q])
      {
      }
      SameMembersKeeps(s, r);
    }
  }

  lemma SameMembersKeeps(s: Sched, r: Sched)
    requires Valid(s) && |r.queues| == NQUEUES && r.params.Keys == s.params.Keys
    requires forall q :: 0 <= q < NQUEUES ==> r.queues[q] == s.queues[q] || r.queues[q] == Forward(s.queues[q])
    requires forall u :: u in s.params ==> r.params[u].(quanta := 0) == s.params[u].(quanta := 0)
    ensures Valid(r)
    ensures forall u :: u in s.params ==> (Queued(r, u) <==> Queued(s, u)) && r.params[u].policy == s.params[u].policy
  {
    assert forall u :: u in s.params ==>
             r.params[u].prio == s.params[u].prio && r.params[u].policy == s.params[u].policy &&
             r.params[u].desired == s.params[u].desired;
  }

  lemma DemoteKeeps(s: Sched, cur: Tid)
    requires Valid(s) && CurrentOk(s, cur) && Demotes(s, cur)
    ensures Valid(Account(s, cur)) && Account(s, cur).params.Keys == s.params.Keys
    ensures forall u :: u in s.params ==> (Queued(Account(s, cur), u) <==> Queued(s, u))
    ensures forall u :: u in s.params ==> Account(s, cur).params[u].policy == s.params[u].policy
  {
    var r := Account(s, cur);
    DemoteQueues(s, cur);
    hide Account;
    assert forall u :: u in s.params && u != cur ==> (Queued(r, u) <==> Queued(s, u));
  }

  lemma DemoteQueues(s: Sched, cur: Tid)
    requires Valid(s) && CurrentOk(s, cur) && Demotes(s, cur)
    ensures var p, r := s.params[cur].prio, Account(s, cur);
            && Queued(s, cur) && |r.queues| == NQUEUES
            && NoDup(r.queues[p]) && NoDup(r.queues[p - 1])
            && (forall u :: u in r.queues[p] <==> u in s.queues[p] && u != cur)
            && r.queues[p - 1] == s.queues[p - 1] + [cur]
            && (forall h :: 0 <= h < NQUEUES && h != p && h != p - 1 ==> r.queues[h] == s.queues[h])
            && r.params == s.params[cur := s.params[cur].(quanta := 0, prio := p - 1)]
  {
    var p := s.params[cur].prio;
    NoDupTail(s.queues[p]);
    assert cur !in s.queues[p - 1];
    NoDupAppend(s.queues[p - 1], cur);
  }

  /** When no demotion happens, Reschedule's accounting keeps the bitmap right; a
      demotion keeps it right exactly when both queues involved were and stay non-empty. */
  lemma AccountBitmap(s: Sched, cur: Tid)
    requires Valid(s) && CurrentOk(s, cur) && BitmapOk(s)
    ensures BitmapOk(Account(s, cur)) <==>
            !Demotes(s, cur) || (|s.queues[s.params[cur].prio]| > 1 && s.queues[s.params[cur].prio - 1] != [])
  {
    var p := s.params[cur];
    var r := Account(s, cur);
    if Demotes(s, cur) {
      assert cur in r.queues[p.prio - 1];
      assert r.queues[p.prio] == s.queues[p.prio][1..];
      assert r.bitmap == s.bitmap;
      if s.queues[p.prio - 1] == [] {
        assert p.prio - 1 !in r.bitmap;
      }
    }
  }

  /**
    What the accounting step does to the queues, policy by policy. A round-robin thread's queue
    goes round by one, whether or not the thread is still on it. A time-shared thread whose
    quantum is just used up moves to the tail of the queue below, or goes round on the lowest
    queues. In every other case no queue changes.
   */
  lemma AccountExact(s: Sched, cur: Tid)
    requires Valid(s) && CurrentOk(s, cur)
    ensures var r := Account(s, cur); var p := s.params[cur]; var q := s.queues[p.prio];
            var due := p.policy == Other && p.quanta + 1 == QUANTA_JIFFIES;
            && |r.queues| == NQUEUES
            && (p.policy == RoundRobin || (due && p.prio <= 1) ==>
                  r.queues == if q == [] then s.queues else s.queues[p.prio := q[1..] + [q[0]]])
            && (due && p.prio > 1 ==>
                  && cur in q && q[0] == cur
                  && r.queues == s.queues[p.prio := q[1..]][p.prio - 1 := s.queues[p.prio - 1] + [cur]])
            && (p.policy != RoundRobin && !due ==> r.queues == s.queues)
  {
    hide NoDup;
  }

  /** And to the parameters: only the outgoing thread's are touched, and its quantum starts again when it is moved. */
  lemma AccountParams(s: Sched, cur: Tid)
    requires Valid(s) && CurrentOk(s, cur)
    ensures var r := Account(s, cur); var p := s.params[cur];
            var due := p.policy == Other && p.quanta + 1 == QUANTA_JIFFIES;
            && cur in r.params
            && r.params[cur].prio == (if due && p.prio > 1 then p.prio - 1 else p.prio)
            && r.params[cur].quanta == (if due || (p.policy == RoundRobin && s.queues[p.prio] != []) then 0
                                        else p.quanta + 1)
            && r.params[cur].policy == p.policy && r.params[cur].desired == p.desired
            && (forall u :: u in s.params && u != cur ==> u in r.params && r.params[u] == s.params[u])
  {
  }

  /** Reschedule picks the head of the highest non-empty queue, and idle only when all are empty. */
  lemma PickIsHighest(s: Sched, idle: Tid)
    requires Valid(s) && BitmapOk(s)
    ensures (forall q :: 0 <= q < NQUEUES ==> s.queues[q] == []) ==> Pick(s, idle) == idle
    ensures forall q :: 0 <= q < NQUEUES && s.queues[q] != [] &&
                        (forall h :: q < h < NQUEUES ==> s.queues[h] == [])
              ==> Pick(s, idle) == s.queues[q][0]
  {
    forall q | 0 <= q < NQUEUES && s.queues[q] != [] && (forall h :: q < h < NQUEUES ==> s.queues[h] == [])
      ensures Pick(s, idle) == s.queues[q][0]
    {
      assert q in s.bitmap;
      var m := MaxBit(s.bitmap, NQUEUES);
      assert s.queues[m] != [];
    }
  }

  /** Without the demotion restriction selection fails: a lone ready thread is passed over for idle. */
  lemma DemotionLosesThread()
    ensures exists s: Sched, cur: Tid, idle: Tid ::
              Valid(s) && CurrentOk(s, cur) && BitmapOk(s) && Queued(Account(s, cur), cur) && cur != idle &&
              Pick(Account(s, cur), idle) == idle
  {
    var queues := seq(NQUEUES, i requires 0 <= i < NQUEUES => if i == 8 then [1] else []);
    var s := Sched(queues, {8}, map[1 := Params(Other, 8, 8, 4)]);
    assert Queued(Account(s, 1), 1);
    assert MaxBit({8}, NQUEUES) == 8;
    assert Pick(Account(s, 1), 0) == 0;
  }

  /** Whatever Reschedule picks is idle or the head of its own queue. */
  lemma PickAtHead(s: Sched, idle: Tid)
    requires Valid(s)
    ensures Pick(s, idle) == idle || (Pick(s, idle) in Members(s) && AtHead(s, Pick(s, idle)))
  {
  }

  // ---------------------------------------------------------------------
  // Turns
  // ---------------------------------------------------------------------

  /** The queues and the running thread after n calls of Reschedule with nothing else in between. */
  ghost function Turns(s: Sched, cur: Tid, idle: Tid, n: nat): (Sched, Tid)
    requires Valid(s) && CurrentOk(s, cur)
  {
    if n == 0 then (s, cur)
    else
      var (r, c) := Turns(s, cur, idle, n - 1);
      if Valid(r) && CurrentOk(r, c) then (Account(r, c), Pick(Account(r, c), idle)) else (r, c)
  }

  /** Queue q is the highest with threads on it, and they are all round-robin. */
  ghost predicate TopRound(s: Sched, q: nat) {
    && Valid(s) && BitmapOk(s) && q < NQUEUES && s.queues[q] != []
    && (forall h :: q < h < NQUEUES ==> s.queues[h] == [])
    && (forall t :: t in s.queues[q] ==> t in s.params && s.params[t].policy == RoundRobin)
  }

  /** One turn: the next thread of the queue runs. */
  lemma NextTurn(s: Sched, q: nat, idle: Tid)
    requires TopRound(s, q)
    ensures CurrentOk(s, s.queues[q][0])
    ensures var r := Account(s, s.queues[q][0]);
            && TopRound(r, q) && r.queues[q] == s.queues[q][1..] + [s.queues[q][0]]
            && Pick(r, idle) == r.queues[q][0]
  {
    var cur := s.queues[q][0];
    assert cur in s.queues[q];
    AccountKeeps(s, cur);
    AccountExact(s, cur);
    AccountBitmap(s, cur);
    AccountPolicies(s, cur);
    var r := Account(s, cur);
    assert forall t :: t in r.queues[q] <==> t in s.queues[q];
    PickIsHighest(r, idle);
  }

  lemma AccountPolicies(s: Sched, cur: Tid)
    requires Valid(s) && CurrentOk(s, cur)
    ensures var r := Account(s, cur);
            forall u :: u in s.params ==> u in r.params && r.params[u].policy == s.params[u].policy
  {
    AccountKeeps(s, cur);
  }

  /**
    Round robin: with n threads on the highest queue, the i-th of them runs after i calls of
    Reschedule, and after n calls the queue is as it was, so each runs once in every n calls.
   */
  lemma {:induction false} EveryoneRuns(s: Sched, q: nat, idle: Tid, i: nat)
    requires TopRound(s, q) && i <= |s.queues[q]|
    ensures CurrentOk(s, s.queues[q][0])
    ensures var (r, c) := Turns(s, s.queues[q][0], idle, i); var n := |s.queues[q]|;
            && TopRound(r, q) && r.queues[q] == s.queues[q][i..] + s.queues[q][..i]
            && c == s.queues[q][if i == n then 0 else i]
  {
    hide TopRound, Account, CurrentOk, Valid;
    TopIsValid(s, q);
    NextTurn(s, q, idle);
    var a := s.queues[q];
    if i == 0 {
      assert a == a[0..] + a[..0];
    } else {
      EveryoneRuns(s, q, idle, i - 1);
      var (r, c) := Turns(s, a[0], idle, i - 1);
      TopIsValid(r, q);
      assert r.queues[q][0] == a[i - 1];
      NextTurn(r, q, idle);
      RotateAgain(a, i - 1);
    }
  }

  lemma TopIsValid(s: Sched, q: nat)
    requires TopRound(s, q)
    ensures Valid(s) && |s.queues| == NQUEUES && q < NQUEUES && s.queues[q] != []
  {
  }

  lemma RotateAgain(a: seq<Tid>, k: nat)
    requires k < |a|
    ensures var b := a[k..] + a[..k]; b[1..] + [b[0]] == a[k + 1..] + a[..k + 1]
  {
    var b := a[k..] + a[..k];
    assert b[0] == a[k] && b[1..] == a[k + 1..] + a[..k];
    assert a[..k] + [a[k]] == a[..k + 1];
  }

  /**
    But a round-robin thread that blocks has its queue go round once more after it has left:
    the thread that was next in line is passed over exactly if there is another behind it.
   */
  lemma BlockedTurn(s: Sched, q: nat, idle: Tid)
    requires TopRound(s, q) && |s.queues[q]| > 1
    ensures var cur := s.queues[q][0]; var rest := s.queues[q][1..]; var u := Unready(s, cur);
            && Valid(u) && CurrentOk(u, cur)
            && Pick(Account(u, cur), idle) == (if |rest| == 1 then rest[0] else rest[1])
            && (Pick(Account(u, cur), idle) == s.queues[q][1] <==> |s.queues[q]| == 2)
  {
    var cur := s.queues[q][0];
    assert cur in s.queues[q] && Queued(s, cur);
    var u := Unready(s, cur);
    UnreadyKeeps(s, cur);
    UnreadyKeepsOrder(s, cur, 0);
    assert u.queues[q] == s.queues[q][1..];
    Outgoing(u, cur, q, idle);
    if |s.queues[q]| > 2 {
      Differ(s.queues[q], 1, 2);
    }
  }

  /** A round-robin thread that has left the highest queue. */
  lemma Outgoing(u: Sched, cur: Tid, q: nat, idle: Tid)
    requires Valid(u) && BitmapOk(u) && q < NQUEUES && u.queues[q] != []
    requires forall h :: q < h < NQUEUES ==> u.queues[h] == []
    requires cur in u.params && u.params[cur].policy == RoundRobin && u.params[cur].prio == q && !Queued(u, cur)
    ensures CurrentOk(u, cur)
    ensures Pick(Account(u, cur), idle) == if |u.queues[q]| == 1 then u.queues[q][0] else u.queues[q][1]
  {
    AccountKeeps(u, cur);
    AccountExact(u, cur);
    AccountBitmap(u, cur);
    PickIsHighest(Account(u, cur), idle);
  }
}
