/**
  Message passing between a client thread and a server (fs/msg.c:55-153, 618-797, 857-877).

  A thread has at most one message under way, and its thread id names it. The message
  is pending on a server port, in the hands of the server, or back on the thread's own
  reply port. `sent`, `got`, `answered` and `returned` record what has happened so far;
  no step depends on them.

  A refused send returns with `thread->msg` still set, to a message whose port was never
  filled in. `stale` holds the threads left so: whether their id resolves is unknown.
 */
module MsgPort {
  import opened Lists

  datatype Tid = Tid(id: nat)

  datatype Port = Port(id: nat)

  /** The port field of a message: set to the reply port on reply. */
  datatype At = Server(port: Port) | ReplyPort

  datatype Msg = Msg(at: At, status: int, wantsReply: bool, serial: nat)

  datatype State = State(
    msgs: map<Tid, Msg>,
    pending: map<Port, seq<Tid>>,
    replies: map<Tid, seq<Tid>>,
    held: map<Tid, Port>,
    shut: set<Port>,
    stale: set<Tid>,
    sent: map<Port, seq<nat>>,
    got: map<Port, seq<nat>>,
    answered: map<nat, int>,
    returned: map<nat, int>,
    next: nat
  )

  const EFAULT: int := -14

  function Queue(s: State, p: Port): seq<Tid> {
    if p in s.pending then s.pending[p] else []
  }

  function ReplyQueue(s: State, t: Tid): seq<Tid> {
    if t in s.replies then s.replies[t] else []
  }

  function Log(m: map<Port, seq<nat>>, p: Port): seq<nat> {
    if p in m then m[p] else []
  }

  function SerialsOf(msgs: map<Tid, Msg>, q: seq<Tid>): seq<nat>
    requires forall t :: t in q ==> t in msgs
  {
    seq(|q|, i requires 0 <= i < |q| => msgs[q[i]].serial)
  }

  // ---------------------------------------------------------------------
  // The invariant
  // ---------------------------------------------------------------------

  ghost predicate QueueOk(q: seq<Tid>, p: Port, msgs: map<Tid, Msg>, held: map<Tid, Port>) {
    && NoDup(q)
    && forall t :: t in q ==> t in msgs && msgs[t].at == Server(p) && t !in held
  }

  /** A message is in exactly one place, and its port field says where. */
  ghost predicate PlaceOk(s: State, t: Tid) {
    && (t in s.held ==> t in s.msgs && s.msgs[t].at == Server(s.held[t]))
    && (t in s.msgs && s.msgs[t].at.Server? ==> t in s.held || t in Queue(s, s.msgs[t].at.port))
    && ReplyQueue(s, t) == if t in s.msgs && s.msgs[t].at == ReplyPort then [t] else []
  }

  ghost predicate PlacesOk(s: State) {
    && (forall p {:trigger Queue(s, p)} :: QueueOk(Queue(s, p), p, s.msgs, s.held))
    && (forall t {:trigger ReplyQueue(s, t)} :: PlaceOk(s, t))
  }

  /** A message under way has its own serial number, answered exactly when it is on the reply port. */
  ghost predicate SerialOk(m: Msg, answered: map<nat, int>, returned: map<nat, int>, next: nat) {
    && m.serial < next
    && m.serial !in returned
    && (m.at == ReplyPort ==> m.serial in answered && answered[m.serial] == m.status)
    && (m.at != ReplyPort ==> m.serial !in answered)
  }

  ghost predicate SerialsOk(s: State) {
    && (forall t :: t in s.msgs ==> SerialOk(s.msgs[t], s.answered, s.returned, s.next))
    && (forall t, u :: t in s.msgs && u in s.msgs && s.msgs[t].serial == s.msgs[u].serial ==> t == u)
    && (forall n :: n in s.answered ==> n < s.next)
    && (forall n :: n in s.returned ==> n in s.answered && s.returned[n] == s.answered[n])
  }

  /** First in, first out: what was sent is what the server got, then what is still pending. */
  ghost predicate FifoAt(s: State, p: Port)
    requires forall t :: t in Queue(s, p) ==> t in s.msgs
  {
    Log(s.sent, p) == Log(s.got, p) + SerialsOf(s.msgs, Queue(s, p))
  }

  ghost predicate StaleOk(s: State) {
    forall t :: t in s.stale ==> t !in s.msgs
  }

  ghost predicate Inv(s: State) {
    && PlacesOk(s)
    && SerialsOk(s)
    && StaleOk(s)
    && forall p {:trigger Queue(s, p)} :: FifoAt(s, p)
  }

  // ---------------------------------------------------------------------
  // The steps
  // ---------------------------------------------------------------------

  /** ksendmsg up to its wait: the message goes to the end of the port's list, unless the port is shut. */
  function Send(s: State, t: Tid, p: Port, wantsReply: bool): State {
    if p in s.shut then s.(stale := s.stale + {t})
    else s.(msgs := s.msgs[t := Msg(Server(p), 0, wantsReply, s.next)],
            stale := s.stale - {t},
            pending := s.pending[p := Queue(s, p) + [t]],
            sent := s.sent[p := Log(s.sent, p) + [s.next]],
            next := s.next + 1)
  }

  /** What sys_getmsg returns: the first pending message, and none from a shut port. */
  function Next(s: State, p: Port): Option<Tid> {
    if p in s.shut || Queue(s, p) == [] then None else Some(Queue(s, p)[0])
  }

  function Get(s: State, p: Port): State {
    match Next(s, p)
    case None => s
    case Some(t) =>
      s.(pending := s.pending[p := Queue(s, p)[1..]],
         held := s.held[t := p],
         got := s.got[p := Log(s.got, p) + if t in s.msgs then [s.msgs[t].serial] else []])
  }

  /** msgid_to_msg, for a thread whose last send was accepted. */
  predicate Resolves(s: State, p: Port, t: Tid) {
    t in s.msgs && s.msgs[t].at == Server(p)
  }

  /** msgid_to_msg may find a message: one that is there, or whatever a refused send left. */
  predicate MayResolve(s: State, p: Port, t: Tid) {
    Resolves(s, p, t) || t in s.stale
  }

  /**
    The status that reaches the sender: the server's, or -EFAULT when the sender waits for
    reply data and the server supplied none (`rep`) or it could not be read (`copied`).
   */
  function ReplyStatus(wantsReply: bool, status: int, rep: bool, copied: bool): int {
    if wantsReply && !(rep && copied) then EFAULT else status
  }

  function Reply(s: State, p: Port, t: Tid, status: int, rep: bool, copied: bool): State {
    if !Resolves(s, p, t) then s
    else
      var m := s.msgs[t].(at := ReplyPort, status := ReplyStatus(s.msgs[t].wantsReply, status, rep, copied));
      s.(msgs := s.msgs[t := m],
         replies := s.replies[t := ReplyQueue(s, t) + [t]],
         held := s.held - {t},
         answered := s.answered[m.serial := m.status])
  }

  /** ksendmsg after its wait: the message leaves the reply port and its status is returned. */
  function Finish(s: State, t: Tid): State
    requires t in s.msgs && ReplyQueue(s, t) != []
  {
    s.(replies := s.replies[t := ReplyQueue(s, t)[1..]],
       msgs := s.msgs - {t},
       returned := s.returned[s.msgs[t].serial := s.msgs[t].status])
  }

  // ---------------------------------------------------------------------
  // What each step keeps
  // ---------------------------------------------------------------------

  lemma SerialsSame(msgs: map<Tid, Msg>, after: map<Tid, Msg>, q: seq<Tid>)
    requires forall t :: t in q ==> t in msgs && t in after && msgs[t].serial == after[t].serial
    ensures SerialsOf(msgs, q) == SerialsOf(after, q)
  {
  }

  lemma QueueFacts(s: State, p: Port)
    requires Inv(s)
    ensures QueueOk(Queue(s, p), p, s.msgs, s.held) && FifoAt(s, p)
  {
  }

  lemma StaleFact(s: State)
    requires Inv(s)
    ensures StaleOk(s)
  {
  }

  lemma SendPlaces(s: State, t: Tid, p: Port, wantsReply: bool)
    requires PlacesOk(s) && t !in s.msgs && p !in s.shut
    ensures PlacesOk(Send(s, t, p, wantsReply))
  {
    var u := Send(s, t, p, wantsReply);
    assert PlaceOk(s, t) by { assert ReplyQueue(s, t) == ReplyQueue(s, t); }
    forall q
      ensures QueueOk(Queue(u, q), q, u.msgs, u.held)
    {
      assert QueueOk(Queue(s, q), q, s.msgs, s.held);
    }
    forall x
      ensures PlaceOk(u, x)
    {
      assert ReplyQueue(u, x) == ReplyQueue(s, x);
      assert PlaceOk(s, x);
      if x in u.msgs && u.msgs[x].at.Server? {
        assert Queue(u, u.msgs[x].at.port) == Queue(s, u.msgs[x].at.port) + (if u.msgs[x].at.port == p then [t]
                                                                             else []);
      }
    }
  }

  lemma SendFifo(s: State, t: Tid, p: Port, wantsReply: bool, q: Port)
    requires QueueOk(Queue(s, q), q, s.msgs, s.held) && FifoAt(s, q) && t !in s.msgs && p !in s.shut
    ensures var u := Send(s, t, p, wantsReply);
            (forall x :: x in Queue(u, q) ==> x in u.msgs) && FifoAt(u, q)
  {
    hide NoDup;
    var u := Send(s, t, p, wantsReply);
    SerialsSame(s.msgs, u.msgs, Queue(s, q));
    if q == p {
      assert SerialsOf(u.msgs, Queue(s, p) + [t]) == SerialsOf(u.msgs, Queue(s, p)) + [s.next];
    }
  }

  lemma SendSerials(s: State, t: Tid, p: Port, wantsReply: bool)
    requires SerialsOk(s) && t !in s.msgs && p !in s.shut
    ensures SerialsOk(Send(s, t, p, wantsReply))
  {
  }

  /** The marks of shut ports and stale threads are not part of any list. */
  lemma MarksKeep(s: State, u: State)
    requires Inv(s) && u == s.(shut := u.shut, stale := u.stale) && StaleOk(u)
    ensures Inv(u)
  {
    hide NoDup, SerialOk;
    forall q
      ensures QueueOk(Queue(u, q), q, u.msgs, u.held) && FifoAt(u, q)
    {
      QueueFacts(s, q);
    }
    forall x
      ensures PlaceOk(u, x)
    {
      assert PlaceOk(s, x) by { assert ReplyQueue(s, x) == ReplyQueue(s, x); }
      assert forall q :: Queue(u, q) == Queue(s, q);
    }
  }

  lemma SendKeeps(s: State, t: Tid, p: Port, wantsReply: bool)
    requires Inv(s) && t !in s.msgs
    ensures Inv(Send(s, t, p, wantsReply))
  {
    hide SerialsOk, PlacesOk, QueueOk, FifoAt;
    if p in s.shut {
      MarksKeep(s, Send(s, t, p, wantsReply));
    } else {
      SendPlaces(s, t, p, wantsReply);
      SendSerials(s, t, p, wantsReply);
      var u := Send(s, t, p, wantsReply);
      forall q
        ensures (forall x :: x in Queue(u, q) ==> x in u.msgs) && FifoAt(u, q)
      {
        QueueFacts(s, q);
        SendFifo(s, t, p, wantsReply, q);
      }
    }
  }

  lemma GetPlaces(s: State, p: Port)
    requires PlacesOk(s) && Next(s, p).Some?
    ensures PlacesOk(Get(s, p))
  {
    var t := Next(s, p).value;
    var u := Get(s, p);
    assert QueueOk(Queue(s, p), p, s.msgs, s.held);
    NoDupTail(Queue(s, p));
    forall q
      ensures QueueOk(Queue(u, q), q, u.msgs, u.held)
    {
      assert QueueOk(Queue(s, q), q, s.msgs, s.held);
    }
    forall x
      ensures PlaceOk(u, x)
    {
      assert ReplyQueue(u, x) == ReplyQueue(s, x);
      assert PlaceOk(s, x);
    }
  }

  lemma GetFifo(s: State, p: Port, q: Port)
    requires Next(s, p).Some? && QueueOk(Queue(s, q), q, s.msgs, s.held) && FifoAt(s, q)
    ensures var u := Get(s, p); (forall x :: x in Queue(u, q) ==> x in u.msgs) && FifoAt(u, q)
  {
    hide NoDup;
    if q == p {
      var t := Next(s, p).value;
      assert t in Queue(s, p);
      assert SerialsOf(s.msgs, Queue(s, p)) == [s.msgs[t].serial] + SerialsOf(s.msgs, Queue(s, p)[1..]);
    }
  }

  lemma GetKeeps(s: State, p: Port)
    requires Inv(s)
    ensures Inv(Get(s, p))
  {
    hide PlacesOk, QueueOk, FifoAt;
    if Next(s, p).Some? {
      GetPlaces(s, p);
      var u := Get(s, p);
      forall q
        ensures (forall x :: x in Queue(u, q) ==> x in u.msgs) && FifoAt(u, q)
      {
        QueueFacts(s, q);
        GetFifo(s, p, q);
      }
    }
  }

  lemma ReplyPlaces(s: State, p: Port, t: Tid, status: int, rep: bool, copied: bool)
    requires PlacesOk(s) && t in s.held && Resolves(s, p, t)
    ensures PlacesOk(Reply(s, p, t, status, rep, copied))
  {
    var u := Reply(s, p, t, status, rep, copied);
    assert PlaceOk(s, t) by { assert ReplyQueue(s, t) == ReplyQueue(s, t); }
    forall q
      ensures QueueOk(Queue(u, q), q, u.msgs, u.held)
    {
      hide NoDup;
      assert QueueOk(Queue(s, q), q, s.msgs, s.held);
      assert t !in Queue(s, q);
    }
    forall x
      ensures PlaceOk(u, x)
    {
      hide NoDup;
      assert x != t ==> ReplyQueue(u, x) == ReplyQueue(s, x);
      assert PlaceOk(s, x) by { assert ReplyQueue(s, x) == ReplyQueue(s, x); }
      assert forall q :: Queue(u, q) == Queue(s, q);
    }
  }

  lemma ReplySerials(s: State, p: Port, t: Tid, status: int, rep: bool, copied: bool)
    requires SerialsOk(s) && Resolves(s, p, t)
    ensures SerialsOk(Reply(s, p, t, status, rep, copied))
    ensures s.msgs[t].serial !in s.answered
  {
    var u := Reply(s, p, t, status, rep, copied);
    assert SerialOk(s.msgs[t], s.answered, s.returned, s.next);
    forall x | x in u.msgs
      ensures SerialOk(u.msgs[x], u.answered, u.returned, u.next)
    {
      assert SerialOk(s.msgs[x], s.answered, s.returned, s.next);
    }
  }

  /** A reply keeps every message in one place exactly when the server has received the message it answers. */
  lemma ReplyKeeps(s: State, p: Port, t: Tid, status: int, rep: bool, copied: bool)
    requires Inv(s) && Resolves(s, p, t)
    ensures Inv(Reply(s, p, t, status, rep, copied)) <==> t in s.held
    ensures t in s.held <==> t !in Queue(s, p)
    ensures s.msgs[t].serial !in s.answered
  {
    hide SerialsOk, SerialOk, FifoAt, NoDup;
    var u := Reply(s, p, t, status, rep, copied);
    ReplySerials(s, p, t, status, rep, copied);
    assert PlaceOk(s, t) by { assert ReplyQueue(s, t) == ReplyQueue(s, t); }
    QueueFacts(s, p);
    if t in s.held {
      ReplyPlaces(s, p, t, status, rep, copied);
      forall q
        ensures (forall x :: x in Queue(u, q) ==> x in u.msgs) && FifoAt(u, q)
      {
        QueueFacts(s, q);
        ReplyFifo(s, p, t, status, rep, copied, q);
      }
    } else {
      assert Queue(u, p) == Queue(s, p);
      assert !QueueOk(Queue(u, p), p, u.msgs, u.held);
    }
  }

  lemma ReplyFifo(s: State, p: Port, t: Tid, status: int, rep: bool, copied: bool, q: Port)
    requires QueueOk(Queue(s, q), q, s.msgs, s.held) && FifoAt(s, q)
    ensures var u := Reply(s, p, t, status, rep, copied); (forall x :: x in Queue(u, q) ==> x in u.msgs) && FifoAt(u, q)
  {
    hide NoDup;
    var u := Reply(s, p, t, status, rep, copied);
    SerialsSame(s.msgs, u.msgs, Queue(s, q));
  }

  lemma FinishKeeps(s: State, t: Tid)
    requires Inv(s) && ReplyQueue(s, t) != []
    ensures t in s.msgs && Inv(Finish(s, t))
    ensures s.msgs[t].serial in s.answered && s.answered[s.msgs[t].serial] == s.msgs[t].status
  {
    hide SerialsOk, FifoAt, NoDup;
    assert PlaceOk(s, t);
    var u := Finish(s, t);
    FinishSerials(s, t);
    forall q
      ensures QueueOk(Queue(u, q), q, u.msgs, u.held) && FifoAt(u, q)
    {
      QueueFacts(s, q);
      assert t !in Queue(s, q);
      FinishFifo(s, t, q);
    }
    forall x
      ensures PlaceOk(u, x)
    {
      assert x != t ==> ReplyQueue(u, x) == ReplyQueue(s, x);
      assert PlaceOk(s, x) by { assert ReplyQueue(s, x) == ReplyQueue(s, x); }
    }
  }

  lemma FinishSerials(s: State, t: Tid)
    requires SerialsOk(s) && t in s.msgs && s.msgs[t].at == ReplyPort && ReplyQueue(s, t) != []
    ensures SerialsOk(Finish(s, t))
    ensures s.msgs[t].serial in s.answered && s.answered[s.msgs[t].serial] == s.msgs[t].status
  {
    var u := Finish(s, t);
    assert SerialOk(s.msgs[t], s.answered, s.returned, s.next);
    forall x | x in u.msgs
      ensures SerialOk(u.msgs[x], u.answered, u.returned, u.next)
    {
      assert SerialOk(s.msgs[x], s.answered, s.returned, s.next);
    }
  }

  lemma FinishFifo(s: State, t: Tid, q: Port)
    requires QueueOk(Queue(s, q), q, s.msgs, s.held) && FifoAt(s, q) && t in s.msgs && t !in Queue(s, q)
             && ReplyQueue(s, t) != []
    ensures var u := Finish(s, t); (forall x :: x in Queue(u, q) ==> x in u.msgs) && FifoAt(u, q)
  {
    hide NoDup;
    SerialsSame(s.msgs, Finish(s, t).msgs, Queue(s, q));
  }

  // ---------------------------------------------------------------------
  // All runs
  // ---------------------------------------------------------------------

  datatype Action =
    | DoSend(t: Tid, p: Port, wantsReply: bool)
    | DoGet(p: Port)
    | DoReply(p: Port, t: Tid, status: int, rep: bool, copied: bool)
    | DoFinish(t: Tid)
    | DoShut(p: Port)

  /** A thread waits for one reply at a time, and a server answers only ids it has received. */
  ghost predicate Enabled(s: State, a: Action) {
    match a
    case DoSend(t, _, _) => t !in s.msgs
    case DoReply(p, t, _, _, _) => MayResolve(s, p, t) ==> t in s.held
    case DoFinish(t) => ReplyQueue(s, t) != [] && t in s.msgs
    case _ => true
  }

  ghost function Step(s: State, a: Action): State
    requires Enabled(s, a)
  {
    match a
    case DoSend(t, p, w) => Send(s, t, p, w)
    case DoGet(p) => Get(s, p)
    case DoReply(p, t, status, rep, copied) => Reply(s, p, t, status, rep, copied)
    case DoFinish(t) => Finish(s, t)
    case DoShut(p) => s.(shut := s.shut + {p})
  }

  lemma StepKeeps(s: State, a: Action)
    requires Inv(s) && Enabled(s, a)
    ensures Inv(Step(s, a))
  {
    hide Inv, Send, Get, Reply, Finish;
    StaleFact(s);
    match a
    case DoSend(t, p, w) => SendKeeps(s, t, p, w);
    case DoGet(p) => GetKeeps(s, p);
    case DoReply(p, t, status, rep, copied) => ReplyOutcome(s, p, t, status, rep, copied);
    case DoFinish(t) => FinishKeeps(s, t);
    case DoShut(p) => MarksKeep(s, Step(s, a));
  }

  lemma ReplyOutcome(s: State, p: Port, t: Tid, status: int, rep: bool, copied: bool)
    requires Inv(s) && (Resolves(s, p, t) ==> t in s.held)
    ensures Inv(Reply(s, p, t, status, rep, copied))
  {
    hide Inv;
    if Resolves(s, p, t) {
      ReplyKeeps(s, p, t, status, rep, copied);
    }
  }

  const START: State := State(map[], map[], map[], map[], {}, {}, map[], map[], map[], map[], 0)

  ghost predicate IsRun(s: State, run: seq<Action>)
    decreases |run|
  {
    run != [] ==> Enabled(s, run[0]) && IsRun(Step(s, run[0]), run[1..])
  }

  ghost function After(s: State, run: seq<Action>): State
    requires IsRun(s, run)
    decreases |run|
  {
    if run == [] then s else After(Step(s, run[0]), run[1..])
  }

  lemma {:induction false} RunKeeps(s: State, run: seq<Action>)
    requires Inv(s) && IsRun(s, run)
    ensures Inv(After(s, run))
    decreases |run|
  {
    hide Inv, Step, Enabled;
    if run != [] {
      StepKeeps(s, run[0]);
      RunKeeps(Step(s, run[0]), run[1..]);
    }
  }

  /** Whatever clients and servers do, each port's messages are received in the order they were sent. */
  lemma FifoDelivery(run: seq<Action>, p: Port)
    requires IsRun(START, run)
    ensures var s := After(START, run); Log(s.got, p) <= Log(s.sent, p)
  {
    hide After, IsRun, SerialsOk, PlacesOk;
    assert Inv(START) by { StartOk(); }
    RunKeeps(START, run);
    QueueFacts(After(START, run), p);
  }

  /** A message is pending, or held, or on its reply port: never in two places, and never in a list twice. */
  lemma OnePlace(run: seq<Action>, t: Tid, p: Port, q: Port)
    requires IsRun(START, run)
    ensures var s := After(START, run);
            && NoDup(Queue(s, p))
            && (t in Queue(s, p) && t in Queue(s, q) ==> p == q)
            && (t in Queue(s, p) ==> t !in s.held && ReplyQueue(s, t) == [])
            && (t in s.held ==> ReplyQueue(s, t) == [])
            && (t in s.msgs ==> t in s.held || ReplyQueue(s, t) == [t]
                                || (s.msgs[t].at.Server? && t in Queue(s, s.msgs[t].at.port)))
  {
    hide After, IsRun, SerialsOk, FifoAt, NoDup;
    assert Inv(START) by { StartOk(); }
    RunKeeps(START, run);
    var s := After(START, run);
    QueueFacts(s, p);
    QueueFacts(s, q);
    assert PlaceOk(s, t) by { assert ReplyQueue(s, t) == ReplyQueue(s, t); }
  }

  lemma StartOk()
    ensures Inv(START)
  {
    var s := START;
    forall p
      ensures QueueOk(Queue(s, p), p, s.msgs, s.held) && FifoAt(s, p)
    {
      assert Queue(s, p) == [] && Log(s.sent, p) == [] && Log(s.got, p) == [];
    }
    forall t
      ensures PlaceOk(s, t)
    {
      assert ReplyQueue(s, t) == [];
    }
  }

  lemma AnswersStandStep(s: State, a: Action, n: nat)
    requires Inv(s) && Enabled(s, a) && n in s.answered
    ensures var u := Step(s, a); n in u.answered && u.answered[n] == s.answered[n]
  {
    hide PlacesOk, FifoAt;
    if a.DoReply? && Resolves(s, a.p, a.t) {
      ReplySerials(s, a.p, a.t, a.status, a.rep, a.copied);
    }
  }

  /** A message is answered once: no later step changes the answer it got. */
  lemma {:induction false} AnswersStand(s: State, run: seq<Action>, n: nat)
    requires Inv(s) && IsRun(s, run) && n in s.answered
    ensures var u := After(s, run); n in u.answered && u.answered[n] == s.answered[n]
    decreases |run|
  {
    hide Inv, Step, Enabled;
    if run != [] {
      StepKeeps(s, run[0]);
      AnswersStandStep(s, run[0], n);
      AnswersStand(Step(s, run[0]), run[1..], n);
    }
  }

  /** What ksendmsg returned for a message is what the server answered it with. */
  lemma ReturnsTheAnswer(run: seq<Action>, n: nat)
    requires IsRun(START, run) && n in After(START, run).returned
    ensures var s := After(START, run); n in s.answered && s.returned[n] == s.answered[n]
  {
    hide After, IsRun, PlacesOk, FifoAt;
    assert Inv(START) by { StartOk(); }
    RunKeeps(START, run);
  }

  // ---------------------------------------------------------------------
  // What clients and servers see, read off their calls
  // ---------------------------------------------------------------------

  /** A thread that sends: nothing under way, waiting for the server of a port, or answered. */
  datatype Client = Idle | Waiting(port: Port, wantsReply: bool) | Answered(status: int)

  /**
    The first reply on its port answers a waiting thread: with the server's status, unless the
    thread wants reply data that the server has not supplied or that could not be read.
   */
  function NextClient(c: Client, shut: set<Port>, a: Action, t: Tid): Client {
    match a
    case DoSend(u, p, wantsReply) => if u == t && p !in shut then Waiting(p, wantsReply) else c
    case DoReply(p, u, status, rep, copied) =>
      if u != t || !c.Waiting? || c.port != p then c
      else if !c.wantsReply || (rep && copied) then Answered(status)
      else Answered(-14)
    case DoFinish(u) => if u == t then Idle else c
    case _ => c
  }

  /** The messages of a port that its server has not received: sends add at the end, receipts take the first. */
  function NextPort(q: seq<Tid>, shut: set<Port>, a: Action, p: Port): seq<Tid> {
    match a
    case DoSend(t, x, _) => if x == p && p !in shut then q + [t] else q
    case DoGet(x) => if x == p && p !in shut && q != [] then q[1..] else q
    case _ => q
  }

  function NextShut(shut: set<Port>, a: Action): set<Port> {
    if a.DoShut? then shut + {a.p} else shut
  }

  function ClientAfter(c: Client, shut: set<Port>, run: seq<Action>, t: Tid): Client
    decreases |run|
  {
    if run == [] then c else ClientAfter(NextClient(c, shut, run[0], t), NextShut(shut, run[0]), run[1..], t)
  }

  function PortAfter(q: seq<Tid>, shut: set<Port>, run: seq<Action>, p: Port): seq<Tid>
    decreases |run|
  {
    if run == [] then q else PortAfter(NextPort(q, shut, run[0], p), NextShut(shut, run[0]), run[1..], p)
  }

  /** The thread as its message shows it. */
  function ClientOf(s: State, t: Tid): Client {
    if t !in s.msgs then Idle
    else if s.msgs[t].at.Server? then Waiting(s.msgs[t].at.port, s.msgs[t].wantsReply)
    else Answered(s.msgs[t].status)
  }

  lemma SendClient(s: State, u: Tid, x: Port, wantsReply: bool, t: Tid)
    ensures ClientOf(Send(s, u, x, wantsReply), t) ==
            NextClient(ClientOf(s, t), s.shut, DoSend(u, x, wantsReply), t)
  {
    hide Queue, Log;
  }

  lemma SendPort(s: State, u: Tid, x: Port, wantsReply: bool, p: Port)
    ensures var n := Send(s, u, x, wantsReply);
            Queue(n, p) == NextPort(Queue(s, p), s.shut, DoSend(u, x, wantsReply), p) && n.shut == s.shut
  {
    hide Log;
    var n := Send(s, u, x, wantsReply);
    if x !in s.shut {
      assert n.pending == s.pending[x := Queue(s, x) + [u]];
    }
    hide Send;
  }

  lemma GetSeen(s: State, x: Port, t: Tid, p: Port)
    ensures var n := Get(s, x);
            && ClientOf(n, t) == ClientOf(s, t)
            && Queue(n, p) == NextPort(Queue(s, p), s.shut, DoGet(x), p) && n.shut == s.shut
  {
  }

  lemma ReplySeen(s: State, x: Port, u: Tid, status: int, rep: bool, copied: bool, t: Tid, p: Port)
    ensures var n := Reply(s, x, u, status, rep, copied);
            && ClientOf(n, t) == NextClient(ClientOf(s, t), s.shut, DoReply(x, u, status, rep, copied), t)
            && Queue(n, p) == Queue(s, p) && n.shut == s.shut
  {
  }

  lemma FinishSeen(s: State, u: Tid, t: Tid, p: Port)
    requires u in s.msgs && ReplyQueue(s, u) != []
    ensures var n := Finish(s, u);
            && ClientOf(n, t) == NextClient(ClientOf(s, t), s.shut, DoFinish(u), t)
            && Queue(n, p) == Queue(s, p) && n.shut == s.shut
  {
  }

  lemma StepSeen(s: State, a: Action, t: Tid, p: Port)
    requires Enabled(s, a)
    ensures var n := Step(s, a);
            && ClientOf(n, t) == NextClient(ClientOf(s, t), s.shut, a, t)
            && Queue(n, p) == NextPort(Queue(s, p), s.shut, a, p) && n.shut == NextShut(s.shut, a)
  {
    hide Send, Get, Reply, Finish;
    match a
    case DoSend(u, x, w) =>
      SendClient(s, u, x, w, t);
      SendPort(s, u, x, w, p);
    case DoGet(x) => GetSeen(s, x, t, p);
    case DoReply(x, u, status, rep, copied) => ReplySeen(s, x, u, status, rep, copied, t, p);
    case DoFinish(u) => FinishSeen(s, u, t, p);
    case DoShut(_) =>
  }

  lemma {:induction false} RunClient(s: State, run: seq<Action>, t: Tid, p: Port)
    requires IsRun(s, run)
    ensures ClientOf(After(s, run), t) == ClientAfter(ClientOf(s, t), s.shut, run, t)
    ensures Queue(After(s, run), p) == PortAfter(Queue(s, p), s.shut, run, p)
    decreases |run|
  {
    hide Enabled, Step, ClientOf, NextClient, NextPort, NextShut;
    if run != [] {
      StepSeen(s, run[0], t, p);
      RunClient(Step(s, run[0]), run[1..], t, p);
    }
  }

  /**
    Over any run, from the calls alone: ksendmsg returns exactly when the server of the port
    the thread sent to has replied, and its value is the status of that reply, or -EFAULT if
    the reply data that was wanted did not come.
   */
  lemma SenderGetsStatus(run: seq<Action>, t: Tid)
    requires IsRun(START, run)
    ensures var s := After(START, run); var c := ClientAfter(Idle, {}, run, t);
            && (t in s.msgs <==> c != Idle)
            && (Enabled(s, DoFinish(t)) <==> c.Answered?)
            && (c.Answered? ==> t in s.msgs && s.msgs[t].status == c.status)
            && (forall p :: Resolves(s, p, t) <==> c.Waiting? && c.port == p)
  {
    hide After, IsRun, SerialsOk, FifoAt;
    StartOk();
    RunKeeps(START, run);
    RunClient(START, run, t, Port(0));
    var s := After(START, run);
    assert PlaceOk(s, t) by { assert ReplyQueue(s, t) == ReplyQueue(s, t); }
  }

  /** And a server receives the messages of its port in the order of the sends, each once. */
  lemma ServerGetsNext(run: seq<Action>, p: Port)
    requires IsRun(START, run)
    ensures var s := After(START, run); var q := PortAfter([], {}, run, p);
            && Queue(s, p) == q
            && Next(s, p) == if p in s.shut || q == [] then None else Some(q[0])
  {
    hide After, IsRun;
    RunClient(START, run, Tid(0), p);
  }

  /** Whether the last send of `t` in the run was refused; `was` speaks of the sends before it. */
  ghost predicate LastRefused(s: State, run: seq<Action>, t: Tid, was: bool)
    requires IsRun(s, run)
    decreases |run|
  {
    if run == [] then was
    else
      var now := if run[0].DoSend? && run[0].t == t then run[0].p in s.shut else was;
      LastRefused(Step(s, run[0]), run[1..], t, now)
  }

  lemma StepUnresolved(s: State, a: Action, p: Port, t: Tid)
    requires Enabled(s, a) && !Resolves(s, p, t) && (a.DoSend? ==> a.t != t || a.p != p)
    ensures !Resolves(Step(s, a), p, t)
    ensures t in Step(s, a).stale <==> if a.DoSend? && a.t == t then a.p in s.shut else t in s.stale
  {
  }

  /**
    Once answered, a message id does not resolve on the port again until its thread sends
    there again, except that it may after a send of that thread to any port is refused,
    and until another is accepted.
   */
  lemma {:induction false} StaysUnresolved(s: State, run: seq<Action>, p: Port, t: Tid)
    requires Inv(s) && IsRun(s, run) && !Resolves(s, p, t)
    requires forall a :: a in run && a.DoSend? ==> a.t != t || a.p != p
    ensures !Resolves(After(s, run), p, t)
    ensures MayResolve(After(s, run), p, t) <==> LastRefused(s, run, t, t in s.stale)
    decreases |run|
  {
    hide Inv, Enabled, Step, Resolves;
    if run != [] {
      StepKeeps(s, run[0]);
      assert run[0] in run;
      assert forall a :: a in run[1..] ==> a in run;
      StepUnresolved(s, run[0], p, t);
      StaysUnresolved(Step(s, run[0]), run[1..], p, t);
    }
  }

  /** One send to a shut port, and the id may resolve on every port. */
  lemma RefusedSendMayResolve(t: Tid, p: Port, q: Port)
    ensures var run := [DoShut(q), DoSend(t, q, false)];
            IsRun(START, run) && t !in After(START, run).msgs && MayResolve(After(START, run), p, t)
  {
    hide Inv;
    var run := [DoShut(q), DoSend(t, q, false)];
    var s := Step(START, run[0]);
    assert run[1..] == [DoSend(t, q, false)];
    assert run[1..][1..] == [];
    assert IsRun(s, run[1..]) && After(s, run[1..]) == Send(s, t, q, false);
  }

  /** A server that answers an id it has not received leaves the message pending and answered at once. */
  lemma AnsweredBeforeReceived(t: Tid, p: Port, status: int)
    ensures var s := Send(START, t, p, false);
            Inv(s) && Resolves(s, p, t) && !Inv(Reply(s, p, t, status, false, false))
  {
    hide Inv;
    StartOk();
    SendKeeps(START, t, p, false);
    ReplyKeeps(Send(START, t, p, false), p, t, status, false, false);
  }

  lemma ReplyUnresolves(s: State, p: Port, t: Tid, status: int, rep: bool, copied: bool)
    ensures !Resolves(Reply(s, p, t, status, rep, copied), p, t)
  {
  }

  // ---------------------------------------------------------------------
  // The code
  // ---------------------------------------------------------------------

  datatype Taken = NoMessage | Message(id: Tid)

  class MessagePorts {
    var msgs: map<Tid, Msg>
    var pending: map<Port, seq<Tid>>
    var replies: map<Tid, seq<Tid>>
    var shut: set<Port>
    var stale: set<Tid>
    ghost var held: map<Tid, Port>
    ghost var sent: map<Port, seq<nat>>
    ghost var got: map<Port, seq<nat>>
    ghost var answered: map<nat, int>
    ghost var returned: map<nat, int>
    var next: nat

    ghost function View(): State
      reads this
    {
      State(msgs, pending, replies, held, shut, stale, sent, got, answered, returned, next)
    }

    constructor ()
      ensures View() == START && Inv(View())
    {
      msgs, pending, replies, shut, stale := map[], map[], map[], {}, {};
      held, sent, got, answered, returned := map[], map[], map[], map[], map[];
      next := 0;
      new;
      StartOk();
    }

    function ListOf(p: Port): seq<Tid>
      reads this
    {
      if p in pending then pending[p] else []
    }

    function RepliesOf(t: Tid): seq<Tid>
      reads this
    {
      if t in replies then replies[t] else []
    }

    /** ksendmsg up to its wait, with kputmsg; false is -ECONNABORTED. */
    method SendMsg(t: Tid, p: Port, wantsReply: bool) returns (ok: bool)
      requires Inv(View()) && t !in msgs
      modifies this
      ensures View() == Send(old(View()), t, p, wantsReply) && Inv(View())
      ensures ok <==> p !in shut
    {
      hide Inv, Send;
      SendKeeps(View(), t, p, wantsReply);
      ok := PutMsg(t, p, wantsReply);
    }

    method PutMsg(t: Tid, p: Port, wantsReply: bool) returns (ok: bool)
      modifies this
      ensures View() == Send(old(View()), t, p, wantsReply)
      ensures ok <==> p !in shut
    {
      ok := p !in shut;
      if !ok {
        stale := stale + {t};
        return;
      }
      stale := stale - {t};
      msgs := msgs[t := Msg(Server(p), 0, wantsReply, next)];
      pending := pending[p := ListOf(p) + [t]];
      sent := sent[p := Log(sent, p) + [next]];
      next := next + 1;
    }

    /** sys_getmsg: kpeekmsg, then kgetmsg. */
    method GetMsg(p: Port) returns (r: Taken)
      requires Inv(View())
      modifies this
      ensures View() == Get(old(View()), p) && Inv(View())
      ensures r == match Next(old(View()), p) { case None => NoMessage case Some(t) => Message(t) }
    {
      hide Inv;
      GetKeeps(View(), p);
      if ListOf(p) == [] {
        return NoMessage;
      }
      if p in shut {
        return NoMessage;
      }
      var t := ListOf(p)[0];
      pending := pending[p := ListOf(p)[1..]];
      held := held[t := p];
      got := got[p := Log(got, p) + if t in msgs then [msgs[t].serial] else []];
      r := Message(t);
    }

    /** sys_replymsg and kreplymsg; false is -EINVAL. */
    method ReplyMsg(p: Port, t: Tid, status: int, rep: bool, copied: bool) returns (ok: bool)
      requires Inv(View()) && (MayResolve(View(), p, t) ==> t in held)
      modifies this
      ensures View() == Reply(old(View()), p, t, status, rep, copied) && Inv(View())
      ensures ok <==> Resolves(old(View()), p, t)
      ensures !Resolves(View(), p, t)
    {
      hide Inv, ReplyStatus;
      ReplyOutcome(View(), p, t, status, rep, copied);
      if t !in msgs || msgs[t].at != Server(p) {
        return false;
      }
      var result := StatusFor(msgs[t].wantsReply, status, rep, copied);
      var m := msgs[t].(at := ReplyPort, status := result);
      msgs := msgs[t := m];
      replies := replies[t := RepliesOf(t) + [t]];
      held := held - {t};
      answered := answered[m.serial := result];
      ok := true;
    }

    method StatusFor(wantsReply: bool, status: int, rep: bool, copied: bool) returns (result: int)
      ensures result == ReplyStatus(wantsReply, status, rep, copied)
    {
      result := status;
      if wantsReply && rep {
        if !copied {
          result := EFAULT;
        }
      } else if wantsReply && !rep {
        result := EFAULT;
      }
    }

    /** The end of ksendmsg, once its reply port has a message. */
    method FinishMsg(t: Tid) returns (status: int)
      requires Inv(View()) && t in msgs && RepliesOf(t) != []
      modifies this
      ensures View() == Finish(old(View()), t) && Inv(View())
      ensures old(msgs[t].serial) in old(answered) && status == old(answered)[old(msgs[t].serial)]
      ensures status == old(msgs[t].status)
    {
      hide Inv;
      FinishKeeps(View(), t);
      replies := replies[t := RepliesOf(t)[1..]];
      status := msgs[t].status;
      returned := returned[msgs[t].serial := status];
      msgs := msgs - {t};
    }
  }
}
