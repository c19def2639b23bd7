/**
  The hashed timing wheel of proc/timer.c.

  A timer whose `armed` flag is set is a key of `expiry`.  `hard` is advanced by the
  clock interrupt and `soft` by the bottom half, which may lag behind.
 */
module TimingWheel {
  import opened Lists

  type Id = nat

  const JIFFIES: nat := 100

  datatype Wheel = Wheel(buckets: seq<seq<Id>>, expiry: map<Id, nat>, soft: nat, hard: nat)

  /** Every armed timer sits once in the bucket of its expiry and nothing else is on the wheel. */
  ghost predicate Valid(w: Wheel) {
    && |w.buckets| == JIFFIES
    && w.soft <= w.hard
    && (forall b :: 0 <= b < JIFFIES ==> NoDup(w.buckets[b]))
    && (forall b, i :: 0 <= b < JIFFIES ==> (i in w.buckets[b] <==> i in w.expiry && w.expiry[i] % JIFFIES == b))
  }

  /** No armed timer is overdue. */
  ghost predicate NoneOverdue(w: Wheel) {
    forall i :: i in w.expiry ==> w.soft <= w.expiry[i]
  }

  function Init(): (w: Wheel)
    ensures Valid(w) && NoneOverdue(w) && w.expiry == map[]
  {
    Wheel(seq(JIFFIES, _ => []), map[], 0, 0)
  }

  function Arm(w: Wheel, i: Id, ticks: nat): Wheel
    requires |w.buckets| == JIFFIES
  {
    var e := w.hard + ticks;
    w.(buckets := w.buckets[e % JIFFIES := w.buckets[e % JIFFIES] + [i]], expiry := w.expiry[i := e])
  }

  /** Unlinking a timer from the bucket its expiry names, with `armed` cleared. */
  function Disarm(w: Wheel, i: Id): Wheel
    requires |w.buckets| == JIFFIES && i in w.expiry
  {
    var b := w.expiry[i] % JIFFIES;
    w.(buckets := w.buckets[b := Without(w.buckets[b], i)], expiry := w.expiry - {i})
  }

  function Tick(w: Wheel): Wheel {
    w.(hard := w.hard + 1)
  }

  /** The inner loop of the bottom half over the timers `rest` of the current bucket. */
  function Scan(w: Wheel, rest: seq<Id>): (Wheel, seq<Id>)
    requires |w.buckets| == JIFFIES
    decreases rest
  {
    if rest == [] then (w, [])
    else if rest[0] in w.expiry && w.expiry[rest[0]] <= w.soft then
      var (v, fired) := Scan(Disarm(w, rest[0]), rest[1..]);
      (v, [rest[0]] + fired)
    else Scan(w, rest[1..])
  }

  /** One turn of the bottom half: expire the bucket of `soft`, then advance it. */
  function Pass(w: Wheel): (Wheel, seq<Id>)
    requires |w.buckets| == JIFFIES
  {
    var (v, fired) := Scan(w, w.buckets[w.soft % JIFFIES]);
    (v.(soft := v.soft + 1), fired)
  }

  lemma ArmKeeps(w: Wheel, i: Id, ticks: nat)
    requires Valid(w) && i !in w.expiry
    ensures Valid(Arm(w, i, ticks))
    ensures NoneOverdue(w) ==> NoneOverdue(Arm(w, i, ticks))
  {
  }

  /** A timer is last in the bucket it is armed into, and every other bucket is as it was. */
  lemma ArmIsLast(w: Wheel, i: Id, ticks: nat)
    requires Valid(w)
    ensures var v := Arm(w, i, ticks); var b := (w.hard + ticks) % JIFFIES;
            && |v.buckets| == JIFFIES && v.buckets[b] == w.buckets[b] + [i]
            && (forall h :: 0 <= h < JIFFIES && h != b ==> v.buckets[h] == w.buckets[h])
            && v.soft == w.soft && v.hard == w.hard
  {
  }

  lemma DisarmKeeps(w: Wheel, i: Id)
    requires Valid(w) && i in w.expiry
    ensures Valid(Disarm(w, i))
    ensures NoneOverdue(w) ==> NoneOverdue(Disarm(w, i))
  {
  }

  /** Scanning part of a bucket fires its due timers, each once and in list order. */
  lemma {:induction false} ScanFires(w: Wheel, rest: seq<Id>)
    requires Valid(w) && NoDup(rest)
    requires forall i :: i in rest ==> i in w.expiry
    ensures var (v, fired) := Scan(w, rest);
            && Valid(v) && v.soft == w.soft && v.hard == w.hard && NoDup(fired)
            && (forall i :: i in fired <==> i in rest && w.expiry[i] <= w.soft)
            && v.expiry == w.expiry - (set i | i in fired)
    decreases rest
  {
    if rest != [] {
      NoDupTail(rest);
      if w.expiry[rest[0]] <= w.soft {
        DisarmKeeps(w, rest[0]);
        var w' := Disarm(w, rest[0]);
        ScanFires(w', rest[1..]);
        var (v, fired) := Scan(w', rest[1..]);
        assert Scan(w, rest) == (v, [rest[0]] + fired);
        assert v.expiry == w.expiry - (set i | i in [rest[0]] + fired);
      } else {
        ScanFires(w, rest[1..]);
      }
    }
  }

  /** The due timers of a bucket, in its order. */
  ghost function Due(rest: seq<Id>, expiry: map<Id, nat>, soft: nat): seq<Id> {
    if rest == [] then []
    else (if rest[0] in expiry && expiry[rest[0]] <= soft then [rest[0]] else []) + Due(rest[1..], expiry, soft)
  }

  /** Timers fire in the order of their bucket: those due at one tick in the order they were armed. */
  lemma {:induction false} ScanInOrder(w: Wheel, rest: seq<Id>)
    requires Valid(w) && NoDup(rest)
    ensures Scan(w, rest).1 == Due(rest, w.expiry, w.soft)
    decreases rest
  {
    if rest != [] {
      NoDupTail(rest);
      if rest[0] in w.expiry && w.expiry[rest[0]] <= w.soft {
        DisarmKeeps(w, rest[0]);
        ScanInOrder(Disarm(w, rest[0]), rest[1..]);
        DueWithout(rest[1..], w.expiry, rest[0], w.soft);
      } else {
        ScanInOrder(w, rest[1..]);
        assert [] + Due(rest[1..], w.expiry, w.soft) == Due(rest[1..], w.expiry, w.soft);
      }
    }
  }

  lemma {:induction false} DueWithout(rest: seq<Id>, expiry: map<Id, nat>, i: Id, soft: nat)
    requires i !in rest
    ensures Due(rest, expiry - {i}, soft) == Due(rest, expiry, soft)
  {
    if rest != [] {
      DueWithout(rest[1..], expiry, i, soft);
    }
  }

  /** The pass at `soft` fires the armed timers of its bucket that are due, and no others. */
  lemma PassFires(w: Wheel)
    requires Valid(w) && w.soft < w.hard
    ensures var (v, fired) := Pass(w);
            && Valid(v) && v.soft == w.soft + 1 && v.hard == w.hard && NoDup(fired)
            && (forall i :: i in fired <==>
                  i in w.expiry && w.expiry[i] % JIFFIES == w.soft % JIFFIES && w.expiry[i] <= w.soft)
            && v.expiry == w.expiry - (set i | i in fired)
  {
    ScanFires(w, w.buckets[w.soft % JIFFIES]);
  }

  // ---------------------------------------------------------------------
  // The wheel against a plain set of deadlines
  // ---------------------------------------------------------------------

  datatype Op = OpArm(i: Id, ticks: nat) | OpCancel(i: Id) | OpTick | OpPass

  /** The reference machine: deadlines in a map, and no buckets. */
  datatype Deadlines = Deadlines(due: map<Id, nat>, soft: nat, hard: nat)

  function Abs(w: Wheel): Deadlines {
    Deadlines(w.expiry, w.soft, w.hard)
  }

  predicate Legal(d: Deadlines, op: Op) {
    match op
    case OpArm(i, _) => i !in d.due
    case OpCancel(i) => i in d.due
    case OpTick => true
    case OpPass => d.soft < d.hard
  }

  /** A pass at time t fires exactly the timers due at t. */
  function DeadlineStep(d: Deadlines, op: Op): (Deadlines, set<Id>) {
    match op
    case OpArm(i, ticks) => (d.(due := d.due[i := d.hard + ticks]), {})
    case OpCancel(i) => (d.(due := d.due - {i}), {})
    case OpTick => (d.(hard := d.hard + 1), {})
    case OpPass =>
      (d.(due := d.due - DueAt(d.due, d.soft), soft := d.soft + 1), DueAt(d.due, d.soft))
  }

  function DueAt(due: map<Id, nat>, t: nat): set<Id> {
    set i | i in due && due[i] == t
  }

  function WheelStep(w: Wheel, op: Op): (Wheel, set<Id>)
    requires |w.buckets| == JIFFIES && Legal(Abs(w), op)
  {
    match op
    case OpArm(i, ticks) => (Arm(w, i, ticks), {})
    case OpCancel(i) => (Disarm(w, i), {})
    case OpTick => (Tick(w), {})
    case OpPass => var (v, fired) := Pass(w); (v, set i | i in fired)
  }

  predicate LegalRun(d: Deadlines, ops: seq<Op>)
    decreases ops
  {
    ops == [] || (Legal(d, ops[0]) && LegalRun(DeadlineStep(d, ops[0]).0, ops[1..]))
  }

  /** The final state and the set fired by each operation of a run. */
  function DeadlineRun(d: Deadlines, ops: seq<Op>): (r: (Deadlines, seq<set<Id>>))
    decreases ops
  {
    if ops == [] then (d, [])
    else
      var (d', fired) := DeadlineStep(d, ops[0]);
      var (end, rest) := DeadlineRun(d', ops[1..]);
      (end, [fired] + rest)
  }

  function WheelRun(w: Wheel, ops: seq<Op>): (Wheel, seq<set<Id>>)
    requires Valid(w) && NoneOverdue(w) && LegalRun(Abs(w), ops)
    decreases ops
  {
    if ops == [] then (w, [])
    else
      StepRefines(w, ops[0]);
      var (w', fired) := WheelStep(w, ops[0]);
      var (end, rest) := WheelRun(w', ops[1..]);
      (end, [fired] + rest)
  }

  /** One wheel operation is the same operation on the set of deadlines. */
  lemma StepRefines(w: Wheel, op: Op)
    requires Valid(w) && NoneOverdue(w) && Legal(Abs(w), op)
    ensures var (v, fired) := WheelStep(w, op);
            Valid(v) && NoneOverdue(v) && (Abs(v), fired) == DeadlineStep(Abs(w), op)
  {
    match op
    case OpArm(i, ticks) => ArmKeeps(w, i, ticks);
    case OpCancel(i) => DisarmKeeps(w, i);
    case OpTick =>
    case OpPass =>
      PassFires(w);
      var (v, fired) := Pass(w);
      assert (set i | i in fired) == DueAt(w.expiry, w.soft);
      assert WheelStep(w, op).1 == (set i | i in fired);
  }

  /** Over every run the wheel fires what the set of deadlines fires, pass by pass. */
  lemma {:induction false} WheelRefinesDeadlines(w: Wheel, ops: seq<Op>)
    requires Valid(w) && NoneOverdue(w) && LegalRun(Abs(w), ops)
    ensures Abs(WheelRun(w, ops).0) == DeadlineRun(Abs(w), ops).0
    ensures WheelRun(w, ops).1 == DeadlineRun(Abs(w), ops).1
    ensures Valid(WheelRun(w, ops).0) && NoneOverdue(WheelRun(w, ops).0)
    decreases ops
  {
    if ops != [] {
      StepRefines(w, ops[0]);
      WheelRefinesDeadlines(WheelStep(w, ops[0]).0, ops[1..]);
    }
  }

  /** A timer armed with a delay has not fired until the clock is past the whole delay. */
  lemma {:induction false} NeverEarly(d: Deadlines, ops: seq<Op>, i: Id, deadline: nat)
    requires LegalRun(d, ops) && d.soft <= d.hard
    requires if i in d.due then d.due[i] == deadline else deadline < d.hard
    requires forall op :: op in ops ==> op != OpCancel(i) && !(op.OpArm? && op.i == i)
    ensures var end := DeadlineRun(d, ops).0;
            if i in end.due then end.due[i] == deadline else deadline < end.hard
    decreases ops
  {
    if ops != [] {
      NeverEarly(DeadlineStep(d, ops[0]).0, ops[1..], i, deadline);
    }
  }

  /** sys_sleep(seconds): its armed flag is still set until more than 100 * seconds ticks have passed. */
  lemma SleepLastsItsSeconds(w: Wheel, i: Id, seconds: nat, ops: seq<Op>)
    requires Valid(w) && NoneOverdue(w) && i !in w.expiry
    requires LegalRun(Abs(Arm(w, i, seconds * JIFFIES)), ops)
    requires forall op :: op in ops ==> op != OpCancel(i) && !(op.OpArm? && op.i == i)
    ensures Valid(Arm(w, i, seconds * JIFFIES)) && NoneOverdue(Arm(w, i, seconds * JIFFIES))
    ensures var end := WheelRun(Arm(w, i, seconds * JIFFIES), ops).0;
            i !in end.expiry ==> end.hard > w.hard + seconds * JIFFIES
  {
    var w' := Arm(w, i, seconds * JIFFIES);
    ArmKeeps(w, i, seconds * JIFFIES);
    NeverEarly(Abs(w'), ops, i, w.hard + seconds * JIFFIES);
    WheelRefinesDeadlines(w', ops);
  }

  /** How many passes away the firing of a timer is: its deadline when that lies
      ahead, otherwise the next turn of the wheel that reaches its bucket. */
  function PassesUntil(expiry: nat, soft: nat): nat {
    if expiry >= soft then expiry - soft else (expiry - soft) % JIFFIES
  }

  function AfterPasses(w: Wheel, n: nat): (v: Wheel)
    requires |w.buckets| == JIFFIES
    ensures |v.buckets| == JIFFIES
    decreases n
  {
    if n == 0 then w else AfterPasses(PassLength(w), n - 1)
  }

  function PassLength(w: Wheel): (v: Wheel)
    requires |w.buckets| == JIFFIES
    ensures v == Pass(w).0 && |v.buckets| == JIFFIES
  {
    ScanLength(w, w.buckets[w.soft % JIFFIES]);
    Pass(w).0
  }

  lemma {:induction false} ScanLength(w: Wheel, rest: seq<Id>)
    requires |w.buckets| == JIFFIES
    ensures |Scan(w, rest).0.buckets| == JIFFIES
    decreases rest
  {
    if rest != [] {
      if rest[0] in w.expiry && w.expiry[rest[0]] <= w.soft {
        ScanLength(Disarm(w, rest[0]), rest[1..]);
      } else {
        ScanLength(w, rest[1..]);
      }
    }
  }

  /** Any armed timer, overdue or not, fires in exactly one pass: the one PassesUntil names.
      So it fires at its deadline if and only if the deadline was not already overdue. */
  lemma {:induction false} FiresInPass(w: Wheel, i: Id, n: nat)
    requires Valid(w) && i in w.expiry && w.soft + n < w.hard
    ensures Valid(AfterPasses(w, n))
    ensures i in AfterPasses(w, n).expiry <==> n <= PassesUntil(w.expiry[i], w.soft)
    ensures i in Pass(AfterPasses(w, n)).1 <==> n == PassesUntil(w.expiry[i], w.soft)
    decreases n
  {
    OnePass(w, i);
    if n > 0 {
      var v := PassLength(w);
      if i in v.expiry {
        FiresInPass(v, i, n - 1);
      } else {
        StaysOff(v, i, n - 1);
      }
    }
  }

  lemma OnePass(w: Wheel, i: Id)
    requires Valid(w) && i in w.expiry && w.soft < w.hard
    ensures var (v, fired) := Pass(w);
            && Valid(v) && v.soft == w.soft + 1 && v.hard == w.hard
            && (i in fired <==> PassesUntil(w.expiry[i], w.soft) == 0)
            && (i in v.expiry <==> PassesUntil(w.expiry[i], w.soft) != 0)
            && (i in v.expiry ==> v.expiry[i] == w.expiry[i] &&
                                  PassesUntil(w.expiry[i], v.soft) == PassesUntil(w.expiry[i], w.soft) - 1)
  {
    PassFires(w);
    DueNow(w.expiry[i], w.soft);
    if PassesUntil(w.expiry[i], w.soft) != 0 {
      DueLater(w.expiry[i], w.soft);
    }
  }

  lemma DueNow(e: nat, soft: nat)
    ensures (e % JIFFIES == soft % JIFFIES && e <= soft) <==> PassesUntil(e, soft) == 0
  {
  }

  lemma DueLater(e: nat, soft: nat)
    requires PassesUntil(e, soft) != 0
    ensures PassesUntil(e, soft + 1) == PassesUntil(e, soft) - 1
  {
  }

  lemma {:induction false} StaysOff(w: Wheel, i: Id, n: nat)
    requires Valid(w) && i !in w.expiry && w.soft + n < w.hard
    ensures Valid(AfterPasses(w, n)) && i !in AfterPasses(w, n).expiry && i !in Pass(AfterPasses(w, n)).1
    decreases n
  {
    PassFires(w);
    if n > 0 {
      StaysOff(PassLength(w), i, n - 1);
    }
  }
}
