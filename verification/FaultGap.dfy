/**
  A copy-on-write fault that has to wait for memory (vm/pagefault.c:87-114).

  page_fault gives up its reference and its mapping before it calls alloc_page, which sleeps
  while no page is free. Other processes run in that gap. The page it then copies from is
  whatever the frame holds by that time.
 */
module FaultGap {
  import opened Lists
  import opened CopyOnWrite
  import opened CopyOnWriteRuns

  /** A write fault on a page that is still shared. */
  predicate Shared(v: Vm, p: Pid, a: Page) {
    && CanBreak(v, p, a) && v.spaces[p][a].frame in v.refs && v.spaces[p][a].frame in v.mem
    && v.refs[v.spaces[p][a].frame] > 1
  }

  /** Up to alloc_page: the reference and the mapping are gone. */
  function BeginFault(v: Vm, p: Pid, a: Page): Vm
    requires Shared(v, p, a)
  {
    var f := v.spaces[p][a].frame;
    v.(refs := v.refs[f := v.refs[f] - 1], spaces := DropPte(v.spaces, p, a))
  }

  /** What is copied: alloc_page has cleared the new frame, which may be the old one come free. */
  function Copied(v: Vm, f: Frame): Bytes
    requires v.free != [] && f in v.mem
  {
    if AllocFrame(v) == f then Zeros() else v.mem[f]
  }

  /** From alloc_page on: a new frame with the bytes of frame f, mapped writable. */
  function EndFault(v: Vm, p: Pid, a: Page, f: Frame): Vm
    requires p in v.spaces && v.free != [] && f in v.mem
  {
    var n := AllocFrame(v);
    Vm(SetPte(v.spaces, p, a, Pte(n, true, false, false)), v.refs[n := 1], v.mem[n := Copied(v, f)],
       v.free[..|v.free| - 1], v.leaked)
  }

  /** Without a wait the two parts are the fault. */
  lemma NoGapIsFault(v: Vm, p: Pid, a: Page)
    requires Inv(v) && Shared(v, p, a) && v.free != []
    ensures var f := v.spaces[p][a].frame;
            (EndFault(BeginFault(v, p, a), p, a, f), true) == Fault(v, p, a)
  {
    hide Exclusive, Users, PagesOk, NoDup;
    NotFree(v, p, a);
    var e := v.spaces[p][a];
    var n := Pte(AllocFrame(v), true, false, false);
    assert (v.spaces[p] - {a})[a := n] == v.spaces[p][a := n];
    assert SetPte(DropPte(v.spaces, p, a), p, a, n) == SetPte(v.spaces, p, a, n);
  }

  /** In the gap memory is in order, and the process sees no page there. */
  lemma BeginFaultKeeps(v: Vm, p: Pid, a: Page)
    requires Inv(v) && Shared(v, p, a)
    ensures Inv(BeginFault(v, p, a)) && p in Abs(v) && Abs(BeginFault(v, p, a)) == EagerDrop(Abs(v), p, a)
  {
    hide Inv, Abs;
    assert BeginFault(v, p, a) == CleanupOne(v, p, a);
    CleanupOneInv(v, p, a);
    CleanupOneAbs(v, p, a);
    AbsKeys(v);
  }

  lemma EndFaultKeeps(v: Vm, p: Pid, a: Page, f: Frame)
    requires Inv(v) && p in v.spaces && v.free != [] && a !in v.spaces[p] && USER_BASE <= a < USER_CEILING && f in v.mem
    ensures var w := EndFault(v, p, a, f);
            Inv(w) && p in Abs(v) && Abs(w) == EagerSet(Abs(v), p, a, Ram(Copied(v, f), true))
  {
    hide Exclusive, PagesOk, NoDup, SameBytes, CountsOk, Abs;
    var n, w := AllocFrame(v), EndFault(v, p, a, f);
    var e := Pte(n, true, false, false);
    FreeTail(v);
    MapNewFrame(v, w, p, a, e);
    PagesSet(v.spaces, v.mem, p, a, e);
    PagesGrow(w.spaces, v.mem, w.mem);
    FreshBytes(v, w, p, a, Copied(v, f));
    AbsSet(v, w, p, a, e);
    AbsKeys(v);
  }

  // ---------------------------------------------------------------------
  // Frames
  // ---------------------------------------------------------------------

  /** The store goes into frame f: it is mapped writable, or the fault finds its sharing over. */
  predicate Reaches(v: Vm, op: Op, f: Frame) {
    && op.OpStore? && Maps(v.spaces, op.p, op.a, f)
    && (HwWritable(v.spaces[op.p][op.a]) || (f in v.refs && v.refs[f] <= 1))
  }

  lemma {:induction false} MmapMem(v: Vm, p: Pid, a: Page, n: nat, write: bool, f: Frame)
    requires Inv(v) && p in v.spaces && n <= |v.free| && Unmapped(v.spaces[p], a, n) && f in v.mem
    ensures var w := Mmap(v, p, a, n, write); f in w.mem && (f !in v.free ==> w.mem[f] == v.mem[f])
    decreases n
  {
    hide Inv;
    if n > 0 {
      MmapOneInv(v, p, a, write);
      MmapMem(MmapOne(v, p, a, write), p, a + 1, n - 1, write, f);
    }
  }

  lemma {:induction false} MmapPhysMem(v: Vm, p: Pid, a: Page, n: nat, f: Frame, write: bool)
    requires Inv(v) && p in v.spaces && Unmapped(v.spaces[p], a, n)
    ensures MmapPhys(v, p, a, n, f, write).mem == v.mem
    decreases n
  {
    hide Inv;
    if n > 0 {
      MmapPhysOneInv(v, p, a, f, write);
      MmapPhysMem(MmapPhysOne(v, p, a, f, write), p, a + 1, n - 1, f + 1, write);
    }
  }

  lemma {:induction false} MunmapMem(v: Vm, p: Pid, a: Page, n: nat)
    requires Inv(v) && p in v.spaces
    ensures Munmap(v, p, a, n).mem == v.mem
    decreases n
  {
    hide Inv;
    if n > 0 {
      MunmapOneInv(v, p, a);
      MunmapMem(MunmapOne(v, p, a), p, a + 1, n - 1);
    }
  }

  lemma {:induction false} ForkMem(v: Vm, p: Pid, c: Pid, a: Page)
    requires Inv(v) && p in v.spaces && c in v.spaces && p != c && a <= USER_CEILING
    requires forall b :: b in v.spaces[c] ==> b < a
    ensures ForkFrom(v, p, c, a).mem == v.mem
    decreases USER_CEILING - a
  {
    hide Inv;
    if a < USER_CEILING {
      ForkOneInv(v, p, c, a);
      ForkMem(ForkOne(v, p, c, a), p, c, a + 1);
    }
  }

  lemma {:induction false} CleanupMem(v: Vm, p: Pid, a: Page)
    requires Inv(v) && p in v.spaces && a <= USER_CEILING
    ensures CleanupFrom(v, p, a).mem == v.mem
    decreases USER_CEILING - a
  {
    hide Inv;
    if a < USER_CEILING {
      CleanupOneInv(v, p, a);
      CleanupMem(CleanupOne(v, p, a), p, a + 1);
    }
  }

  lemma StoreMem(v: Vm, op: Op, f: Frame)
    requires Inv(v) && op.OpStore? && Enabled(v, op) && f in v.mem
    ensures var w := Store(v, op.p, op.a, op.i, op.b).0;
            f in w.mem && (f !in v.free && !Reaches(v, op, f) ==> w.mem[f] == v.mem[f])
  {
    hide Exclusive, CountsOk, Users, NoDup;
    if op.p in v.spaces && op.a in v.spaces[op.p] && CanBreak(v, op.p, op.a) {
      FaultInv(v, op.p, op.a);
    }
  }

  /** Only a store that reaches a frame changes its bytes while it is in use. */
  lemma StepMem(v: Vm, op: Op, f: Frame)
    requires Inv(v) && Enabled(v, op) && f in v.mem
    ensures var w := Step(v, op).0; f in w.mem && (f !in v.free && !Reaches(v, op, f) ==> w.mem[f] == v.mem[f])
  {
    hide Inv, Mmap, MmapPhys, Munmap, ForkFrom, CleanupFrom, Store;
    match op
    case OpMmap(p, a, n, write) => MmapMem(v, p, a, n, write, f);
    case OpMmapPhys(p, a, n, g, write) => MmapPhysMem(v, p, a, n, g, write);
    case OpMunmap(p, a, n) => MunmapMem(v, p, a, n);
    case OpFork(p, c) =>
      EmptyInv(v, c);
      ForkMem(Empty(v, c), p, c, USER_BASE);
    case OpStore(_, _, _, _) => StoreMem(v, op, f);
    case OpFault(_, _) =>
    case OpExit(p) => CleanupMem(v, p, USER_BASE);
  }

  /** Over the run frame f stays in use and no store reaches it. */
  ghost predicate Spared(v: Vm, ops: seq<Op>, f: Frame)
    requires Inv(v) && IsRun(v, ops)
    decreases |ops|
  {
    f !in v.free && (ops != [] ==> !Reaches(v, ops[0], f) && Spared(Step(v, ops[0]).0, ops[1..], f))
  }

  lemma {:induction false} RunMem(v: Vm, ops: seq<Op>, f: Frame)
    requires Inv(v) && IsRun(v, ops) && f in v.mem
    ensures var w := Run(v, ops).0; f in w.mem && (Spared(v, ops, f) ==> f !in w.free && w.mem[f] == v.mem[f])
    decreases |ops|
  {
    hide Inv, Step, Enabled, Reaches;
    if ops != [] {
      StepMem(v, ops[0], f);
      RunMem(Step(v, ops[0]).0, ops[1..], f);
    }
  }

  // ---------------------------------------------------------------------
  // What the gap costs
  // ---------------------------------------------------------------------

  /** An operation of another process. */
  predicate Others(op: Op, p: Pid) {
    op.p != p && (op.OpFork? ==> op.c != p)
  }

  /** It does the same whether or not process p sees its page a, and p's memory is left alone. */
  lemma OthersDoNotCare(e: Eager, op: Op, p: Pid, a: Page)
    requires p in e && Others(op, p)
    ensures p in EagerStep(e, op).0 && EagerStep(e, op).0[p] == e[p]
    ensures EagerStep(EagerDrop(e, p, a), op) == (EagerDrop(EagerStep(e, op).0, p, a), EagerStep(e, op).1)
  {
    hide Pages, ZeroPages, DevicePages, EagerDrop;
    DropKeys(e, p, a);
    match op
    case OpMmap(q, b, n, write) => SetOther(e, p, a, q, if q in e then e[q] + ZeroPages(b, n, write) else map[]);
    case OpMmapPhys(q, b, n, f, write) =>
      SetOther(e, p, a, q, if q in e then e[q] + DevicePages(b, n, f, write) else map[]);
    case OpMunmap(q, b, n) => SetOther(e, p, a, q, if q in e then e[q] - Pages(b, n) else map[]);
    case OpFork(q, c) => SetOther(e, p, a, c, if q in e then map b | b in e[q] :: Child(e[q][b]) else map[]);
    case OpStore(q, b, i, x) =>
      if q in e && b in e[q] && e[q][b].Ram? && i < |e[q][b].bytes| {
        SetOther(e, p, a, q, e[q][b := e[q][b].(bytes := e[q][b].bytes[i := x])]);
      }
    case OpFault(_, _) =>
    case OpExit(q) => SetOther(e, p, a, q, map[]);
  }

  lemma DropKeys(e: Eager, p: Pid, a: Page)
    requires p in e
    ensures EagerDrop(e, p, a).Keys == e.Keys && forall q :: q in e && q != p ==> EagerDrop(e, p, a)[q] == e[q]
  {
  }

  lemma SetOther(e: Eager, p: Pid, a: Page, q: Pid, m: map<Page, Seen>)
    requires p in e && q != p
    ensures EagerDrop(e, p, a)[q := m] == EagerDrop(e[q := m], p, a)
  {
  }

  lemma {:induction false} OthersRun(e: Eager, ops: seq<Op>, p: Pid, a: Page)
    requires p in e && forall i :: 0 <= i < |ops| ==> Others(ops[i], p)
    ensures p in EagerRun(e, ops).0 && EagerRun(e, ops).0[p] == e[p]
    ensures EagerRun(EagerDrop(e, p, a), ops) == (EagerDrop(EagerRun(e, ops).0, p, a), EagerRun(e, ops).1)
    decreases |ops|
  {
    hide EagerStep, EagerDrop, Others;
    if ops != [] {
      OthersDoNotCare(e, ops[0], p, a);
      OthersRun(EagerStep(e, ops[0]).0, ops[1..], p, a);
    }
  }

  /**
    Whatever other processes do in the gap, they see what they would with eager copying. So
    does the faulting process if and only if the old frame still holds the bytes it had at the
    fault, or has come free and is handed out again, cleared, and they were zeros. In any case
    its page has the bytes copied.
   */
  lemma GapIsInvisibleIff(v: Vm, p: Pid, a: Page, ops: seq<Op>)
    requires Inv(v) && Shared(v, p, a)
    requires Inv(BeginFault(v, p, a)) && IsRun(BeginFault(v, p, a), ops)
    requires forall i :: 0 <= i < |ops| ==> Others(ops[i], p)
    requires Run(BeginFault(v, p, a), ops).0.free != []
    ensures var f := v.spaces[p][a].frame;
            var (w, oks) := Run(BeginFault(v, p, a), ops);
            var (e, eagerOks) := EagerRun(Abs(v), ops);
            && f in w.mem && p in w.spaces && p in e && oks == eagerOks
            && Inv(EndFault(w, p, a, f))
            && Abs(EndFault(w, p, a, f)) == EagerSet(e, p, a, Ram(Copied(w, f), true))
            && (Abs(EndFault(w, p, a, f)) == e <==>
                  if AllocFrame(w) == f then v.mem[f] == Zeros() else w.mem[f] == v.mem[f])
  {
    hide Inv, IsRun, Run, EagerRun, Abs, Others;
    var b := BeginFault(v, p, a);
    var f := v.spaces[p][a].frame;
    BeginFaultKeeps(v, p, a);
    CowRefinesEager(b, ops);
    OthersRun(Abs(v), ops, p, a);
    var w, e := Run(b, ops).0, EagerRun(Abs(v), ops).0;
    RunMem(b, ops, f);
    GapPage(v, p, a, w, e);
    EndFaultKeeps(w, p, a, f);
    SetDropped(e, p, a, Ram(Copied(w, f), true));
  }

  /** The page is missing in the gap; eager copying has it as it was. */
  lemma GapPage(v: Vm, p: Pid, a: Page, w: Vm, e: Eager)
    requires Inv(v) && Shared(v, p, a) && p in e && p in Abs(v) && e[p] == Abs(v)[p] && Abs(w) == EagerDrop(e, p, a)
    ensures p in w.spaces && a !in w.spaces[p] && USER_BASE <= a < USER_CEILING
    ensures a in e[p] && e[p][a] == Ram(v.mem[v.spaces[p][a].frame], true)
  {
    hide Exclusive, CountsOk, MemOk, Users;
    AbsKeys(w);
    assert Abs(w)[p] == e[p] - {a};
  }

  lemma SetDropped(e: Eager, p: Pid, a: Page, s: Seen)
    requires p in e && a in e[p]
    ensures EagerSet(EagerDrop(e, p, a), p, a, s) == EagerSet(e, p, a, s)
    ensures EagerSet(e, p, a, s) == e <==> e[p][a] == s
  {
    assert (e[p] - {a})[a := s] == e[p][a := s];
    if e[p][a] == s {
      EagerSame(e, p, a);
    } else {
      assert EagerSet(e, p, a, s)[p][a] == s;
    }
  }

  /** So it does when the old frame stays in use and no store reaches it in the gap. */
  lemma SparedGapIsInvisible(v: Vm, p: Pid, a: Page, ops: seq<Op>)
    requires Inv(v) && Shared(v, p, a)
    requires Inv(BeginFault(v, p, a)) && IsRun(BeginFault(v, p, a), ops)
    requires forall i :: 0 <= i < |ops| ==> Others(ops[i], p)
    requires Run(BeginFault(v, p, a), ops).0.free != []
    requires Spared(BeginFault(v, p, a), ops, v.spaces[p][a].frame)
    ensures var f := v.spaces[p][a].frame;
            var w := Run(BeginFault(v, p, a), ops).0;
            f in w.mem && p in w.spaces && Abs(EndFault(w, p, a, f)) == EagerRun(Abs(v), ops).0
  {
    hide Inv, IsRun, Run, EagerRun, Abs, Others, Spared;
    var f := v.spaces[p][a].frame;
    RunMem(BeginFault(v, p, a), ops, f);
    GapIsInvisibleIff(v, p, a, ops);
  }

  // ---------------------------------------------------------------------
  // A store in the gap
  // ---------------------------------------------------------------------

  const TEXT: Page := USER_BASE

  /** A parent, 1, and its child, 2, share a page of zeros; process 3 has the other frame, and none is free. */
  function Family(): Vm {
    var shared: Space := map[TEXT := Pte(0, true, true, false)];
    var own: Space := map[TEXT := Pte(1, true, false, false)];
    Vm(map[1 := shared, 2 := shared, 3 := own], map[0 := 2, 1 := 1], map[0 := Zeros(), 1 := Zeros()], [], map[])
  }

  lemma FamilyMaps(q: Pid, b: Page, f: Frame)
    ensures Maps(Family().spaces, q, b, f) <==>
            b == TEXT && ((f == 0 && (q == 1 || q == 2)) || (f == 1 && q == 3))
  {
    hide Zeros;
  }

  lemma FamilyUsers(f: Frame)
    ensures Users(Family().spaces, f) ==
            if f == 0 then {(1, TEXT), (2, TEXT)} else if f == 1 then {(3, TEXT)} else {}
  {
    hide Maps, Zeros;
    var v := Family();
    assert TEXT in v.spaces[1] && TEXT in v.spaces[2] && TEXT in v.spaces[3];
    forall q: Pid, b: Page
      ensures Maps(v.spaces, q, b, f) <==> b == TEXT && ((f == 0 && (q == 1 || q == 2)) || (f == 1 && q == 3))
    {
      FamilyMaps(q, b, f);
    }
  }

  lemma FamilyExclusive()
    ensures Exclusive(Family().spaces)
  {
    hide Zeros;
    forall p: Pid, a: Page, q: Pid, b: Page, f: Frame
      | Maps(Family().spaces, p, a, f) && Maps(Family().spaces, q, b, f) && HwWritable(Family().spaces[p][a])
      ensures p == q && a == b
    {
      FamilyMaps(p, a, f);
      FamilyMaps(q, b, f);
    }
  }

  lemma FamilyOk()
    ensures Inv(Family()) && Shared(Family(), 2, TEXT)
  {
    hide Maps, Users, Zeros, Exclusive;
    FamilyExclusive();
    FamilyUsers(0);
    FamilyUsers(1);
  }

  /**
    The child faults and waits. The parent stores to the page, which it now has alone, and
    process 3 exits, so that the child goes on with its frame.
   */
  function InTheGap(b: bv8): seq<Op> {
    [OpStore(1, TEXT, 0, b), OpExit(3)]
  }

  lemma ParentStores(b: bv8)
    requires Inv(Family()) && Shared(Family(), 2, TEXT) && Inv(BeginFault(Family(), 2, TEXT))
    ensures var v := BeginFault(Family(), 2, TEXT);
            && Supplied(v, 1, TEXT)
            && Store(v, 1, TEXT, 0, b).1
            && var w := Store(v, 1, TEXT, 0, b).0;
               && w.mem == map[0 := Zeros()[0 := b], 1 := Zeros()] && w.free == []
               && w.refs == map[0 := 1, 1 := 1]
               && 3 in w.spaces && w.spaces[3] == map[TEXT := Pte(1, true, false, false)]
  {
    hide Inv, Zeros;
  }

  /** The exit of a process whose only page is its own frees that frame. */
  lemma OnePageExits(v: Vm, p: Pid, f: Frame)
    requires Inv(v) && p in v.spaces && v.spaces[p] == map[TEXT := Pte(f, true, false, false)]
    requires f in v.refs && v.refs[f] == 1
    ensures Exit(v, p).free == v.free + [f] && Exit(v, p).mem == v.mem
  {
    hide Inv;
    CleanupOneInv(v, p, TEXT);
    var w := CleanupOne(v, p, TEXT);
    assert w.spaces[p] == map[];
    NoPageExits(w, p, TEXT + 1);
  }

  lemma {:induction false} NoPageExits(v: Vm, p: Pid, a: Page)
    requires Inv(v) && p in v.spaces && v.spaces[p] == map[] && a <= USER_CEILING
    ensures CleanupFrom(v, p, a) == v
    decreases USER_CEILING - a
  {
    hide Inv;
    if a < USER_CEILING {
      NoPageExits(v, p, a + 1);
    }
  }

  lemma GapRun(s: Vm, b: bv8)
    requires Inv(s) && Supplied(s, 1, TEXT) && 3 in Store(s, 1, TEXT, 0, b).0.spaces
    ensures IsRun(s, InTheGap(b)) && Run(s, InTheGap(b)).0 == Exit(Store(s, 1, TEXT, 0, b).0, 3)
  {
    hide Inv, Store, Exit, Supplied;
    var ops := InTheGap(b);
    var t := Step(s, ops[0]).0;
    assert Enabled(t, ops[1]);
    var u := Step(t, ops[1]).0;
    assert ops[1..][0] == ops[1] && ops[1..][1..] == [];
    assert IsRun(u, []) && Run(u, []).0 == u;
    assert IsRun(t, ops[1..]) && Run(t, ops[1..]).0 == u;
  }

  /** The child then sees what its parent stored after the fork. */
  lemma ChildSeesStore(b: bv8) returns (w: Vm)
    ensures Inv(Family()) && Shared(Family(), 2, TEXT) && Inv(BeginFault(Family(), 2, TEXT))
    ensures IsRun(BeginFault(Family(), 2, TEXT), InTheGap(b)) && w == Run(BeginFault(Family(), 2, TEXT), InTheGap(b)).0
    ensures w.free == [1] && 0 in w.mem && 2 in w.spaces
    ensures SeenBy(Abs(EndFault(w, 2, TEXT, 0)), 2, TEXT) == Some(Ram(Zeros()[0 := b], true))
    ensures SeenBy(EagerRun(Abs(Family()), InTheGap(b)).0, 2, TEXT) == Some(Ram(Zeros(), true))
  {
    hide Inv, Zeros, EagerRun, Store, Exit, BeginFault, Abs, IsRun, Run, EndFault;
    FamilyOk();
    BeginFaultKeeps(Family(), 2, TEXT);
    ParentStores(b);
    var s := BeginFault(Family(), 2, TEXT);
    GapRun(s, b);
    w := Run(s, InTheGap(b)).0;
    OnePageExits(Store(s, 1, TEXT, 0, b).0, 3, 1);
    GapIsInvisibleIff(Family(), 2, TEXT, InTheGap(b));
    OthersRun(Abs(Family()), InTheGap(b), 2, TEXT);
    FamilyAbs();
  }

  function SeenBy(e: Eager, p: Pid, a: Page): Option<Seen> {
    if p in e && a in e[p] then Some(e[p][a]) else None
  }

  lemma FamilyAbs()
    ensures 2 in Abs(Family()) && Abs(Family())[2] == map[TEXT := Ram(Zeros(), true)]
  {
    hide Zeros;
  }
}
