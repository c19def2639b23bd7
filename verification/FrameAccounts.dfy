/**
  Where page frames go: which runs leave a frame with a reference that no mapping accounts
  for (vm/mmap.c:152-179), and that no other operation loses one.
 */
module FrameAccounts {
  import opened Lists
  import opened CopyOnWrite
  import opened CopyOnWriteRuns

  // ---------------------------------------------------------------------
  // References that munmap leaves behind
  // ---------------------------------------------------------------------

  /** Some page of the range is backed by memory. */
  ghost predicate MapsRam(s: Space, a: Page, n: nat) {
    exists b :: a <= b < a + n && b in s && !s[b].phys
  }

  /** No frame has fewer references left behind. */
  ghost predicate LeaksGrow(v: Vm, w: Vm) {
    forall f {:trigger Leak(w.leaked, f)} :: Leak(v.leaked, f) <= Leak(w.leaked, f)
  }

  ghost predicate LeaksMore(v: Vm, w: Vm) {
    exists f {:trigger Leak(w.leaked, f)} :: Leak(v.leaked, f) < Leak(w.leaked, f)
  }

  lemma MunmapOneLeaks(v: Vm, p: Pid, a: Page)
    requires p in v.spaces
    ensures var w := MunmapOne(v, p, a);
            && LeaksGrow(v, w)
            && (MapsRam(v.spaces[p], a, 1) ==> LeaksMore(v, w))
            && (!MapsRam(v.spaces[p], a, 1) ==> w.leaked == v.leaked)
  {
    var w := MunmapOne(v, p, a);
    if a in v.spaces[p] && !v.spaces[p][a].phys {
      assert Leak(w.leaked, v.spaces[p][a].frame) == Leak(v.leaked, v.spaces[p][a].frame) + 1;
    } else {
      assert !MapsRam(v.spaces[p], a, 1);
    }
  }

  lemma RamSplits(s: Space, a: Page, n: nat)
    requires n > 0
    ensures MapsRam(s, a, n) <==> MapsRam(s, a, 1) || MapsRam(s - {a}, a + 1, n - 1)
  {
    if MapsRam(s, a, n) {
      var b :| a <= b < a + n && b in s && !s[b].phys;
      if b > a {
        assert b in s - {a};
      }
    }
  }

  /** munmap leaves references behind exactly when it unmaps memory. */
  lemma {:induction false} MunmapLeaks(v: Vm, p: Pid, a: Page, n: nat)
    requires Inv(v) && p in v.spaces
    ensures var w := Munmap(v, p, a, n);
            && LeaksGrow(v, w)
            && (MapsRam(v.spaces[p], a, n) ==> LeaksMore(v, w))
            && (w.leaked == v.leaked <==> !MapsRam(v.spaces[p], a, n))
    decreases n
  {
    hide Inv;
    if n > 0 {
      MunmapOneInv(v, p, a);
      MunmapOneLeaks(v, p, a);
      RamSplits(v.spaces[p], a, n);
      MunmapOneSpace(v, p, a);
      MunmapLeaks(MunmapOne(v, p, a), p, a + 1, n - 1);
      MoreIsDifferent(v, MunmapOne(v, p, a), Munmap(v, p, a, n));
    }
  }

  lemma MunmapOneSpace(v: Vm, p: Pid, a: Page)
    requires p in v.spaces
    ensures p in MunmapOne(v, p, a).spaces && MunmapOne(v, p, a).spaces[p] == v.spaces[p] - {a}
  {
  }

  lemma MoreIsDifferent(v: Vm, w: Vm, x: Vm)
    requires LeaksGrow(v, w) && LeaksGrow(w, x)
    ensures LeaksGrow(v, x)
    ensures LeaksMore(v, w) || LeaksMore(w, x) ==> LeaksMore(v, x)
    ensures LeaksMore(v, x) ==> x.leaked != v.leaked
  {
    if LeaksMore(v, w) {
      var f :| Leak(v.leaked, f) < Leak(w.leaked, f);
      assert Leak(v.leaked, f) < Leak(x.leaked, f);
    }
    if LeaksMore(w, x) {
      var f :| Leak(w.leaked, f) < Leak(x.leaked, f);
      assert Leak(v.leaked, f) < Leak(x.leaked, f);
    }
  }

  /** No munmap of the run unmaps memory. */
  ghost predicate NoRamUnmapped(v: Vm, ops: seq<Op>)
    requires Inv(v) && IsRun(v, ops)
    decreases ops
  {
    ops == [] ||
    (&& (ops[0].OpMunmap? ==> !MapsRam(v.spaces[ops[0].p], ops[0].a, ops[0].n))
     && NoRamUnmapped(Step(v, ops[0]).0, ops[1..]))
  }

  lemma StepLeaks(v: Vm, op: Op)
    requires Inv(v) && Enabled(v, op)
    ensures var w := Step(v, op).0;
            && LeaksGrow(v, w)
            && if op.OpMunmap? && MapsRam(v.spaces[op.p], op.a, op.n) then LeaksMore(v, w) else w.leaked == v.leaked
  {
    hide Inv, Munmap;
    if op.OpMunmap? {
      MunmapLeaks(v, op.p, op.a, op.n);
    } else {
      StepKeepsLeaks(v, op);
    }
  }

  /** Over every run: references are left behind exactly when a munmap of it unmaps memory. */
  lemma {:induction false} RunLeaks(v: Vm, ops: seq<Op>)
    requires Inv(v) && IsRun(v, ops)
    ensures var w := Run(v, ops).0;
            && LeaksGrow(v, w)
            && (w.leaked == v.leaked <==> NoRamUnmapped(v, ops))
            && (!NoRamUnmapped(v, ops) ==> LeaksMore(v, w))
    decreases ops
  {
    hide Inv, Step, Leak, Enabled;
    if ops != [] {
      var m := Step(v, ops[0]).0;
      assert Enabled(v, ops[0]);
      StepLeaks(v, ops[0]);
      RunLeaks(m, ops[1..]);
      MoreIsDifferent(v, m, Run(v, ops).0);
      RunFirst(v, ops);
      SameGrows(v, m);
    }
  }

  lemma RunFirst(v: Vm, ops: seq<Op>)
    requires Inv(v) && IsRun(v, ops) && ops != []
    ensures Run(v, ops).0 == Run(Step(v, ops[0]).0, ops[1..]).0
  {
  }

  lemma SameGrows(v: Vm, w: Vm)
    ensures w.leaked == v.leaked ==> !LeaksMore(v, w)
  {
  }

  /** Every frame in use is counted exactly as often as it is mapped. */
  ghost predicate CountsExact(v: Vm) {
    forall f :: f in v.mem && f !in v.free ==> f in v.refs && v.refs[f] == |Users(v.spaces, f)|
  }

  lemma ExactMeansNoLeak(v: Vm)
    requires Inv(v)
    ensures CountsExact(v) <==> forall f {:trigger Leak(v.leaked, f)} :: Leak(v.leaked, f) == 0
  {
    hide Exclusive, Users, NoDup;
    if CountsExact(v) {
      forall f
        ensures Leak(v.leaked, f) == 0
      {
      }
    }
  }

  /**
    From a state with exact counts, the counts are exact after a run if and only if no munmap
    of it unmapped memory.
   */
  lemma CountsExactIff(v: Vm, ops: seq<Op>)
    requires Inv(v) && IsRun(v, ops) && CountsExact(v)
    ensures CountsExact(Run(v, ops).0) <==> NoRamUnmapped(v, ops)
  {
    hide Inv, CountsExact, NoRamUnmapped, Run;
    RunLeaks(v, ops);
    ExactMeansNoLeak(v);
    ExactMeansNoLeak(Run(v, ops).0);
  }

  /** One process and one free frame. */
  function OneFrame(): Vm {
    Vm(map[0 := map[]], map[7 := 0], map[7 := Zeros()], [7], map[])
  }

  lemma OneFrameOk()
    ensures Inv(OneFrame())
  {
    var v := OneFrame();
    assert forall f :: Users(v.spaces, f) == {};
  }

  /** A page mapped and unmapped again: its frame has no mapping, keeps its count, and is never free again. */
  lemma MunmapLosesFrame()
    ensures var v := OneFrame();
            Inv(v) && Unmapped(v.spaces[0], USER_BASE, 1)
            && var w := Munmap(Mmap(v, 0, USER_BASE, 1, true), 0, USER_BASE, 1);
               Inv(w) && Users(w.spaces, 7) == {} && w.refs[7] == 1 && 7 !in w.free && Leak(w.leaked, 7) == 1
  {
    hide Inv, Users, Zeros;
    OneFrameOk();
    var v := OneFrame();
    var m := MmapOne(v, 0, USER_BASE, true);
    MmapOneInv(v, 0, USER_BASE, true);
    assert Mmap(v, 0, USER_BASE, 1, true) == Mmap(m, 0, USER_BASE + 1, 0, true) == m;
    var w := MunmapOne(m, 0, USER_BASE);
    MunmapOneInv(m, 0, USER_BASE);
    assert Munmap(m, 0, USER_BASE, 1) == Munmap(w, 0, USER_BASE + 1, 0) == w;
    assert w.spaces == map[0 := map[]];
    NoUsers(w.spaces, 7);
  }

  lemma NoUsers(spaces: map<Pid, Space>, f: Frame)
    requires forall p :: p in spaces ==> spaces[p] == map[]
    ensures Users(spaces, f) == {}
  {
  }

  lemma StepKeepsLeaks(v: Vm, op: Op)
    requires Inv(v) && Enabled(v, op) && !op.OpMunmap?
    ensures Step(v, op).0.leaked == v.leaked
  {
    hide Inv;
    match op
    case OpMmap(p, a, n, write) => MmapLeak(v, p, a, n, write);
    case OpMmapPhys(p, a, n, f, write) => MmapPhysLeak(v, p, a, n, f, write);
    case OpFork(p, c) => EmptyInv(v, c); ForkLeak(Empty(v, c), p, c, USER_BASE);
    case OpExit(p) => CleanupLeak(v, p, USER_BASE);
    case _ =>
  }

  lemma {:induction false} MmapLeak(v: Vm, p: Pid, a: Page, n: nat, write: bool)
    requires Inv(v) && p in v.spaces && n <= |v.free| && Unmapped(v.spaces[p], a, n)
    ensures Mmap(v, p, a, n, write).leaked == v.leaked
    decreases n
  {
    hide Inv;
    if n > 0 {
      MmapOneInv(v, p, a, write);
      MmapLeak(MmapOne(v, p, a, write), p, a + 1, n - 1, write);
    }
  }

  lemma {:induction false} MmapPhysLeak(v: Vm, p: Pid, a: Page, n: nat, f: Frame, write: bool)
    requires Inv(v) && p in v.spaces && Unmapped(v.spaces[p], a, n)
    ensures MmapPhys(v, p, a, n, f, write).leaked == v.leaked
    decreases n
  {
    hide Inv;
    if n > 0 {
      MmapPhysOneInv(v, p, a, f, write);
      MmapPhysLeak(MmapPhysOne(v, p, a, f, write), p, a + 1, n - 1, f + 1, write);
    }
  }

  lemma {:induction false} ForkLeak(v: Vm, p: Pid, c: Pid, a: Page)
    requires Inv(v) && p in v.spaces && c in v.spaces && p != c && a <= USER_CEILING
    requires forall b :: b in v.spaces[c] ==> b < a
    ensures ForkFrom(v, p, c, a).leaked == v.leaked
    decreases USER_CEILING - a
  {
    hide Inv;
    if a < USER_CEILING {
      ForkOneInv(v, p, c, a);
      ForkLeak(ForkOne(v, p, c, a), p, c, a + 1);
    }
  }

  lemma {:induction false} CleanupLeak(v: Vm, p: Pid, a: Page)
    requires Inv(v) && p in v.spaces && a <= USER_CEILING
    ensures CleanupFrom(v, p, a).leaked == v.leaked
    decreases USER_CEILING - a
  {
    hide Inv;
    if a < USER_CEILING {
      CleanupOneInv(v, p, a);
      CleanupLeak(CleanupOne(v, p, a), p, a + 1);
    }
  }

  // ---------------------------------------------------------------------
  // Frames are never lost otherwise
  // ---------------------------------------------------------------------

  /** Every frame is free or has a reference, `lost` aside. */
  ghost predicate NoneLost(v: Vm, lost: set<Frame>) {
    forall f :: f in v.mem && f !in lost ==> f in v.free || (f in v.refs && v.refs[f] > 0)
  }

  lemma MmapOneLoses(v: Vm, p: Pid, a: Page, write: bool, lost: set<Frame>)
    requires p in v.spaces && v.free != [] && NoneLost(v, lost)
    ensures NoneLost(MmapOne(v, p, a, write), lost)
  {
    var f := AllocFrame(v);
    assert forall g :: g in v.free && g != f ==> g in v.free[..|v.free| - 1];
  }

  lemma ForkOneLoses(v: Vm, p: Pid, c: Pid, a: Page, lost: set<Frame>)
    requires Inv(v) && p in v.spaces && c in v.spaces && NoneLost(v, lost)
    ensures NoneLost(ForkOne(v, p, c, a), lost)
  {
    hide Exclusive, Users, NoDup;
    if a in v.spaces[p] && !v.spaces[p][a].phys {
      NotFree(v, p, a);
    }
  }

  /** Dropping a page frees its frame exactly when that was the last reference. */
  lemma CleanupFreesLast(v: Vm, p: Pid, a: Page)
    requires Inv(v) && p in v.spaces && a in v.spaces[p] && !v.spaces[p][a].phys
    ensures var f := v.spaces[p][a].frame; var w := CleanupOne(v, p, a);
            && f in v.refs && f !in v.free
            && (f in w.free <==> v.refs[f] == 1)
            && (f in w.free <==> Users(w.spaces, f) == {} && Leak(w.leaked, f) == 0)
  {
    hide Exclusive, NoDup;
    NotFree(v, p, a);
    CleanupOneInv(v, p, a);
  }

  lemma CleanupOneLoses(v: Vm, p: Pid, a: Page, lost: set<Frame>)
    requires Inv(v) && p in v.spaces && NoneLost(v, lost)
    ensures NoneLost(CleanupOne(v, p, a), lost)
  {
    hide Exclusive, Users, NoDup;
    if a in v.spaces[p] && !v.spaces[p][a].phys {
      NotFree(v, p, a);
    }
  }

  lemma FaultLoses(v: Vm, p: Pid, a: Page, lost: set<Frame>)
    requires Inv(v) && Supplied(v, p, a) && NoneLost(v, lost)
    ensures NoneLost(Fault(v, p, a).0, lost)
  {
    hide Exclusive, Users, NoDup;
    if CanBreak(v, p, a) {
      NotFree(v, p, a);
      if v.free != [] {
        var f := AllocFrame(v);
        assert forall g :: g in v.free && g != f ==> g in v.free[..|v.free| - 1];
      }
    }
  }

  lemma {:induction false} MmapLoses(v: Vm, p: Pid, a: Page, n: nat, write: bool, lost: set<Frame>)
    requires Inv(v) && p in v.spaces && n <= |v.free| && Unmapped(v.spaces[p], a, n) && NoneLost(v, lost)
    ensures NoneLost(Mmap(v, p, a, n, write), lost)
    decreases n
  {
    hide Inv, NoneLost;
    if n > 0 {
      MmapOneInv(v, p, a, write);
      MmapOneLoses(v, p, a, write, lost);
      MmapLoses(MmapOne(v, p, a, write), p, a + 1, n - 1, write, lost);
    }
  }

  lemma {:induction false} MmapPhysLoses(v: Vm, p: Pid, a: Page, n: nat, f: Frame, write: bool, lost: set<Frame>)
    requires Inv(v) && p in v.spaces && Unmapped(v.spaces[p], a, n) && NoneLost(v, lost)
    ensures NoneLost(MmapPhys(v, p, a, n, f, write), lost)
    decreases n
  {
    hide Inv;
    if n > 0 {
      MmapPhysOneInv(v, p, a, f, write);
      MmapPhysLoses(MmapPhysOne(v, p, a, f, write), p, a + 1, n - 1, f + 1, write, lost);
    }
  }

  lemma {:induction false} MunmapLoses(v: Vm, p: Pid, a: Page, n: nat, lost: set<Frame>)
    requires Inv(v) && p in v.spaces && NoneLost(v, lost)
    ensures NoneLost(Munmap(v, p, a, n), lost)
    decreases n
  {
    hide Inv;
    if n > 0 {
      MunmapOneInv(v, p, a);
      MunmapLoses(MunmapOne(v, p, a), p, a + 1, n - 1, lost);
    }
  }

  lemma {:induction false} ForkLoses(v: Vm, p: Pid, c: Pid, a: Page, lost: set<Frame>)
    requires Inv(v) && p in v.spaces && c in v.spaces && p != c && a <= USER_CEILING && NoneLost(v, lost)
    requires forall b :: b in v.spaces[c] ==> b < a
    ensures NoneLost(ForkFrom(v, p, c, a), lost)
    decreases USER_CEILING - a
  {
    hide Inv, NoneLost;
    if a < USER_CEILING {
      ForkOneInv(v, p, c, a);
      ForkOneLoses(v, p, c, a, lost);
      ForkLoses(ForkOne(v, p, c, a), p, c, a + 1, lost);
    }
  }

  lemma {:induction false} CleanupLoses(v: Vm, p: Pid, a: Page, lost: set<Frame>)
    requires Inv(v) && p in v.spaces && a <= USER_CEILING && NoneLost(v, lost)
    ensures NoneLost(CleanupFrom(v, p, a), lost)
    decreases USER_CEILING - a
  {
    hide Inv, NoneLost;
    if a < USER_CEILING {
      CleanupOneInv(v, p, a);
      CleanupOneLoses(v, p, a, lost);
      CleanupLoses(CleanupOne(v, p, a), p, a + 1, lost);
    }
  }

  lemma StoreLoses(v: Vm, p: Pid, a: Page, i: nat, b: bv8, lost: set<Frame>)
    requires Inv(v) && Supplied(v, p, a) && i < PAGE_SIZE && NoneLost(v, lost)
    ensures NoneLost(Store(v, p, a, i, b).0, lost)
  {
    hide Exclusive, CountsOk, NoDup, Fault;
    FaultInv(v, p, a);
    FaultLoses(v, p, a, lost);
  }

  lemma StepLoses(v: Vm, op: Op, lost: set<Frame>)
    requires Inv(v) && Enabled(v, op) && NoneLost(v, lost)
    ensures NoneLost(Step(v, op).0, lost)
  {
    hide Inv, Mmap, MmapPhys, Munmap, ForkFrom, CleanupFrom, Store, Fault;
    match op
    case OpMmap(p, a, n, write) => MmapLoses(v, p, a, n, write, lost);
    case OpMmapPhys(p, a, n, f, write) => MmapPhysLoses(v, p, a, n, f, write, lost);
    case OpMunmap(p, a, n) => MunmapLoses(v, p, a, n, lost);
    case OpFork(p, c) => EmptyInv(v, c); ForkLoses(Empty(v, c), p, c, USER_BASE, lost);
    case OpStore(p, a, i, b) => StoreLoses(v, p, a, i, b, lost);
    case OpFault(p, a) => FaultLoses(v, p, a, lost);
    case OpExit(p) => CleanupLoses(v, p, USER_BASE, lost);
  }

  /** Over every run, a frame is free or referenced. */
  lemma {:induction false} RunLosesNone(v: Vm, ops: seq<Op>)
    requires Inv(v) && IsRun(v, ops) && NoneLost(v, {})
    ensures NoneLost(Run(v, ops).0, {})
    decreases ops
  {
    hide Inv, Step, NoneLost;
    if ops != [] {
      StepLoses(v, ops[0], {});
      RunLosesNone(Step(v, ops[0]).0, ops[1..]);
      RunFirst(v, ops);
    }
  }

  /** Frames are conserved: while no memory is unmapped by munmap, a frame is free exactly when no process maps it. */
  lemma FramesConserved(v: Vm, ops: seq<Op>, f: Frame)
    requires Inv(v) && IsRun(v, ops) && NoneLost(v, {}) && CountsExact(v) && NoRamUnmapped(v, ops)
    requires f in Run(v, ops).0.mem
    ensures var w := Run(v, ops).0; f in w.free <==> Users(w.spaces, f) == {}
  {
    hide Exclusive, Users, NoDup, NoRamUnmapped, IsRun, Run;
    RunLosesNone(v, ops);
    CountsExactIff(v, ops);
  }

  /** The free frames are a stack: the frame freed last is the next to be handed out. */
  lemma FreedIsNext(v: Vm, p: Pid, a: Page)
    requires Inv(v) && p in v.spaces && a in v.spaces[p] && !v.spaces[p][a].phys
    requires v.refs[v.spaces[p][a].frame] == 1
    ensures var w := CleanupOne(v, p, a);
            w.free != [] && AllocFrame(w) == v.spaces[p][a].frame && w.free[..|w.free| - 1] == v.free
  {
    hide Exclusive, CountsOk, NoDup, Users;
  }
}
