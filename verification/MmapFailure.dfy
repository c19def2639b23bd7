/**
  sys_mmap when pmap_enter refuses a page part way (vm/mmap.c:105-143): the pages entered so
  far are freed and unmapped again. The page that had been allocated for the refused entry
  is not among them.

  A page that is mapped already is refused, and its whole page table dropped with it, so the
  clean-up finds nothing where that table was. A page whose table cannot be allocated would
  be refused too, with the tables as they were; alloc_page waits for memory instead.
 */
module MmapFailure {
  import opened Lists
  import opened CopyOnWrite
  import R = CopyOnWriteRuns
  import A = FrameAccounts

  /** free_page and pmap_remove for one page of the failed call. */
  function UndoOne(v: Vm, p: Pid, a: Page): Vm
    requires p in v.spaces
  {
    if a !in v.spaces[p] then v
    else
      var e := v.spaces[p][a];
      var d := v.(spaces := DropPte(v.spaces, p, a));
      if e.phys || e.frame !in v.refs then d
      else if v.refs[e.frame] - 1 > 0 then d.(refs := v.refs[e.frame := v.refs[e.frame] - 1])
      else d.(refs := v.refs[e.frame := v.refs[e.frame] - 1], free := v.free + [e.frame])
  }

  function UndoAll(v: Vm, p: Pid, a: Page, n: nat): (w: Vm)
    requires Inv(v) && p in v.spaces
    ensures Inv(w)
    decreases n
  {
    if n == 0 then v
    else
      UndoOneInv(v, p, a);
      UndoAll(UndoOne(v, p, a), p, a + 1, n - 1)
  }

  /** alloc_page for the page that is never entered. */
  function TakeFrame(v: Vm): Vm
    requires v.free != []
  {
    var f := AllocFrame(v);
    v.(refs := v.refs[f := 0], mem := v.mem[f := Zeros()], free := v.free[..|v.free| - 1])
  }

  datatype Refusal = NoTable | Mapped

  /** The first page of the page table that holds a page. */
  function TableBase(b: Page): Page {
    b / PAGES_PER_TABLE * PAGES_PER_TABLE
  }

  /** A table dropped: its pages lose their mappings, and no count changes. */
  function DropTable(v: Vm, p: Pid, b: Page): (w: Vm)
    requires Inv(v) && p in v.spaces
    ensures Inv(w)
  {
    R.Munmap(v, p, TableBase(b), PAGES_PER_TABLE)
  }

  /** What the refusal of page b does to the tables. */
  function Refuse(v: Vm, p: Pid, b: Page, why: Refusal): (w: Vm)
    requires Inv(v) && p in v.spaces
    ensures Inv(w)
  {
    if why.Mapped? then DropTable(v, p, b) else v
  }

  /** Page a + n is refused for this reason, after n pages have been entered. */
  predicate Refusable(v: Vm, p: Pid, a: Page, n: nat, why: Refusal) {
    && p in v.spaces && n < |v.free| && R.Unmapped(v.spaces[p], a, n)
    && (why.Mapped? <==> a + n in v.spaces[p])
  }

  /** The whole call: n pages entered, one more allocated, the entry refused, and the clean-up. */
  function MmapFails(v: Vm, p: Pid, a: Page, n: nat, write: bool, why: Refusal): (w: Vm)
    requires Inv(v) && Refusable(v, p, a, n, why)
    ensures Inv(w)
  {
    MmapSize(v, p, a, n, write);
    var m := R.Mmap(v, p, a, n, write);
    TakeFrameInv(m);
    MunmapRest(TakeFrame(m), p, TableBase(a + n), PAGES_PER_TABLE);
    UndoAll(Refuse(TakeFrame(m), p, a + n, why), p, a, n)
  }

  /** Unmapping takes exactly the pages of the range away, and leaves counts, contents and the free queue. */
  lemma {:induction false} MunmapRest(v: Vm, p: Pid, a: Page, n: nat)
    requires Inv(v) && p in v.spaces
    ensures var w := R.Munmap(v, p, a, n);
            && w == v.(spaces := w.spaces, leaked := w.leaked)
            && w.spaces == v.spaces[p := v.spaces[p] - R.Pages(a, n)]
    decreases n
  {
    hide Inv;
    if n == 0 {
      assert v.spaces[p] - R.Pages(a, n) == v.spaces[p];
    } else {
      var u := MunmapOne(v, p, a);
      MunmapOneInv(v, p, a);
      A.MunmapOneSpace(v, p, a);
      MunmapRest(u, p, a + 1, n - 1);
      assert u.spaces == v.spaces[p := v.spaces[p] - {a}];
      assert v.spaces[p] - {a} - R.Pages(a + 1, n - 1) == v.spaces[p] - R.Pages(a, n);
    }
  }

  /** The count of a frame on the free queue carries no meaning. */
  lemma FreeCount(v: Vm, f: Frame, n: int)
    requires Inv(v) && f in v.free
    ensures Inv(v.(refs := v.refs[f := n]))
  {
    hide Exclusive, Users, NoDup;
  }

  lemma UndoOneInv(v: Vm, p: Pid, a: Page)
    requires Inv(v) && p in v.spaces
    ensures Inv(UndoOne(v, p, a))
  {
    hide Exclusive, Users, NoDup;
    CleanupOneInv(v, p, a);
    if a in v.spaces[p] && !v.spaces[p][a].phys {
      var f := v.spaces[p][a].frame;
      SomeReference(v, p, a);
      if v.refs[f] == 1 {
        var w := CleanupOne(v, p, a);
        FreeCount(w, f, 0);
        assert w.refs[f := 0] == v.refs[f := 0];
      }
    }
  }

  lemma SomeReference(v: Vm, p: Pid, a: Page)
    requires Inv(v) && p in v.spaces && a in v.spaces[p] && !v.spaces[p][a].phys
    ensures v.spaces[p][a].frame in v.refs && v.refs[v.spaces[p][a].frame] >= 1
  {
    hide Exclusive, NoDup;
    var f := v.spaces[p][a].frame;
    NotFree(v, p, a);
    assert Maps(v.spaces, p, a, f);
    assert (p, a) in Users(v.spaces, f);
  }

  lemma TakeFrameInv(v: Vm)
    requires Inv(v) && v.free != []
    ensures Inv(TakeFrame(v)) && Abs(TakeFrame(v)) == Abs(v)
  {
    FreeTail(v);
    TakenUnused(v);
    TakeFrameAbs(v);
    hide Exclusive, Users;
  }

  lemma TakenUnused(v: Vm)
    requires Inv(v) && v.free != []
    ensures Users(v.spaces, AllocFrame(v)) == {} && Leak(v.leaked, AllocFrame(v)) == 0
  {
    hide Exclusive, Users, NoDup;
    assert AllocFrame(v) in v.free;
  }

  lemma TakeFrameAbs(v: Vm)
    requires Inv(v) && v.free != []
    ensures Abs(TakeFrame(v)) == Abs(v)
  {
    hide Exclusive, NoDup;
    TakenUnused(v);
    var w, f := TakeFrame(v), AllocFrame(v);
    forall p, a | p in v.spaces && a in v.spaces[p]
      ensures See(v.spaces[p][a], w.mem) == See(v.spaces[p][a], v.mem)
    {
      assert Maps(v.spaces, p, a, f) ==> (p, a) in Users(v.spaces, f);
    }
    assert forall p :: p in v.spaces ==> AbsSpace(w.spaces[p], w.mem) == AbsSpace(v.spaces[p], v.mem);
  }

  lemma {:induction false} MmapSize(v: Vm, p: Pid, a: Page, n: nat, write: bool)
    requires Inv(v) && p in v.spaces && n <= |v.free| && R.Unmapped(v.spaces[p], a, n)
    ensures |R.Mmap(v, p, a, n, write).free| == |v.free| - n && p in R.Mmap(v, p, a, n, write).spaces
    decreases n
  {
    hide Inv;
    if n > 0 {
      MmapOneInv(v, p, a, write);
      MmapSize(MmapOne(v, p, a, write), p, a + 1, n - 1, write);
    }
  }

  lemma UndoOneAbs(v: Vm, p: Pid, a: Page)
    requires p in v.spaces
    ensures Abs(UndoOne(v, p, a)) == R.EagerDrop(Abs(v), p, a)
  {
    if a in v.spaces[p] {
      R.AbsDrop(v, UndoOne(v, p, a), p, a);
    } else {
      assert Abs(v)[p] - {a} == Abs(v)[p];
    }
  }

  lemma {:induction false} UndoAllAbs(v: Vm, p: Pid, a: Page, n: nat)
    requires Inv(v) && p in v.spaces
    ensures p in Abs(v) && Abs(UndoAll(v, p, a, n)) == R.EagerMunmap(Abs(v), p, a, n)
    decreases n
  {
    hide Inv, Abs;
    R.AbsKeys(v);
    R.MunmapStep(Abs(v), p, a, n);
    if n > 0 {
      UndoOneInv(v, p, a);
      UndoOneAbs(v, p, a);
      UndoAllAbs(UndoOne(v, p, a), p, a + 1, n - 1);
    }
  }

  /**
    A failed mmap leaves every process's memory as it was, except that a refusal for a mapped
    page takes the pages of that page's table away from the caller.
   */
  lemma MmapFailsAbs(v: Vm, p: Pid, a: Page, n: nat, write: bool, why: Refusal)
    requires Inv(v) && Refusable(v, p, a, n, why)
    ensures p in Abs(v)
    ensures Abs(MmapFails(v, p, a, n, write, why)) ==
            if why.NoTable? then Abs(v) else R.EagerMunmap(Abs(v), p, TableBase(a + n), PAGES_PER_TABLE)
  {
    hide Inv, Abs, TableBase, R.EagerMunmap;
    MmapSize(v, p, a, n, write);
    var m := R.Mmap(v, p, a, n, write);
    TakeFrameInv(m);
    var x := Refuse(TakeFrame(m), p, a + n, why);
    MunmapRest(TakeFrame(m), p, TableBase(a + n), PAGES_PER_TABLE);
    R.MmapAbs(v, p, a, n, write);
    if why.Mapped? {
      R.MunmapAbs(TakeFrame(m), p, TableBase(a + n), PAGES_PER_TABLE);
    }
    UndoAllAbs(x, p, a, n);
    R.AbsKeys(v);
    UnmappedAbs(v, p, a, n);
    MmapThenMunmap(Abs(v), p, a, n, write);
    MmapThenBoth(Abs(v), p, a, n, write, TableBase(a + n), PAGES_PER_TABLE);
  }

  lemma UnmappedAbs(v: Vm, p: Pid, a: Page, n: nat)
    requires p in v.spaces && R.Unmapped(v.spaces[p], a, n)
    ensures p in Abs(v) && forall b :: a <= b < a + n ==> b !in Abs(v)[p]
  {
  }

  lemma MmapThenMunmap(e: Eager, p: Pid, a: Page, n: nat, write: bool)
    requires p in e && forall b :: a <= b < a + n ==> b !in e[p]
    ensures p in R.EagerMmap(e, p, a, n, write) && R.EagerMunmap(R.EagerMmap(e, p, a, n, write), p, a, n) == e
  {
    assert R.EagerMmap(e, p, a, n, write)[p] - R.Pages(a, n) == e[p];
  }

  lemma MmapThenBoth(e: Eager, p: Pid, a: Page, n: nat, write: bool, base: Page, size: nat)
    requires p in e && forall b :: a <= b < a + n ==> b !in e[p]
    ensures var m := R.EagerMmap(e, p, a, n, write);
            && p in m && p in R.EagerMunmap(m, p, base, size)
            && R.EagerMunmap(R.EagerMunmap(m, p, base, size), p, a, n) == R.EagerMunmap(e, p, base, size)
  {
    hide R.Pages;
    var m := R.EagerMmap(e, p, a, n, write);
    assert m[p] - R.Pages(base, size) - R.Pages(a, n) == e[p] - R.Pages(base, size);
  }

  /** Each page of the range has a frame of its own, counted once. */
  ghost predicate Owned(v: Vm, p: Pid, a: Page, n: nat) {
    p in v.spaces && forall b :: a <= b < a + n ==>
      b in v.spaces[p] && !v.spaces[p][b].phys && v.spaces[p][b].frame in v.refs && v.refs[v.spaces[p][b].frame] == 1
  }

  lemma {:induction false} MmapOwns(v: Vm, p: Pid, low: Page, a: Page, n: nat, write: bool)
    requires Inv(v) && p in v.spaces && n <= |v.free| && R.Unmapped(v.spaces[p], a, n)
    requires low <= a && Owned(v, p, low, a - low)
    ensures Owned(R.Mmap(v, p, a, n, write), p, low, a + n - low)
    decreases n
  {
    hide Inv;
    if n > 0 {
      MmapOneInv(v, p, a, write);
      MmapOneOwns(v, p, low, a, write);
      MmapOwns(MmapOne(v, p, a, write), p, low, a + 1, n - 1, write);
    }
  }

  lemma MmapOneOwns(v: Vm, p: Pid, low: Page, a: Page, write: bool)
    requires Inv(v) && p in v.spaces && v.free != [] && low <= a && Owned(v, p, low, a - low)
    ensures Owned(MmapOne(v, p, a, write), p, low, a + 1 - low)
  {
    hide Exclusive, CountsOk, NoDup;
    var w := MmapOne(v, p, a, write);
    forall b | low <= b < low + (a + 1 - low)
      ensures b in w.spaces[p] && !w.spaces[p][b].phys && w.spaces[p][b].frame in w.refs
              && w.refs[w.spaces[p][b].frame] == 1
    {
      if b < a {
        NotFree(v, p, b);
        assert AllocFrame(v) in v.free;
      }
    }
  }

  lemma UndoOwned(v: Vm, p: Pid, a: Page, n: nat)
    requires Inv(v) && n > 0 && Owned(v, p, a, n)
    ensures Owned(UndoOne(v, p, a), p, a + 1, n - 1) && |UndoOne(v, p, a).free| == |v.free| + 1
  {
    hide Exclusive, NoDup;
    var w := UndoOne(v, p, a);
    var f := v.spaces[p][a].frame;
    assert a in v.spaces[p];
    forall b | a + 1 <= b < a + 1 + (n - 1)
      ensures b in w.spaces[p] && !w.spaces[p][b].phys && w.spaces[p][b].frame in w.refs
              && w.refs[w.spaces[p][b].frame] == 1
    {
      assert b in v.spaces[p];
      if v.spaces[p][b].frame == f {
        TwoUsers(v, p, a, b);
      }
    }
  }

  lemma TwoUsers(v: Vm, p: Pid, a: Page, b: Page)
    requires Inv(v) && p in v.spaces && a in v.spaces[p] && b in v.spaces[p] && a != b
    requires !v.spaces[p][a].phys && !v.spaces[p][b].phys && v.spaces[p][a].frame == v.spaces[p][b].frame
    ensures v.spaces[p][a].frame in v.refs && v.refs[v.spaces[p][a].frame] >= 2
  {
    hide Exclusive, NoDup;
    var f := v.spaces[p][a].frame;
    NotFree(v, p, a);
    assert Maps(v.spaces, p, a, f) && Maps(v.spaces, p, b, f);
    assert {(p, a), (p, b)} <= Users(v.spaces, f);
    SubsetSize({(p, a), (p, b)}, Users(v.spaces, f));
  }

  lemma SubsetSize(s: set<(Pid, Page)>, t: set<(Pid, Page)>)
    requires s <= t
    ensures |s| <= |t|
  {
    assert t == s + (t - s);
  }

  lemma {:induction false} UndoAllSize(v: Vm, p: Pid, a: Page, n: nat)
    requires Inv(v) && Owned(v, p, a, n)
    ensures |UndoAll(v, p, a, n).free| == |v.free| + n
    decreases n
  {
    hide Inv;
    if n > 0 {
      UndoOneInv(v, p, a);
      UndoOwned(v, p, a, n);
      UndoAllSize(UndoOne(v, p, a), p, a + 1, n - 1);
    }
  }

  lemma UndoOneLoses(v: Vm, p: Pid, a: Page, lost: set<Frame>)
    requires Inv(v) && p in v.spaces && A.NoneLost(v, lost)
    ensures A.NoneLost(UndoOne(v, p, a), lost)
  {
    hide Exclusive, Users, NoDup;
    if a in v.spaces[p] && !v.spaces[p][a].phys {
      NotFree(v, p, a);
    }
  }

  /** A frame out of the queue without a reference stays so: no page maps it. */
  ghost predicate Lost(v: Vm, f: Frame) {
    f in v.mem && f !in v.free && f in v.refs && v.refs[f] == 0
  }

  lemma LostIsUnmapped(v: Vm, f: Frame)
    requires Inv(v) && Lost(v, f)
    ensures Users(v.spaces, f) == {}
  {
    hide Exclusive, Users, NoDup;
  }

  lemma UndoOneKeepsLost(v: Vm, p: Pid, a: Page, f: Frame)
    requires Inv(v) && p in v.spaces && Lost(v, f)
    ensures Lost(UndoOne(v, p, a), f)
  {
    hide Exclusive, NoDup;
    LostIsUnmapped(v, f);
    if a in v.spaces[p] && !v.spaces[p][a].phys {
      assert Maps(v.spaces, p, a, v.spaces[p][a].frame);
      assert (p, a) in Users(v.spaces, v.spaces[p][a].frame);
    }
  }

  lemma {:induction false} UndoAllKeepsLost(v: Vm, p: Pid, a: Page, n: nat, f: Frame)
    requires Inv(v) && p in v.spaces && Lost(v, f) && A.NoneLost(v, {f})
    ensures Lost(UndoAll(v, p, a, n), f) && A.NoneLost(UndoAll(v, p, a, n), {f})
    decreases n
  {
    hide Inv, A.NoneLost, Lost;
    if n > 0 {
      UndoOneInv(v, p, a);
      UndoOneLoses(v, p, a, {f});
      UndoOneKeepsLost(v, p, a, f);
      UndoAllKeepsLost(UndoOne(v, p, a), p, a + 1, n - 1, f);
    }
  }

  lemma TakeFrameLoses(m: Vm)
    requires Inv(m) && m.free != [] && A.NoneLost(m, {})
    ensures Lost(TakeFrame(m), AllocFrame(m)) && A.NoneLost(TakeFrame(m), {AllocFrame(m)})
  {
    hide Exclusive, CountsOk;
    var f := AllocFrame(m);
    FreeTail(m);
    assert forall g :: g in m.free && g != f ==> g in m.free[..|m.free| - 1];
  }

  // ---------------------------------------------------------------------
  // What a refusal costs
  // ---------------------------------------------------------------------

  /** The pages a refusal takes away. */
  ghost function Taken(b: Page, why: Refusal): set<Page> {
    if why.Mapped? then R.Pages(TableBase(b), PAGES_PER_TABLE) else {}
  }

  lemma RefuseRest(v: Vm, p: Pid, b: Page, why: Refusal)
    requires Inv(v) && p in v.spaces
    ensures var w := Refuse(v, p, b, why);
            && w == v.(spaces := w.spaces, leaked := w.leaked)
            && w.spaces == v.spaces[p := v.spaces[p] - Taken(b, why)]
  {
    hide Inv, R.Munmap, R.Pages, TableBase;
    MunmapRest(v, p, TableBase(b), PAGES_PER_TABLE);
    assert why.NoTable? ==> v.spaces[p] - Taken(b, why) == v.spaces[p];
  }

  function Max(a: nat, b: nat): nat {
    if a < b then b else a
  }

  /** The first page of the call that lies in the table of page b, or b. */
  function Split(a: Page, b: Page, why: Refusal): Page {
    if why.Mapped? then Max(a, TableBase(b)) else b
  }

  lemma TableHolds(b: Page)
    ensures TableBase(b) <= b < TableBase(b) + PAGES_PER_TABLE
  {
  }

  lemma {:induction false} UndoInTwo(v: Vm, p: Pid, a: Page, n: nat, k: nat)
    requires Inv(v) && p in v.spaces && k <= n
    ensures p in UndoAll(v, p, a, k).spaces && UndoAll(v, p, a, n) == UndoAll(UndoAll(v, p, a, k), p, a + k, n - k)
    decreases k
  {
    hide Inv;
    if k > 0 {
      UndoOneInv(v, p, a);
      UndoInTwo(UndoOne(v, p, a), p, a + 1, n - 1, k - 1);
    }
  }

  lemma {:induction false} UndoNothing(v: Vm, p: Pid, a: Page, n: nat)
    requires Inv(v) && p in v.spaces && forall b :: a <= b < a + n ==> b !in v.spaces[p]
    ensures UndoAll(v, p, a, n) == v
    decreases n
  {
    hide Inv;
    if n > 0 {
      UndoNothing(UndoOne(v, p, a), p, a + 1, n - 1);
    }
  }

  lemma {:induction false} UndoRest(v: Vm, p: Pid, a: Page, n: nat)
    requires Inv(v) && p in v.spaces
    ensures var w := UndoAll(v, p, a, n);
            w.leaked == v.leaked && p in w.spaces && forall b :: b in w.spaces[p] ==> b in v.spaces[p]
    decreases n
  {
    hide Inv;
    if n > 0 {
      UndoOneInv(v, p, a);
      UndoRest(UndoOne(v, p, a), p, a + 1, n - 1);
    }
  }

  /** Whether a page of the call is taken away depends on which side of the split it lies. */
  lemma TakenAbove(a: Page, n: nat, why: Refusal)
    ensures a <= Split(a, a + n, why) <= a + n
    ensures var taken, mid := Taken(a + n, why), Split(a, a + n, why);
            forall c :: a <= c < a + n ==> (c in taken <==> mid <= c)
  {
    hide TableBase;
    TableHolds(a + n);
  }

  /** The clean-up frees the pages below the dropped table and finds no others. */
  lemma RefusedSize(t: Vm, x: Vm, p: Pid, a: Page, n: nat, mid: Page, taken: set<Page>)
    requires Inv(t) && Owned(t, p, a, n) && Inv(x) && a <= mid <= a + n
    requires x == t.(spaces := t.spaces[p := t.spaces[p] - taken], leaked := x.leaked)
    requires forall c :: a <= c < a + n ==> (c in taken <==> mid <= c)
    ensures |UndoAll(x, p, a, n).free| == |t.free| + (mid - a)
  {
    hide Inv, UndoAll;
    assert Owned(x, p, a, mid - a);
    UndoAllSize(x, p, a, mid - a);
    UndoInTwo(x, p, a, n, mid - a);
    UndoRest(x, p, a, mid - a);
    UndoNothing(UndoAll(x, p, a, mid - a), p, mid, n - (mid - a));
  }

  lemma RefuseLoses(t: Vm, x: Vm, f: Frame)
    requires x == t.(spaces := x.spaces, leaked := x.leaked) && Lost(t, f) && A.NoneLost(t, {f})
    ensures Lost(x, f) && A.NoneLost(x, {f})
  {
  }

  /**
    A failed mmap loses the frame allocated for the refused entry, which is neither free nor
    mapped ever after. When the page was mapped already, the frames it had entered in that
    page's table are not given back either; every other page it had entered is.
   */
  lemma MmapFailsLosesFrames(v: Vm, p: Pid, a: Page, n: nat, write: bool, why: Refusal)
    requires Inv(v) && Refusable(v, p, a, n, why) && A.NoneLost(v, {})
    ensures var w := MmapFails(v, p, a, n, write, why); var m := R.Mmap(v, p, a, n, write);
            && m.free != [] && a <= Split(a, a + n, why) <= a + n
            && |w.free| == |v.free| - 1 - (a + n - Split(a, a + n, why))
            && var f := AllocFrame(m);
               Lost(w, f) && Users(w.spaces, f) == {} && A.NoneLost(w, {f})
  {
    hide Inv, A.NoneLost, Lost, R.Mmap, Refuse, UndoAll, Taken, Split, Users;
    MmapSize(v, p, a, n, write);
    var m := R.Mmap(v, p, a, n, write);
    var t := TakeFrame(m);
    TakeFrameInv(m);
    MmapOwns(v, p, a, a, n, write);
    TakeOwned(m, p, a, n);
    var x := Refuse(t, p, a + n, why);
    RefuseRest(t, p, a + n, why);
    TakenAbove(a, n, why);
    RefusedSize(t, x, p, a, n, Split(a, a + n, why), Taken(a + n, why));
    A.MmapLoses(v, p, a, n, write, {});
    TakeFrameLoses(m);
    var f := AllocFrame(m);
    RefuseLoses(t, x, f);
    UndoAllKeepsLost(x, p, a, n, f);
    LostIsUnmapped(MmapFails(v, p, a, n, write, why), f);
  }

  /** Some page of memory is in the table that a refusal of page b drops. */
  ghost predicate DropsRam(s: Space, b: Page, why: Refusal) {
    why.Mapped? && A.MapsRam(s, TableBase(b), PAGES_PER_TABLE)
  }

  lemma RefuseLeaks(t: Vm, p: Pid, b: Page, why: Refusal)
    requires Inv(t) && p in t.spaces
    ensures var x := Refuse(t, p, b, why);
            && A.LeaksGrow(t, x)
            && (x.leaked == t.leaked <==> !DropsRam(t.spaces[p], b, why))
  {
    hide Inv, R.Munmap, TableBase, A.MapsRam;
    A.MunmapLeaks(t, p, TableBase(b), PAGES_PER_TABLE);
  }

  lemma LeaksFrom(v: Vm, t: Vm, x: Vm, w: Vm)
    requires t.leaked == v.leaked && w.leaked == x.leaked && A.LeaksGrow(t, x)
    ensures A.LeaksGrow(v, w)
  {
  }

  /** It leaves references behind exactly when the table it dropped held memory, the caller's or just entered. */
  lemma MmapFailsLeaks(v: Vm, p: Pid, a: Page, n: nat, write: bool, why: Refusal)
    requires Inv(v) && Refusable(v, p, a, n, why)
    ensures var w := MmapFails(v, p, a, n, write, why);
            && A.LeaksGrow(v, w)
            && (w.leaked == v.leaked <==> !DropsRam(v.spaces[p], a + n, why) && Split(a, a + n, why) == a + n)
  {
    hide Inv, A.LeaksGrow, R.Mmap, Refuse, UndoAll, DropsRam, Split;
    MmapSize(v, p, a, n, write);
    var m := R.Mmap(v, p, a, n, write);
    var t := TakeFrame(m);
    TakeFrameInv(m);
    A.MmapLeak(v, p, a, n, write);
    var x := Refuse(t, p, a + n, why);
    RefuseRest(t, p, a + n, why);
    RefuseLeaks(t, p, a + n, why);
    UndoRest(x, p, a, n);
    TakenAbove(a, n, why);
    MmapRam(v, p, a, n, write, why);
    LeaksFrom(v, t, x, MmapFails(v, p, a, n, write, why));
  }

  lemma {:induction false} MmapSpace(v: Vm, p: Pid, a: Page, n: nat, write: bool)
    requires Inv(v) && p in v.spaces && n <= |v.free| && R.Unmapped(v.spaces[p], a, n)
    ensures var m := R.Mmap(v, p, a, n, write);
            && p in m.spaces && m.spaces[p].Keys == v.spaces[p].Keys + R.Pages(a, n)
            && (forall b :: b in m.spaces[p] ==>
                  if b in v.spaces[p] then m.spaces[p][b] == v.spaces[p][b] else !m.spaces[p][b].phys)
    decreases n
  {
    hide Inv;
    if n > 0 {
      var u := MmapOne(v, p, a, write);
      MmapOneInv(v, p, a, write);
      MmapSpace(u, p, a + 1, n - 1, write);
      assert u.spaces[p].Keys == v.spaces[p].Keys + {a};
    }
  }

  lemma MmapRam(v: Vm, p: Pid, a: Page, n: nat, write: bool, why: Refusal)
    requires Inv(v) && p in v.spaces && n < |v.free| && R.Unmapped(v.spaces[p], a, n)
    ensures var m := R.Mmap(v, p, a, n, write);
            && p in m.spaces
            && (DropsRam(m.spaces[p], a + n, why) <==>
                  DropsRam(v.spaces[p], a + n, why) || Split(a, a + n, why) < a + n)
  {
    hide Inv, R.Mmap, TableBase;
    MmapSpace(v, p, a, n, write);
    TableHolds(a + n);
    var m, base := R.Mmap(v, p, a, n, write), TableBase(a + n);
    if why.Mapped? && A.MapsRam(v.spaces[p], base, PAGES_PER_TABLE) {
      var b :| base <= b < base + PAGES_PER_TABLE && b in v.spaces[p] && !v.spaces[p][b].phys;
      assert b in m.spaces[p] && !m.spaces[p][b].phys;
    } else if Split(a, a + n, why) < a + n {
      var b := Max(a, base);
      assert b in R.Pages(a, n) && b in m.spaces[p] && !m.spaces[p][b].phys;
    }
  }

  // ---------------------------------------------------------------------
  // The call, whatever is mapped
  // ---------------------------------------------------------------------

  /** How many pages of the range come before the first that is mapped. */
  function Before(s: Space, a: Page, n: nat): (k: nat)
    ensures k <= n && (k < n ==> a + k in s) && forall b :: a <= b < a + k ==> b !in s
    decreases n
  {
    if n == 0 || a in s then 0 else 1 + Before(s, a + 1, n - 1)
  }

  /** sys_mmap of anonymous memory, with a region chosen and frames to be had. */
  function SysMmap(v: Vm, p: Pid, a: Page, n: nat, write: bool): (r: (Vm, bool))
    requires Inv(v) && p in v.spaces && n <= |v.free| && USER_BASE <= a && a + n <= USER_CEILING
    ensures Inv(r.0)
  {
    var k := Before(v.spaces[p], a, n);
    if k == n then (R.Mmap(v, p, a, n, write), true) else (MmapFails(v, p, a, k, write, Mapped), false)
  }

  /**
    sys_mmap succeeds if and only if no page of its range is mapped, and that is exactly when
    it loses no frame. Then the process has the zeroed pages asked for; otherwise it has lost
    every page of the table that holds the first mapped one.
   */
  lemma SysMmapExact(v: Vm, p: Pid, a: Page, n: nat, write: bool)
    requires Inv(v) && p in v.spaces && n <= |v.free| && USER_BASE <= a && a + n <= USER_CEILING
    requires A.NoneLost(v, {})
    ensures var (w, ok) := SysMmap(v, p, a, n, write); var k := Before(v.spaces[p], a, n);
            && (ok <==> forall b :: a <= b < a + n ==> b !in v.spaces[p])
            && (A.NoneLost(w, {}) <==> ok)
            && p in Abs(v)
            && Abs(w) == if ok then R.EagerMmap(Abs(v), p, a, n, write)
                         else R.EagerMunmap(Abs(v), p, TableBase(a + k), PAGES_PER_TABLE)
  {
    hide Inv, Abs, R.EagerMmap, R.EagerMunmap, TableBase, R.Mmap, MmapFails;
    var k := Before(v.spaces[p], a, n);
    R.AbsKeys(v);
    if k == n {
      A.MmapLoses(v, p, a, n, write, {});
      R.MmapAbs(v, p, a, n, write);
    } else {
      assert a <= a + k < a + n && a + k in v.spaces[p];
      MmapFailsLosesFrames(v, p, a, k, write, Mapped);
      MmapFailsAbs(v, p, a, k, write, Mapped);
    }
  }

  /** A page mapped twice: the frame of the second call is lost, and the page is gone. */
  lemma MmapOverMappedPage()
    ensures var v := MmapOne(TwoFrames(), 0, USER_BASE, true);
            && Inv(v) && USER_BASE in v.spaces[0] && v.free == [3]
            && var (w, ok) := SysMmap(v, 0, USER_BASE, 1, true);
               !ok && 0 in w.spaces && USER_BASE !in w.spaces[0] && w.free == [] && Lost(w, 3)
  {
    hide Inv, Zeros, MmapFails, A.NoneLost, Lost, SetPte;
    TwoFramesOk();
    var v := MmapOne(TwoFrames(), 0, USER_BASE, true);
    MmapOneInv(TwoFrames(), 0, USER_BASE, true);
    A.MmapOneLoses(TwoFrames(), 0, USER_BASE, true, {});
    SetThere(TwoFrames().spaces, 0, USER_BASE, Pte(7, true, false, false));
    FirstRefused(v, 0, USER_BASE);
  }

  lemma SetThere(spaces: map<Pid, Space>, p: Pid, a: Page, e: Pte)
    requires p in spaces
    ensures var s := SetPte(spaces, p, a, e); p in s && a in s[p]
  {
  }

  /** The first page of a call refused as mapped. */
  lemma FirstRefused(v: Vm, p: Pid, a: Page)
    requires Inv(v) && p in v.spaces && |v.free| == 1 && a in v.spaces[p] && USER_BASE <= a < USER_CEILING
    requires A.NoneLost(v, {})
    ensures Refusable(v, p, a, 0, Mapped)
    ensures var w := MmapFails(v, p, a, 0, true, Mapped);
            p in w.spaces && a !in w.spaces[p] && w.free == [] && Lost(w, v.free[0])
  {
    hide Inv, A.NoneLost, Lost, Refuse, Taken;
    MmapFailsLosesFrames(v, p, a, 0, true, Mapped);
    MmapSize(v, p, a, 0, true);
    TakeFrameInv(v);
    RefuseRest(TakeFrame(v), p, a, Mapped);
    InTable(a);
  }

  lemma InTable(a: Page)
    ensures a in Taken(a, Mapped)
  {
    TableHolds(a);
  }

  /** A table that could not be had: the one frame there is is lost. */
  lemma MmapWithoutTable()
    ensures var v := A.OneFrame();
            Inv(v) && A.NoneLost(v, {}) && Refusable(v, 0, USER_BASE, 0, NoTable)
            && var w := MmapFails(v, 0, USER_BASE, 0, true, NoTable); w.free == [] && Lost(w, 7)
  {
    hide Inv, Users, Zeros;
    A.OneFrameOk();
    MmapFailsLosesFrames(A.OneFrame(), 0, USER_BASE, 0, true, NoTable);
  }

  /** One process and two free frames. */
  function TwoFrames(): Vm {
    Vm(map[0 := map[]], map[3 := 0, 7 := 0], map[3 := Zeros(), 7 := Zeros()], [3, 7], map[])
  }

  lemma TwoFramesOk()
    ensures Inv(TwoFrames()) && A.NoneLost(TwoFrames(), {})
  {
    var v := TwoFrames();
    assert forall f :: Users(v.spaces, f) == {};
  }

  lemma TakeOwned(m: Vm, p: Pid, a: Page, n: nat)
    requires Inv(m) && m.free != [] && Owned(m, p, a, n)
    ensures Owned(TakeFrame(m), p, a, n)
  {
    hide Exclusive, CountsOk, NoDup;
    var w := TakeFrame(m);
    forall b | a <= b < a + n
      ensures b in w.spaces[p] && !w.spaces[p][b].phys && w.spaces[p][b].frame in w.refs
              && w.refs[w.spaces[p][b].frame] == 1
    {
      NotFree(m, p, b);
      assert AllocFrame(m) in m.free;
    }
  }
}
