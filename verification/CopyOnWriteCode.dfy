/**
  The mutable form of vm/as.c, vm/pagefault.c, vm/page.c and the mapping loop of
  vm/mmap.c, each method proved equal to the operation that describes it.
 */
module CopyOnWriteCode {
  import opened Lists
  import opened CopyOnWrite
  import R = CopyOnWriteRuns
  import F = MmapFailure

  class Memory {
    var spaces: map<Pid, Space>
    var refs: map<Frame, int>
    var mem: map<Frame, Bytes>
    var free: seq<Frame>
    ghost var leaked: map<Frame, nat>

    ghost function View(): Vm
      reads this
    {
      Vm(spaces, refs, mem, free, leaked)
    }

    constructor (frames: seq<Frame>)
      requires NoDup(frames)
      ensures Inv(View()) && spaces == map[] && free == frames && leaked == map[]
    {
      spaces, free, leaked := map[], frames, map[];
      refs := map f | f in frames :: 0;
      mem := map f | f in frames :: Zeros();
      assert forall f: Frame :: Users(map[], f) == {};
    }

    /** alloc_page: the tail of the free queue, zeroed, with no references. */
    method AllocPage() returns (f: Frame)
      requires free != []
      modifies this
      ensures f == old(AllocFrame(View())) && spaces == old(spaces) && leaked == old(leaked)
      ensures free == old(free)[..|old(free)| - 1] && refs == old(refs)[f := 0] && mem == old(mem)[f := Zeros()]
    {
      f := free[|free| - 1];
      free := free[..|free| - 1];
      mem := mem[f := Zeros()];
      refs := refs[f := 0];
    }

    /** free_page. */
    method FreePage(f: Frame)
      requires f in refs
      modifies this
      ensures spaces == old(spaces) && mem == old(mem) && leaked == old(leaked)
      ensures refs == old(refs)[f := old(refs)[f] - 1]
      ensures free == if old(refs)[f] - 1 > 0 then old(free) else old(free) + [f]
    {
      refs := refs[f := refs[f] - 1];
      if refs[f] > 0 {
        return;
      }
      free := free + [f];
    }

    method Enter(p: Pid, a: Page, e: Pte)
      requires p in spaces
      modifies this
      ensures View() == old(View()).(spaces := SetPte(old(spaces), p, a, e))
    {
      var s: Space := spaces[p];
      spaces := spaces[p := s[a := e]];
    }

    method Remove(p: Pid, a: Page)
      requires p in spaces
      modifies this
      ensures View() == old(View()).(spaces := DropPte(old(spaces), p, a))
    {
      var s: Space := spaces[p];
      spaces := spaces[p := s - {a}];
    }

    /** page_fault; `write` is the PROT_WRITE bit of the access. */
    method PageFault(p: Pid, a: Page, write: bool) returns (ok: bool)
      requires Inv(View()) && Supplied(View(), p, a) && p in spaces
      modifies this
      ensures write ==> (View(), ok) == Fault(old(View()), p, a)
      ensures !write ==> !ok && View() == old(View())
    {
      hide PagesOk, MemOk, Exclusive, CountsOk;
      if a !in spaces[p] {
        return false;
      }
      var e := spaces[p][a];
      if e.phys || !write || (e.write && !e.cow) || !(e.write && e.cow) {
        return false;
      }
      FrameKnown(View(), p, a);
      if refs[e.frame] > 1 {
        CopyPage(p, a);
      } else {
        Remove(p, a);
        Enter(p, a, e.(cow := false));
        SetAfterDrop(old(spaces), p, a, e.(cow := false));
      }
      ok := true;
    }

    /** The branch of page_fault for a page that is still shared. */
    method CopyPage(p: Pid, a: Page)
      requires Inv(View()) && free != [] && CanBreak(View(), p, a)
      requires spaces[p][a].frame in refs && refs[spaces[p][a].frame] > 1
      modifies this
      ensures View() == Fault(old(View()), p, a).0
    {
      hide PagesOk, MemOk, Exclusive, CountsOk, SetPte, DropPte, NoDup;
      FrameKnown(View(), p, a);
      var shared := spaces[p][a].frame;
      ghost var was := View();
      SetAfterDrop(was.spaces, p, a, Pte(AllocFrame(was), true, false, false));
      refs := refs[shared := refs[shared] - 1];
      Remove(p, a);
      var f := AllocPage();
      mem := mem[f := mem[shared]];
      Enter(p, a, Pte(f, true, false, false));
      refs := refs[f := refs[f] + 1];
      assert mem == was.mem[f := was.mem[shared]];
      assert refs == was.refs[shared := was.refs[shared] - 1][f := 1];
    }

    /** pmap_enter: a page that is mapped already is refused, and its table dropped. */
    method TryEnter(p: Pid, a: Page, e: Pte) returns (ok: bool)
      requires Inv(View()) && p in spaces
      modifies this
      ensures ok <==> a !in old(spaces)[p]
      ensures ok ==> View() == old(View()).(spaces := SetPte(old(spaces), p, a, e))
      ensures !ok ==> View() == F.DropTable(old(View()), p, a)
    {
      hide Inv, R.Munmap, F.TableBase;
      if a in spaces[p] {
        F.MunmapRest(View(), p, F.TableBase(a), PAGES_PER_TABLE);
        leaked := F.DropTable(View(), p, a).leaked;
        var s: Space := spaces[p];
        spaces := spaces[p := s - R.Pages(F.TableBase(a), PAGES_PER_TABLE)];
        return false;
      }
      Enter(p, a, e);
      ok := true;
    }

    /** The body of sys_mmap's loop over anonymous pages. */
    method MmapPage(p: Pid, a: Page, write: bool) returns (ok: bool)
      requires Inv(View()) && p in spaces && free != []
      modifies this
      ensures ok <==> a !in old(spaces)[p]
      ensures ok ==> View() == MmapOne(old(View()), p, a, write)
      ensures !ok ==> Inv(F.TakeFrame(old(View()))) && View() == F.DropTable(F.TakeFrame(old(View())), p, a)
    {
      hide Inv, F.DropTable;
      F.TakeFrameInv(View());
      var f := AllocPage();
      assert View() == F.TakeFrame(old(View()));
      ok := TryEnter(p, a, Pte(f, write, false, false));
      if ok {
        refs := refs[f := 1];
      }
    }

    /** One turn of the clean-up loop: free_page and pmap_remove of a page that is there. */
    method UndoPage(p: Pid, a: Page)
      requires Inv(View()) && p in spaces
      modifies this
      ensures View() == F.UndoOne(old(View()), p, a)
    {
      hide PagesOk, MemOk, Exclusive, CountsOk;
      if a in spaces[p] {
        var e := spaces[p][a];
        if !e.phys {
          FrameKnown(View(), p, a);
          FreePage(e.frame);
        }
        Remove(p, a);
      }
    }

    method Undo(p: Pid, addr: Page, n: nat)
      requires Inv(View()) && p in spaces
      modifies this
      ensures View() == F.UndoAll(old(View()), p, addr, n)
    {
      hide Inv, F.UndoOne;
      var a := addr;
      ghost var k, goal := View(), F.UndoAll(View(), p, addr, n);
      while a < addr + n
        invariant View() == k && addr <= a <= addr + n && Inv(k) && p in k.spaces
        invariant F.UndoAll(k, p, a, addr + n - a) == goal
      {
        F.UndoOneInv(k, p, a);
        UndoLeaves(k, p, a);
        UndoPage(p, a);
        k := F.UndoOne(k, p, a);
        a := a + 1;
      }
    }

    /** The part of sys_mmap after a region has been found: the loop, and the clean-up when a page is refused. */
    method Mmap(p: Pid, addr: Page, n: nat, write: bool) returns (ok: bool)
      requires Inv(View()) && p in spaces && n <= |free| && USER_BASE <= addr && addr + n <= USER_CEILING
      modifies this
      ensures (View(), ok) == F.SysMmap(old(View()), p, addr, n, write)
    {
      hide Inv, MmapOne, F.UndoAll, F.DropTable, F.TakeFrame, R.Mmap;
      ghost var v := View();
      var a := addr;
      ok := true;
      MmapNone(v, p, addr, write);
      while ok && a < addr + n
        invariant addr <= a <= addr + n && R.Unmapped(v.spaces[p], addr, a - addr)
        invariant ok ==> View() == R.Mmap(v, p, addr, a - addr, write)
        invariant !ok ==> a < addr + n && F.Refusable(v, p, addr, a - addr, F.Mapped)
        invariant !ok ==> var m := R.Mmap(v, p, addr, a - addr, write);
                          && p in m.spaces && m.free != [] && Inv(F.TakeFrame(m)) && p in F.TakeFrame(m).spaces
                          && View() == F.DropTable(F.TakeFrame(m), p, a)
        decreases addr + n - a, ok
      {
        F.MmapSize(v, p, addr, a - addr, write);
        F.MmapSpace(v, p, addr, a - addr, write);
        F.TakeFrameInv(View());
        TakeSpaces(View());
        ok := MmapPage(p, a, write);
        if ok {
          MmapSnoc(v, p, addr, a - addr, write);
          a := a + 1;
        }
      }
      if !ok {
        DropSpaces(F.TakeFrame(R.Mmap(v, p, addr, a - addr, write)), p, a);
        Undo(p, addr, a - addr);
        BeforeIs(v.spaces[p], addr, n, a - addr);
      } else {
        BeforeIs(v.spaces[p], addr, n, n);
      }
    }

    /** fork_address_space's body for one page. */
    method ForkPage(p: Pid, c: Pid, a: Page)
      requires Inv(View()) && p in spaces && c in spaces && p != c
      modifies this
      ensures View() == ForkOne(old(View()), p, c, a)
    {
      hide PagesOk, MemOk, Exclusive, CountsOk, SetPte;
      if a in spaces[p] {
        var e := spaces[p][a];
        if !e.phys {
          FrameKnown(View(), p, a);
        }
        if !e.phys && e.write {
          e := e.(cow := true);
          SetKeeps(spaces, p, a, e);
          Enter(p, a, e);
          Enter(c, a, e);
          refs := refs[e.frame := refs[e.frame] + 1];
        } else if !e.phys {
          SetSame(spaces, p, a);
          Enter(c, a, e);
          refs := refs[e.frame := refs[e.frame] + 1];
        } else {
          Enter(c, a, Pte(e.frame, true, false, true));
        }
      }
    }

    /** fork_address_space: page table by page table, skipping those the parent does not have. */
    method ForkAddressSpace(p: Pid, c: Pid)
      requires Inv(View()) && p in spaces && p != c && (c !in spaces || spaces[c] == map[])
      modifies this
      ensures View() == R.Fork(old(View()), p, c)
    {
      hide Inv, ForkOne;
      R.EmptyInv(View(), c);
      spaces := spaces[c := map[]];
      ghost var k, goal := View(), R.ForkFrom(View(), p, c, USER_BASE);
      var table := USER_BASE;
      while table < USER_CEILING
        invariant View() == k && Inv(k) && p in k.spaces && c in k.spaces
        invariant USER_BASE <= table <= USER_CEILING && (USER_CEILING - table) % PAGES_PER_TABLE == 0
        invariant forall b :: b in k.spaces[c] ==> b < table
        invariant R.ForkFrom(k, p, c, table) == goal
      {
        if TablePresent(spaces[p], table) {
          var a := table;
          while a < table + PAGES_PER_TABLE
            invariant table <= a <= table + PAGES_PER_TABLE
            invariant View() == k && Inv(k) && p in k.spaces && c in k.spaces
            invariant forall b :: b in k.spaces[c] ==> b < a
            invariant R.ForkFrom(k, p, c, a) == goal
          {
            ForkOneInv(k, p, c, a);
            ForkLeaves(k, p, c, a);
            ForkPage(p, c, a);
            k := ForkOne(k, p, c, a);
            a := a + 1;
          }
        } else {
          SkipTable(k, p, c, table, PAGES_PER_TABLE);
        }
        table := table + PAGES_PER_TABLE;
      }
    }

    /** cleanup_address_space's body for one page. */
    method CleanupPage(p: Pid, a: Page)
      requires Inv(View()) && p in spaces
      modifies this
      ensures View() == CleanupOne(old(View()), p, a)
    {
      hide Inv;
      if a in spaces[p] {
        var e := spaces[p][a];
        if !e.phys {
          FrameKnown(View(), p, a);
        }
        Remove(p, a);
        if !e.phys {
          refs := refs[e.frame := refs[e.frame] - 1];
          if refs[e.frame] == 0 {
            FreePage(e.frame);
          }
          assert refs == old(refs)[e.frame := refs[e.frame]];
        }
      }
    }

    method CleanupAddressSpace(p: Pid)
      requires Inv(View()) && p in spaces
      modifies this
      ensures View() == R.Exit(old(View()), p)
    {
      hide Inv, CleanupOne;
      ghost var k, goal := View(), R.CleanupFrom(View(), p, USER_BASE);
      var table := USER_BASE;
      while table < USER_CEILING
        invariant View() == k && Inv(k) && p in k.spaces
        invariant USER_BASE <= table <= USER_CEILING && (USER_CEILING - table) % PAGES_PER_TABLE == 0
        invariant R.CleanupFrom(k, p, table) == goal
      {
        if TablePresent(spaces[p], table) {
          var a := table;
          while a < table + PAGES_PER_TABLE
            invariant table <= a <= table + PAGES_PER_TABLE
            invariant View() == k && Inv(k) && p in k.spaces && R.CleanupFrom(k, p, a) == goal
          {
            CleanupOneInv(k, p, a);
            CleanupLeaves(k, p, a);
            CleanupPage(p, a);
            k := CleanupOne(k, p, a);
            a := a + 1;
          }
        } else {
          SkipEmpty(k, p, table, PAGES_PER_TABLE);
        }
        table := table + PAGES_PER_TABLE;
      }
    }
  }

  /** pmap_is_pagetable_present: a table exists exactly while one of its entries does. */
  predicate TablePresent(s: Space, table: Page) {
    exists a :: table <= a < table + PAGES_PER_TABLE && a in s
  }

  lemma FrameKnown(v: Vm, p: Pid, a: Page)
    requires Inv(v) && p in v.spaces && a in v.spaces[p] && !v.spaces[p][a].phys
    ensures v.spaces[p][a].frame in v.refs && v.spaces[p][a].frame in v.mem && v.spaces[p][a].frame !in v.free
    ensures v.free != [] ==> AllocFrame(v) != v.spaces[p][a].frame
  {
    NotFree(v, p, a);
  }

  lemma SetSame(spaces: map<Pid, Space>, p: Pid, a: Page)
    requires p in spaces && a in spaces[p]
    ensures SetPte(spaces, p, a, spaces[p][a]) == spaces
  {
    assert spaces[p][a := spaces[p][a]] == spaces[p];
  }

  lemma SetKeeps(spaces: map<Pid, Space>, p: Pid, a: Page, e: Pte)
    requires p in spaces
    ensures SetPte(spaces, p, a, e).Keys == spaces.Keys
  {
  }

  lemma SetAfterDrop(spaces: map<Pid, Space>, p: Pid, a: Page, e: Pte)
    requires p in spaces
    ensures p in DropPte(spaces, p, a)
    ensures SetPte(DropPte(spaces, p, a), p, a, e) == SetPte(spaces, p, a, e)
  {
    var s: Space := spaces[p];
    assert (s - {a})[a := e] == s[a := e];
  }

  lemma MmapNone(v: Vm, p: Pid, a: Page, write: bool)
    requires Inv(v) && p in v.spaces && USER_BASE <= a <= USER_CEILING
    ensures R.Mmap(v, p, a, 0, write) == v
  {
  }

  /** The last page entered is one more than all before it. */
  lemma {:induction false} MmapSnoc(v: Vm, p: Pid, a: Page, n: nat, write: bool)
    requires Inv(v) && p in v.spaces && n < |v.free| && R.Unmapped(v.spaces[p], a, n + 1)
    ensures var m := R.Mmap(v, p, a, n, write);
            p in m.spaces && m.free != [] && R.Mmap(v, p, a, n + 1, write) == MmapOne(m, p, a + n, write)
    decreases n
  {
    hide Inv;
    MmapOneInv(v, p, a, write);
    if n == 0 {
      MmapNone(MmapOne(v, p, a, write), p, a + 1, write);
    } else {
      MmapSnoc(MmapOne(v, p, a, write), p, a + 1, n - 1, write);
    }
  }

  lemma UndoLeaves(v: Vm, p: Pid, a: Page)
    requires p in v.spaces
    ensures p in F.UndoOne(v, p, a).spaces
  {
  }

  lemma TakeSpaces(v: Vm)
    requires v.free != []
    ensures F.TakeFrame(v).spaces == v.spaces
  {
  }

  lemma DropSpaces(v: Vm, p: Pid, a: Page)
    requires Inv(v) && p in v.spaces
    ensures p in F.DropTable(v, p, a).spaces
  {
    hide Inv, R.Munmap, F.TableBase;
    F.MunmapRest(v, p, F.TableBase(a), PAGES_PER_TABLE);
  }

  lemma BeforeIs(s: Space, a: Page, n: nat, k: nat)
    requires k <= n && (k < n ==> a + k in s) && forall b :: a <= b < a + k ==> b !in s
    ensures F.Before(s, a, n) == k
  {
    var j := F.Before(s, a, n);
    assert j < k ==> a <= a + j < a + k && a + j in s;
  }

  lemma ForkLeaves(v: Vm, p: Pid, c: Pid, a: Page)
    requires p in v.spaces && c in v.spaces && forall b :: b in v.spaces[c] ==> b < a
    ensures var w := ForkOne(v, p, c, a);
            p in w.spaces && c in w.spaces && (p != c ==> forall b :: b in w.spaces[c] ==> b < a + 1)
  {
  }

  lemma CleanupLeaves(v: Vm, p: Pid, a: Page)
    requires p in v.spaces
    ensures p in CleanupOne(v, p, a).spaces
  {
  }

  /** Pages the parent does not map are skipped without effect. */
  lemma {:induction false} SkipTable(v: Vm, p: Pid, c: Pid, a: Page, n: nat)
    requires Inv(v) && p in v.spaces && c in v.spaces && p != c && a + n <= USER_CEILING
    requires forall b :: b in v.spaces[c] ==> b < a
    requires forall b :: a <= b < a + n ==> b !in v.spaces[p]
    ensures R.ForkFrom(v, p, c, a) == R.ForkFrom(v, p, c, a + n)
    decreases n
  {
    hide Inv;
    if n > 0 {
      ForkOneInv(v, p, c, a);
      assert ForkOne(v, p, c, a) == v;
      SkipTable(v, p, c, a + 1, n - 1);
    }
  }

  lemma {:induction false} SkipEmpty(v: Vm, p: Pid, a: Page, n: nat)
    requires Inv(v) && p in v.spaces && a + n <= USER_CEILING
    requires forall b :: a <= b < a + n ==> b !in v.spaces[p]
    ensures R.CleanupFrom(v, p, a) == R.CleanupFrom(v, p, a + n)
    decreases n
  {
    hide Inv;
    if n > 0 {
      CleanupOneInv(v, p, a);
      assert CleanupOne(v, p, a) == v;
      SkipEmpty(v, p, a + 1, n - 1);
    }
  }
}
