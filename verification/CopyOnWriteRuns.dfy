/**
  Copy-on-write memory refines eager copying: over every run of mmap, munmap, fork,
  user loads and stores, page faults and exits, each process sees the memory it
  would see had fork copied every page.
 */
module CopyOnWriteRuns {
  import opened Lists
  import opened CopyOnWrite

  function EagerSet(e: Eager, p: Pid, a: Page, s: Seen): Eager
    requires p in e
  {
    var was: map<Page, Seen> := e[p];
    var now: map<Page, Seen> := was[a := s];
    e[p := now]
  }

  function EagerDrop(e: Eager, p: Pid, a: Page): Eager
    requires p in e
  {
    var was: map<Page, Seen> := e[p];
    e[p := was - {a}]
  }

  lemma EagerSame(e: Eager, p: Pid, a: Page)
    requires p in e && a in e[p]
    ensures EagerSet(e, p, a, e[p][a]) == e
  {
    assert e[p][a := e[p][a]] == e[p];
  }

  /** Frames mapped anywhere but at (p, a) keep their bytes. */
  ghost predicate SameBytes(v: Vm, w: Vm, p: Pid, a: Page) {
    forall q: Pid, b: Page, f: Frame :: Maps(v.spaces, q, b, f) && (q, b) != (p, a) ==>
      Content(w.mem, f) == Content(v.mem, f)
  }

  lemma AbsSet(v: Vm, w: Vm, p: Pid, a: Page, e: Pte)
    requires p in v.spaces && w.spaces == SetPte(v.spaces, p, a, e) && SameBytes(v, w, p, a)
    ensures Abs(w) == EagerSet(Abs(v), p, a, See(e, w.mem))
  {
    forall q: Pid | q in v.spaces
      ensures AbsSpace(w.spaces[q], w.mem) ==
              if q == p then AbsSpace(v.spaces[q], v.mem)[a := See(e, w.mem)] else AbsSpace(v.spaces[q], v.mem)
    {
      forall b: Page | b in w.spaces[q] && (q, b) != (p, a)
        ensures See(w.spaces[q][b], w.mem) == See(v.spaces[q][b], v.mem)
      {
        SeenAgain(v, w, p, a, q, b);
      }
    }
    hide AbsSpace, SameBytes;
  }

  lemma SeenAgain(v: Vm, w: Vm, p: Pid, a: Page, q: Pid, b: Page)
    requires SameBytes(v, w, p, a) && q in v.spaces && b in v.spaces[q] && (q, b) != (p, a)
    ensures See(v.spaces[q][b], w.mem) == See(v.spaces[q][b], v.mem)
  {
    assert !v.spaces[q][b].phys ==> Maps(v.spaces, q, b, v.spaces[q][b].frame);
  }

  lemma AbsDrop(v: Vm, w: Vm, p: Pid, a: Page)
    requires p in v.spaces && w.spaces == DropPte(v.spaces, p, a) && w.mem == v.mem
    ensures Abs(w) == EagerDrop(Abs(v), p, a)
  {
    forall q: Pid | q in v.spaces
      ensures q in Abs(w) && Abs(w)[q] == EagerDrop(Abs(v), p, a)[q]
    {
      assert AbsSpace(w.spaces[q], w.mem) == EagerDrop(Abs(v), p, a)[q];
    }
  }

  /** Taking a frame from the free queue disturbs nobody. */
  lemma FreshBytes(v: Vm, w: Vm, p: Pid, a: Page, bytes: Bytes)
    requires Inv(v) && v.free != [] && w.mem == v.mem[AllocFrame(v) := bytes]
    ensures SameBytes(v, w, p, a)
  {
    FreeTail(v);
    var f := AllocFrame(v);
    forall q: Pid, b: Page
      ensures !Maps(v.spaces, q, b, f)
    {
      assert Maps(v.spaces, q, b, f) ==> (q, b) in Users(v.spaces, f);
    }
  }

  lemma MmapOneAbs(v: Vm, p: Pid, a: Page, write: bool)
    requires Inv(v) && p in v.spaces && v.free != []
    ensures Abs(MmapOne(v, p, a, write)) == EagerSet(Abs(v), p, a, Ram(Zeros(), write))
  {
    hide Inv, SameBytes, Abs;
    var w := MmapOne(v, p, a, write);
    FreshBytes(v, w, p, a, Zeros());
    AbsSet(v, w, p, a, Pte(AllocFrame(v), write, false, false));
  }

  lemma MmapPhysOneAbs(v: Vm, p: Pid, a: Page, f: Frame, write: bool)
    requires p in v.spaces
    ensures Abs(MmapPhysOne(v, p, a, f, write)) == EagerSet(Abs(v), p, a, Device(f, write))
  {
    AbsSet(v, MmapPhysOne(v, p, a, f, write), p, a, Pte(f, write, false, true));
  }

  /** What the child of a fork sees of a page: its own copy of memory; a device becomes writable. */
  function Child(s: Seen): Seen {
    if s.Device? then Device(s.frame, true) else s
  }

  lemma ForkOneAbs(v: Vm, p: Pid, c: Pid, a: Page)
    requires Inv(v) && p in v.spaces && c in v.spaces && p != c && a !in v.spaces[c]
    ensures p in Abs(v) && c in Abs(v)
    ensures Abs(ForkOne(v, p, c, a)) ==
            if a in Abs(v)[p] then EagerSet(Abs(v), c, a, Child(Abs(v)[p][a])) else Abs(v)
  {
    hide Exclusive, CountsOk, NoDup;
    if a in v.spaces[p] {
      var e, w := v.spaces[p][a], ForkOne(v, p, c, a);
      if e.phys {
        AbsSet(v, w, c, a, Pte(e.frame, true, false, true));
      } else {
        var shared := if e.write then e.(cow := true) else e;
        var m := v.(spaces := SetPte(v.spaces, p, a, shared));
        AbsSet(v, m, p, a, shared);
        EagerSame(Abs(v), p, a);
        AbsSet(m, w, c, a, shared);
      }
    }
  }

  lemma CleanupOneAbs(v: Vm, p: Pid, a: Page)
    requires p in v.spaces
    ensures Abs(CleanupOne(v, p, a)) == EagerDrop(Abs(v), p, a)
  {
    if a in v.spaces[p] {
      AbsDrop(v, CleanupOne(v, p, a), p, a);
    } else {
      assert Abs(v)[p] - {a} == Abs(v)[p];
      assert EagerDrop(Abs(v), p, a) == Abs(v);
    }
  }

  /** Breaking a copy-on-write page is invisible. */
  lemma FaultAbs(v: Vm, p: Pid, a: Page)
    requires Inv(v) && Supplied(v, p, a)
    ensures Abs(Fault(v, p, a).0) == Abs(v)
  {
    hide Exclusive, CountsOk, NoDup, SameBytes;
    if CanBreak(v, p, a) {
      var e, w := v.spaces[p][a], Fault(v, p, a).0;
      if v.refs[e.frame] > 1 {
        FreshBytes(v, w, p, a, v.mem[e.frame]);
        AbsSet(v, w, p, a, Pte(AllocFrame(v), true, false, false));
      } else {
        SameMem(v, w, p, a);
        AbsSet(v, w, p, a, e.(cow := false));
      }
      EagerSame(Abs(v), p, a);
    }
  }

  lemma SameMem(v: Vm, w: Vm, p: Pid, a: Page)
    requires w.mem == v.mem
    ensures SameBytes(v, w, p, a)
  {
  }

  // ---------------------------------------------------------------------
  // Whole operations
  // ---------------------------------------------------------------------

  /** sys_mmap of n anonymous pages. */
  function Mmap(v: Vm, p: Pid, a: Page, n: nat, write: bool): (w: Vm)
    requires Inv(v) && p in v.spaces && n <= |v.free| && Unmapped(v.spaces[p], a, n)
    ensures Inv(w)
    decreases n
  {
    if n == 0 then v
    else
      MmapOneInv(v, p, a, write);
      Mmap(MmapOne(v, p, a, write), p, a + 1, n - 1, write)
  }

  function MmapPhys(v: Vm, p: Pid, a: Page, n: nat, f: Frame, write: bool): (w: Vm)
    requires Inv(v) && p in v.spaces && Unmapped(v.spaces[p], a, n)
    ensures Inv(w)
    decreases n
  {
    if n == 0 then v
    else
      MmapPhysOneInv(v, p, a, f, write);
      MmapPhys(MmapPhysOne(v, p, a, f, write), p, a + 1, n - 1, f + 1, write)
  }

  predicate Unmapped(s: Space, a: Page, n: nat) {
    USER_BASE <= a && a + n <= USER_CEILING && forall b :: a <= b < a + n ==> b !in s
  }

  function Munmap(v: Vm, p: Pid, a: Page, n: nat): (w: Vm)
    requires Inv(v) && p in v.spaces
    ensures Inv(w)
    decreases n
  {
    if n == 0 then v
    else
      MunmapOneInv(v, p, a);
      Munmap(MunmapOne(v, p, a), p, a + 1, n - 1)
  }

  /** fork_address_space: the loop over the user pages from `a` on. */
  function ForkFrom(v: Vm, p: Pid, c: Pid, a: Page): (w: Vm)
    requires Inv(v) && p in v.spaces && c in v.spaces && p != c && a <= USER_CEILING
    requires forall b :: b in v.spaces[c] ==> b < a
    ensures Inv(w)
    decreases USER_CEILING - a
  {
    if a == USER_CEILING then v
    else
      ForkOneInv(v, p, c, a);
      ForkFrom(ForkOne(v, p, c, a), p, c, a + 1)
  }

  /** cleanup_address_space: the loop over the user pages from `a` on. */
  function CleanupFrom(v: Vm, p: Pid, a: Page): (w: Vm)
    requires Inv(v) && p in v.spaces && a <= USER_CEILING
    ensures Inv(w)
    decreases USER_CEILING - a
  {
    if a == USER_CEILING then v
    else
      CleanupOneInv(v, p, a);
      CleanupFrom(CleanupOne(v, p, a), p, a + 1)
  }

  /** A user store: the hardware lets it through, or it faults and is retried once the fault was handled. */
  function Store(v: Vm, p: Pid, a: Page, i: nat, b: bv8): (r: (Vm, bool))
    requires Inv(v) && Supplied(v, p, a) && i < PAGE_SIZE
    ensures Inv(r.0)
  {
    if p !in v.spaces || a !in v.spaces[p] then (v, false)
    else if v.spaces[p][a].phys then (v, v.spaces[p][a].write)
    else if HwWritable(v.spaces[p][a]) then PokeInv(v, p, a, i, b); (Poke(v, p, a, i, b), true)
    else
      FaultInv(v, p, a);
      var (w, ok) := Fault(v, p, a);
      if ok then PokeInv(w, p, a, i, b); (Poke(w, p, a, i, b), true) else (w, false)
  }

  function Poke(v: Vm, p: Pid, a: Page, i: nat, b: bv8): Vm
    requires Inv(v) && p in v.spaces && a in v.spaces[p] && !v.spaces[p][a].phys && i < PAGE_SIZE
  {
    var f := v.spaces[p][a].frame;
    v.(mem := v.mem[f := v.mem[f][i := b]])
  }

  lemma PokeInv(v: Vm, p: Pid, a: Page, i: nat, b: bv8)
    requires Inv(v) && p in v.spaces && a in v.spaces[p] && !v.spaces[p][a].phys && i < PAGE_SIZE
    ensures Inv(Poke(v, p, a, i, b))
  {
    hide Exclusive, Users, NoDup;
  }

  /** pmap_create: a process starts with an empty address space. */
  function Empty(v: Vm, c: Pid): Vm {
    v.(spaces := v.spaces[c := map[]])
  }

  lemma EmptyInv(v: Vm, c: Pid)
    requires Inv(v) && (c !in v.spaces || v.spaces[c] == map[])
    ensures Inv(Empty(v, c))
  {
    var w := Empty(v, c);
    forall p: Pid, a: Page, f: Frame
      ensures Maps(w.spaces, p, a, f) <==> Maps(v.spaces, p, a, f)
    {
    }
    forall f: Frame
      ensures Users(w.spaces, f) == Users(v.spaces, f)
    {
    }
    assert Exclusive(w.spaces);
  }

  /** fork_address_space. */
  function Fork(v: Vm, p: Pid, c: Pid): (w: Vm)
    requires Inv(v) && p in v.spaces && p != c && (c !in v.spaces || v.spaces[c] == map[])
    ensures Inv(w)
  {
    EmptyInv(v, c);
    ForkFrom(Empty(v, c), p, c, USER_BASE)
  }

  /** cleanup_address_space. */
  function Exit(v: Vm, p: Pid): (w: Vm)
    requires Inv(v) && p in v.spaces
    ensures Inv(w)
  {
    CleanupFrom(v, p, USER_BASE)
  }

  // ---------------------------------------------------------------------
  // The same operations with eager copying
  // ---------------------------------------------------------------------

  function Pages(a: Page, n: nat): (s: set<Page>)
    ensures forall b :: b in s <==> a <= b < a + n
    decreases n
  {
    if n == 0 then {} else {a} + Pages(a + 1, n - 1)
  }

  function ZeroPages(a: Page, n: nat, write: bool): map<Page, Seen> {
    map b | b in Pages(a, n) :: Ram(Zeros(), write)
  }

  function DevicePages(a: Page, n: nat, f: Frame, write: bool): map<Page, Seen> {
    map b | b in Pages(a, n) :: Device(f + (b - a), write)
  }

  function EagerMmap(e: Eager, p: Pid, a: Page, n: nat, write: bool): Eager
    requires p in e
  {
    e[p := e[p] + ZeroPages(a, n, write)]
  }

  function EagerMmapPhys(e: Eager, p: Pid, a: Page, n: nat, f: Frame, write: bool): Eager
    requires p in e
  {
    e[p := e[p] + DevicePages(a, n, f, write)]
  }

  function EagerMunmap(e: Eager, p: Pid, a: Page, n: nat): Eager
    requires p in e
  {
    e[p := e[p] - Pages(a, n)]
  }

  /** A full copy of the parent's memory. */
  function EagerFork(e: Eager, p: Pid, c: Pid): Eager
    requires p in e
  {
    e[c := map a | a in e[p] :: Child(e[p][a])]
  }

  function EagerStore(e: Eager, p: Pid, a: Page, i: nat, b: bv8): (Eager, bool) {
    if p !in e || a !in e[p] || !e[p][a].write then (e, false)
    else if e[p][a].Device? || i >= |e[p][a].bytes| then (e, true)
    else (EagerSet(e, p, a, e[p][a].(bytes := e[p][a].bytes[i := b])), true)
  }

  lemma AbsKeys(v: Vm)
    ensures Abs(v).Keys == v.spaces.Keys
    ensures forall p :: p in v.spaces ==> Abs(v)[p].Keys == v.spaces[p].Keys
  {
  }

  lemma {:induction false} MmapAbs(v: Vm, p: Pid, a: Page, n: nat, write: bool)
    requires Inv(v) && p in v.spaces && n <= |v.free| && Unmapped(v.spaces[p], a, n)
    ensures p in Abs(v)
    ensures Abs(Mmap(v, p, a, n, write)) == EagerMmap(Abs(v), p, a, n, write)
    decreases n
  {
    hide Inv, Abs, EagerMmap, EagerSet;
    AbsKeys(v);
    MmapStep(Abs(v), p, a, n, write);
    if n > 0 {
      MmapOneInv(v, p, a, write);
      MmapOneAbs(v, p, a, write);
      MmapAbs(MmapOne(v, p, a, write), p, a + 1, n - 1, write);
    }
  }

  lemma MmapStep(e: Eager, p: Pid, a: Page, n: nat, write: bool)
    requires p in e
    ensures EagerMmap(e, p, a, n, write) ==
            if n == 0 then e else EagerMmap(EagerSet(e, p, a, Ram(Zeros(), write)), p, a + 1, n - 1, write)
  {
    if n == 0 {
      assert e[p] + ZeroPages(a, n, write) == e[p];
    } else {
      assert e[p] + ZeroPages(a, n, write) == e[p][a := Ram(Zeros(), write)] + ZeroPages(a + 1, n - 1, write);
    }
  }

  lemma {:induction false} MmapPhysAbs(v: Vm, p: Pid, a: Page, n: nat, f: Frame, write: bool)
    requires Inv(v) && p in v.spaces && Unmapped(v.spaces[p], a, n)
    ensures p in Abs(v)
    ensures Abs(MmapPhys(v, p, a, n, f, write)) == EagerMmapPhys(Abs(v), p, a, n, f, write)
    decreases n
  {
    hide Inv, Abs, EagerMmapPhys, EagerSet;
    AbsKeys(v);
    MmapPhysStep(Abs(v), p, a, n, f, write);
    if n > 0 {
      MmapPhysOneInv(v, p, a, f, write);
      MmapPhysOneAbs(v, p, a, f, write);
      MmapPhysAbs(MmapPhysOne(v, p, a, f, write), p, a + 1, n - 1, f + 1, write);
    }
  }

  lemma MmapPhysStep(e: Eager, p: Pid, a: Page, n: nat, f: Frame, write: bool)
    requires p in e
    ensures EagerMmapPhys(e, p, a, n, f, write) ==
            if n == 0 then e else EagerMmapPhys(EagerSet(e, p, a, Device(f, write)), p, a + 1, n - 1, f + 1, write)
  {
    if n == 0 {
      assert e[p] + DevicePages(a, n, f, write) == e[p];
    } else {
      assert e[p] + DevicePages(a, n, f, write) ==
             e[p][a := Device(f, write)] + DevicePages(a + 1, n - 1, f + 1, write);
    }
  }

  lemma {:induction false} MunmapAbs(v: Vm, p: Pid, a: Page, n: nat)
    requires Inv(v) && p in v.spaces
    ensures p in Abs(v)
    ensures Abs(Munmap(v, p, a, n)) == EagerMunmap(Abs(v), p, a, n)
    decreases n
  {
    hide Inv, Abs, EagerMunmap, EagerDrop;
    AbsKeys(v);
    MunmapStep(Abs(v), p, a, n);
    if n > 0 {
      MunmapOneInv(v, p, a);
      MunmapOneAbs(v, p, a);
      MunmapAbs(MunmapOne(v, p, a), p, a + 1, n - 1);
    }
  }

  lemma MunmapOneAbs(v: Vm, p: Pid, a: Page)
    requires p in v.spaces
    ensures Abs(MunmapOne(v, p, a)) == EagerDrop(Abs(v), p, a)
  {
    if a in v.spaces[p] {
      AbsDrop(v, MunmapOne(v, p, a), p, a);
    } else {
      assert Abs(v)[p] - {a} == Abs(v)[p];
    }
  }

  lemma MunmapStep(e: Eager, p: Pid, a: Page, n: nat)
    requires p in e
    ensures EagerMunmap(e, p, a, n) == if n == 0 then e else EagerMunmap(EagerDrop(e, p, a), p, a + 1, n - 1)
  {
    if n == 0 {
      assert e[p] - Pages(a, n) == e[p];
    } else {
      assert e[p] - Pages(a, n) == e[p] - {a} - Pages(a + 1, n - 1);
    }
  }

  /** From page `a` on, the fork loop copies the rest of the parent into the child and changes nothing else. */
  lemma {:induction false} ForkFromAbs(v: Vm, p: Pid, c: Pid, a: Page)
    requires Inv(v) && p in v.spaces && c in v.spaces && p != c && a <= USER_CEILING
    requires forall b :: b in v.spaces[c] ==> b < a
    ensures p in Abs(v) && c in Abs(v)
    ensures Abs(ForkFrom(v, p, c, a)) ==
            Abs(v)[c := Abs(v)[c] + (map b | b in Abs(v)[p] && a <= b :: Child(Abs(v)[p][b]))]
    decreases USER_CEILING - a
  {
    hide Abs, Exclusive, CountsOk, MemOk;
    AbsKeys(v);
    var e := Abs(v);
    if a == USER_CEILING {
      assert e[c] + (map b | b in e[p] && a <= b :: Child(e[p][b])) == e[c];
    } else {
      ForkOneInv(v, p, c, a);
      ForkOneAbs(v, p, c, a);
      var w := ForkOne(v, p, c, a);
      ForkFromAbs(w, p, c, a + 1);
      CopyStep(e, p, c, a);
    }
  }

  lemma CopyStep(e: Eager, p: Pid, c: Pid, a: Page)
    requires p in e && c in e && p != c
    ensures var d := if a in e[p] then EagerSet(e, c, a, Child(e[p][a])) else e;
            d[c := d[c] + (map b | b in d[p] && a + 1 <= b :: Child(d[p][b]))] ==
            e[c := e[c] + (map b | b in e[p] && a <= b :: Child(e[p][b]))]
  {
    var d := if a in e[p] then EagerSet(e, c, a, Child(e[p][a])) else e;
    assert d[p] == e[p];
    assert d[c] + (map b | b in d[p] && a + 1 <= b :: Child(d[p][b])) ==
           e[c] + (map b | b in e[p] && a <= b :: Child(e[p][b]));
  }

  /** fork_address_space gives the child what a full copy would, and the parent notices nothing. */
  lemma ForkAbs(v: Vm, p: Pid, c: Pid)
    requires Inv(v) && p in v.spaces && p != c && (c !in v.spaces || v.spaces[c] == map[])
    ensures p in Abs(v)
    ensures Abs(Fork(v, p, c)) == EagerFork(Abs(v), p, c)
  {
    AllUserPages(v, p);
    EmptyAbs(v, c);
    EmptyInv(v, c);
    hide Inv, Abs;
    ForkFromAbs(Empty(v, c), p, c, USER_BASE);
    CopyAll(Abs(v), p, c);
  }

  lemma CopyAll(e: Eager, p: Pid, c: Pid)
    requires p in e && p != c && forall a :: a in e[p] ==> USER_BASE <= a
    ensures var d: Eager := e[c := map[]];
            d[c := d[c] + (map b | b in d[p] && USER_BASE <= b :: Child(d[p][b]))] == EagerFork(e, p, c)
  {
    var d: Eager := e[c := map[]];
    assert d[c] + (map b | b in d[p] && USER_BASE <= b :: Child(d[p][b])) == map a | a in e[p] :: Child(e[p][a]);
  }

  lemma EmptyAbs(v: Vm, c: Pid)
    ensures Abs(Empty(v, c)) == Abs(v)[c := map[]]
  {
    assert AbsSpace(map[], v.mem) == map[];
  }

  lemma AllUserPages(v: Vm, p: Pid)
    requires Inv(v) && p in v.spaces
    ensures p in Abs(v) && forall a :: a in Abs(v)[p] ==> USER_BASE <= a < USER_CEILING
  {
  }

  function Below(s: map<Page, Seen>, a: Page): map<Page, Seen> {
    map b | b in s && b < a :: s[b]
  }

  lemma {:induction false} CleanupFromAbs(v: Vm, p: Pid, a: Page)
    requires Inv(v) && p in v.spaces && a <= USER_CEILING
    ensures p in Abs(v)
    ensures Abs(CleanupFrom(v, p, a)) == Abs(v)[p := Below(Abs(v)[p], a)]
    decreases USER_CEILING - a
  {
    hide Inv, Abs, Below, EagerDrop;
    AllUserPages(v, p);
    BelowStep(Abs(v), p, a);
    if a < USER_CEILING {
      CleanupOneInv(v, p, a);
      CleanupOneAbs(v, p, a);
      CleanupFromAbs(CleanupOne(v, p, a), p, a + 1);
    }
  }

  lemma BelowStep(e: Eager, p: Pid, a: Page)
    requires p in e && forall b :: b in e[p] ==> b < USER_CEILING
    ensures a == USER_CEILING ==> e[p := Below(e[p], a)] == e
    ensures p in EagerDrop(e, p, a)
    ensures EagerDrop(e, p, a)[p := Below(EagerDrop(e, p, a)[p], a + 1)] == e[p := Below(e[p], a)]
  {
    if a == USER_CEILING {
      assert Below(e[p], a) == e[p];
    }
    assert Below(e[p] - {a}, a + 1) == Below(e[p], a);
  }

  lemma ExitAbs(v: Vm, p: Pid)
    requires Inv(v) && p in v.spaces
    ensures Abs(Exit(v, p)) == Abs(v)[p := map[]]
  {
    AllUserPages(v, p);
    hide Inv, Abs;
    CleanupFromAbs(v, p, USER_BASE);
    assert Below(Abs(v)[p], USER_BASE) == map[];
  }

  /** A store writes the storing process's page and no other, and faults exactly when eager copying would. */
  lemma StoreAbs(v: Vm, p: Pid, a: Page, i: nat, b: bv8)
    requires Inv(v) && Supplied(v, p, a) && i < PAGE_SIZE
    ensures (Abs(Store(v, p, a, i, b).0), Store(v, p, a, i, b).1) == EagerStore(Abs(v), p, a, i, b)
  {
    AbsKeys(v);
    if p in v.spaces && a in v.spaces[p] && !v.spaces[p][a].phys {
      if HwWritable(v.spaces[p][a]) {
        PokeAbs(v, p, a, i, b);
      } else {
        FaultInv(v, p, a);
        FaultAbs(v, p, a);
        var (w, ok) := Fault(v, p, a);
        if ok {
          PokeAbs(w, p, a, i, b);
        }
      }
    }
  }

  lemma PokeAbs(v: Vm, p: Pid, a: Page, i: nat, b: bv8)
    requires Inv(v) && p in v.spaces && a in v.spaces[p] && HwWritable(v.spaces[p][a]) && i < PAGE_SIZE
    ensures p in Abs(v) && a in Abs(v)[p] && Abs(v)[p][a].Ram? && Abs(v)[p][a].write
            && |Abs(v)[p][a].bytes| == PAGE_SIZE
    ensures Abs(Poke(v, p, a, i, b)) == EagerSet(Abs(v), p, a, Abs(v)[p][a].(bytes := Abs(v)[p][a].bytes[i := b]))
  {
    var w, e := Poke(v, p, a, i, b), v.spaces[p][a];
    forall q: Pid, c: Page, f: Frame | Maps(v.spaces, q, c, f) && (q, c) != (p, a)
      ensures Content(w.mem, f) == Content(v.mem, f)
    {
      assert Maps(v.spaces, p, a, e.frame);
    }
    hide Exclusive, CountsOk, NoDup;
    assert v.spaces[p][a := e] == v.spaces[p];
    assert SetPte(v.spaces, p, a, e) == v.spaces;
    AbsSet(v, w, p, a, e);
  }

  // ---------------------------------------------------------------------
  // Runs
  // ---------------------------------------------------------------------

  datatype Op =
    | OpMmap(p: Pid, a: Page, n: nat, write: bool)
    | OpMmapPhys(p: Pid, a: Page, n: nat, f: Frame, write: bool)
    | OpMunmap(p: Pid, a: Page, n: nat)
    | OpFork(p: Pid, c: Pid)
    | OpStore(p: Pid, a: Page, i: nat, b: bv8)
    | OpFault(p: Pid, a: Page)
    | OpExit(p: Pid)

  /** An operation that needs a frame waits until one is free; pages are mapped only where nothing is. */
  predicate Enabled(v: Vm, op: Op) {
    match op
    case OpMmap(p, a, n, _) => p in v.spaces && n <= |v.free| && Unmapped(v.spaces[p], a, n)
    case OpMmapPhys(p, a, n, _, _) => p in v.spaces && Unmapped(v.spaces[p], a, n)
    case OpMunmap(p, _, _) => p in v.spaces
    case OpFork(p, c) => p in v.spaces && p != c && (c !in v.spaces || v.spaces[c] == map[])
    case OpStore(p, a, i, _) => Supplied(v, p, a) && i < PAGE_SIZE
    case OpFault(p, a) => Supplied(v, p, a)
    case OpExit(p) => p in v.spaces
  }

  /** The new state, and for a store whether it was let through. */
  function Step(v: Vm, op: Op): (r: (Vm, bool))
    requires Inv(v) && Enabled(v, op)
    ensures Inv(r.0)
  {
    hide Inv;
    match op
    case OpMmap(p, a, n, write) => (Mmap(v, p, a, n, write), true)
    case OpMmapPhys(p, a, n, f, write) => (MmapPhys(v, p, a, n, f, write), true)
    case OpMunmap(p, a, n) => (Munmap(v, p, a, n), true)
    case OpFork(p, c) => (Fork(v, p, c), true)
    case OpStore(p, a, i, b) => Store(v, p, a, i, b)
    case OpFault(p, a) => FaultInv(v, p, a); (Fault(v, p, a).0, true)
    case OpExit(p) => (Exit(v, p), true)
  }

  function EagerStep(e: Eager, op: Op): (Eager, bool) {
    match op
    case OpMmap(p, a, n, write) => (if p in e then EagerMmap(e, p, a, n, write) else e, true)
    case OpMmapPhys(p, a, n, f, write) => (if p in e then EagerMmapPhys(e, p, a, n, f, write) else e, true)
    case OpMunmap(p, a, n) => (if p in e then EagerMunmap(e, p, a, n) else e, true)
    case OpFork(p, c) => (if p in e then EagerFork(e, p, c) else e, true)
    case OpStore(p, a, i, b) => EagerStore(e, p, a, i, b)
    case OpFault(p, a) => (e, true)
    case OpExit(p) => (e[p := map[]], true)
  }

  lemma StepRefines(v: Vm, op: Op)
    requires Inv(v) && Enabled(v, op)
    ensures (Abs(Step(v, op).0), Step(v, op).1) == EagerStep(Abs(v), op)
  {
    hide Inv, Abs, EagerMmap, EagerMmapPhys, EagerMunmap, EagerFork, EagerStore, Store, Fork, Exit, Mmap, Munmap,
        MmapPhys, Fault;
    match op
    case OpMmap(p, a, n, write) => MmapAbs(v, p, a, n, write);
    case OpMmapPhys(p, a, n, f, write) => MmapPhysAbs(v, p, a, n, f, write);
    case OpMunmap(p, a, n) => MunmapAbs(v, p, a, n);
    case OpFork(p, c) => ForkAbs(v, p, c);
    case OpStore(p, a, i, b) => StoreAbs(v, p, a, i, b);
    case OpFault(p, a) => FaultAbs(v, p, a);
    case OpExit(p) => ExitAbs(v, p);
  }

  ghost predicate IsRun(v: Vm, ops: seq<Op>)
    requires Inv(v)
    decreases ops
  {
    ops == [] || (Enabled(v, ops[0]) && IsRun(Step(v, ops[0]).0, ops[1..]))
  }

  ghost function Run(v: Vm, ops: seq<Op>): (r: (Vm, seq<bool>))
    requires Inv(v) && IsRun(v, ops)
    ensures Inv(r.0)
    decreases ops
  {
    if ops == [] then (v, [])
    else
      var (w, ok) := Step(v, ops[0]);
      var (end, rest) := Run(w, ops[1..]);
      (end, [ok] + rest)
  }

  function EagerRun(e: Eager, ops: seq<Op>): (Eager, seq<bool>)
    decreases ops
  {
    if ops == [] then (e, [])
    else
      var (d, ok) := EagerStep(e, ops[0]);
      var (end, rest) := EagerRun(d, ops[1..]);
      (end, [ok] + rest)
  }

  /** Copy-on-write is indistinguishable from eager copying: over every run, every process
      sees the same bytes and permissions, and the same stores fault. */
  lemma {:induction false} CowRefinesEager(v: Vm, ops: seq<Op>)
    requires Inv(v) && IsRun(v, ops)
    ensures (Abs(Run(v, ops).0), Run(v, ops).1) == EagerRun(Abs(v), ops)
    decreases ops
  {
    hide Inv, Step, Abs, EagerStep;
    if ops != [] {
      StepRefines(v, ops[0]);
      CowRefinesEager(Step(v, ops[0]).0, ops[1..]);
    }
  }

  /** In every state of every run, a hardware-writable page has exactly one mapping, each mapped frame is
      referenced at least as often as it is mapped, and no mapped frame is free. */
  lemma SharingIsCounted(v: Vm, ops: seq<Op>, p: Pid, a: Page)
    requires Inv(v) && IsRun(v, ops)
    requires p in Run(v, ops).0.spaces && a in Run(v, ops).0.spaces[p] && !Run(v, ops).0.spaces[p][a].phys
    ensures var w := Run(v, ops).0;
            var f := w.spaces[p][a].frame;
            && f in w.refs && 1 <= |Users(w.spaces, f)| <= w.refs[f] && f !in w.free
            && w.refs[f] == |Users(w.spaces, f)| + Leak(w.leaked, f)
            && (HwWritable(w.spaces[p][a]) ==> Users(w.spaces, f) == {(p, a)})
  {
    var w := Run(v, ops).0;
    var f := w.spaces[p][a].frame;
    NotFree(w, p, a);
    assert Maps(w.spaces, p, a, f);
    assert (p, a) in Users(w.spaces, f);
    if HwWritable(w.spaces[p][a]) {
      forall x | x in Users(w.spaces, f)
        ensures x == (p, a)
      {
        assert Maps(w.spaces, x.0, x.1, f);
      }
    }
  }
}
