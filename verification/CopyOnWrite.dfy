/**
  Copy-on-write memory: fork (vm/as.c), the write fault (vm/pagefault.c), page
  reference counts (vm/page.c), mmap and munmap (vm/mmap.c).

  A page is a virtual page number, a frame a physical page number.  `free` is the
  part of free_page_queue that holds frames of this model, tail last; alloc_page
  takes its tail and is one step here; `FaultGap` has a fault that waits in it.
 */
module CopyOnWrite {
  import opened Lists

  type Pid = nat
  type Page = nat
  type Frame = nat
  type Bytes = seq<bv8>

  const PAGE_SIZE: nat := 4096
  const PAGES_PER_TABLE: nat := 256
  const USER_BASE: nat := 0x400            // VM_USER_BASE in pages
  const USER_CEILING: nat := 0x7F000       // VM_USER_CEILING in pages

  /** A page-table entry: PROT_WRITE, MAP_COW and MAP_PHYS are the flags the code tests. */
  datatype Pte = Pte(frame: Frame, write: bool, cow: bool, phys: bool)

  type Space = map<Page, Pte>

  /** `leaked` counts, for each frame, the mappings munmap removed without giving back their reference. */
  datatype Vm = Vm(spaces: map<Pid, Space>, refs: map<Frame, int>, mem: map<Frame, Bytes>, free: seq<Frame>,
                   leaked: map<Frame, nat>)

  function Leak(leaked: map<Frame, nat>, f: Frame): nat {
    if f in leaked then leaked[f] else 0
  }

  /** pmap_calc_pa_bits grants hardware write access exactly when PROT_WRITE is set and MAP_COW is not. */
  predicate HwWritable(e: Pte) {
    e.write && !e.cow && !e.phys
  }

  predicate Maps(spaces: map<Pid, Space>, p: Pid, a: Page, f: Frame) {
    p in spaces && a in spaces[p] && !spaces[p][a].phys && spaces[p][a].frame == f
  }

  /** The mappings of a frame, over all address spaces. */
  ghost function Users(spaces: map<Pid, Space>, f: Frame): set<(Pid, Page)> {
    set p, a | p in spaces && a in spaces[p] && Maps(spaces, p, a, f) :: (p, a)
  }

  function Zeros(): (z: Bytes)
    ensures |z| == PAGE_SIZE
    ensures forall i :: 0 <= i < PAGE_SIZE ==> z[i] == 0
  {
    seq(PAGE_SIZE, _ => 0)
  }

  // ---------------------------------------------------------------------
  // The invariant
  // ---------------------------------------------------------------------

  ghost predicate PagesOk(spaces: map<Pid, Space>, mem: map<Frame, Bytes>) {
    forall p, a :: p in spaces && a in spaces[p] ==>
      USER_BASE <= a < USER_CEILING && (!spaces[p][a].phys ==> spaces[p][a].frame in mem)
  }

  ghost predicate MemOk(v: Vm) {
    && v.refs.Keys == v.mem.Keys
    && (forall f :: f in v.mem ==> |v.mem[f]| == PAGE_SIZE)
    && NoDup(v.free)
    && (forall f :: f in v.free ==> f in v.mem)
    && (forall f :: f in v.leaked ==> f in v.mem)
  }

  /** A page the hardware lets a process write has no other mapping. */
  ghost predicate Exclusive(spaces: map<Pid, Space>) {
    forall p, a, q, b, f :: Maps(spaces, p, a, f) && Maps(spaces, q, b, f) && HwWritable(spaces[p][a]) ==>
      p == q && a == b
  }

  /** A frame in use has one reference for each mapping and each one munmap left behind; a free frame has neither. */
  ghost predicate CountsOk(v: Vm) {
    && (forall f :: f in v.mem && f !in v.free ==>
          f in v.refs && v.refs[f] == |Users(v.spaces, f)| + Leak(v.leaked, f))
    && (forall f :: f in v.free ==> Users(v.spaces, f) == {} && Leak(v.leaked, f) == 0)
  }

  ghost predicate Inv(v: Vm) {
    PagesOk(v.spaces, v.mem) && MemOk(v) && Exclusive(v.spaces) && CountsOk(v)
  }

  // ---------------------------------------------------------------------
  // Eager copying
  // ---------------------------------------------------------------------

  /** What a process sees at a page: its own bytes, or a device. */
  datatype Seen = Ram(bytes: Bytes, write: bool) | Device(frame: Frame, write: bool)

  type Eager = map<Pid, map<Page, Seen>>

  function Content(mem: map<Frame, Bytes>, f: Frame): Bytes {
    if f in mem then mem[f] else []
  }

  function See(e: Pte, mem: map<Frame, Bytes>): Seen {
    if e.phys then Device(e.frame, e.write) else Ram(Content(mem, e.frame), e.write)
  }

  function AbsSpace(s: Space, mem: map<Frame, Bytes>): map<Page, Seen> {
    map a | a in s :: See(s[a], mem)
  }

  function Abs(v: Vm): Eager {
    map p | p in v.spaces :: AbsSpace(v.spaces[p], v.mem)
  }

  // ---------------------------------------------------------------------
  // Changing one mapping
  // ---------------------------------------------------------------------

  function SetPte(spaces: map<Pid, Space>, p: Pid, a: Page, e: Pte): map<Pid, Space>
    requires p in spaces
  {
    var s: Space := spaces[p];
    var n: Space := s[a := e];
    spaces[p := n]
  }

  function DropPte(spaces: map<Pid, Space>, p: Pid, a: Page): map<Pid, Space>
    requires p in spaces
  {
    spaces[p := spaces[p] - {a}]
  }

  lemma UsersSet(v: Vm, w: Vm, p: Pid, a: Page, e: Pte, f: Frame)
    requires p in v.spaces && w.spaces == SetPte(v.spaces, p, a, e)
    ensures Users(w.spaces, f) == if !e.phys && e.frame == f then Users(v.spaces, f) + {(p, a)}
            else Users(v.spaces, f) - {(p, a)}
  {
    forall q: Pid, b: Page
      ensures (q, b) != (p, a) ==> (Maps(w.spaces, q, b, f) <==> Maps(v.spaces, q, b, f))
      ensures Maps(w.spaces, p, a, f) <==> !e.phys && e.frame == f
    {
    }
  }

  lemma UsersDrop(v: Vm, w: Vm, p: Pid, a: Page, f: Frame)
    requires p in v.spaces && w.spaces == DropPte(v.spaces, p, a)
    ensures Users(w.spaces, f) == Users(v.spaces, f) - {(p, a)}
  {
    forall q: Pid, b: Page
      ensures (q, b) != (p, a) ==> (Maps(w.spaces, q, b, f) <==> Maps(v.spaces, q, b, f))
      ensures !Maps(w.spaces, p, a, f)
    {
    }
  }

  /** After a mapping is entered, frames other than its own lose nothing but that mapping. */
  lemma ExclusiveSet(v: Vm, w: Vm, p: Pid, a: Page, e: Pte)
    requires Exclusive(v.spaces) && p in v.spaces && w.spaces == SetPte(v.spaces, p, a, e)
    requires HwWritable(e) ==> forall q, b :: Maps(v.spaces, q, b, e.frame) ==> q == p && b == a
    requires !e.phys ==> forall q, b :: (q, b) != (p, a) && Maps(v.spaces, q, b, e.frame) ==>
             !HwWritable(v.spaces[q][b])
    ensures Exclusive(w.spaces)
  {
    forall q: Pid, b: Page, r: Pid, c: Page, f: Frame
      | Maps(w.spaces, q, b, f) && Maps(w.spaces, r, c, f) && HwWritable(w.spaces[q][b])
      ensures q == r && b == c
    {
      if (q, b) == (p, a) {
        if (r, c) != (p, a) {
          assert Maps(v.spaces, r, c, f);
        }
      } else {
        assert Maps(v.spaces, q, b, f);
        if (r, c) != (p, a) {
          assert Maps(v.spaces, r, c, f);
        }
      }
    }
  }

  lemma ExclusiveDrop(v: Vm, w: Vm, p: Pid, a: Page)
    requires Exclusive(v.spaces) && p in v.spaces && w.spaces == DropPte(v.spaces, p, a)
    ensures Exclusive(w.spaces)
  {
    forall q: Pid, b: Page, r: Pid, c: Page, f: Frame
      | Maps(w.spaces, q, b, f) && Maps(w.spaces, r, c, f) && HwWritable(w.spaces[q][b])
      ensures q == r && b == c
    {
      assert Maps(v.spaces, q, b, f) && Maps(v.spaces, r, c, f);
    }
  }

  // ---------------------------------------------------------------------
  // The operations on one page
  // ---------------------------------------------------------------------

  /** alloc_page: the tail of the free queue, zeroed. */
  function AllocFrame(v: Vm): Frame
    requires v.free != []
  {
    v.free[|v.free| - 1]
  }

  /** mmap of one anonymous page: a zeroed frame, mapped once. */
  function MmapOne(v: Vm, p: Pid, a: Page, write: bool): Vm
    requires p in v.spaces && v.free != []
  {
    var f := AllocFrame(v);
    Vm(SetPte(v.spaces, p, a, Pte(f, write, false, false)), v.refs[f := 1], v.mem[f := Zeros()], v.free[..|v.free| - 1],
       v.leaked)
  }

  function MmapPhysOne(v: Vm, p: Pid, a: Page, f: Frame, write: bool): Vm
    requires p in v.spaces
  {
    v.(spaces := SetPte(v.spaces, p, a, Pte(f, write, false, true)))
  }

  /** The body of fork_address_space's inner loop. */
  function ForkOne(v: Vm, p: Pid, c: Pid, a: Page): Vm
    requires p in v.spaces && c in v.spaces
  {
    if a !in v.spaces[p] then v
    else
      var e := v.spaces[p][a];
      if e.phys then v.(spaces := SetPte(v.spaces, c, a, Pte(e.frame, true, false, true)))
      else if e.frame !in v.refs then v
      else
        var shared := if e.write then e.(cow := true) else e;
        v.(spaces := SetPte(SetPte(v.spaces, p, a, shared), c, a, shared),
           refs := v.refs[e.frame := v.refs[e.frame] + 1])
  }

  /** The body of cleanup_address_space's inner loop: free_page decrements once more. */
  function CleanupOne(v: Vm, p: Pid, a: Page): Vm
    requires p in v.spaces
  {
    if a !in v.spaces[p] then v
    else
      var e := v.spaces[p][a];
      var d := v.(spaces := DropPte(v.spaces, p, a));
      if e.phys || e.frame !in v.refs then d
      else if v.refs[e.frame] == 1 then d.(refs := v.refs[e.frame := -1], free := v.free + [e.frame])
      else d.(refs := v.refs[e.frame := v.refs[e.frame] - 1])
  }

  /** munmap of one page: the mapping goes, the count stays. */
  function MunmapOne(v: Vm, p: Pid, a: Page): Vm
    requires p in v.spaces
  {
    if a !in v.spaces[p] then v
    else
      var e := v.spaces[p][a];
      v.(spaces := DropPte(v.spaces, p, a),
         leaked := if e.phys then v.leaked else v.leaked[e.frame := Leak(v.leaked, e.frame) + 1])
  }

  predicate CanBreak(v: Vm, p: Pid, a: Page) {
    p in v.spaces && a in v.spaces[p] && !v.spaces[p][a].phys && v.spaces[p][a].write && v.spaces[p][a].cow
  }

  /** A fault that has to copy a page still shared finds a free frame; no other fault takes one. */
  predicate Supplied(v: Vm, p: Pid, a: Page) {
    CanBreak(v, p, a) && v.spaces[p][a].frame in v.refs && v.refs[v.spaces[p][a].frame] > 1 ==> v.free != []
  }

  /** page_fault for a write: break the sharing of a copy-on-write page. */
  function Fault(v: Vm, p: Pid, a: Page): (Vm, bool)
    requires Supplied(v, p, a)
  {
    if !CanBreak(v, p, a) || v.spaces[p][a].frame !in v.refs || v.spaces[p][a].frame !in v.mem then (v, false)
    else
      var e := v.spaces[p][a];
      if v.refs[e.frame] > 1 then
        var f := AllocFrame(v);
        (Vm(SetPte(v.spaces, p, a, Pte(f, true, false, false)),
            v.refs[e.frame := v.refs[e.frame] - 1][f := 1],
            v.mem[f := v.mem[e.frame]],
            v.free[..|v.free| - 1],
            v.leaked), true)
      else (v.(spaces := SetPte(v.spaces, p, a, e.(cow := false))), true)
  }

  // ---------------------------------------------------------------------
  // Each keeps the invariant and does to what processes see what eager copying would do
  // ---------------------------------------------------------------------

  lemma FreeTail(v: Vm)
    requires MemOk(v) && CountsOk(v) && v.free != []
    ensures var f := AllocFrame(v);
            && f in v.mem && Users(v.spaces, f) == {} && Leak(v.leaked, f) == 0 && NoDup(v.free[..|v.free| - 1])
            && (forall g :: g in v.free[..|v.free| - 1] <==> g in v.free && g != f)
  {
    var f := AllocFrame(v);
    assert f in v.free;
    assert v.free == v.free[..|v.free| - 1] + [f];
  }

  lemma MmapOneInv(v: Vm, p: Pid, a: Page, write: bool)
    requires Inv(v) && p in v.spaces && v.free != [] && a !in v.spaces[p] && USER_BASE <= a < USER_CEILING
    ensures Inv(MmapOne(v, p, a, write))
  {
    hide Users, Exclusive, PagesOk, NoDup;
    var f, w := AllocFrame(v), MmapOne(v, p, a, write);
    FreeTail(v);
    MapNewFrame(v, w, p, a, Pte(f, write, false, false));
    PagesSet(v.spaces, v.mem, p, a, Pte(f, write, false, false));
    PagesGrow(w.spaces, v.mem, w.mem);
  }

  lemma PagesSet(spaces: map<Pid, Space>, mem: map<Frame, Bytes>, p: Pid, a: Page, e: Pte)
    requires PagesOk(spaces, mem) && p in spaces && USER_BASE <= a < USER_CEILING && (!e.phys ==> e.frame in mem)
    ensures PagesOk(SetPte(spaces, p, a, e), mem)
  {
  }

  lemma PagesGrow(spaces: map<Pid, Space>, mem: map<Frame, Bytes>, mem': map<Frame, Bytes>)
    requires PagesOk(spaces, mem) && mem.Keys <= mem'.Keys
    ensures PagesOk(spaces, mem')
  {
  }

  /** Mapping a frame just taken from the free queue. */
  lemma MapNewFrame(v: Vm, w: Vm, p: Pid, a: Page, e: Pte)
    requires Exclusive(v.spaces) && CountsOk(v) && MemOk(v) && p in v.spaces
    requires v.free != [] && !e.phys && e.frame == AllocFrame(v)
    requires w.spaces == SetPte(v.spaces, p, a, e) && w.free == v.free[..|v.free| - 1] && w.mem.Keys == v.mem.Keys
    requires w.refs.Keys == v.refs.Keys && w.refs[e.frame] == 1 && w.leaked == v.leaked
    requires forall g :: g in v.refs && g != e.frame ==>
               w.refs[g] == v.refs[g] - (if Maps(v.spaces, p, a, g) then 1 else 0)
    ensures Exclusive(w.spaces) && CountsOk(w)
  {
    NewFrameExclusive(v, w, p, a, e);
    NewFrameCounts(v, w, p, a, e);
  }

  lemma NewFrameExclusive(v: Vm, w: Vm, p: Pid, a: Page, e: Pte)
    requires Exclusive(v.spaces) && CountsOk(v) && MemOk(v) && p in v.spaces
    requires v.free != [] && !e.phys && e.frame == AllocFrame(v) && w.spaces == SetPte(v.spaces, p, a, e)
    ensures Exclusive(w.spaces)
  {
    FreeTail(v);
    forall q: Pid, b: Page
      ensures !Maps(v.spaces, q, b, e.frame)
    {
      assert Maps(v.spaces, q, b, e.frame) ==> (q, b) in Users(v.spaces, e.frame);
    }
    ExclusiveSet(v, w, p, a, e);
  }

  lemma NewFrameCounts(v: Vm, w: Vm, p: Pid, a: Page, e: Pte)
    requires CountsOk(v) && MemOk(v) && p in v.spaces
    requires v.free != [] && !e.phys && e.frame == AllocFrame(v)
    requires w.spaces == SetPte(v.spaces, p, a, e) && w.free == v.free[..|v.free| - 1] && w.mem.Keys == v.mem.Keys
    requires w.refs.Keys == v.refs.Keys && w.refs[e.frame] == 1 && w.leaked == v.leaked
    requires forall g :: g in v.refs && g != e.frame ==>
               w.refs[g] == v.refs[g] - (if Maps(v.spaces, p, a, g) then 1 else 0)
    ensures CountsOk(w)
  {
    FreeTail(v);
    forall g: Frame | g in w.mem && g !in w.free
      ensures g in w.refs && w.refs[g] == |Users(w.spaces, g)| + Leak(w.leaked, g)
    {
      UsersSet(v, w, p, a, e, g);
      assert Maps(v.spaces, p, a, g) ==> (p, a) in Users(v.spaces, g);
    }
    forall g: Frame | g in w.free
      ensures Users(w.spaces, g) == {} && Leak(w.leaked, g) == 0
    {
      UsersSet(v, w, p, a, e, g);
    }
  }

  lemma MmapPhysOneInv(v: Vm, p: Pid, a: Page, f: Frame, write: bool)
    requires Inv(v) && p in v.spaces && a !in v.spaces[p] && USER_BASE <= a < USER_CEILING
    ensures Inv(MmapPhysOne(v, p, a, f, write))
  {
    var e := Pte(f, write, false, true);
    var w := MmapPhysOne(v, p, a, f, write);
    PagesSet(v.spaces, v.mem, p, a, e);
    ExclusiveSet(v, w, p, a, e);
    SameUsers(v, w, p, a, e);
  }

  /** Entering a device mapping on a fresh page changes no frame's users. */
  lemma SameUsers(v: Vm, w: Vm, p: Pid, a: Page, e: Pte)
    requires CountsOk(v) && p in v.spaces && a !in v.spaces[p] && e.phys
    requires w == v.(spaces := SetPte(v.spaces, p, a, e))
    ensures CountsOk(w)
  {
    forall g: Frame
      ensures Users(w.spaces, g) == Users(v.spaces, g)
    {
      UsersSet(v, w, p, a, e, g);
      assert !Maps(v.spaces, p, a, g);
    }
  }

  lemma ForkOneInv(v: Vm, p: Pid, c: Pid, a: Page)
    requires Inv(v) && p in v.spaces && c in v.spaces && p != c && a !in v.spaces[c]
    ensures Inv(ForkOne(v, p, c, a))
  {
    hide Exclusive, CountsOk, Users;
    if a in v.spaces[p] {
      var e := v.spaces[p][a];
      if e.phys {
        MmapPhysOneInv(v, c, a, e.frame, true);
      } else {
        var shared := if e.write then e.(cow := true) else e;
        var m := v.(spaces := SetPte(v.spaces, p, a, shared));
        PagesSet(v.spaces, v.mem, p, a, shared);
        PagesSet(m.spaces, v.mem, c, a, shared);
        ShareInv(v, m, ForkOne(v, p, c, a), p, c, a, shared);
      }
    }
  }

  /** The two halves of sharing a page: protect it in the parent, then enter it in the child. */
  lemma ShareInv(v: Vm, m: Vm, w: Vm, p: Pid, c: Pid, a: Page, e: Pte)
    requires Exclusive(v.spaces) && CountsOk(v) && p in v.spaces && c in v.spaces && p != c && a !in v.spaces[c]
    requires Maps(v.spaces, p, a, e.frame) && !e.phys && !HwWritable(e) && e.frame in v.refs && e.frame in v.mem
    requires HwWritable(v.spaces[p][a]) || v.spaces[p][a].cow || !v.spaces[p][a].write
    requires m == v.(spaces := SetPte(v.spaces, p, a, e))
    requires w == m.(spaces := SetPte(m.spaces, c, a, e), refs := v.refs[e.frame := v.refs[e.frame] + 1])
    ensures Exclusive(w.spaces) && CountsOk(w)
  {
    forall q: Pid, b: Page | (q, b) != (p, a) && Maps(v.spaces, q, b, e.frame)
      ensures !HwWritable(v.spaces[q][b])
    {
      assert Maps(v.spaces, p, a, e.frame);
    }
    ExclusiveSet(v, m, p, a, e);
    forall q: Pid, b: Page | (q, b) != (c, a) && Maps(m.spaces, q, b, e.frame)
      ensures !HwWritable(m.spaces[q][b])
    {
      if (q, b) != (p, a) {
        assert Maps(v.spaces, q, b, e.frame);
      }
    }
    ExclusiveSet(m, w, c, a, e);
    ShareCounts(v, m, w, p, c, a, e);
  }

  lemma ShareCounts(v: Vm, m: Vm, w: Vm, p: Pid, c: Pid, a: Page, e: Pte)
    requires CountsOk(v) && p in v.spaces && c in v.spaces && p != c && a !in v.spaces[c]
    requires Maps(v.spaces, p, a, e.frame) && !e.phys && e.frame in v.refs && e.frame in v.mem
    requires m == v.(spaces := SetPte(v.spaces, p, a, e))
    requires w == m.(spaces := SetPte(m.spaces, c, a, e), refs := v.refs[e.frame := v.refs[e.frame] + 1])
    ensures CountsOk(w)
  {
    hide Users, Maps;
    forall g: Frame
      ensures Users(w.spaces, g) == (if g == e.frame then Users(v.spaces, g) + {(c, a)} else Users(v.spaces, g))
              && (c, a) !in Users(v.spaces, g)
      ensures g == e.frame ==> Users(v.spaces, g) != {}
    {
      ShareUsers(v, m, w, p, c, a, e, g);
    }
    forall g: Frame | g in w.mem && g !in w.free
      ensures g in w.refs && w.refs[g] == |Users(w.spaces, g)| + Leak(w.leaked, g)
    {
      assert g in v.refs && v.refs[g] == |Users(v.spaces, g)| + Leak(v.leaked, g);
    }
  }

  lemma ShareUsers(v: Vm, m: Vm, w: Vm, p: Pid, c: Pid, a: Page, e: Pte, g: Frame)
    requires p in v.spaces && c in v.spaces && p != c && a !in v.spaces[c] && Maps(v.spaces, p, a, e.frame) && !e.phys
    requires m.spaces == SetPte(v.spaces, p, a, e) && w.spaces == SetPte(m.spaces, c, a, e)
    ensures Users(w.spaces, g) == (if g == e.frame then Users(v.spaces, g) + {(c, a)} else Users(v.spaces, g))
            && (c, a) !in Users(v.spaces, g)
    ensures g == e.frame ==> Users(v.spaces, g) != {}
  {
    UsersSet(v, m, p, a, e, g);
    UsersSet(m, w, c, a, e, g);
    assert !Maps(v.spaces, c, a, g) && (Maps(v.spaces, p, a, g) <==> g == e.frame);
    if g == e.frame {
      assert (p, a) in Users(v.spaces, g);
    }
  }

  lemma CleanupOneInv(v: Vm, p: Pid, a: Page)
    requires Inv(v) && p in v.spaces
    ensures Inv(CleanupOne(v, p, a))
  {
    hide Exclusive, CountsOk, Users, NoDup;
    if a in v.spaces[p] {
      var w := CleanupOne(v, p, a);
      ExclusiveDrop(v, w, p, a);
      DropCounts(v, w, p, a);
      if !v.spaces[p][a].phys {
        NotFree(v, p, a);
        NoDupAppend(v.free, v.spaces[p][a].frame);
      }
    }
  }

  lemma NotFree(v: Vm, p: Pid, a: Page)
    requires CountsOk(v) && p in v.spaces && a in v.spaces[p] && !v.spaces[p][a].phys
    ensures v.spaces[p][a].frame !in v.free
  {
    var f := v.spaces[p][a].frame;
    assert Maps(v.spaces, p, a, f);
    assert (p, a) in Users(v.spaces, f);
  }

  lemma DropCounts(v: Vm, w: Vm, p: Pid, a: Page)
    requires CountsOk(v) && p in v.spaces && a in v.spaces[p] && w == CleanupOne(v, p, a)
    requires !v.spaces[p][a].phys ==> v.spaces[p][a].frame in v.refs && v.spaces[p][a].frame in v.mem
    ensures CountsOk(w)
  {
    hide Users, Maps;
    var e := v.spaces[p][a];
    forall g: Frame
      ensures Users(w.spaces, g) ==
              if !e.phys && g == e.frame then Users(v.spaces, g) - {(p, a)} else Users(v.spaces, g)
    {
      DropUsers(v, w, p, a, g);
    }
    if !e.phys {
      DropUsers(v, w, p, a, e.frame);
      LoseReference(Users(v.spaces, e.frame), (p, a));
    }
  }

  lemma LoseReference(s: set<(Pid, Page)>, x: (Pid, Page))
    requires x in s
    ensures |s - {x}| == |s| - 1
    ensures |s| == 1 ==> s - {x} == {}
  {
  }

  lemma DropUsers(v: Vm, w: Vm, p: Pid, a: Page, g: Frame)
    requires p in v.spaces && a in v.spaces[p] && w.spaces == DropPte(v.spaces, p, a)
    ensures Users(w.spaces, g) == Users(v.spaces, g) - {(p, a)}
    ensures (p, a) in Users(v.spaces, g) <==> !v.spaces[p][a].phys && g == v.spaces[p][a].frame
  {
    UsersDrop(v, w, p, a, g);
    assert Maps(v.spaces, p, a, g) <==> !v.spaces[p][a].phys && g == v.spaces[p][a].frame;
  }

  lemma LastUser(s: set<(Pid, Page)>, x: (Pid, Page))
    requires x in s && |s| <= 1
    ensures s - {x} == {}
  {
    assert |s - {x}| == |s| - 1;
  }

  lemma MunmapOneInv(v: Vm, p: Pid, a: Page)
    requires Inv(v) && p in v.spaces
    ensures Inv(MunmapOne(v, p, a))
  {
    hide Exclusive, CountsOk, Users, NoDup;
    if a in v.spaces[p] {
      ExclusiveDrop(v, MunmapOne(v, p, a), p, a);
      MunmapCounts(v, MunmapOne(v, p, a), p, a);
    }
  }

  lemma MunmapCounts(v: Vm, w: Vm, p: Pid, a: Page)
    requires CountsOk(v) && p in v.spaces && a in v.spaces[p] && w == MunmapOne(v, p, a)
    ensures CountsOk(w)
  {
    hide Users, Maps;
    forall g: Frame
      ensures Users(w.spaces, g) == Users(v.spaces, g) - {(p, a)}
      ensures (p, a) in Users(v.spaces, g) <==> !v.spaces[p][a].phys && g == v.spaces[p][a].frame
    {
      DropUsers(v, w, p, a, g);
    }
  }

  lemma FaultInv(v: Vm, p: Pid, a: Page)
    requires Inv(v) && Supplied(v, p, a)
    ensures Inv(Fault(v, p, a).0)
    ensures Fault(v, p, a).1 <==> p in v.spaces && a in v.spaces[p]
                                  && var e := v.spaces[p][a]; e.write && e.cow && !e.phys
    ensures !Fault(v, p, a).1 ==> Fault(v, p, a).0 == v
    ensures Fault(v, p, a).1 ==> HwWritable(Fault(v, p, a).0.spaces[p][a])
  {
    hide Exclusive, CountsOk, Users;
    if CanBreak(v, p, a) {
      var e, w := v.spaces[p][a], Fault(v, p, a).0;
      NotFree(v, p, a);
      if v.refs[e.frame] > 1 {
        FreeTail(v);
        var n := Pte(AllocFrame(v), true, false, false);
        MapNewFrame(v, w, p, a, n);
        PagesSet(v.spaces, v.mem, p, a, n);
        PagesGrow(w.spaces, v.mem, w.mem);
      } else {
        SoleUser(v, p, a);
        PagesSet(v.spaces, v.mem, p, a, e.(cow := false));
        ExclusiveSet(v, w, p, a, e.(cow := false));
        UpgradeCounts(v, w, p, a, e.(cow := false));
      }
    }
  }

  /** A mapped frame whose count is one has that one mapping. */
  lemma SoleUser(v: Vm, p: Pid, a: Page)
    requires CountsOk(v) && MemOk(v) && p in v.spaces && a in v.spaces[p] && !v.spaces[p][a].phys
    requires v.spaces[p][a].frame in v.mem && v.refs[v.spaces[p][a].frame] <= 1
    ensures forall q, b :: Maps(v.spaces, q, b, v.spaces[p][a].frame) ==> q == p && b == a
  {
    var f := v.spaces[p][a].frame;
    NotFree(v, p, a);
    assert Maps(v.spaces, p, a, f);
    assert (p, a) in Users(v.spaces, f);
    LastUser(Users(v.spaces, f), (p, a));
    forall q: Pid, b: Page | Maps(v.spaces, q, b, f)
      ensures q == p && b == a
    {
      assert (q, b) in Users(v.spaces, f) - {(p, a)} || (q, b) == (p, a);
    }
  }

  lemma UpgradeCounts(v: Vm, w: Vm, p: Pid, a: Page, e: Pte)
    requires CountsOk(v) && p in v.spaces && Maps(v.spaces, p, a, e.frame) && !e.phys
    requires w == v.(spaces := SetPte(v.spaces, p, a, e))
    ensures CountsOk(w)
  {
    forall g: Frame
      ensures Users(w.spaces, g) == Users(v.spaces, g)
    {
      UsersSet(v, w, p, a, e, g);
      assert Maps(v.spaces, p, a, g) <==> g == e.frame;
    }
  }
}
