/** The region operations as vm/memregion.c performs them on one address space and the descriptor pool. */
module MemRegionCode {
  import opened Lists
  import opened MemRegion

  datatype Status = Ok | Invalid | NoMemory

  function AlignUp(a: nat): (r: nat)
    ensures a <= r < a + PAGE_SIZE && r % PAGE_SIZE == 0
  {
    (a + PAGE_SIZE - 1) / PAGE_SIZE * PAGE_SIZE
  }

  /** Where a descriptor is in a list. */
  function Place(ids: seq<Id>, id: Id): (i: nat)
    requires id in ids
    ensures i < |ids| && ids[i] == id
  {
    if ids[0] == id then 0 else 1 + Place(ids[1..], id)
  }

  /** A region that a request without a fixed address can use. */
  predicate Fits(r: Region, size: nat) {
    r.kind == Free && AlignUp(r.base) < r.ceiling && size <= r.ceiling - AlignUp(r.base)
  }

  function FirstFit(table: map<Id, Region>, ids: seq<Id>, size: nat): (r: Option<Id>)
    requires Known(table, ids)
    ensures r.Some? ==> r.value in ids && Fits(table[r.value], size)
    ensures r.None? ==> forall id :: id in ids ==> !Fits(table[id], size)
  {
    if ids == [] then None
    else if Fits(table[ids[0]], size) then Some(ids[0])
    else FirstFit(table, ids[1..], size)
  }

  /** The region that a request deserves, if any: by address when fixed, else the first on the free list that fits. */
  ghost function Chosen(s: Space, addr: nat, size: nat, fixed: bool): Option<Id>
    requires Known(s.table, s.sorted) && Known(s.table, s.free)
  {
    if fixed then
      var r := Scan(s.table, s.sorted, addr);
      if r.Some? && s.table[r.value].kind == Free && (addr + size) % WORD <= s.table[r.value].ceiling then r else None
    else FirstFit(s.table, s.free, size)
  }

  /** The lists name descriptors that exist. */
  ghost predicate Listed(s: Space) {
    Valid(s) && Known(s.table, s.free)
  }

  /** memregion_find_free: the hint if it holds the address, else the first on the free list that does. */
  function FoundFree(s: Space, addr: nat): Option<Id>
    requires Known(s.table, s.free) && (s.hint.Some? ==> s.hint.value in s.table)
  {
    if s.hint.Some? && Contains(s.table[s.hint.value], addr) then s.hint else Scan(s.table, s.free, addr)
  }

  /** The descriptor memregion_create comes upon. */
  ghost function Found(s: Space, addr: nat, size: nat, fixed: bool): Option<Id>
    requires Listed(s)
  {
    if fixed then FoundFree(s, addr) else FirstFit(s.table, s.free, size)
  }

  /** The one it goes on with. */
  ghost function Picked(s: Space, addr: nat, size: nat, fixed: bool): Option<Id>
    requires Listed(s)
  {
    var r := Found(s, addr, size, fixed);
    if fixed && r.Some? && !(s.table[r.value].kind == Free && (addr + size) % WORD <= s.table[r.value].ceiling)
    then None
    else r
  }

  /** What it comes upon is a region of this address space. */
  ghost predicate FindsOwn(s: Space, addr: nat, size: nat, fixed: bool)
    requires Listed(s)
  {
    var r := Found(s, addr, size, fixed);
    r.Some? ==> r.value in s.sorted
  }

  /** While the free list agrees, that is so, and what it picks is what the request deserves. */
  lemma AgreesFindsOwn(s: Space, addr: nat, size: nat, fixed: bool)
    requires Valid(s) && FreeAgrees(s)
    ensures Listed(s) && FindsOwn(s, addr, size, fixed) && Picked(s, addr, size, fixed) == Chosen(s, addr, size, fixed)
  {
    hide Tiles, IdsOk, FreeAgrees;
    FreeIsKnown(s);
    if fixed {
      var r := FoundFree(s, addr);
      if r.Some? {
        ScanIn(s.table, s.free, addr);
        ScanFinds(s.table, s.sorted, USER_BASE, USER_CEILING, r.value, addr);
      } else {
        ScanIn(s.table, s.sorted, addr);
        ScanMisses(s.table, s.free, addr);
      }
    }
  }

  lemma ScanIn(table: map<Id, Region>, ids: seq<Id>, a: int)
    requires Known(table, ids)
    ensures var r := Scan(table, ids, a); r.Some? ==> r.value in ids && Contains(table[r.value], a)
  {
  }

  lemma ScanMisses(table: map<Id, Region>, ids: seq<Id>, a: int)
    requires Known(table, ids)
    ensures Scan(table, ids, a).None? ==> forall id :: id in ids ==> !Contains(table[id], a)
  {
  }

  lemma FreeIsKnown(s: Space)
    requires Valid(s) && FreeAgrees(s)
    ensures Known(s.table, s.sorted) && Known(s.table, s.free)
    ensures forall id :: id in s.free <==> id in s.sorted && s.table[id].kind == Free
  {
    forall id
      ensures id in s.free <==> id in s.sorted && IsFree(s.table, id)
    {
      CountIn(s.free, id);
    }
  }

  /** Pool order carries no meaning. */
  lemma Reorder(s: Space, t: Space, unused: seq<Id>)
    requires IdsOk(t) && Conserved(s, t) && multiset(unused) == multiset(t.unused)
    ensures var u := t.(unused := unused);
            && Conserved(s, u) && IdsOk(u) && (Valid(t) <==> Valid(u)) && (FreeAgrees(t) <==> FreeAgrees(u))
            && (forall a :: Meaning(u, a) == Meaning(t, a))
  {
    hide Tiles;
    SameIds(t, t.(unused := unused));
  }

  // ---------------------------------------------------------------------
  // What each call does to the address space: `s` before, `t` after
  // ---------------------------------------------------------------------

  /** memregion_split fails only outside the range or with an empty pool, and never changes an attribute. */
  ghost predicate Splits(s: Space, t: Space, at: nat, r: Status)
    requires Valid(s)
  {
    && Valid(t) && Conserved(s, t)
    && (forall a :: Meaning(t, a) == Meaning(s, a))
    && (FreeAgrees(s) ==> FreeAgrees(t)) && (Listed(s) ==> Listed(t))
    && (r.Invalid? <==> !(USER_BASE <= at < USER_CEILING))
    && (r.NoMemory? <==> USER_BASE <= at < USER_CEILING && s.unused == [] && !Edge(s, at))
    && (forall b :: Edge(t, b) <==> Edge(s, b) || (r.Ok? && b == at))
    && |t.unused| == if r.Ok? && !Edge(s, at) then |s.unused| - 1 else |s.unused|
  }

  /**
    memregion_create, when what it comes upon is a region of the address space: it fails only
    when no region is picked or the pool has fewer than two descriptors. On success the range,
    all free before, is exactly the new region, and no other address changes. The list remains
    a tiling exactly when the new region is not empty, that is, when the size is not zero and
    at + size does not wrap around.
   */
  ghost predicate Creates(s: Space, t: Space, addr: nat, size: nat, fixed: bool, flags: nat, kind: Kind, r: Option<Id>)
    requires Listed(s)
  {
    && Known(t.table, t.free) && (FreeAgrees(s) ==> FreeAgrees(t))
    && r == (if |s.unused| < 2 then None else Picked(s, addr, size, fixed))
    && (r.None? ==> t == s.(hint := t.hint) && Valid(t))
    && (r.Some? ==>
          && r.value in t.table && r.value in s.table
          && var at := CreatedAt(s, addr, fixed, r.value);
             var end := (at + size) % WORD;
             && Conserved(s, t) && IdsOk(t)
             && t.table[r.value] == Region(at, end, kind, flags, s.table[r.value].phys)
             && (Valid(t) <==> 0 < size && at + size < WORD)
             && (0 < size && at + size < WORD ==>
                   forall a :: if at <= a < end
                               then FreeAt(s, a) && Meaning(t, a) == Some(AttrOf(t.table[r.value], a))
                               else Meaning(t, a) == Meaning(s, a)))
  }

  function CreatedAt(s: Space, addr: nat, fixed: bool, id: Id): nat
    requires id in s.table
  {
    if fixed then addr else AlignUp(s.table[id].base)
  }

  /**
    memregion_free makes exactly the addresses of the range free. It fails, and changes
    no attribute, when an end of the range is outside the user area (the top of it is
    not), or when the pool cannot supply the splits. The free list agrees with the
    sorted list afterwards exactly when nothing in the range was free and no free
    region above it had to be merged.
   */
  ghost predicate Frees(s: Space, t: Space, addr: nat, size: nat, r: Status)
    requires Valid(s)
  {
    var end := (addr + size) % WORD;
    && Valid(t) && Conserved(s, t)
    && r == (if FreeCanWork(s, addr, end) then Ok else NoMemory)
    && (forall a :: Meaning(t, a) == if r.Ok? && addr <= a < end then Some(FREE_ATTR) else Meaning(s, a))
    && (FreeAgrees(s) ==> (FreeAgrees(t) <==> r.NoMemory? || RangeClean(s, addr, end)))
    && (Listed(s) ==> Listed(t))
  }

  /** memregion_free_all: every descriptor goes back to the pool. */
  ghost predicate FreesAll(s: Space, t: Space) {
    && t.sorted == [] && t.hint.None? && IdsOk(t) && Conserved(s, t)
    && (FreeAgrees(s) ==> t.free == [])
    && (Known(s.table, s.free) ==> Known(t.table, t.free))
  }

  /** init_memregions: one free region over the whole user range. */
  ghost predicate Inits(s: Space, t: Space, r: Status) {
    && Conserved(s, t) && t.hint.None?
    && r == (if s.unused == [] then NoMemory else Ok)
    && (r.NoMemory? ==> t.sorted == [] && t.free == [])
    && (r.Ok? ==> Valid(t) && FreeAgrees(t) && forall a :: USER_BASE <= a < USER_CEILING ==> FreeAt(t, a))
  }

  /**
    fork_memregions: the child gets regions equal to the parent's, in order, or
    nothing at all when the pool is too small.
   */
  ghost predicate Forks(s: Space, t: Space, parent: seq<Id>, r: Status)
    requires Known(s.table, parent)
  {
    && Conserved(s, t) && IdsOk(t) && t.hint.None?
    && r == (if |s.unused| < |parent| then NoMemory else Ok)
    && (r.NoMemory? ==> t.sorted == [] && t.free == [])
    && (r.Ok? ==> Regs(t.table, t.sorted) == Regs(s.table, parent) && FreeAgrees(t))
  }

  class AddressSpace {
    var table: map<Id, Region>
    var unused: seq<Id>
    var sorted: seq<Id>
    var free: seq<Id>
    var hint: Option<Id>

    ghost function View(): Space
      reads this
    {
      Space(table, unused, sorted, free, hint)
    }

    /** memregion_find_sorted: the hint never changes what is found. */
    method FindSorted(a: nat) returns (r: Option<Id>)
      requires Valid(View())
      modifies `hint
      ensures Valid(View())
      ensures r == Scan(table, sorted, a)
      ensures r.Some? <==> USER_BASE <= a < USER_CEILING
    {
      hide Tiles, IdsOk;
      ScanRange(table, sorted, USER_BASE, USER_CEILING, a);
      if hint.Some? && Contains(table[hint.value], a) {
        ScanFinds(table, sorted, USER_BASE, USER_CEILING, hint.value, a);
        return hint;
      }
      r := ScanList(sorted, a);
      if r.Some? {
        HintOnly(View(), r);
        hint := r;
      }
    }

    method ScanList(ids: seq<Id>, a: nat) returns (r: Option<Id>)
      requires Known(table, ids)
      ensures r == Scan(table, ids, a)
    {
      var rest := ids;
      while rest != []
        invariant Known(table, rest) && Scan(table, rest, a) == Scan(table, ids, a)
      {
        if Contains(table[rest[0]], a) {
          return Some(rest[0]);
        }
        rest := rest[1..];
      }
      r := None;
    }

    /**
      memregion_find_free. While the free list agrees, with or without a hint, a free region
      is found exactly when the address is in one. On a list that does not, the space stays in
      order exactly when what is found is its own.
     */
    method FindFree(a: nat) returns (r: Option<Id>)
      requires Listed(View())
      modifies `hint
      ensures r == FoundFree(old(View()), a)
      ensures View() == old(View()).(hint := if r.Some? then r else old(hint))
      ensures Valid(View()) <==> (r.Some? ==> r.value in sorted)
      ensures FreeAgrees(View()) ==> (r.Some? ==> r == Scan(table, sorted, a))
      ensures FreeAgrees(View()) && r.None? ==> var o := Scan(table, sorted, a); o.Some? ==> table[o.value].kind != Free
    {
      hide Tiles, IdsOk, FreeAgrees;
      ghost var s := View();
      SameAgrees(s);
      if FreeAgrees(s) {
        AgreesScan(s, a);
      }
      HintIff(s, FoundFree(s, a));
      if hint.Some? && Contains(table[hint.value], a) {
        return hint;
      }
      r := ScanList(free, a);
      if r.Some? {
        hint := r;
      }
    }

    /** The i-th region cut at an address inside it. */
    method CutRegion(i: nat, at: nat)
      requires Valid(View()) && i < |sorted| && unused != [] && hint.None?
      requires table[sorted[i]].base < at < table[sorted[i]].ceiling
      modifies this
      ensures var r := old(table)[old(sorted)[i]];
              View() == Cut(old(View()), i, at, old(unused)[0], false, if r.kind == Phys then r.phys + (at - r.base)
                            else 0)
    {
      hide Tiles;
      PoolHead(View());
      var mr, d := sorted[i], unused[0];
      var r := table[mr];
      var phys := if r.kind == Phys then r.phys + (at - r.base) else 0;
      unused := unused[1..];
      sorted := sorted[..i + 1] + [d] + sorted[i + 1..];
      table := table[mr := r.(ceiling := at)][d := Region(at, r.ceiling, r.kind, r.flags, phys)];
      if r.kind == Free {
        free := [d] + free;
      }
      assert sorted == old(sorted)[..i] + [mr, d] + old(sorted)[i + 1..];
    }

    /** memregion_split */
    method Split(at: nat) returns (r: Status)
      requires Valid(View())
      modifies this
      ensures Splits(old(View()), View(), at, r)
    {
      hide Valid, IdsOk, FreeAgrees, Conserved, Meaning, Scan, Edge, Cut;
      ghost var s := View();
      var mr := FindSorted(at);
      ghost var s1 := View();
      HintOnly2(s, s1);
      if mr.None? {
        return Invalid;
      }
      ScanHit(s1, at, mr.value);
      if at == table[mr.value].base {
        return Ok;
      }
      var i := Place(sorted, mr.value);
      OnlyEdge(s1, i, at);
      if unused == [] {
        return NoMemory;
      }
      HintOnly(s1, None);
      hint := None;
      ghost var s2 := View();
      ghost var phys := if table[mr.value].kind == Phys then table[mr.value].phys + (at - table[mr.value].base) else 0;
      SplitKeeps(s2, i, at, phys);
      SplitListed(s2, i, at, phys);
      ConservedTwice(s, s1, s2);
      CutRegion(i, at);
      ConservedTwice(s, s2, View());
      return Ok;
    }

    /** A descriptor put beside the i-th region takes the part of it below or above an address. */
    method InsertPart(i: nat, at: nat, d: Id, low: bool)
      requires i < |sorted| && sorted[i] in table && d in table && d != sorted[i]
      requires table[sorted[i]].kind == Free && table[sorted[i]].flags == 0
      modifies `table, `sorted, `free
      ensures var t := Cut(old(View()), i, at, d, low, old(table)[d].phys);
              table == t.table && sorted == t.sorted && free == t.free
    {
      var mr := sorted[i];
      var r := table[mr];
      free := [d] + free;
      if low {
        sorted := sorted[..i] + [d] + sorted[i..];
        table := table[d := Region(r.base, at, Free, 0, table[d].phys)];
        table := table[mr := r.(base := at)];
      } else {
        sorted := sorted[..i + 1] + [d] + sorted[i + 1..];
        table := table[mr := r.(ceiling := at)][d := Region(at, r.ceiling, Free, 0, table[d].phys)];
      }
      assert sorted == old(sorted)[..i] + (if low then [d, mr] else [mr, d]) + old(sorted)[i + 1..];
    }

    /** The tail of the carved region, and the new kind of what remains. */
    method FinishCarve(j: nat, end: nat, mrtail: Id, kind: Kind, flags: nat)
      requires j < |sorted| && sorted[j] in table && mrtail in table && mrtail != sorted[j]
      requires table[sorted[j]].kind == Free && table[sorted[j]].flags == 0
      modifies this
      ensures var high := CutHigh(old(View()), j, end, mrtail);
              && table == Retype(high, j, kind, flags).table && sorted == high.sorted
              && free == Without(high.free, old(sorted)[j]) && hint == old(hint)
              && unused == if end < old(table)[old(sorted)[j]].ceiling then old(unused) else [mrtail] + old(unused)
    {
      hide Without;
      var mr := sorted[j];
      if end < table[mr].ceiling {
        InsertPart(j, end, mrtail, false);
      } else {
        unused := [mrtail] + unused;
      }
      free := Without(free, mr);
      table := table[mr := table[mr].(kind := kind, flags := flags)];
    }

    /** The part of memregion_create after a free region has been chosen and two descriptors are at hand. */
    method CarveRegion(i: nat, at: nat, end: nat, kind: Kind, flags: nat)
      requires IdsOk(View()) && |unused| >= 2 && i < |sorted|
      requires var r := table[sorted[i]]; r.kind == Free && r.flags == 0 && r.base <= at && end <= r.ceiling
      modifies this
      ensures var t := Carve(old(View()), i, at, end, kind, flags);
              multiset(unused) == multiset(t.unused) && View() == t.(unused := unused)
    {
      hide Without, IdsOk, Cut, CutHigh, FreeAgrees, Conserved, Valid, Carve, Retype;
      ghost var s := View();
      CarveFacts(s, i);
      CutLowKeeps(s, i, at);
      var mrbase, mrtail := unused[0], unused[1];
      unused := unused[2..];
      CutIgnoresPool(s, i, at, mrbase, unused);
      var j := i;
      if table[sorted[i]].base < at {
        InsertPart(i, at, mrbase, true);
        j := i + 1;
      } else {
        unused := [mrbase] + unused;
      }
      CarveIs(s, i, at, end, kind, flags, View());
      FinishCarve(j, end, mrtail, kind, flags);
    }

    method FirstFitting(size: nat) returns (r: Option<Id>)
      requires Known(table, free)
      ensures r == FirstFit(table, free, size)
    {
      var rest := free;
      while rest != []
        invariant Known(table, rest) && FirstFit(table, rest, size) == FirstFit(table, free, size)
      {
        var mr := table[rest[0]];
        var aligned := AlignUp(mr.base);
        if mr.kind == Free && mr.base <= aligned && aligned < mr.ceiling && size <= mr.ceiling - aligned {
          return Some(rest[0]);
        }
        rest := rest[1..];
      }
      r := None;
    }

    /** The free region a request is met from. */
    method Choose(addr: nat, size: nat, fixed: bool) returns (mr: Option<Id>)
      requires Listed(View()) && FindsOwn(View(), addr, size, fixed)
      modifies `hint
      ensures Valid(View()) && View() == old(View()).(hint := hint)
      ensures mr == Picked(old(View()), addr, size, fixed)
    {
      hide Tiles, IdsOk, FreeAgrees, Scan;
      if fixed {
        mr := FindFree(addr);
        if mr.Some? {
          if (addr + size) % WORD > table[mr.value].ceiling || table[mr.value].kind != Free {
            mr := None;
          }
        }
      } else {
        mr := FirstFitting(size);
      }
    }

    /** memregion_create */
    method Create(addr: nat, size: nat, fixed: bool, flags: nat, kind: Kind) returns (r: Option<Id>)
      requires Listed(View()) && FindsOwn(View(), addr, size, fixed)
      requires addr < WORD && size < WORD && (kind == Alloc || kind == Phys)
      modifies this
      ensures Creates(old(View()), View(), addr, size, fixed, flags, kind, r)
    {
      hide Tiles, IdsOk, FreeAgrees, Conserved, Meaning, Carve, Valid;
      ghost var s := View();
      var mr := Choose(addr, size, fixed);
      ghost var s1 := View();
      HintOnly2(s, s1);
      if mr.None? {
        return None;
      }
      if unused == [] {
        return None;
      }
      if unused[1..] == [] {
        return None;
      }
      PickedFits(s, addr, size, fixed);
      var i := Place(sorted, mr.value);
      var at := if fixed then addr else AlignUp(table[mr.value].base);
      var end := (at + size) % WORD;
      ChosenOk(s1, i, at, end);
      CarveRegion(i, at, end, kind, flags);
      CarveKnown(s1, i, at, end, kind, flags);
      CreateKeeps(s, s1, i, at, end, kind, flags, unused);
      return mr;
    }

    /** The loop of memregion_free and the merge after it. */
    method FreeLoop(start: nat, addr: nat, end: nat)
      requires IdsOk(View()) && start <= |sorted|
      modifies this
      ensures View() == FreeFrom(old(View()), start, addr, end)
    {
      var i: nat := start;
      while i < |sorted| && table[sorted[i]].base < end
        invariant IdsOk(View()) && i <= |sorted|
        invariant FreeFrom(View(), i, addr, end) == FreeFrom(old(View()), start, addr, end)
        decreases |sorted| - i
      {
        var mr := sorted[i];
        if table[mr].base >= addr && table[mr].ceiling <= end {
          ghost var step := GiveBack(View(), i);
          if i > 0 && table[sorted[i - 1]].kind == Free {
            Absorb(i);
          } else {
            table := table[mr := table[mr].(kind := Free, flags := 0)];
            free := [mr] + free;
            i := i + 1;
          }
          assert (View(), i) == step;
        } else {
          i := i + 1;
        }
      }
      if i < |sorted| && table[sorted[i]].kind == Free {
        if i > 0 && table[sorted[i - 1]].kind == Free {
          Absorb(i);
        }
      }
    }

    /** The i-th region is destroyed and the free region before it extended. */
    method Absorb(i: nat)
      requires 0 < i < |sorted| && sorted[i] in table && sorted[i - 1] in table
      modifies this
      ensures View() == Merge(old(View()), i)
    {
      var prev, mr := sorted[i - 1], sorted[i];
      var ceiling := table[mr].ceiling;
      var gone := table[mr].(kind := Unallocated);
      table := table[prev := table[prev].(ceiling := ceiling)];
      table := table[mr := gone];
      sorted := sorted[..i] + sorted[i + 1..];
      unused := [mr] + unused;
    }

    /** memregion_free */
    method FreeRange(addr: nat, size: nat) returns (r: Status)
      requires Valid(View()) && addr < WORD && size < WORD
      modifies this
      ensures Frees(old(View()), View(), addr, size, r)
    {
      hide IdsOk, FreeAgrees, Conserved, Meaning, Valid, Scan, Edge, FreeFrom, RangeClean, Clean;
      ghost var s := View();
      var end := (addr + size) % WORD;
      var sc1 := Split(addr);
      ghost var s1 := View();
      var sc2 := Split(end);
      ghost var s2 := View();
      ConservedTwice(s, s1, s2);
      if sc1 != Ok || sc2 != Ok {
        return NoMemory;
      }
      var mr := FindSorted(addr);
      ScanHit(View(), addr, mr.value);
      hint := None;
      ghost var s3 := View();
      HintOnly(s2, None);
      var i := Place(sorted, mr.value);
      FreeReady(s3, i, addr, end);
      FreeFromKeeps(s3, i, addr, end);
      if Known(table, free) {
        FreeFromKnown(s3, i, addr, end);
      }
      RangeCleanIs(s, s3, i, addr, end);
      FreeLoop(i, addr, end);
      ConservedTwice(s, s2, s3);
      ConservedTwice(s, s3, View());
      return Ok;
    }

    /** memregion_free_all */
    method FreeAll()
      requires IdsOk(View())
      modifies this
      ensures FreesAll(old(View()), View())
    {
      hide IdsOk, Conserved, FreeAgrees;
      ghost var s := View();
      SameConserved(s);
      while sorted != []
        invariant IdsOk(View()) && Conserved(s, View())
        invariant FreeAgrees(s) ==> FreeAgrees(View())
        invariant Known(s.table, s.free) ==> Known(table, free)
        decreases |sorted|
      {
        ghost var v := View();
        DropKeeps(v);
        var mr := sorted[0];
        if table[mr].kind == Free {
          free := Without(free, mr);
        }
        sorted := sorted[1..];
        table := table[mr := table[mr].(kind := Unallocated)];
        unused := [mr] + unused;
        ConservedTwice(s, v, View());
      }
      if FreeAgrees(s) {
        NothingFree(View());
      }
      HintGone(View());
      ConservedTwice(s, View(), View().(hint := None));
      hint := None;
    }

    /** init_memregions */
    method Init() returns (r: Status)
      requires IdsOk(View()) && sorted == []
      modifies this
      ensures Inits(old(View()), View(), r)
    {
      sorted, free, hint := [], [], None;
      if unused == [] {
        return NoMemory;
      }
      var mr := unused[0];
      ghost var s := View();
      PoolHead(s);
      InitKeeps(s);
      unused := unused[1..];
      sorted := sorted + [mr];
      free := free + [mr];
      table := table[mr := Region(USER_BASE, USER_CEILING, Free, 0, 0)];
      assert View() == Initial(s);
      return Ok;
    }

    /** fork_memregions */
    method Fork(parent: seq<Id>) returns (r: Status)
      requires IdsOk(View()) && sorted == []
      requires Known(table, parent) && forall id :: id in parent ==> id !in unused
      modifies this
      ensures Forks(old(View()), View(), parent, r)
    {
      hide IdsOk, Conserved, FreeAgrees;
      ghost var o := View();
      EmptySpace(o);
      sorted, free, hint := [], [], None;
      ghost var s := View();
      SameConserved(s);
      var i := 0;
      while i < |parent|
        invariant 0 <= i <= |parent| && IdsOk(View()) && Conserved(s, View()) && FreeAgrees(View()) && hint.None?
        invariant Known(table, sorted) && Regs(table, sorted) == Regs(s.table, parent[..i])
        invariant |unused| + i == |s.unused|
        invariant s.table.Keys == table.Keys && forall id :: id in parent ==> table[id] == s.table[id]
      {
        ghost var v := View();
        if unused == [] {
          FreeAll();
          ConservedTwice(s, v, View());
          ConservedTwice(o, s, View());
          return NoMemory;
        }
        var mr := unused[0];
        AddKeeps(v, table[parent[i]], parent, s);
        unused := unused[1..];
        sorted := sorted + [mr];
        table := table[mr := table[parent[i]]];
        if table[mr].kind == Free {
          free := free + [mr];
        }
        ConservedTwice(s, v, View());
        assert parent[..i + 1] == parent[..i] + [parent[i]];
        i := i + 1;
      }
      assert parent[..i] == parent;
      ConservedTwice(o, s, View());
      return Ok;
    }
  }

  /** The first region's descriptor returned to the pool. */
  function Drop(s: Space): Space
    requires s.sorted != [] && s.sorted[0] in s.table
  {
    var mr := s.sorted[0];
    s.(sorted := s.sorted[1..],
       free := if s.table[mr].kind == Free then Without(s.free, mr) else s.free,
       table := s.table[mr := s.table[mr].(kind := Unallocated)],
       unused := [mr] + s.unused)
  }

  lemma DropKeeps(s: Space)
    requires IdsOk(s) && s.sorted != []
    ensures s.sorted[0] in s.table
    ensures IdsOk(Drop(s)) && Conserved(s, Drop(s)) && (FreeAgrees(s) ==> FreeAgrees(Drop(s)))
  {
    hide Without;
    var t := Drop(s);
    var mr := s.sorted[0];
    assert s.sorted == [mr] + s.sorted[1..];
    Around(s.sorted, s.unused, 0);
    assert multiset(t.unused) == multiset{mr} + multiset(s.unused);
    SameIds(s, t);
    if FreeAgrees(s) {
      forall id
        ensures multiset(t.free)[id] == if id in t.sorted && IsFree(t.table, id) then 1 else 0
      {
        assert multiset(s.free)[id] == if id in s.sorted && IsFree(s.table, id) then 1 else 0;
        WithoutCounts(s.free, mr, id);
      }
    }
  }

  lemma NothingFree(s: Space)
    requires FreeAgrees(s) && s.sorted == []
    ensures s.free == []
  {
    assert s.free != [] ==> multiset(s.free)[s.free[0]] == 0;
  }

  lemma HintGone(s: Space)
    requires IdsOk(s)
    ensures IdsOk(s.(hint := None)) && Conserved(s, s.(hint := None))
  {
  }

  lemma EmptySpace(s: Space)
    requires IdsOk(s) && s.sorted == []
    ensures var t := s.(sorted := [], free := [], hint := None); IdsOk(t) && FreeAgrees(t) && Conserved(s, t)
  {
  }

  /** A descriptor from the pool added at the end of the sorted list. */
  function Append(s: Space, r: Region): Space
    requires s.unused != []
  {
    var mr := s.unused[0];
    s.(sorted := s.sorted + [mr],
       free := if r.kind == Free then s.free + [mr] else s.free,
       table := s.table[mr := r],
       unused := s.unused[1..])
  }

  lemma AppendKeeps(s: Space, r: Region)
    requires IdsOk(s) && s.unused != [] && FreeAgrees(s)
    ensures IdsOk(Append(s, r)) && Conserved(s, Append(s, r)) && FreeAgrees(Append(s, r))
    ensures Known(s.table, s.sorted)
    ensures var t := Append(s, r); Known(t.table, t.sorted) && Regs(t.table, t.sorted) == Regs(s.table, s.sorted) + [r]
  {
    var t := Append(s, r);
    var mr := s.unused[0];
    assert s.unused == [mr] + s.unused[1..];
    assert multiset(s.unused) == multiset{mr} + multiset(s.unused[1..]);
    assert (multiset(s.sorted) + multiset(s.unused))[mr] <= 1;
    assert multiset(t.sorted) == multiset(s.sorted) + multiset{mr};
    assert multiset(t.sorted) + multiset(t.unused) == multiset(s.sorted) + multiset(s.unused);
    SameIds(s, t);
    forall id
      ensures multiset(t.free)[id] == if id in t.sorted && IsFree(t.table, id) then 1 else 0
    {
      assert multiset(s.free)[id] == if id in s.sorted && IsFree(s.table, id) then 1 else 0;
    }
  }

  lemma AddKeeps(s: Space, r: Region, parent: seq<Id>, start: Space)
    requires IdsOk(s) && s.unused != [] && FreeAgrees(s) && Conserved(start, s)
    requires Known(s.table, parent) && Known(start.table, parent) && forall id :: id in parent ==> id !in start.unused
    requires start.sorted == [] && forall id :: id in parent ==> s.table[id] == start.table[id]
    ensures IdsOk(Append(s, r)) && Conserved(s, Append(s, r)) && FreeAgrees(Append(s, r))
    ensures var t := Append(s, r);
            && Known(s.table, s.sorted)
            && Known(t.table, t.sorted) && Regs(t.table, t.sorted) == Regs(s.table, s.sorted) + [r]
            && t.table.Keys == s.table.Keys && forall id :: id in parent ==> t.table[id] == start.table[id]
  {
    hide FreeAgrees, IdsOk;
    AppendKeeps(s, r);
    var mr := s.unused[0];
    assert mr in multiset(s.sorted) + multiset(s.unused);
    assert mr in start.unused;
  }

  function Initial(s: Space): Space
    requires s.unused != []
  {
    Append(s, Region(USER_BASE, USER_CEILING, Free, 0, 0))
  }

  lemma InitKeeps(s: Space)
    requires IdsOk(s) && s.sorted == [] && s.free == [] && s.hint.None? && s.unused != []
    ensures var t := Initial(s);
            && Valid(t) && FreeAgrees(t) && Conserved(s, t)
            && forall a :: USER_BASE <= a < USER_CEILING ==> FreeAt(t, a)
  {
    var r := Region(USER_BASE, USER_CEILING, Free, 0, 0);
    AppendKeeps(s, r);
    OneTile(r);
    assert Regs(s.table, s.sorted) + [r] == [r];
  }

  /** Both ends are user addresses, and the pool has a descriptor for each end that is not an edge yet. */
  ghost predicate FreeCanWork(s: Space, addr: nat, end: nat) {
    && USER_BASE <= addr < USER_CEILING
    && USER_BASE <= end < USER_CEILING
    && |s.unused| >= (if Edge(s, addr) then 0 else 1) + (if Edge(s, end) || end == addr then 0 else 1)
  }

  /** Nothing in the range is free, and what follows it is not a free region to be merged. */
  ghost predicate RangeClean(s: Space, addr: nat, end: nat)
    requires Known(s.table, s.sorted)
  {
    && (forall a :: addr <= a < end ==> !FreeAt(s, a))
    && !(FreeAt(s, Max(addr, end)) && (addr < end || FreeAt(s, addr - 1)))
  }

  /** After the splits the loop starts at addr and no region straddles the end. */
  lemma FreeReady(s: Space, i: nat, addr: nat, end: nat)
    requires Valid(s) && i < |s.sorted| && Contains(s.table[s.sorted[i]], addr) && Edge(s, addr) && Edge(s, end)
    ensures IdsOk(s) && Base(s, i) == addr && EdgeAt(s, i, end)
  {
    hide Tiles, Edge;
    if s.table[s.sorted[i]].base < addr {
      OnlyEdge(s, i, addr);
    }
    forall id | id in s.sorted[i..]
      ensures !(s.table[id].base < end < s.table[id].ceiling)
    {
      if s.table[id].base < end < s.table[id].ceiling {
        OnlyEdge(s, Place(s.sorted, id), end);
      }
    }
  }

  lemma RangeCleanIs(s: Space, t: Space, i: nat, addr: nat, end: nat)
    requires Valid(s) && Valid(t) && i < |t.sorted| && Base(t, i) == addr
    requires forall a :: Meaning(t, a) == Meaning(s, a)
    ensures RangeClean(s, addr, end) <==> Clean(t, i, end)
  {
    hide Meaning, Tiles, IdsOk, Clean;
    CleanByAddress(t, i, addr, end);
    assert forall a :: FreeAt(t, a) == FreeAt(s, a);
  }

  /** The region released last is the first that a request it suits is met from. */
  lemma ReleasedIsReused(s: Space, i: nat, size: nat)
    requires IdsOk(s) && i < |s.sorted| && !PrevFree(s, i) && Known(s.table, s.free)
    requires Fits(s.table[s.sorted[i]].(kind := Free, flags := 0), size)
    ensures var t := GiveBack(s, i).0;
            Known(t.table, t.free) && FirstFit(t.table, t.free, size) == Some(s.sorted[i])
  {
    hide IdsOk;
    GiveBackKnown(s, i);
  }

  /** And so is what a create has left above its new region. */
  lemma RestIsReused(s: Space, i: nat, at: nat, end: nat, kind: Kind, flags: nat, size: nat)
    requires IdsOk(s) && |s.unused| >= 2 && i < |s.sorted| && Known(s.table, s.free)
    requires var r := s.table[s.sorted[i]]; r.kind == Free && r.base <= at <= end < r.ceiling
    requires Fits(s.table[s.sorted[i]].(base := end), size)
    ensures var t := Carve(s, i, at, end, kind, flags);
            Known(t.table, t.free) && FirstFit(t.table, t.free, size) == Some(s.unused[1])
  {
    hide IdsOk, Without;
    CarveKnown(s, i, at, end, kind, flags);
    CarveFacts(s, i);
    PoolHeads(s);
    CarveHead(s, i, at, end, kind, flags);
  }

  /** The upper remainder heads the free list. */
  lemma CarveHead(s: Space, i: nat, at: nat, end: nat, kind: Kind, flags: nat)
    requires IdsOk(s) && |s.unused| >= 2 && i < |s.sorted|
    requires s.table[s.sorted[i]].kind == Free && at <= end < s.table[s.sorted[i]].ceiling
    ensures var t := Carve(s, i, at, end, kind, flags); var d := s.unused[1];
            && t.free != [] && t.free[0] == d && d in t.table
            && t.table[d].base == end && t.table[d].ceiling == s.table[s.sorted[i]].ceiling && t.table[d].kind == Free
  {
    CarveFacts(s, i);
    PoolHeads(s);
  }

  lemma PickedFits(s: Space, addr: nat, size: nat, fixed: bool)
    requires Listed(s) && FindsOwn(s, addr, size, fixed) && addr < WORD && size < WORD
    requires Picked(s, addr, size, fixed).Some?
    ensures var id := Picked(s, addr, size, fixed).value;
            && id in s.sorted && id in s.table && s.table[id].kind == Free
            && var at := if fixed then addr else AlignUp(s.table[id].base);
               && s.table[id].base <= at < s.table[id].ceiling && (at + size) % WORD <= s.table[id].ceiling
               && (at < (at + size) % WORD <==> 0 < size && at + size < WORD)
  {
    hide Tiles, IdsOk;
    ScanIn(s.table, s.free, addr);
    var id := Picked(s, addr, size, fixed).value;
    MemberOk(s, Place(s.sorted, id));
  }

  lemma ChosenOk(s: Space, i: nat, at: nat, end: nat)
    requires Valid(s) && i < |s.sorted| && s.table[s.sorted[i]].kind == Free && s.table[s.sorted[i]].base <= at
             && end <= s.table[s.sorted[i]].ceiling
    ensures IdsOk(s) && s.table[s.sorted[i]].flags == 0
    ensures forall a :: at <= a < end ==> FreeAt(s, a)
  {
    hide Tiles, Meaning;
    MemberOk(s, i);
    forall a | at <= a < end
      ensures FreeAt(s, a)
    {
      FreeAtMember(s, i, a);
    }
  }

  lemma HintIff(s: Space, hint: Option<Id>)
    requires Valid(s)
    ensures Valid(s.(hint := hint)) <==> (hint.Some? ==> hint.value in s.sorted)
  {
    hide Tiles;
  }

  lemma CutKnown(s: Space, i: nat, at: nat, d: Id, low: bool, phys: nat)
    requires i < |s.sorted| && s.sorted[i] in s.table && d in s.table && Known(s.table, s.free)
    ensures var t := Cut(s, i, at, d, low, phys); Known(t.table, t.free)
  {
  }

  lemma SplitListed(s: Space, i: nat, at: nat, phys: nat)
    requires Valid(s) && i < |s.sorted| && s.unused != []
    ensures s.unused[0] in s.table
    ensures Known(s.table, s.free) ==> var t := Cut(s, i, at, s.unused[0], false, phys); Known(t.table, t.free)
  {
    hide Tiles;
    if Known(s.table, s.free) {
      CutKnown(s, i, at, s.unused[0], false, phys);
    }
  }

  lemma {:induction false} FreeFromKnown(s: Space, i: nat, addr: nat, end: nat)
    requires IdsOk(s) && i <= |s.sorted| && Known(s.table, s.free)
    ensures var t := FreeFrom(s, i, addr, end); Known(t.table, t.free)
    decreases |s.sorted| - i
  {
    if i < |s.sorted| && s.table[s.sorted[i]].base < end {
      if s.table[s.sorted[i]].base >= addr && s.table[s.sorted[i]].ceiling <= end {
        GiveBackKnown(s, i);
        FreeFromKnown(GiveBack(s, i).0, GiveBack(s, i).1, addr, end);
      } else {
        FreeFromKnown(s, i + 1, addr, end);
      }
    }
  }

  lemma GiveBackKnown(s: Space, i: nat)
    requires IdsOk(s) && i < |s.sorted| && Known(s.table, s.free)
    ensures var t := GiveBack(s, i).0; Known(t.table, t.free)
  {
  }

  lemma SameAgrees(s: Space)
    ensures forall h :: FreeAgrees(s.(hint := h)) == FreeAgrees(s)
  {
  }

  lemma AgreesScan(s: Space, a: nat)
    requires Valid(s) && FreeAgrees(s)
    ensures Listed(s)
    ensures var r := FoundFree(s, a); var o := Scan(s.table, s.sorted, a);
            (r.Some? ==> r == o) && (r.None? && o.Some? ==> s.table[o.value].kind != Free)
  {
    hide Tiles, IdsOk, FreeAgrees;
    FreeIsKnown(s);
    var r := FoundFree(s, a);
    ScanIn(s.table, s.free, a);
    ScanIn(s.table, s.sorted, a);
    ScanMisses(s.table, s.free, a);
    if r.Some? {
      ScanFinds(s.table, s.sorted, USER_BASE, USER_CEILING, r.value, a);
    }
  }

  /** CarveKeeps for the space as it was before the hint changed, whatever order the pool ends up in. */
  lemma CreateKeeps(s: Space, s1: Space, i: nat, at: nat, end: nat, kind: Kind, flags: nat, unused: seq<Id>)
    requires Valid(s) && Valid(s1) && s1 == s.(hint := s1.hint)
    requires |s.unused| >= 2 && i < |s.sorted| && (kind == Alloc || kind == Phys)
    requires var r := s.table[s.sorted[i]]; r.kind == Free && r.base <= at < r.ceiling && end <= r.ceiling
    requires IdsOk(s1) && multiset(unused) == multiset(Carve(s1, i, at, end, kind, flags).unused)
    ensures var u := Carve(s1, i, at, end, kind, flags).(unused := unused); var id := s.sorted[i];
            && Conserved(s, u) && IdsOk(u) && (FreeAgrees(s) ==> FreeAgrees(u))
            && id in u.table && u.table[id] == Region(at, end, kind, flags, s.table[id].phys)
            && (Valid(u) <==> at < end)
            && (at < end ==> forall a :: if at <= a < end
                                         then FreeAt(s, a) && Meaning(u, a) == Some(AttrOf(u.table[id], a))
                                         else Meaning(u, a) == Meaning(s, a))
  {
    hide Tiles, FreeAgrees, Conserved, Meaning, Carve;
    HintOnly2(s, s1);
    CarveKeeps(s1, i, at, end, kind, flags);
    var t := Carve(s1, i, at, end, kind, flags);
    Reorder(s1, t, unused);
    ConservedTwice(s, s1, t.(unused := unused));
    ChosenOk(s, i, at, end);
  }

  lemma CarveFacts(s: Space, i: nat)
    requires IdsOk(s) && |s.unused| >= 2 && i < |s.sorted|
    ensures var id, b, e := s.sorted[i], s.unused[0], s.unused[1];
            id in s.table && b in s.table && e in s.table && id != b && id != e
  {
    Around(s.sorted, s.unused, i);
  }

  lemma CutIgnoresPool(s: Space, i: nat, at: nat, d: Id, unused: seq<Id>)
    requires i < |s.sorted| && s.sorted[i] in s.table && d in s.table
    ensures var t, u := Cut(s, i, at, d, true, s.table[d].phys),
            Cut(s.(unused := unused), i, at, d, true, s.table[d].phys);
            t.table == u.table && t.sorted == u.sorted && t.free == u.free && t.hint == s.hint
  {
  }

  /** The carved space, from the state in which only the pool has been treated differently so far. */
  lemma CarveIs(s: Space, i: nat, at: nat, end: nat, kind: Kind, flags: nat, mid: Space)
    requires IdsOk(s) && |s.unused| >= 2 && i < |s.sorted|
    requires mid == CutLow(s, i, at).0.(unused := mid.unused)
    ensures s.unused[1] in mid.table
    ensures var (low, j) := CutLow(s, i, at); var t := Carve(s, i, at, end, kind, flags);
            var id, b, e := s.sorted[i], s.unused[0], s.unused[1];
            var high := CutHigh(mid, j, end, e);
            && t.table == Retype(high, j, kind, flags).table && t.sorted == high.sorted
            && t.free == Without(high.free, id) && t.hint == s.hint
            && multiset(t.unused) == multiset((if end < low.table[id].ceiling then [] else [e])
                                              + ((if s.table[id].base < at then [] else [b]) + s.unused[2..]))
  {
    hide Without, CutTable;
    PoolHeads(s);
    PoolAfter(s);
    CarveFacts(s, i);
  }

  /** What is left of the pool when one or both of its first two descriptors are used. */
  lemma PoolAfter(s: Space)
    requires IdsOk(s) && |s.unused| >= 2
    ensures var b, e, rest := s.unused[0], s.unused[1], s.unused[2..];
            && Without(s.unused, b) == [e] + rest
            && Without(s.unused, e) == [b] + rest
            && Without([e] + rest, e) == rest
            && s.unused == [b, e] + rest
  {
    var b, e, rest := s.unused[0], s.unused[1], s.unused[2..];
    PoolHeads(s);
    assert s.unused == [b, e] + rest && s.unused[1..] == [e] + rest;
    assert multiset(s.unused) == multiset{b, e} + multiset(rest);
    assert (multiset(s.sorted) + multiset(s.unused))[b] <= 1 && (multiset(s.sorted) + multiset(s.unused))[e] <= 1;
    assert b !in rest && e !in rest;
  }

  lemma SplitKeeps(s: Space, i: nat, at: nat, phys: nat)
    requires Valid(s) && i < |s.sorted| && s.unused != []
    requires var r := s.table[s.sorted[i]];
             r.base < at < r.ceiling && (r.kind == Phys ==> phys == r.phys + (at - r.base))
    ensures var t := Cut(s, i, at, s.unused[0], false, phys);
            && Valid(t) && Conserved(s, t)
            && (forall a :: Meaning(t, a) == Meaning(s, a))
            && (FreeAgrees(s) ==> FreeAgrees(t))
            && (forall b :: Edge(t, b) <==> Edge(s, b) || b == at)
            && |t.unused| == |s.unused| - 1
  {
    hide Tiles, FreeAgrees, Conserved, Meaning, Edge, Without;
    CutKeeps(s, i, at, s.unused[0], false, phys);
    CutEdges(s, i, at, s.unused[0], phys);
    PoolHead(s);
  }

  lemma HintOnly2(s: Space, t: Space)
    requires Valid(s) && t == s.(hint := t.hint) && Valid(t)
    ensures Conserved(s, t) && FreeAgrees(t) == FreeAgrees(s)
    ensures (forall a :: Meaning(t, a) == Meaning(s, a)) && (forall b :: Edge(t, b) == Edge(s, b))
  {
    hide Tiles, Edge;
    HintOnly(s, t.hint);
  }

  /** The hint has no part in what the lists mean. */
  lemma HintOnly(s: Space, hint: Option<Id>)
    requires Valid(s) && (hint.Some? ==> hint.value in s.sorted)
    ensures var t := s.(hint := hint);
            && Valid(t) && Conserved(s, t) && FreeAgrees(t) == FreeAgrees(s)
            && (forall a :: Meaning(t, a) == Meaning(s, a)) && (forall b :: Edge(t, b) == Edge(s, b))
  {
    hide Tiles;
  }

  /** A region begins at this address. */
  ghost predicate Edge(s: Space, at: nat) {
    exists id :: id in s.sorted && id in s.table && s.table[id].base == at
  }

  lemma ScanHit(s: Space, at: nat, id: Id)
    requires Valid(s) && Scan(s.table, s.sorted, at) == Some(id)
    ensures id in s.sorted && id in s.table && Contains(s.table[id], at)
    ensures s.table[id].base == at ==> Edge(s, at)
  {
    hide Tiles, IdsOk;
  }

  lemma OnlyEdge(s: Space, i: nat, at: nat)
    requires Valid(s) && i < |s.sorted| && s.table[s.sorted[i]].base < at < s.table[s.sorted[i]].ceiling
    ensures !Edge(s, at)
  {
    hide IdsOk;
    if Edge(s, at) {
      var id :| id in s.sorted && id in s.table && s.table[id].base == at;
      var rs := Regs(s.table, s.sorted);
      var j := Place(s.sorted, id);
      TilesOrder(rs, USER_BASE, USER_CEILING);
      assert rs[i] in rs && rs[j] in rs && Contains(rs[j], at);
      AttrOfMember(rs, USER_BASE, USER_CEILING, rs[i], at);
    }
  }

  lemma CutEdges(s: Space, i: nat, at: nat, d: Id, phys: nat)
    requires IdsOk(s) && i < |s.sorted| && d in s.unused
    ensures var t := Cut(s, i, at, d, false, phys); forall b :: Edge(t, b) <==> Edge(s, b) || b == at
  {
    hide Without;
    CutIds(s, i, at, d, false, phys);
    var t := Cut(s, i, at, d, false, phys);
    Around(s.sorted, s.unused, i);
    assert t.sorted[i + 1] == d;
    forall b
      ensures Edge(t, b) <==> Edge(s, b) || b == at
    {
      if Edge(s, b) {
        var id :| id in s.sorted && id in s.table && s.table[id].base == b;
        assert multiset(t.sorted)[id] >= multiset(s.sorted)[id];
        assert id in t.sorted && id in t.table;
      }
      if Edge(t, b) {
        var id :| id in t.sorted && id in t.table && t.table[id].base == b;
        assert (multiset(s.sorted) + multiset{d})[id] >= 1;
        assert id == d || id in s.sorted;
      }
    }
  }

  lemma PoolHead(s: Space)
    requires IdsOk(s) && s.unused != []
    ensures Without(s.unused, s.unused[0]) == s.unused[1..]
  {
    var u := s.unused;
    assert u == [u[0]] + u[1..];
    assert (multiset(s.sorted) + multiset(u))[u[0]] <= 1;
    assert multiset(u) == multiset{u[0]} + multiset(u[1..]);
    assert u[0] !in u[1..];
  }

  // ---------------------------------------------------------------------
  // Where the promises end
  // ---------------------------------------------------------------------

  /** One page in use at the bottom, the rest free. */
  function Small(): Space {
    var p := USER_BASE + PAGE_SIZE;
    Space(map[Id(0) := Region(USER_BASE, p, Alloc, 7, 0), Id(1) := Region(p, USER_CEILING, Free, 0, 0)], [],
          [Id(0), Id(1)], [Id(1)], None)
  }

  lemma SmallOk()
    ensures Valid(Small()) && FreeAgrees(Small())
  {
    var s := Small();
    var rs := Regs(s.table, s.sorted);
    assert rs[1..] == [s.table[Id(1)]] && rs[1..][1..] == [];
    assert multiset(s.sorted) == multiset{Id(0), Id(1)} && multiset(s.free) == multiset{Id(1)};
  }

  /** Three descriptors, none in use. */
  function ThreeUnused(): Space {
    var none := Region(0, 0, Unallocated, 0, 0);
    Space(map[Id(0) := none, Id(1) := none, Id(2) := none], [Id(0), Id(1), Id(2)], [], [], None)
  }

  /** A request of size zero leaves an empty region on the sorted list. */
  lemma EmptyRegionBreaksTiling()
    ensures var s := Initial(ThreeUnused());
            Valid(s) && FreeAgrees(s) && |s.unused| == 2 && s.sorted == [Id(0)]
            && !Valid(Carve(s, 0, USER_BASE, USER_BASE, Alloc, 0))
  {
    hide Tiles, Meaning, Carve, FreeAgrees, Conserved;
    var s := ThreeUnused();
    assert multiset(s.unused) == multiset{Id(0), Id(1), Id(2)};
    InitKeeps(s);
    assert Initial(s).unused == [Id(1), Id(2)];
    CarveKeeps(Initial(s), 0, USER_BASE, USER_BASE, Alloc, 0);
  }

  /** Freeing the page below free space leaves the swallowed free region on the free list. */
  lemma FreeLeavesStaleEntry()
    ensures var s := Small(); var t := FreeFrom(s, 0, USER_BASE, USER_BASE + PAGE_SIZE);
            IdsOk(s) && Valid(t) && !FreeAgrees(t)
  {
    hide Tiles, FreeAgrees, Stale, FreeFrom, Clean;
    SmallOk();
    var s := Small();
    FreeFromKeeps(s, 0, USER_BASE, USER_BASE + PAGE_SIZE);
    SmallNotClean();
  }

  lemma SmallNotClean()
    ensures Valid(Small()) && !Clean(Small(), 0, USER_BASE + PAGE_SIZE)
  {
    hide Tiles, FreeAgrees, Meaning;
    SmallOk();
    FreeAtMember(Small(), 1, USER_BASE + PAGE_SIZE);
  }
}
