/**
  A run of the region calls after which a create in one address space comes upon a region of
  another (vm/memregion.c:95-375): a release swallows a free region and leaves it on the free
  list, and its descriptor goes on to another address space.
 */
module ForeignRegion {
  import opened Lists
  import opened MemRegion
  import opened MemRegionCode
  import opened RegionRuns

  const NONE: Region := Region(0, 0, Unallocated, 0, 0)
  const EMPTY: RegionLists := RegionLists([], [], None)

  function Whole(kind: Kind, flags: nat): Region {
    Region(USER_BASE, USER_CEILING, kind, flags, 0)
  }

  function FirstPage(): Region {
    Region(USER_BASE, USER_BASE + PAGE_SIZE, Alloc, 7, 0)
  }

  /** Everything but the first page. */
  function Rest(kind: Kind): Region {
    Region(USER_BASE + PAGE_SIZE, USER_CEILING, kind, 0, 0)
  }

  /** Five descriptors, of which two are never used. */
  function Table(r0: Region, r1: Region, r2: Region): map<Id, Region> {
    map[Id(0) := r0, Id(1) := r1, Id(2) := r2, Id(3) := NONE, Id(4) := NONE]
  }

  function Pool(ids: seq<Id>): seq<Id> {
    ids + [Id(3), Id(4)]
  }

  /** Three address spaces after boot. */
  function Booted(): System {
    System(Table(NONE, NONE, NONE), Pool([Id(0), Id(1), Id(2)]), [EMPTY, EMPTY, EMPTY])
  }

  /** The first is initialised, */
  function OneInit(): System {
    System(Table(Whole(Free, 0), NONE, NONE), Pool([Id(1), Id(2)]),
           [RegionLists([Id(0)], [Id(0)], None), EMPTY, EMPTY])
  }

  /** a page of it is created, */
  function PageMade(): System {
    System(Table(FirstPage(), NONE, Rest(Free)), Pool([Id(1)]),
           [RegionLists([Id(0), Id(2)], [Id(2)], None), EMPTY, EMPTY])
  }

  /** and released again, which leaves descriptor 2 on the free list and in the pool; */
  function PageFreed(): System {
    System(Table(Whole(Free, 0), NONE, Rest(Unallocated)), Pool([Id(2), Id(1)]),
           [RegionLists([Id(0)], [Id(0), Id(2)], None), EMPTY, EMPTY])
  }

  /** all of the first space is created; */
  function AllMade(): System {
    System(Table(Whole(Alloc, 7), NONE, Rest(Unallocated)), Pool([Id(1), Id(2)]),
           [RegionLists([Id(0)], [Id(2)], None), EMPTY, EMPTY])
  }

  /** and the other two are initialised. */
  function TwoInit(): System {
    System(Table(Whole(Alloc, 7), Whole(Free, 0), Rest(Unallocated)), Pool([Id(2)]),
           [RegionLists([Id(0)], [Id(2)], None), RegionLists([Id(1)], [Id(1)], None), EMPTY])
  }

  function ThreeInit(): System {
    System(Table(Whole(Alloc, 7), Whole(Free, 0), Whole(Free, 0)), Pool([]),
           [RegionLists([Id(0)], [Id(2)], None), RegionLists([Id(1)], [Id(1)], None),
            RegionLists([Id(2)], [Id(2)], None)])
  }

  function Trace(): seq<System> {
    [Booted(), OneInit(), PageMade(), PageFreed(), AllMade(), TwoInit(), ThreeInit()]
  }

  function Calls(): seq<Call> {
    [Init(0, Ok),
     Create(0, 0, PAGE_SIZE, false, 7, Alloc, Some(Id(0)), FirstPage()),
     Release(0, USER_BASE, PAGE_SIZE, Ok),
     Create(0, 0, USER_CEILING - USER_BASE, false, 7, Alloc, Some(Id(0)), Whole(Alloc, 7)),
     Init(1, Ok),
     Init(2, Ok)]
  }

  /** An initialised space has the region that init_memregions makes. */
  lemma InitStep(y: System, k: nat, z: System)
    requires SystemOk(y) && k < |y.spaces| && y.spaces[k] == EMPTY && y.unused != []
    requires var d := y.unused[0];
             z == System(y.table[d := Whole(Free, 0)], y.unused[1..], y.spaces[k := RegionLists([d], [d], None)])
    ensures Next(y, Init(k, Ok), z)
  {
    hide SystemOk, Valid, IdsOk, FreeAgrees, Conserved, FreeAt;
    assert [] + [y.unused[0]] == [y.unused[0]];
    var s := SpaceOf(y, k);
    SpaceIds(y, k);
    InitKeeps(s);
    assert SpaceOf(z, k) == Initial(s);
  }

  lemma SpaceIds(y: System, k: nat)
    requires SystemOk(y) && k < |y.spaces|
    ensures IdsOk(SpaceOf(y, k))
  {
    hide Tiles;
    var s := SpaceOf(y, k);
    assert SpaceOk(s);
    if s.sorted == [] {
      forall id
        ensures (multiset(s.sorted) + multiset(s.unused))[id] <= 1 && (id in s.unused ==> id in s.table)
      {
        assert multiset(y.table.Keys)[id] <= 1;
        assert multiset(y.unused)[id] <= multiset(y.table.Keys)[id];
      }
    }
  }

  lemma BootedOk()
    ensures SystemOk(Booted()) && AllAgree(Booted())
  {
    hide SystemOk;
    var y := Booted();
    assert y.unused == [Id(0), Id(1), Id(2), Id(3), Id(4)];
    assert y.table.Keys == {Id(0), Id(1), Id(2), Id(3), Id(4)};
    assert multiset(y.unused) == multiset{Id(0), Id(1), Id(2), Id(3), Id(4)};
    StartOk(y);
  }

  lemma FirstInit()
    requires SystemOk(Booted())
    ensures Next(Booted(), Init(0, Ok), OneInit())
  {
    hide SystemOk, Next;
    assert Booted().unused == [Id(0)] + OneInit().unused;
    InitStep(Booted(), 0, OneInit());
  }

  lemma SecondInit()
    requires SystemOk(AllMade())
    ensures Next(AllMade(), Init(1, Ok), TwoInit())
  {
    hide SystemOk, Next;
    assert AllMade().unused == [Id(1)] + TwoInit().unused;
    InitStep(AllMade(), 1, TwoInit());
  }

  lemma ThirdInit()
    requires SystemOk(TwoInit())
    ensures Next(TwoInit(), Init(2, Ok), ThreeInit())
  {
    hide SystemOk, Next;
    assert TwoInit().unused == [Id(2)] + ThreeInit().unused;
    InitStep(TwoInit(), 2, ThreeInit());
  }

  lemma SystemValid(y: System, k: nat)
    requires SystemOk(y) && k < |y.spaces| && y.spaces[k].sorted != []
    ensures Listed(SpaceOf(y, k))
  {
    hide Valid;
    assert SpaceOk(SpaceOf(y, k));
  }

  /** memregion_create from the first region of the first space: what `CarveRegion` leaves. */
  lemma CreateStep(y: System, size: nat, z: System)
    requires SystemOk(y) && |y.spaces| == 3 && |y.unused| >= 2
    requires var l := y.spaces[0];
             && l.sorted != [] && l.free != [] && l.free[0] == l.sorted[0] && l.hint.None?
             && l.sorted[0] in y.table && y.table[l.sorted[0]] == Whole(Free, 0)
    requires 0 < size <= USER_CEILING - USER_BASE
    requires IdsOk(SpaceOf(y, 0))
    requires var t := Carve(SpaceOf(y, 0), 0, USER_BASE, USER_BASE + size, Alloc, 7);
             z == Put(y, 0, t.(unused := z.unused)) && multiset(z.unused) == multiset(t.unused)
    ensures var id := y.spaces[0].sorted[0];
            Next(y, Create(0, 0, size, false, 7, Alloc, Some(id), Region(USER_BASE, USER_BASE + size, Alloc, 7, 0)), z)
  {
    hide Tiles, FreeAgrees, Conserved, Meaning, Carve, IdsOk, SystemOk;
    var s, t := SpaceOf(y, 0), SpaceOf(z, 0);
    SystemValid(y, 0);
    assert AlignUp(USER_BASE) == USER_BASE;
    assert FirstFit(s.table, s.free, size) == Some(s.sorted[0]);
    CreateKeeps(s, s, 0, USER_BASE, USER_BASE + size, Alloc, 7, z.unused);
    CarveKnown(s, 0, USER_BASE, USER_BASE + size, Alloc, 7);
  }

  lemma PoolWithout2()
    ensures |OneInit().unused| >= 2 && OneInit().unused[1] == Id(2)
    ensures Without(OneInit().unused, Id(2)) == PageMade().unused
  {
    var u := OneInit().unused;
    assert u == [Id(1), Id(2), Id(3), Id(4)] && u[1..] == [Id(2), Id(3), Id(4)];
    assert u[1..][1..] == [Id(3), Id(4)] && u[1..][1..][1..] == [Id(4)] && u[1..][1..][1..][1..] == [];
  }

  /** The rest of the space cut off for descriptor 2. */
  lemma PageCut(s: Space)
    requires s == SpaceOf(OneInit(), 0)
    ensures var first := FirstPage().(kind := Free, flags := 0);
            CutHigh(s, 0, USER_BASE + PAGE_SIZE, Id(2)) ==
            Space(Table(first, NONE, Rest(Free)), PageMade().unused, [Id(0), Id(2)], [Id(2), Id(0)], None)
  {
    hide Pool, Without;
    PoolWithout2();
    var t := CutHigh(s, 0, USER_BASE + PAGE_SIZE, Id(2));
    assert t.free == [Id(2), Id(0)] && t.sorted == [Id(0), Id(2)];
    assert t.table == Table(FirstPage().(kind := Free, flags := 0), NONE, Rest(Free));
  }

  lemma PageTaken(t: Space)
    requires t == Space(Table(FirstPage().(kind := Free, flags := 0), NONE, Rest(Free)), PageMade().unused,
                        [Id(0), Id(2)], [Id(2), Id(0)], None)
    ensures Retype(t, 0, Alloc, 7).(free := Without(t.free, Id(0))) == SpaceOf(PageMade(), 0)
  {
    hide Pool;
    assert t.free[1..] == [Id(0)] && t.free[1..][1..] == [];
    assert Retype(t, 0, Alloc, 7).table == PageMade().table;
  }

  lemma PageCarved(s: Space)
    requires s == SpaceOf(OneInit(), 0) && IdsOk(s)
    ensures |s.unused| >= 2
    ensures Carve(s, 0, USER_BASE, USER_BASE + PAGE_SIZE, Alloc, 7) == SpaceOf(PageMade(), 0)
  {
    hide IdsOk, Pool, CutHigh, Cut, Without, Retype, Known, Rest, FirstPage;
    PoolWithout2();
    PageCut(s);
    PageTaken(CutHigh(s, 0, USER_BASE + PAGE_SIZE, Id(2)));
  }

  lemma PageCreate()
    requires SystemOk(OneInit())
    ensures Next(OneInit(), Calls()[1], PageMade())
  {
    hide SystemOk, Next, IdsOk, Carve;
    SpaceIds(OneInit(), 0);
    PageCarved(SpaceOf(OneInit(), 0));
    CreateStep(OneInit(), PAGE_SIZE, PageMade());
  }

  lemma AllCarved(s: Space)
    requires s == SpaceOf(PageFreed(), 0) && IdsOk(s)
    ensures |s.unused| >= 2
    ensures var t := Carve(s, 0, USER_BASE, USER_CEILING, Alloc, 7);
            && multiset(t.unused) == multiset(AllMade().unused)
            && t.(unused := AllMade().unused) == SpaceOf(AllMade(), 0)
  {
    hide IdsOk;
    assert s.unused == [Id(2), Id(1), Id(3), Id(4)] && AllMade().unused == [Id(1), Id(2), Id(3), Id(4)];
    assert Without(s.free, Id(0)) == [Id(2)];
    assert Retype(s, 0, Alloc, 7).table == AllMade().table;
  }

  lemma AllCreate()
    requires SystemOk(PageFreed())
    ensures Next(PageFreed(), Calls()[3], AllMade())
  {
    hide SystemOk, Next, IdsOk, Carve;
    SpaceIds(PageFreed(), 0);
    AllCarved(SpaceOf(PageFreed(), 0));
    CreateStep(PageFreed(), USER_CEILING - USER_BASE, AllMade());
  }

  /** memregion_free of a range whose ends are edges, from the first region on: what `FreeLoop` leaves. */
  lemma ReleaseStep(y: System, addr: nat, size: nat, z: System)
    requires SystemOk(y) && |y.spaces| == 3 && y.spaces[0].sorted != [] && y.spaces[0].hint.None?
    requires y.spaces[0].sorted[0] in y.table && Contains(y.table[y.spaces[0].sorted[0]], addr)
    requires USER_BASE <= addr && addr + size < USER_CEILING
    requires Edge(SpaceOf(y, 0), addr) && Edge(SpaceOf(y, 0), addr + size) && IdsOk(SpaceOf(y, 0))
    requires z == Put(y, 0, FreeFrom(SpaceOf(y, 0), 0, addr, addr + size))
    ensures Next(y, Release(0, addr, size, Ok), z)
  {
    hide SystemOk, Tiles, Conserved, FreeAgrees, Meaning, RangeClean, Clean, Edge, FreeFrom, IdsOk;
    SystemValid(y, 0);
    var s := SpaceOf(y, 0);
    FreeReady(s, 0, addr, addr + size);
    FreeFromKeeps(s, 0, addr, addr + size);
    FreeFromKnown(s, 0, addr, addr + size);
    RangeCleanIs(s, s, 0, addr, addr + size);
    assert SpaceOf(z, 0) == FreeFrom(s, 0, addr, addr + size);
  }

  lemma PageRelease()
    requires SystemOk(PageMade())
    ensures Next(PageMade(), Calls()[2], PageFreed())
  {
    hide SystemOk, Next, Edge, IdsOk, FreeFrom;
    SpaceIds(PageMade(), 0);
    PageEdges(SpaceOf(PageMade(), 0));
    ReleaseIs(SpaceOf(PageMade(), 0));
    ReleaseStep(PageMade(), USER_BASE, PAGE_SIZE, PageFreed());
  }

  lemma PageEdges(s: Space)
    requires s == SpaceOf(PageMade(), 0)
    ensures Edge(s, USER_BASE) && Edge(s, USER_BASE + PAGE_SIZE)
  {
    assert Id(0) in s.sorted && s.table[Id(0)].base == USER_BASE;
    assert Id(2) in s.sorted && s.table[Id(2)].base == USER_BASE + PAGE_SIZE;
  }

  lemma ReleaseIs(s: Space)
    requires s == SpaceOf(PageMade(), 0) && IdsOk(s)
    ensures FreeFrom(s, 0, USER_BASE, USER_BASE + PAGE_SIZE) == SpaceOf(PageFreed(), 0)
  {
    hide IdsOk;
    var (t, j) := GiveBack(s, 0);
    assert j == 1 && t == s.(table := Table(Region(USER_BASE, USER_BASE + PAGE_SIZE, Free, 0, 0), NONE, Rest(Free)),
                             free := [Id(0), Id(2)]);
    assert FreeFrom(t, 1, USER_BASE, USER_BASE + PAGE_SIZE) == Merge(t, 1);
    assert Merge(t, 1).table == PageFreed().table;
    assert Merge(t, 1).unused == PageFreed().unused;
  }

  /**
    These calls lead to a state in which a request of one page to the first space is met with
    the one region of the third.
   */
  lemma FindsForeignRegion()
    ensures IsRun(Trace(), Calls()) && SystemOk(Trace()[0]) && AllAgree(Trace()[0])
    ensures var y := Last(Trace());
            && SystemOk(y)
            && var s := SpaceOf(y, 0);
               && Listed(s) && |s.unused| == 2 && !FindsOwn(s, 0, PAGE_SIZE, false)
               && Picked(s, 0, PAGE_SIZE, false) == Some(Id(2)) && y.spaces[2].sorted == [Id(2)]
  {
    hide SystemOk, Next, AllAgree, Valid, Pool;
    BootedOk();
    FirstInit();
    StepKeeps(Booted(), Calls()[0], OneInit());
    PageCreate();
    StepKeeps(OneInit(), Calls()[1], PageMade());
    PageRelease();
    StepKeeps(PageMade(), Calls()[2], PageFreed());
    AllCreate();
    StepKeeps(PageFreed(), Calls()[3], AllMade());
    SecondInit();
    StepKeeps(AllMade(), Calls()[4], TwoInit());
    ThirdInit();
    StepKeeps(TwoInit(), Calls()[5], ThreeInit());
    RunIs();
    LastPick();
  }

  lemma RunIs()
    requires Next(Booted(), Calls()[0], OneInit()) && Next(OneInit(), Calls()[1], PageMade())
    requires Next(PageMade(), Calls()[2], PageFreed()) && Next(PageFreed(), Calls()[3], AllMade())
    requires Next(AllMade(), Calls()[4], TwoInit()) && Next(TwoInit(), Calls()[5], ThreeInit())
    ensures IsRun(Trace(), Calls()) && Last(Trace()) == ThreeInit()
  {
    hide Next, Booted, OneInit, PageMade, PageFreed, AllMade, TwoInit, ThreeInit;
  }

  lemma LastPick()
    requires SystemOk(ThreeInit())
    ensures var s := SpaceOf(ThreeInit(), 0);
            && Listed(s) && |s.unused| == 2 && !FindsOwn(s, 0, PAGE_SIZE, false)
            && Picked(s, 0, PAGE_SIZE, false) == Some(Id(2))
  {
    hide SystemOk, Valid;
    SystemValid(ThreeInit(), 0);
    assert AlignUp(USER_BASE) == USER_BASE;
  }
}
