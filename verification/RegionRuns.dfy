/**
  Every run of the region calls over all address spaces (vm/memregion.c).

  The state is the descriptor table, the pool and the lists of each address space. A step
  is one call on one of them, with its outcome; what a call may do is what its code is
  proved to do in `MemRegionCode`.
 */
module RegionRuns {
  import opened Lists
  import opened MemRegion
  import opened MemRegionCode

  datatype Call =
    | Split(k: nat, at: nat, status: Status)
    | Create(k: nat, addr: nat, size: nat, fixed: bool, flags: nat, kind: Kind, id: Option<Id>, made: Region)
    | Release(k: nat, addr: nat, size: nat, status: Status)
    | ReleaseAll(k: nat)
    | Init(k: nat, status: Status)
    | Fork(parent: nat, k: nat, status: Status)

  /** Only address space `k`, the table and the pool differ. */
  ghost predicate OnlyAt(y: System, z: System, k: nat) {
    && k < |y.spaces| == |z.spaces|
    && z == Put(y, k, SpaceOf(z, k))
  }

  /** A request that is not empty where it was placed. */
  predicate Proper(c: Call) {
    c.Create? && c.id.Some? ==> c.made.base + c.size < WORD && c.size > 0
  }

  /**
    What is demanded of a caller: regions are created in an initialised space, which finds
    one of its own to carve up.
   */
  ghost predicate Allowed(y: System, c: Call) {
    && c.k < |y.spaces|
    && var s := SpaceOf(y, c.k);
       match c
       case Split(_, _, _) => Valid(s)
       case Create(_, addr, size, fixed, _, kind, _, _) =>
         && Listed(s) && FindsOwn(s, addr, size, fixed)
         && addr < WORD && size < WORD && (kind == Alloc || kind == Phys) && Proper(c)
       case Release(_, addr, size, _) => Valid(s) && addr < WORD && size < WORD
       case ReleaseAll(_) => true
       case Init(_, _) => s.sorted == []
       case Fork(p, k, _) => p < |y.spaces| && p != k && Valid(SpaceOf(y, p)) && s.sorted == []
  }

  ghost predicate Next(y: System, c: Call, z: System) {
    && Allowed(y, c)
    && OnlyAt(y, z, c.k)
    && var s, t := SpaceOf(y, c.k), SpaceOf(z, c.k);
       match c
       case Split(_, at, r) => Splits(s, t, at, r)
       case Create(_, addr, size, fixed, flags, kind, id, made) =>
         && Creates(s, t, addr, size, fixed, flags, kind, id)
         && (id.Some? ==> made == t.table[id.value])
       case Release(_, addr, size, r) => Frees(s, t, addr, size, r)
       case ReleaseAll(_) => FreesAll(s, t)
       case Init(_, r) => Inits(s, t, r)
       case Fork(p, _, r) => Forks(s, t, y.spaces[p].sorted, r)
  }

  /** The attribute of an address in one address space. */
  ghost function At(y: System, k: nat, a: int): Option<Attr> {
    if k < |y.spaces| && Known(y.table, y.spaces[k].sorted) then Meaning(SpaceOf(y, k), a) else None
  }

  // ---------------------------------------------------------------------
  // One call
  // ---------------------------------------------------------------------

  /** A call leaves its own address space a tiling, or torn down, and only moves descriptors. */
  lemma CallKeeps(y: System, c: Call, z: System)
    requires SystemOk(y) && Next(y, c, z)
    ensures SpaceOk(SpaceOf(z, c.k)) && Conserved(SpaceOf(y, c.k), SpaceOf(z, c.k))
  {
    hide SystemOk, Tiles, Meaning, FreeAgrees, FreeAt, Edge, RangeClean, FreeCanWork, Found, Picked, Conserved;
    var s, t := SpaceOf(y, c.k), SpaceOf(z, c.k);
    SystemListed(y, c.k);
    if c.Create? && c.id.None? {
      HintConserves(s, t);
    }
    if (c.Init? || c.Fork?) && c.status.Ok? {
      assert Valid(t) && FreeAgrees(t);
      FreeIsKnown(t);
    }
  }

  lemma SystemListed(y: System, k: nat)
    requires SystemOk(y) && k < |y.spaces|
    ensures Known(y.table, y.spaces[k].free)
  {
    hide Valid;
    assert SpaceOk(SpaceOf(y, k));
  }

  lemma HintConserves(s: Space, t: Space)
    requires t == s.(hint := t.hint)
    ensures Conserved(s, t)
  {
  }

  lemma StepKeeps(y: System, c: Call, z: System)
    requires SystemOk(y) && Next(y, c, z)
    ensures SystemOk(z) && z.table.Keys == y.table.Keys && |z.spaces| == |y.spaces|
  {
    hide SystemOk, SpaceOk, Conserved, Valid;
    CallKeeps(y, c, z);
    SystemKeeps(y, c.k, SpaceOf(z, c.k));
  }

  lemma NextOnly(y: System, c: Call, z: System)
    requires Next(y, c, z)
    ensures OnlyAt(y, z, c.k)
  {
  }

  /** Another address space has the same regions after a call. */
  lemma OtherRegions(y: System, j: nat, k: nat, t: Space)
    requires SystemOk(y) && j < |y.spaces| && k < |y.spaces| && j != k && Conserved(SpaceOf(y, k), t)
    ensures var ids := y.spaces[j].sorted;
            Known(y.table, ids) && Known(t.table, ids) && Regs(t.table, ids) == Regs(y.table, ids)
  {
    forall id | id in y.spaces[j].sorted
      ensures id in y.table && id in t.table && t.table[id] == y.table[id]
    {
      Disjoint(y, j, k, id);
    }
    RegsSame(y.table, t.table, y.spaces[j].sorted);
  }

  lemma OthersMean(y: System, c: Call, z: System, j: nat, a: int)
    requires SystemOk(y) && Next(y, c, z) && j != c.k
    ensures At(z, j, a) == At(y, j, a)
  {
    hide Next, SystemOk, Conserved, AttrAt, SpaceOk;
    NextOnly(y, c, z);
    CallKeeps(y, c, z);
    if j < |y.spaces| {
      OtherRegions(y, j, c.k, SpaceOf(z, c.k));
    }
  }

  // ---------------------------------------------------------------------
  // The plain reading of a call
  // ---------------------------------------------------------------------

  /** Where the attribute of an address comes from: set by the call, or what it was in some space. */
  datatype Origin = Set(attr: Option<Attr>) | From(k: nat)

  function Effect(c: Call, j: nat, a: int): Origin {
    if c.k != j then From(j)
    else
      match c
      case Split(_, _, _) => From(j)
      case Create(_, _, _, _, _, _, id, made) =>
        if id.Some? && Contains(made, a) then Set(Some(AttrOf(made, a))) else From(j)
      case Release(_, addr, size, r) =>
        if r.Ok? && addr <= a < (addr + size) % WORD then Set(Some(FREE_ATTR)) else From(j)
      case ReleaseAll(_) => Set(None)
      case Init(_, r) => if r.Ok? && USER_BASE <= a < USER_CEILING then Set(Some(FREE_ATTR)) else Set(None)
      case Fork(p, _, r) => if r.Ok? then From(p) else Set(None)
  }

  lemma InitMeans(t: Space, a: int)
    requires Valid(t) && (USER_BASE <= a < USER_CEILING ==> FreeAt(t, a))
    ensures Meaning(t, a) == if USER_BASE <= a < USER_CEILING then Some(FREE_ATTR) else None
  {
    AttrRange(Regs(t.table, t.sorted), USER_BASE, USER_CEILING, a);
  }

  lemma SystemKnown(y: System, k: nat)
    requires SystemOk(y) && k < |y.spaces|
    ensures Known(y.table, y.spaces[k].sorted)
  {
    hide Tiles;
    assert SpaceOk(SpaceOf(y, k));
  }

  lemma OwnMeans(y: System, c: Call, z: System, a: int)
    requires SystemOk(y) && SystemOk(z) && Next(y, c, z)
    ensures At(z, c.k, a) == match Effect(c, c.k, a) { case Set(v) => v case From(i) => At(y, i, a) }
  {
    hide SystemOk, Tiles, FreeAgrees, Edge, RangeClean, FreeCanWork, Found, Picked, Conserved, AttrAt;
    SystemKnown(y, c.k);
    SystemKnown(z, c.k);
    var t := SpaceOf(z, c.k);
    match c
    case Init(_, r) =>
      if r.Ok? {
        InitMeans(t, a);
      } else {
        NoRegions(t, a);
      }
    case ReleaseAll(_) => NoRegions(t, a);
    case Fork(p, _, r) =>
      if r.Ok? {
        assert Meaning(t, a) == Meaning(SpaceOf(y, p), a);
      } else {
        NoRegions(t, a);
      }
    case _ =>
  }

  lemma NoRegions(t: Space, a: int)
    requires t.sorted == []
    ensures Meaning(t, a) == None
  {
    assert Regs(t.table, t.sorted) == [];
  }

  /** A call sets the attributes it should, and leaves all others in every address space. */
  lemma CallMeans(y: System, c: Call, z: System, j: nat, a: int)
    requires SystemOk(y) && Next(y, c, z)
    ensures At(z, j, a) == match Effect(c, j, a) { case Set(v) => v case From(i) => At(y, i, a) }
  {
    hide SystemOk, Next, At;
    if j == c.k {
      StepKeeps(y, c, z);
      OwnMeans(y, c, z, a);
    } else {
      OthersMean(y, c, z, j, a);
    }
  }

  // ---------------------------------------------------------------------
  // All runs
  // ---------------------------------------------------------------------

  ghost predicate IsRun(trace: seq<System>, calls: seq<Call>) {
    && |trace| == |calls| + 1
    && forall i :: 0 <= i < |calls| ==> Next(trace[i], calls[i], trace[i + 1])
  }

  ghost function Last(trace: seq<System>): System
    requires trace != []
  {
    trace[|trace| - 1]
  }

  /** The attribute of an address after the calls, read off the calls alone. */
  ghost function Plain(y: System, calls: seq<Call>, j: nat, a: int): Option<Attr>
    decreases |calls|
  {
    if calls == [] then At(y, j, a)
    else
      match Effect(calls[|calls| - 1], j, a)
      case Set(v) => v
      case From(i) => Plain(y, calls[..|calls| - 1], i, a)
  }

  lemma RunPrefix(trace: seq<System>, calls: seq<Call>)
    requires IsRun(trace, calls) && calls != []
    ensures var n := |calls|;
            && IsRun(trace[..n], calls[..n - 1])
            && Last(trace[..n]) == trace[n - 1] && trace[..n][0] == trace[0]
            && Next(trace[n - 1], calls[n - 1], Last(trace))
  {
    hide Next;
  }

  /**
    Whatever calls are made on the address spaces, each remains a gapless tiling of the
    user range, or is torn down; every descriptor is in the pool or in one region list,
    once; and none appears or disappears.
   */
  lemma {:induction false} RunKeeps(trace: seq<System>, calls: seq<Call>)
    requires IsRun(trace, calls) && SystemOk(trace[0])
    ensures var y, z := trace[0], Last(trace);
            SystemOk(z) && |z.spaces| == |y.spaces| && |z.unused| + Lengths(z.spaces) == |y.unused| + Lengths(y.spaces)
    decreases |calls|
  {
    hide SystemOk, Next;
    if calls != [] {
      var n := |calls|;
      RunPrefix(trace, calls);
      RunKeeps(trace[..n], calls[..n - 1]);
      StepKeeps(trace[n - 1], calls[n - 1], trace[n]);
      DescriptorsTotal(trace[n - 1]);
      DescriptorsTotal(trace[n]);
      assert |trace[n].table.Keys| == |trace[n].table| && |trace[n - 1].table.Keys| == |trace[n - 1].table|;
    }
  }

  /** The lists of every address space stand for the plain map that the calls describe. */
  lemma {:induction false} RegionsRefineMap(trace: seq<System>, calls: seq<Call>, j: nat, a: int)
    requires IsRun(trace, calls) && SystemOk(trace[0])
    ensures At(Last(trace), j, a) == Plain(trace[0], calls, j, a)
    decreases |calls|
  {
    hide SystemOk, Next, At, Effect;
    if calls != [] {
      var n := |calls|;
      RunPrefix(trace, calls);
      RunKeeps(trace[..n], calls[..n - 1]);
      CallMeans(trace[n - 1], calls[n - 1], trace[n], j, a);
      match Effect(calls[n - 1], j, a)
      case Set(_) =>
      case From(i) => RegionsRefineMap(trace[..n], calls[..n - 1], i, a);
    }
  }

  // ---------------------------------------------------------------------
  // The free lists
  // ---------------------------------------------------------------------

  ghost predicate AllAgree(y: System) {
    forall j :: 0 <= j < |y.spaces| ==> FreeAgrees(SpaceOf(y, j))
  }

  /** Not a release that finds free memory in its range, or just above it. */
  ghost predicate Tidy(y: System, c: Call) {
    Allowed(y, c) && c.Release? && c.status.Ok? ==> RangeClean(SpaceOf(y, c.k), c.addr, (c.addr + c.size) % WORD)
  }

  lemma NoneAgrees(t: Space)
    requires t.sorted == [] && t.free == []
    ensures FreeAgrees(t)
  {
  }

  lemma OwnAgrees(y: System, c: Call, z: System)
    requires SystemOk(y) && Next(y, c, z) && FreeAgrees(SpaceOf(y, c.k))
    ensures FreeAgrees(SpaceOf(z, c.k)) <==> Tidy(y, c)
  {
    hide SystemOk, Tiles, FreeAgrees, Edge, RangeClean, FreeCanWork, Found, Picked, Conserved, Meaning, IdsOk;
    var t := SpaceOf(z, c.k);
    if t.sorted == [] && t.free == [] {
      NoneAgrees(t);
    }
  }

  lemma StepAgrees(y: System, c: Call, z: System)
    requires SystemOk(y) && Next(y, c, z) && AllAgree(y)
    ensures AllAgree(z) <==> Tidy(y, c)
  {
    hide SystemOk, Next, Tidy, FreeAgrees, Conserved, SpaceOk;
    NextOnly(y, c, z);
    CallKeeps(y, c, z);
    OwnAgrees(y, c, z);
    forall j | 0 <= j < |z.spaces| && j != c.k
      ensures FreeAgrees(SpaceOf(z, j))
    {
      OtherSpaceKept(y, j, c.k, SpaceOf(z, c.k));
    }
  }

  /** The free lists agree with the region lists throughout a run exactly when each release is tidy. */
  lemma {:induction false} FreeListsAgree(trace: seq<System>, calls: seq<Call>)
    requires IsRun(trace, calls) && SystemOk(trace[0]) && AllAgree(trace[0])
    ensures (forall i :: 0 <= i < |trace| ==> AllAgree(trace[i]))
            <==> (forall i :: 0 <= i < |calls| ==> Tidy(trace[i], calls[i]))
    decreases |calls|
  {
    hide SystemOk, Next, AllAgree, Tidy;
    if calls != [] {
      var n := |calls|;
      RunPrefix(trace, calls);
      FreeListsAgree(trace[..n], calls[..n - 1]);
      RunKeeps(trace[..n], calls[..n - 1]);
      if AllAgree(trace[n - 1]) {
        StepAgrees(trace[n - 1], calls[n - 1], trace[n]);
      }
    }
  }

  // ---------------------------------------------------------------------
  // A region that is not one's own
  // ---------------------------------------------------------------------

  /** While its free list agrees, a space finds regions of its own only. */
  lemma AgreeingFindsOwn(y: System, k: nat, addr: nat, size: nat, fixed: bool)
    requires k < |y.spaces| && Valid(SpaceOf(y, k)) && AllAgree(y)
    ensures Listed(SpaceOf(y, k)) && FindsOwn(SpaceOf(y, k), addr, size, fixed)
  {
    hide Valid, FreeAgrees;
    AgreesFindsOwn(SpaceOf(y, k), addr, size, fixed);
  }

  // ---------------------------------------------------------------------
  // The start
  // ---------------------------------------------------------------------

  /** All descriptors in the pool and every address space empty, as after boot. */
  lemma {:induction false} StartOk(y: System)
    requires multiset(y.unused) == multiset(y.table.Keys)
    requires forall k :: 0 <= k < |y.spaces| ==> y.spaces[k] == RegionLists([], [], None)
    ensures SystemOk(y) && AllAgree(y)
  {
    NothingUsed(y.spaces);
    forall k | 0 <= k < |y.spaces|
      ensures SpaceOk(SpaceOf(y, k)) && FreeAgrees(SpaceOf(y, k))
    {
      NoneAgrees(SpaceOf(y, k));
    }
  }

  lemma {:induction false} NothingUsed(spaces: seq<RegionLists>)
    requires forall k :: 0 <= k < |spaces| ==> spaces[k] == RegionLists([], [], None)
    ensures Used(spaces) == multiset{}
  {
    if spaces != [] {
      NothingUsed(spaces[1..]);
    }
  }
}
