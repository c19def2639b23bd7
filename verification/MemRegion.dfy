/**
  Regions of a user address space (vm/memregion.c).

  A region list tiles the user range: it starts at the base, ends at the ceiling,
  and each region begins where the one before it ends. What the list means is the
  attribute of every address. The operations are judged by that meaning.
 */
module MemRegion {
  import opened Lists

  const USER_BASE: nat := 0x0040_0000
  const USER_CEILING: nat := 0x7F00_0000
  const PAGE_SIZE: nat := 4096
  const WORD: nat := 0x1_0000_0000

  /** A descriptor, by its place in memregion_table. */
  datatype Id = Id(index: nat)

  datatype Kind = Unallocated | Free | Alloc | Phys

  datatype Region = Region(base: nat, ceiling: nat, kind: Kind, flags: nat, phys: nat)

  /** What the list says about one address; phys is the physical address behind it. */
  datatype Attr = Attr(kind: Kind, flags: nat, phys: int)

  const FREE_ATTR: Attr := Attr(Free, 0, 0)

  function AttrOf(r: Region, a: int): Attr {
    Attr(r.kind, r.flags, if r.kind == Phys then r.phys + (a - r.base) else 0)
  }

  predicate Contains(r: Region, a: int) {
    r.base <= a < r.ceiling
  }

  /** The attribute of an address, as a scan of the list finds it. */
  function AttrAt(rs: seq<Region>, a: int): Option<Attr> {
    if rs == [] then None
    else if Contains(rs[0], a) then Some(AttrOf(rs[0], a))
    else AttrAt(rs[1..], a)
  }

  ghost predicate RegionOk(r: Region) {
    && r.base < r.ceiling
    && r.kind != Unallocated
    && (r.kind == Free ==> r.flags == 0)
  }

  /** Regions, none empty, that cover [lo, hi) without gap or overlap. */
  ghost predicate Tiles(rs: seq<Region>, lo: int, hi: int) {
    if rs == [] then lo == hi
    else RegionOk(rs[0]) && rs[0].base == lo && Tiles(rs[1..], rs[0].ceiling, hi)
  }

  // ---------------------------------------------------------------------
  // Cutting and joining lists
  // ---------------------------------------------------------------------

  lemma {:induction false} TilesJoin(x: seq<Region>, y: seq<Region>, lo: int, mid: int, hi: int)
    requires Tiles(x, lo, mid) && Tiles(y, mid, hi)
    ensures Tiles(x + y, lo, hi)
  {
    if x == [] {
      assert x + y == y;
    } else {
      TilesJoin(x[1..], y, x[0].ceiling, mid, hi);
      assert (x + y)[1..] == x[1..] + y;
    }
  }

  /** Where the list x ends, if it starts at lo. */
  ghost function End(x: seq<Region>, lo: int): int {
    if x == [] then lo else x[|x| - 1].ceiling
  }

  lemma {:induction false} TilesCut(x: seq<Region>, y: seq<Region>, lo: int, hi: int)
    requires Tiles(x + y, lo, hi)
    ensures Tiles(x, lo, End(x, lo)) && Tiles(y, End(x, lo), hi)
  {
    if x == [] {
      assert x + y == y;
    } else {
      assert (x + y)[1..] == x[1..] + y;
      TilesCut(x[1..], y, x[0].ceiling, hi);
      assert End(x, lo) == End(x[1..], x[0].ceiling);
    }
  }

  lemma {:induction false} TilesOrder(x: seq<Region>, lo: int, hi: int)
    requires Tiles(x, lo, hi)
    ensures lo <= hi && (x != [] ==> lo < hi) && End(x, lo) == hi
    ensures forall r :: r in x ==> RegionOk(r) && lo <= r.base && r.ceiling <= hi
  {
    if x != [] {
      TilesOrder(x[1..], x[0].ceiling, hi);
    }
  }

  lemma {:induction false} AttrJoin(x: seq<Region>, y: seq<Region>, a: int)
    ensures AttrAt(x + y, a) == if AttrAt(x, a).Some? then AttrAt(x, a) else AttrAt(y, a)
  {
    if x == [] {
      assert x + y == y;
    } else {
      AttrJoin(x[1..], y, a);
      assert (x + y)[1..] == x[1..] + y;
    }
  }

  /** Every address of the range has exactly one attribute, and no other address has any. */
  lemma {:induction false} AttrRange(x: seq<Region>, lo: int, hi: int, a: int)
    requires Tiles(x, lo, hi)
    ensures AttrAt(x, a).Some? <==> lo <= a < hi
  {
    TilesOrder(x, lo, hi);
    if x != [] {
      AttrRange(x[1..], x[0].ceiling, hi, a);
    }
  }

  lemma {:induction false} AttrOfMember(x: seq<Region>, lo: int, hi: int, r: Region, a: int)
    requires Tiles(x, lo, hi) && r in x && Contains(r, a)
    ensures AttrAt(x, a) == Some(AttrOf(r, a))
    ensures forall s :: s in x && Contains(s, a) ==> s == r
  {
    TilesOrder(x[1..], x[0].ceiling, hi);
    if r != x[0] {
      AttrOfMember(x[1..], x[0].ceiling, hi, r, a);
    }
  }

  /** One stretch of the list exchanged for another over the same addresses. */
  lemma Exchange(x: seq<Region>, m: seq<Region>, n: seq<Region>, y: seq<Region>, lo: int, hi: int, from: int, to: int)
    requires Tiles(x + m + y, lo, hi) && Tiles(m, from, to) && Tiles(n, from, to) && m != []
    ensures Tiles(x + n + y, lo, hi)
    ensures forall a :: AttrAt(x + n + y, a) == if from <= a < to then AttrAt(n, a) else AttrAt(x + m + y, a)
  {
    hide Tiles, AttrAt;
    assert x + m + y == x + (m + y) && x + n + y == x + (n + y);
    TilesCut(x, m + y, lo, hi);
    var mid := End(x, lo);
    TilesCut(m, y, mid, hi);
    TilesOrder(m, mid, End(m, mid));
    TilesOrder(m, from, to);
    TilesStart(m, from, to, mid, End(m, mid));
    TilesJoin(n, y, from, to, hi);
    TilesJoin(x, n + y, lo, from, hi);
    forall a
      ensures AttrAt(x + n + y, a) == if from <= a < to then AttrAt(n, a) else AttrAt(x + m + y, a)
    {
      AttrJoin(x, n + y, a);
      AttrJoin(n, y, a);
      AttrJoin(x, m + y, a);
      AttrJoin(m, y, a);
      AttrRange(x, lo, from, a);
      AttrRange(n, from, to, a);
      AttrRange(m, from, to, a);
      AttrRange(y, to, hi, a);
    }
  }

  lemma TilesStart(m: seq<Region>, from: int, to: int, lo: int, hi: int)
    requires Tiles(m, from, to) && Tiles(m, lo, hi) && m != []
    ensures from == lo && to == hi
  {
    TilesOrder(m, from, to);
    TilesOrder(m, lo, hi);
  }

  // ---------------------------------------------------------------------
  // Descriptors
  // ---------------------------------------------------------------------

  predicate Known(table: map<Id, Region>, ids: seq<Id>) {
    forall id :: id in ids ==> id in table
  }

  /** The regions that a list of descriptors stands for. */
  function Regs(table: map<Id, Region>, ids: seq<Id>): (rs: seq<Region>)
    requires Known(table, ids)
    ensures |rs| == |ids| && forall i :: 0 <= i < |ids| ==> rs[i] == table[ids[i]]
  {
    seq(|ids|, i requires 0 <= i < |ids| => table[ids[i]])
  }

  lemma RegsJoin(table: map<Id, Region>, x: seq<Id>, y: seq<Id>)
    requires Known(table, x) && Known(table, y)
    ensures Known(table, x + y) && Regs(table, x + y) == Regs(table, x) + Regs(table, y)
  {
  }

  lemma RegsSame(table: map<Id, Region>, after: map<Id, Region>, x: seq<Id>)
    requires Known(table, x) && Known(after, x)
    requires forall id :: id in x ==> table[id] == after[id]
    ensures Regs(table, x) == Regs(after, x)
  {
  }

  /** One address space together with the descriptor table and the pool of unused descriptors. */
  datatype Space = Space(table: map<Id, Region>, unused: seq<Id>, sorted: seq<Id>, free: seq<Id>, hint: Option<Id>)

  /** Each descriptor of this space or the pool is there once. */
  ghost predicate IdsOk(s: Space) {
    && Known(s.table, s.sorted)
    && Known(s.table, s.unused)
    && forall id :: (multiset(s.sorted) + multiset(s.unused))[id] <= 1
  }

  ghost predicate Valid(s: Space) {
    && IdsOk(s)
    && Known(s.table, s.sorted)
    && Tiles(Regs(s.table, s.sorted), USER_BASE, USER_CEILING)
    && (s.hint.Some? ==> s.hint.value in s.sorted)
  }

  /** The meaning of the list. */
  ghost function Meaning(s: Space, a: int): Option<Attr>
    requires Known(s.table, s.sorted)
  {
    AttrAt(Regs(s.table, s.sorted), a)
  }

  ghost predicate IsFree(table: map<Id, Region>, id: Id) {
    id in table && table[id].kind == Free
  }

  /** The free list has each free region of the sorted list once and nothing else. */
  ghost predicate FreeAgrees(s: Space) {
    forall id :: multiset(s.free)[id] == if id in s.sorted && IsFree(s.table, id) then 1 else 0
  }

  /** Descriptors only move between this space and the pool, and no other descriptor is touched. */
  ghost predicate Conserved(s: Space, t: Space) {
    && multiset(s.sorted) + multiset(s.unused) == multiset(t.sorted) + multiset(t.unused)
    && s.table.Keys == t.table.Keys
    && forall id :: id in s.table && id !in s.sorted && id !in s.unused ==> t.table[id] == s.table[id]
  }

  lemma ConservedTwice(s: Space, t: Space, u: Space)
    requires Conserved(s, t) && Conserved(t, u)
    ensures Conserved(s, u)
  {
    forall id | id in s.table && id !in s.sorted && id !in s.unused
      ensures u.table[id] == s.table[id]
    {
      assert (multiset(s.sorted) + multiset(s.unused))[id] == 0;
      assert (multiset(t.sorted) + multiset(t.unused))[id] == 0;
      assert id !in t.sorted && id !in t.unused;
    }
  }

  /** Descriptors m in the list give way to n, over the same addresses. */
  lemma ExchangeIds(s: Space, t: Space, x: seq<Id>, m: seq<Id>, n: seq<Id>, y: seq<Id>, from: int, to: int)
    requires IdsOk(s) && Known(t.table, x) && Known(t.table, y) && Known(t.table, n)
    requires s.sorted == x + m + y && t.sorted == x + n + y && m != []
    requires forall id :: id in x || id in y ==> s.table[id] == t.table[id]
    requires Tiles(Regs(s.table, s.sorted), USER_BASE, USER_CEILING)
    requires Known(s.table, m) && Tiles(Regs(s.table, m), from, to) && Tiles(Regs(t.table, n), from, to)
    ensures Known(t.table, t.sorted) && Tiles(Regs(t.table, t.sorted), USER_BASE, USER_CEILING)
    ensures forall a :: Meaning(t, a) == if from <= a < to then AttrAt(Regs(t.table, n), a) else Meaning(s, a)
  {
    hide Tiles, AttrAt;
    RegsJoin(s.table, x + m, y);
    RegsJoin(s.table, x, m);
    RegsJoin(t.table, x + n, y);
    RegsJoin(t.table, x, n);
    RegsSame(s.table, t.table, x);
    RegsSame(s.table, t.table, y);
    Exchange(Regs(s.table, x), Regs(s.table, m), Regs(t.table, n), Regs(s.table, y), USER_BASE, USER_CEILING, from, to);
  }

  lemma Around(s: seq<Id>, u: seq<Id>, i: nat)
    requires i < |s| && forall id :: (multiset(s) + multiset(u))[id] <= 1
    ensures s == s[..i] + [s[i]] + s[i + 1..]
    ensures s[i] !in s[..i] && s[i] !in s[i + 1..] && s[i] !in u
    ensures forall id :: id in u ==> id !in s
  {
    assert s == s[..i] + [s[i]] + s[i + 1..];
    assert multiset(s) == multiset(s[..i]) + multiset{s[i]} + multiset(s[i + 1..]);
    assert (multiset(s) + multiset(u))[s[i]] <= 1;
    forall id | id in u
      ensures id !in s
    {
      assert (multiset(s) + multiset(u))[id] <= 1;
    }
  }

  lemma MemberOk(s: Space, i: nat)
    requires Known(s.table, s.sorted) && i < |s.sorted| && Tiles(Regs(s.table, s.sorted), USER_BASE, USER_CEILING)
    ensures var r := s.table[s.sorted[i]];
            && RegionOk(r) && USER_BASE <= r.base && r.ceiling <= USER_CEILING
            && Tiles([r], r.base, r.ceiling)
            && (forall a :: Contains(r, a) ==> Meaning(s, a) == Some(AttrOf(r, a)))
  {
    var rs := Regs(s.table, s.sorted);
    TilesOrder(rs, USER_BASE, USER_CEILING);
    assert rs[i] in rs;
    forall a | Contains(rs[i], a)
      ensures Meaning(s, a) == Some(AttrOf(rs[i], a))
    {
      AttrOfMember(rs, USER_BASE, USER_CEILING, rs[i], a);
    }
  }

  /** Same descriptors in all, so still each of them once. */
  lemma SameIds(s: Space, t: Space)
    requires IdsOk(s) && s.table.Keys == t.table.Keys
    requires multiset(s.sorted) + multiset(s.unused) == multiset(t.sorted) + multiset(t.unused)
    ensures IdsOk(t)
  {
    forall id | id in t.sorted || id in t.unused
      ensures id in t.table
    {
      assert id in multiset(t.sorted) + multiset(t.unused);
      assert id in s.sorted || id in s.unused;
    }
  }

  lemma {:induction false} WithoutCounts(f: seq<Id>, x: Id, id: Id)
    ensures multiset(Without(f, x))[id] == if id == x then 0 else multiset(f)[id]
  {
    if f != [] {
      WithoutCounts(f[1..], x, id);
      assert f == [f[0]] + f[1..];
    }
  }

  lemma {:induction false} WithoutOne(f: seq<Id>, x: Id)
    requires multiset(f)[x] == 1
    ensures multiset(Without(f, x)) + multiset{x} == multiset(f)
  {
    assert f == [f[0]] + f[1..];
    if f[0] != x {
      WithoutOne(f[1..], x);
    }
  }

  // ---------------------------------------------------------------------
  // memregion_split
  // ---------------------------------------------------------------------

  /** The two parts of a region cut at an address; the new descriptor gets one of them, with phys as given. */
  function Lower(r: Region, at: nat, low: bool, phys: nat): Region {
    r.(ceiling := at, phys := if low then phys else r.phys)
  }

  function Upper(r: Region, at: nat, low: bool, phys: nat): Region {
    r.(base := at, phys := if low then r.phys else phys)
  }

  function CutTable(table: map<Id, Region>, id: Id, at: nat, d: Id, low: bool, phys: nat): map<Id, Region>
    requires id in table
  {
    var l, u := Lower(table[id], at, low, phys), Upper(table[id], at, low, phys);
    if low then table[d := l][id := u] else table[id := l][d := u]
  }

  /** The i-th region cut in two; descriptor d from the pool takes the lower or the upper part. */
  function Cut(s: Space, i: nat, at: nat, d: Id, low: bool, phys: nat): Space
    requires i < |s.sorted| && s.sorted[i] in s.table
  {
    var id := s.sorted[i];
    Space(CutTable(s.table, id, at, d, low, phys),
          Without(s.unused, d),
          s.sorted[..i] + (if low then [d, id] else [id, d]) + s.sorted[i + 1..],
          if s.table[id].kind == Free then [d] + s.free else s.free,
          s.hint)
  }

  lemma CutIds(s: Space, i: nat, at: nat, d: Id, low: bool, phys: nat)
    requires IdsOk(s) && i < |s.sorted| && d in s.unused
    ensures var t := Cut(s, i, at, d, low, phys);
            && IdsOk(t) && Conserved(s, t)
            && multiset(t.sorted) == multiset(s.sorted) + multiset{d}
            && d !in s.sorted && d in s.table
  {
    hide Without;
    var t := Cut(s, i, at, d, low, phys);
    var id := s.sorted[i];
    Around(s.sorted, s.unused, i);
    assert (multiset(s.sorted) + multiset(s.unused))[d] <= 1;
    WithoutOne(s.unused, d);
    CutCounts(s.sorted[..i], id, s.sorted[i + 1..], d, low);
    SameIds(s, t);
  }

  lemma CutCounts(x: seq<Id>, id: Id, y: seq<Id>, d: Id, low: bool)
    ensures multiset(x + (if low then [d, id] else [id, d]) + y) == multiset(x + [id] + y) + multiset{d}
  {
  }

  lemma CutFree(s: Space, i: nat, at: nat, d: Id, low: bool, phys: nat)
    requires IdsOk(s) && i < |s.sorted| && d in s.unused && FreeAgrees(s)
    ensures FreeAgrees(Cut(s, i, at, d, low, phys))
  {
    hide Without, IdsOk;
    CutIds(s, i, at, d, low, phys);
    var t := Cut(s, i, at, d, low, phys);
    assert multiset([d] + s.free) == multiset{d} + multiset(s.free);
    forall id
      ensures multiset(t.free)[id] == if id in t.sorted && IsFree(t.table, id) then 1 else 0
    {
      assert multiset(s.free)[id] == if id in s.sorted && IsFree(s.table, id) then 1 else 0;
      assert multiset(t.sorted)[id] == multiset(s.sorted)[id] + multiset{d}[id];
      assert id in t.sorted <==> id in s.sorted || id == d;
    }
  }

  lemma CutAttrs(r: Region, at: nat, low: bool, phys: nat)
    requires RegionOk(r) && r.base < at < r.ceiling
    requires r.kind == Phys ==> !low && phys == r.phys + (at - r.base)
    ensures var n := [Lower(r, at, low, phys), Upper(r, at, low, phys)];
            && Tiles(n, r.base, r.ceiling)
            && forall a :: AttrAt(n, a) == if Contains(r, a) then Some(AttrOf(r, a)) else None
  {
    var n := [Lower(r, at, low, phys), Upper(r, at, low, phys)];
    assert n[1..] == [Upper(r, at, low, phys)];
    assert n[1..][1..] == [];
    forall a
      ensures AttrAt(n, a) == if Contains(r, a) then Some(AttrOf(r, a)) else None
    {
      var l, u := n[0], n[1];
      assert AttrAt(n[1..], a) == if Contains(u, a) then Some(AttrOf(u, a)) else None;
      assert AttrAt(n, a) == if Contains(l, a) then Some(AttrOf(l, a)) else AttrAt(n[1..], a);
      assert l.base == r.base && l.ceiling == at == u.base && u.ceiling == r.ceiling;
      assert Contains(l, a) ==> AttrOf(l, a) == AttrOf(r, a);
      assert Contains(u, a) ==> AttrOf(u, a) == AttrOf(r, a);
    }
  }

  /** A split changes the attribute of no address, and keeps every list in order. */
  lemma CutKeeps(s: Space, i: nat, at: nat, d: Id, low: bool, phys: nat)
    requires Valid(s) && i < |s.sorted| && d in s.unused
    requires var r := s.table[s.sorted[i]];
             r.base < at < r.ceiling && (r.kind == Phys ==> !low && phys == r.phys + (at - r.base))
    ensures var t := Cut(s, i, at, d, low, phys);
            && Valid(t) && Conserved(s, t)
            && (forall a :: Meaning(t, a) == Meaning(s, a))
            && (FreeAgrees(s) ==> FreeAgrees(t))
  {
    hide Tiles, AttrAt, FreeAgrees, Conserved, Lower, Upper, Without;
    var t := Cut(s, i, at, d, low, phys);
    var id := s.sorted[i];
    var r := s.table[id];
    var pair := if low then [d, id] else [id, d];
    Around(s.sorted, s.unused, i);
    MemberOk(s, i);
    CutIds(s, i, at, d, low, phys);
    if FreeAgrees(s) {
      CutFree(s, i, at, d, low, phys);
    }
    CutAttrs(r, at, low, phys);
    assert Regs(s.table, [id]) == [r];
    assert Regs(t.table, pair) == [Lower(r, at, low, phys), Upper(r, at, low, phys)];
    ExchangeIds(s, t, s.sorted[..i], [id], pair, s.sorted[i + 1..], r.base, r.ceiling);
    assert forall a :: Contains(r, a) ==> Meaning(t, a) == Some(AttrOf(r, a));
  }

  // ---------------------------------------------------------------------
  // memregion_create
  // ---------------------------------------------------------------------

  /** The i-th region gets another kind and other flags. */
  function Retype(s: Space, i: nat, kind: Kind, flags: nat): Space
    requires i < |s.sorted| && s.sorted[i] in s.table
  {
    var id := s.sorted[i];
    s.(table := s.table[id := s.table[id].(kind := kind, flags := flags)])
  }

  lemma RetypeKeeps(s: Space, i: nat, kind: Kind, flags: nat)
    requires Valid(s) && i < |s.sorted| && kind != Unallocated && (kind == Free ==> flags == 0)
    ensures var t := Retype(s, i, kind, flags); var r := s.table[s.sorted[i]];
            && Valid(t) && Conserved(s, t)
            && (forall a :: Meaning(t, a) == if Contains(r, a) then Some(AttrOf(r.(kind := kind, flags := flags), a))
                else Meaning(s, a))
  {
    hide Tiles, AttrAt;
    var t := Retype(s, i, kind, flags);
    var id := s.sorted[i];
    var r := s.table[id];
    Around(s.sorted, s.unused, i);
    MemberOk(s, i);
    OneTile(t.table[id]);
    OneTile(r);
    assert Regs(s.table, [id]) == [r] && Regs(t.table, [id]) == [t.table[id]];
    ExchangeIds(s, t, s.sorted[..i], [id], [id], s.sorted[i + 1..], r.base, r.ceiling);
  }

  lemma OneTile(r: Region)
    requires RegionOk(r)
    ensures Tiles([r], r.base, r.ceiling)
    ensures forall a :: AttrAt([r], a) == if Contains(r, a) then Some(AttrOf(r, a)) else None
  {
    assert [r][1..] == [];
  }

  lemma CountIn(x: seq<Id>, id: Id)
    ensures multiset(x)[id] > 0 <==> id in x
  {
  }

  /** A free region is handed out: it leaves the free list. */
  lemma HandOutFree(s: Space, i: nat, kind: Kind, flags: nat)
    requires IdsOk(s) && FreeAgrees(s) && i < |s.sorted| && kind != Free
    ensures FreeAgrees(Retype(s, i, kind, flags).(free := Without(s.free, s.sorted[i])))
  {
    var t := Retype(s, i, kind, flags).(free := Without(s.free, s.sorted[i]));
    forall id
      ensures multiset(t.free)[id] == if id in t.sorted && IsFree(t.table, id) then 1 else 0
    {
      WithoutCounts(s.free, s.sorted[i], id);
      assert multiset(s.free)[id] == if id in s.sorted && IsFree(s.table, id) then 1 else 0;
    }
  }

  /** A region is put on the free list. The list is right afterwards only if the region was not free before. */
  lemma GiveBackFree(s: Space, i: nat)
    requires IdsOk(s) && FreeAgrees(s) && i < |s.sorted|
    ensures var t := Retype(s, i, Free, 0).(free := [s.sorted[i]] + s.free);
            if IsFree(s.table, s.sorted[i]) then Stale(t) else FreeAgrees(t)
  {
    var id := s.sorted[i];
    var t := Retype(s, i, Free, 0).(free := [id] + s.free);
    assert multiset(t.free) == multiset{id} + multiset(s.free);
    if IsFree(s.table, id) {
      assert multiset(t.free)[id] == 2;
    } else {
      forall x
        ensures multiset(t.free)[x] == if x in t.sorted && IsFree(t.table, x) then 1 else 0
      {
        assert multiset(s.free)[x] == if x in s.sorted && IsFree(s.table, x) then 1 else 0;
      }
    }
  }

  lemma PoolHeads(s: Space)
    requires IdsOk(s) && |s.unused| >= 2
    ensures s.unused[0] != s.unused[1] && s.unused[0] in s.table && s.unused[1] in s.table
  {
    assert s.unused == [s.unused[0], s.unused[1]] + s.unused[2..];
    assert multiset(s.unused) == multiset{s.unused[0], s.unused[1]} + multiset(s.unused[2..]);
    assert (multiset(s.sorted) + multiset(s.unused))[s.unused[0]] <= 1;
  }

  /** The i-th region with what lies below `at` cut off. */
  function CutLow(s: Space, i: nat, at: nat): (r: (Space, nat))
    requires IdsOk(s) && s.unused != [] && i < |s.sorted|
    ensures r.1 < |r.0.sorted| && r.0.sorted[r.1] == s.sorted[i] && s.sorted[i] in r.0.table
    ensures forall id :: id in s.table ==> id in r.0.table
  {
    var b := s.unused[0];
    if s.table[s.sorted[i]].base < at then (Cut(s, i, at, b, true, s.table[b].phys), i + 1) else (s, i)
  }

  /** The i-th region with what lies above `end` cut off. */
  function CutHigh(s: Space, i: nat, end: nat, e: Id): (t: Space)
    requires i < |s.sorted| && s.sorted[i] in s.table && e in s.table
    ensures i < |t.sorted| && t.sorted[i] == s.sorted[i] && s.sorted[i] in t.table
  {
    if end < s.table[s.sorted[i]].ceiling then Cut(s, i, end, e, false, s.table[e].phys) else s
  }

  /** The i-th region becomes [at, end) of the wanted kind; what is left of it stays free. */
  function Carve(s: Space, i: nat, at: nat, end: nat, kind: Kind, flags: nat): Space
    requires IdsOk(s) && |s.unused| >= 2 && i < |s.sorted|
  {
    var (low, j) := CutLow(s, i, at);
    PoolHeads(s);
    var high := CutHigh(low, j, end, s.unused[1]);
    Retype(high, j, kind, flags).(free := Without(high.free, s.sorted[i]))
  }

  lemma CutLowKeeps(s: Space, i: nat, at: nat)
    requires IdsOk(s) && s.unused != [] && i < |s.sorted|
    ensures var (t, j) := CutLow(s, i, at); var r := s.table[s.sorted[i]];
            && IdsOk(t) && Conserved(s, t)
            && (FreeAgrees(s) ==> FreeAgrees(t))
            && (|s.unused| >= 2 ==> s.unused[1] in t.unused)
            && t.table[s.sorted[i]] == r.(base := if r.base < at then at else r.base)
            && (Valid(s) && r.kind == Free && at < r.ceiling ==> Valid(t) && forall a :: Meaning(t, a) == Meaning(s, a))
  {
    hide Tiles, AttrAt, FreeAgrees, Meaning, Conserved, Without;
    var b := s.unused[0];
    var r := s.table[s.sorted[i]];
    SameConserved(s);
    if |s.unused| >= 2 {
      PoolHeads(s);
    }
    if r.base < at {
      CutIds(s, i, at, b, true, s.table[b].phys);
      if FreeAgrees(s) {
        CutFree(s, i, at, b, true, s.table[b].phys);
      }
      if Valid(s) && r.kind == Free && at < r.ceiling {
        CutKeeps(s, i, at, b, true, s.table[b].phys);
      }
    }
  }

  lemma CutHighKeeps(s: Space, i: nat, end: nat, e: Id)
    requires IdsOk(s) && e in s.unused && i < |s.sorted|
    ensures var t := CutHigh(s, i, end, e); var r := s.table[s.sorted[i]];
            && IdsOk(t) && Conserved(s, t)
            && (FreeAgrees(s) ==> FreeAgrees(t))
            && t.table[s.sorted[i]] == r.(ceiling := if end < r.ceiling then end else r.ceiling)
            && (Valid(s) && r.kind == Free && r.base < end ==> Valid(t) && forall a :: Meaning(t, a) == Meaning(s, a))
  {
    hide Tiles, AttrAt, FreeAgrees, Meaning;
    var r := s.table[s.sorted[i]];
    if end < r.ceiling {
      CutIds(s, i, end, e, false, s.table[e].phys);
      if FreeAgrees(s) {
        CutFree(s, i, end, e, false, s.table[e].phys);
      }
      if Valid(s) && r.kind == Free && r.base < end {
        CutKeeps(s, i, end, e, false, s.table[e].phys);
      }
    }
  }

  lemma RetypeIds(s: Space, i: nat, kind: Kind, flags: nat)
    requires IdsOk(s) && i < |s.sorted|
    ensures var t := Retype(s, i, kind, flags).(free := Without(s.free, s.sorted[i])); IdsOk(t) && Conserved(s, t)
  {
  }

  /**
    Creating a region changes exactly [at, end), which was free. The list stays a
    tiling exactly when the new region is not empty.
   */
  lemma CarveKeeps(s: Space, i: nat, at: nat, end: nat, kind: Kind, flags: nat)
    requires Valid(s) && |s.unused| >= 2 && i < |s.sorted| && (kind == Alloc || kind == Phys)
    requires var r := s.table[s.sorted[i]]; r.kind == Free && r.base <= at < r.ceiling && end <= r.ceiling
    ensures var t := Carve(s, i, at, end, kind, flags); var id := s.sorted[i];
            && Conserved(s, t) && IdsOk(t) && (FreeAgrees(s) ==> FreeAgrees(t))
            && id in t.table && t.table[id] == Region(at, end, kind, flags, s.table[id].phys)
            && (Valid(t) <==> at < end)
            && (at < end ==> forall a :: Meaning(t, a) == if at <= a < end then Some(AttrOf(t.table[id], a))
                else Meaning(s, a))
  {
    hide Tiles, AttrAt, FreeAgrees, Without, IdsOk, Conserved, CutLow, CutHigh, Meaning;
    var id := s.sorted[i];
    var (low, j) := CutLow(s, i, at);
    CutLowKeeps(s, i, at);
    PoolHeads(s);
    var high := CutHigh(low, j, end, s.unused[1]);
    CutHighKeeps(low, j, end, s.unused[1]);
    var t := Carve(s, i, at, end, kind, flags);
    if FreeAgrees(s) {
      HandOutFree(high, j, kind, flags);
    }
    RetypeIds(high, j, kind, flags);
    ConservedTwice(s, low, high);
    ConservedTwice(s, high, t);
    if at < end {
      RetypeKeeps(high, j, kind, flags);
      assert Regs(t.table, t.sorted) == Regs(Retype(high, j, kind, flags).table, t.sorted);
      SameMeaning(t, Retype(high, j, kind, flags));
    } else if Valid(t) {
      assert t.sorted[j] == id;
      MemberOk(t, j);
      assert false;
    }
  }

  lemma CarveKnown(s: Space, i: nat, at: nat, end: nat, kind: Kind, flags: nat)
    requires IdsOk(s) && |s.unused| >= 2 && i < |s.sorted| && Known(s.table, s.free)
    ensures var t := Carve(s, i, at, end, kind, flags); Known(t.table, t.free)
  {
  }

  lemma SameMeaning(s: Space, t: Space)
    requires s.table == t.table && s.sorted == t.sorted && Known(s.table, s.sorted)
    ensures forall a :: Meaning(s, a) == Meaning(t, a)
  {
  }

  // ---------------------------------------------------------------------
  // memregion_free
  // ---------------------------------------------------------------------

  /** A free list that has an entry twice, or one that is not in the sorted list. */
  ghost predicate Stale(s: Space) {
    exists id {:trigger multiset(s.free)[id]} :: multiset(s.free)[id] > if id in s.sorted then 1 else 0
  }

  lemma StaleIsWrong(s: Space)
    requires Stale(s)
    ensures !FreeAgrees(s)
  {
    var id :| multiset(s.free)[id] > if id in s.sorted then 1 else 0;
  }

  lemma StaleStays(s: Space, t: Space)
    requires Stale(s) && multiset(s.free) <= multiset(t.free) && forall id :: id in t.sorted ==> id in s.sorted
    ensures Stale(t)
  {
    var id :| multiset(s.free)[id] > if id in s.sorted then 1 else 0;
    assert multiset(t.free)[id] >= multiset(s.free)[id];
  }

  /** The i-th region is swallowed by its free predecessor, and its descriptor goes to the pool. */
  function Merge(s: Space, i: nat): Space
    requires 0 < i < |s.sorted| && s.sorted[i] in s.table && s.sorted[i - 1] in s.table
  {
    var p, id := s.sorted[i - 1], s.sorted[i];
    var r := s.table[id];
    s.(table := s.table[p := s.table[p].(ceiling := r.ceiling)][id := r.(kind := Unallocated)],
       sorted := s.sorted[..i] + s.sorted[i + 1..],
       unused := [id] + s.unused)
  }

  lemma Around2(s: seq<Id>, u: seq<Id>, i: nat)
    requires 0 < i < |s| && forall id :: (multiset(s) + multiset(u))[id] <= 1
    ensures var x, p, id, y := s[..i - 1], s[i - 1], s[i], s[i + 1..];
            && s == x + [p, id] + y && s[..i] + y == x + [p] + y
            && p != id && p !in x && p !in y && id !in x && id !in y
  {
    Around(s, u, i);
    Around(s, u, i - 1);
    assert s[..i] == s[..i - 1] + [s[i - 1]];
    assert s[i..] == [s[i]] + s[i + 1..];
  }

  lemma MergeIds(s: Space, i: nat)
    requires IdsOk(s) && 0 < i < |s.sorted|
    ensures var t := Merge(s, i);
            && IdsOk(t) && Conserved(s, t)
            && multiset(s.sorted) == multiset(t.sorted) + multiset{s.sorted[i]}
    ensures s.sorted[i] !in Merge(s, i).sorted
  {
    var t := Merge(s, i);
    Around(s.sorted, s.unused, i);
    assert multiset(s.sorted) == multiset(t.sorted) + multiset{s.sorted[i]};
    assert multiset(t.unused) == multiset{s.sorted[i]} + multiset(s.unused);
    SameIds(s, t);
  }

  lemma MergeKeeps(s: Space, i: nat)
    requires Valid(s) && s.hint.None? && 0 < i < |s.sorted| && IsFree(s.table, s.sorted[i - 1])
    ensures var t := Merge(s, i);
            && Valid(t) && Conserved(s, t)
            && (forall a :: Meaning(t, a) == if Contains(s.table[s.sorted[i]], a) then Some(FREE_ATTR)
                else Meaning(s, a))
  {
    hide Tiles, AttrAt, Conserved, IdsOk;
    MergeIds(s, i);
    MergeTiles(s, i);
    MemberOk(s, i);
    MemberOk(s, i - 1);
    var r, q := s.table[s.sorted[i]], s.table[s.sorted[i - 1]];
    TilesNext(Regs(s.table, s.sorted), USER_BASE, USER_CEILING, i);
    OneTile(q.(ceiling := r.ceiling));
    forall a
      ensures Meaning(Merge(s, i), a) == if Contains(r, a) then Some(FREE_ATTR) else Meaning(s, a)
    {
      if Contains(q, a) {
        assert Meaning(s, a) == Some(AttrOf(q, a));
      }
    }
  }

  /** One region over both stretches, and the rest of the list as it was. */
  lemma MergeTiles(s: Space, i: nat)
    requires Valid(s) && 0 < i < |s.sorted| && IsFree(s.table, s.sorted[i - 1])
    ensures var t := Merge(s, i); var r, q := s.table[s.sorted[i]], s.table[s.sorted[i - 1]];
            && Known(t.table, t.sorted) && Tiles(Regs(t.table, t.sorted), USER_BASE, USER_CEILING)
            && (forall a :: Meaning(t, a) ==
                  if q.base <= a < r.ceiling then AttrAt([q.(ceiling := r.ceiling)], a) else Meaning(s, a))
  {
    hide Tiles, AttrAt;
    var t := Merge(s, i);
    var p, id := s.sorted[i - 1], s.sorted[i];
    var r, q := s.table[id], s.table[p];
    Around2(s.sorted, s.unused, i);
    MemberOk(s, i);
    MemberOk(s, i - 1);
    TilesNext(Regs(s.table, s.sorted), USER_BASE, USER_CEILING, i);
    assert Regs(s.table, [p, id]) == [q, r] && Regs(t.table, [p]) == [q.(ceiling := r.ceiling)];
    TwoTiles(q, r);
    OneTile(q.(ceiling := r.ceiling));
    ExchangeIds(s, t, s.sorted[..i - 1], [p, id], [p], s.sorted[i + 1..], q.base, r.ceiling);
  }

  lemma {:induction false} TilesNext(x: seq<Region>, lo: int, hi: int, i: nat)
    requires Tiles(x, lo, hi) && i < |x|
    ensures 0 < i ==> x[i - 1].ceiling == x[i].base
    ensures i == 0 ==> x[i].base == lo
    ensures i == |x| - 1 ==> x[i].ceiling == hi
    ensures forall k :: i < k < |x| ==> x[i].ceiling <= x[k].base
  {
    if i > 0 {
      TilesNext(x[1..], x[0].ceiling, hi, i - 1);
    } else {
      TilesOrder(x[1..], x[0].ceiling, hi);
      assert forall k :: 0 < k < |x| ==> x[k] in x[1..];
    }
  }

  lemma TwoTiles(q: Region, r: Region)
    requires RegionOk(q) && RegionOk(r) && q.ceiling == r.base
    ensures Tiles([q, r], q.base, r.ceiling)
  {
    assert [q, r][1..] == [r] && [r][1..] == [];
  }

  /** Merging keeps the free list right only if the swallowed region was not free: it stays on the list. */
  lemma MergeFree(s: Space, i: nat)
    requires IdsOk(s) && 0 < i < |s.sorted| && FreeAgrees(s)
    ensures var t := Merge(s, i); if IsFree(s.table, s.sorted[i]) then Stale(t) else FreeAgrees(t)
  {
    MergeIds(s, i);
    Around2(s.sorted, s.unused, i);
    var t := Merge(s, i);
    var id := s.sorted[i];
    if IsFree(s.table, id) {
      assert multiset(t.free)[id] == 1;
    } else {
      forall x
        ensures multiset(t.free)[x] == if x in t.sorted && IsFree(t.table, x) then 1 else 0
      {
        assert multiset(s.free)[x] == if x in s.sorted && IsFree(s.table, x) then 1 else 0;
        assert multiset(s.sorted)[x] == multiset(t.sorted)[x] + multiset{id}[x];
        CountIn(s.sorted, x);
        CountIn(t.sorted, x);
      }
    }
  }

  /** Where the i-th region begins. */
  ghost function Base(s: Space, i: nat): int
    requires Known(s.table, s.sorted)
  {
    if i < |s.sorted| then s.table[s.sorted[i]].base else USER_CEILING
  }

  predicate PrevFree(s: Space, i: nat) {
    0 < i <= |s.sorted| && s.sorted[i - 1] in s.table && s.table[s.sorted[i - 1]].kind == Free
  }

  /** The loop body of memregion_free for the i-th region, and the index of the region after it. */
  function GiveBack(s: Space, i: nat): (r: (Space, nat))
    requires IdsOk(s) && i < |s.sorted|
    ensures IdsOk(r.0) && r.1 <= |r.0.sorted| && |r.0.sorted| - r.1 < |s.sorted| - i
  {
    if PrevFree(s, i) then
      MergeIds(s, i);
      (Merge(s, i), i)
    else
      (Retype(s, i, Free, 0).(free := [s.sorted[i]] + s.free), i + 1)
  }

  /** The loop of memregion_free from the i-th region on, and the merge with a free region above the range. */
  function FreeFrom(s: Space, i: nat, addr: nat, end: nat): Space
    requires IdsOk(s) && i <= |s.sorted|
    decreases |s.sorted| - i
  {
    if i < |s.sorted| && s.table[s.sorted[i]].base < end then
      if s.table[s.sorted[i]].base >= addr && s.table[s.sorted[i]].ceiling <= end then
        var (t, j) := GiveBack(s, i);
        FreeFrom(t, j, addr, end)
      else FreeFrom(s, i + 1, addr, end)
    else if i < |s.sorted| && s.table[s.sorted[i]].kind == Free && PrevFree(s, i) then Merge(s, i)
    else s
  }

  ghost predicate FreeAt(s: Space, a: int)
    requires Known(s.table, s.sorted)
  {
    Meaning(s, a) == Some(FREE_ATTR)
  }

  lemma FreeAtMember(s: Space, i: nat, a: int)
    requires Valid(s) && i < |s.sorted| && Contains(s.table[s.sorted[i]], a)
    ensures FreeAt(s, a) <==> IsFree(s.table, s.sorted[i])
  {
    MemberOk(s, i);
  }

  lemma GiveBackKeeps(s: Space, i: nat)
    requires Valid(s) && s.hint.None? && i < |s.sorted|
    ensures var (t, j) := GiveBack(s, i);
            && Valid(t) && Conserved(s, t) && t.hint.None?
            && (forall a :: Meaning(t, a) == if Contains(s.table[s.sorted[i]], a) then Some(FREE_ATTR)
                else Meaning(s, a))
            && PrevFree(t, j)
  {
    hide Tiles, Conserved, Meaning;
    var (t, j) := GiveBack(s, i);
    if PrevFree(s, i) {
      MergeKeeps(s, i);
      Around2(s.sorted, s.unused, i);
    } else {
      RetypeKeeps(s, i, Free, 0);
      SameMeaning(t, Retype(s, i, Free, 0));
      RetypeConserved(s, i);
    }
  }

  lemma GiveBackList(s: Space, i: nat)
    requires IdsOk(s) && i < |s.sorted|
    ensures var t := GiveBack(s, i).0;
            && (FreeAgrees(s) ==> if IsFree(s.table, s.sorted[i]) then Stale(t) else FreeAgrees(t))
            && (Stale(s) ==> Stale(t))
  {
    hide Stale, FreeAgrees;
    var (t, j) := GiveBack(s, i);
    if PrevFree(s, i) {
      if FreeAgrees(s) { MergeFree(s, i); }
      if Stale(s) {
        MergeIds(s, i);
        assert forall id :: id in t.sorted ==> id in multiset(t.sorted);
        StaleStays(s, t);
      }
    } else {
      if FreeAgrees(s) { GiveBackFree(s, i); }
      if Stale(s) { StaleStays(s, t); }
    }
  }

  lemma RetypeConserved(s: Space, i: nat)
    requires IdsOk(s) && i < |s.sorted|
    ensures Conserved(s, Retype(s, i, Free, 0).(free := [s.sorted[i]] + s.free))
  {
  }

  /** What follows the region is untouched. */
  lemma GiveBackRest(s: Space, i: nat)
    requires Valid(s) && i < |s.sorted|
    ensures var (t, j) := GiveBack(s, i);
            && t.sorted[j..] == s.sorted[i + 1..]
            && Known(t.table, t.sorted) && Base(t, j) == s.table[s.sorted[i]].ceiling
            && forall id :: id in s.sorted[i + 1..] ==> t.table[id] == s.table[id]
  {
    Around(s.sorted, s.unused, i);
    if PrevFree(s, i) { Around2(s.sorted, s.unused, i); }
    TilesNext(Regs(s.table, s.sorted), USER_BASE, USER_CEILING, i);
    if i + 1 < |s.sorted| {
      TilesNext(Regs(s.table, s.sorted), USER_BASE, USER_CEILING, i + 1);
      var (t, j) := GiveBack(s, i);
      assert t.sorted[j] == t.sorted[j..][0] == s.sorted[i + 1..][0];
      assert s.sorted[i + 1] in s.sorted[i + 1..];
    }
  }

  /** No region from the i-th on has `end` strictly inside it. */
  ghost predicate EdgeAt(s: Space, i: nat, end: int)
    requires Known(s.table, s.sorted) && i <= |s.sorted|
  {
    forall id :: id in s.sorted[i..] ==> !(s.table[id].base < end < s.table[id].ceiling)
  }

  ghost function Max(a: int, b: int): int {
    if a < b then b else a
  }

  /** Nothing in the range is free already, and no free region above it is merged. */
  ghost predicate Clean(s: Space, i: nat, end: int)
    requires Known(s.table, s.sorted)
  {
    && (forall a :: Base(s, i) <= a < end ==> !FreeAt(s, a))
    && !(FreeAt(s, Max(Base(s, i), end)) && (Base(s, i) < end || PrevFree(s, i)))
  }

  /** The loop frees exactly the addresses up to `end`; its free list is right exactly when the range was clean. */
  lemma {:induction false} FreeFromKeeps(s: Space, i: nat, addr: nat, end: nat)
    requires Valid(s) && s.hint.None? && i <= |s.sorted|
    requires addr <= Base(s, i) && end < USER_CEILING && EdgeAt(s, i, end)
    ensures var t := FreeFrom(s, i, addr, end);
            && Valid(t) && Conserved(s, t) && t.hint.None?
            && (forall a :: Meaning(t, a) == if Base(s, i) <= a < end then Some(FREE_ATTR) else Meaning(s, a))
            && (Stale(s) ==> Stale(t))
            && (FreeAgrees(s) ==> (FreeAgrees(t) <==> Clean(s, i, end)))
    decreases |s.sorted| - i
  {
    hide Tiles, Stale, FreeAgrees, Conserved, Meaning, Clean, IdsOk, GiveBack, Merge;
    if i < |s.sorted| && s.table[s.sorted[i]].base < end {
      var r := s.table[s.sorted[i]];
      assert s.sorted[i] in s.sorted[i..];
      var (t, j) := GiveBack(s, i);
      GiveBackKeeps(s, i);
      GiveBackList(s, i);
      GiveBackRest(s, i);
      assert s.sorted[i + 1..] == s.sorted[i..][1..];
      MemberOk(s, i);
      FreeFromKeeps(t, j, addr, end);
      var u := FreeFrom(s, i, addr, end);
      ConservedTwice(s, t, u);
      if FreeAgrees(s) {
        CleanStep(s, i, t, j, end);
        if IsFree(s.table, s.sorted[i]) { StaleIsWrong(u); }
      }
    } else {
      FreeFromEnds(s, i, addr, end);
    }
  }

  lemma CleanStep(s: Space, i: nat, t: Space, j: nat, end: nat)
    requires Valid(s) && Valid(t) && i < |s.sorted| && Base(t, j) == s.table[s.sorted[i]].ceiling <= end
             && PrevFree(t, j)
    requires forall a :: Meaning(t, a) == if Contains(s.table[s.sorted[i]], a) then Some(FREE_ATTR) else Meaning(s, a)
    ensures Clean(s, i, end) <==> !IsFree(s.table, s.sorted[i]) && Clean(t, j, end)
  {
    hide Tiles, IdsOk, Meaning;
    var r := s.table[s.sorted[i]];
    MemberOk(s, i);
    forall a | Contains(r, a)
      ensures FreeAt(s, a) <==> IsFree(s.table, s.sorted[i])
    {
      FreeAtMember(s, i, a);
    }
    assert Contains(r, r.base);
    assert forall a :: a >= r.ceiling ==> FreeAt(t, a) == FreeAt(s, a);
  }

  lemma FreeFromEnds(s: Space, i: nat, addr: nat, end: nat)
    requires Valid(s) && s.hint.None? && i <= |s.sorted|
    requires end <= Base(s, i)
    ensures var t := FreeFrom(s, i, addr, end);
            && Valid(t) && Conserved(s, t) && t.hint.None?
            && (forall a :: Meaning(t, a) == Meaning(s, a))
            && (Stale(s) ==> Stale(t))
            && (FreeAgrees(s) ==> (FreeAgrees(t) <==> Clean(s, i, end)))
  {
    hide Tiles, Stale, FreeAgrees, Conserved, Meaning, IdsOk;
    SameConserved(s);
    if i < |s.sorted| {
      MemberOk(s, i);
      var r := s.table[s.sorted[i]];
      assert Contains(r, r.base);
      FreeAtMember(s, i, r.base);
      if r.kind == Free && PrevFree(s, i) {
        MergeKeeps(s, i);
        var t := Merge(s, i);
        if FreeAgrees(s) {
          MergeFree(s, i);
          StaleIsWrong(t);
        }
        if Stale(s) {
          MergeIds(s, i);
          assert forall id :: id in t.sorted ==> id in multiset(t.sorted);
          StaleStays(s, t);
        }
      }
    } else {
      AttrRange(Regs(s.table, s.sorted), USER_BASE, USER_CEILING, USER_CEILING);
      NotFreeOutside(s);
    }
  }

  lemma NotFreeOutside(s: Space)
    requires Valid(s)
    ensures !FreeAt(s, USER_CEILING)
  {
    AttrRange(Regs(s.table, s.sorted), USER_BASE, USER_CEILING, USER_CEILING);
  }

  lemma SameConserved(s: Space)
    ensures Conserved(s, s)
  {
  }

  /** The condition in terms of addresses: what a caller can see before the call. */
  lemma CleanByAddress(s: Space, i: nat, addr: nat, end: nat)
    requires Valid(s) && i < |s.sorted| && Base(s, i) == addr
    ensures Clean(s, i, end) <==>
            && (forall a :: addr <= a < end ==> !FreeAt(s, a))
            && !(FreeAt(s, Max(addr, end)) && (addr < end || FreeAt(s, addr - 1)))
  {
    hide Tiles, IdsOk, Meaning;
    if i > 0 {
      TilesNext(Regs(s.table, s.sorted), USER_BASE, USER_CEILING, i);
      MemberOk(s, i - 1);
      FreeAtMember(s, i - 1, addr - 1);
    } else {
      TilesNext(Regs(s.table, s.sorted), USER_BASE, USER_CEILING, 0);
      NotFreeBelow(s);
    }
  }

  lemma NotFreeBelow(s: Space)
    requires Valid(s)
    ensures !FreeAt(s, USER_BASE - 1)
  {
    AttrRange(Regs(s.table, s.sorted), USER_BASE, USER_CEILING, USER_BASE - 1);
  }

  // ---------------------------------------------------------------------
  // Lookup
  // ---------------------------------------------------------------------

  /** A scan of a descriptor list for the region that holds an address. */
  function Scan(table: map<Id, Region>, ids: seq<Id>, a: int): (r: Option<Id>)
    requires Known(table, ids)
    ensures r.Some? ==> r.value in ids && Contains(table[r.value], a)
    ensures r.None? ==> forall id :: id in ids ==> !Contains(table[id], a)
  {
    if ids == [] then None
    else if Contains(table[ids[0]], a) then Some(ids[0])
    else Scan(table, ids[1..], a)
  }

  /** Any region of the list that holds the address is the one the scan finds, so a hint cannot mislead. */
  lemma {:induction false} ScanFinds(table: map<Id, Region>, ids: seq<Id>, lo: int, hi: int, id: Id, a: int)
    requires Known(table, ids) && Tiles(Regs(table, ids), lo, hi) && id in ids && Contains(table[id], a)
    ensures Scan(table, ids, a) == Some(id)
  {
    var rs := Regs(table, ids);
    if id != ids[0] {
      assert Regs(table, ids[1..]) == rs[1..];
      TilesOrder(rs[1..], rs[0].ceiling, hi);
      var k :| 0 <= k < |ids[1..]| && ids[1..][k] == id;
      assert rs[1..][k] == table[id];
      ScanFinds(table, ids[1..], rs[0].ceiling, hi, id, a);
    }
  }

  /** Every user address is in some region. */
  lemma {:induction false} ScanRange(table: map<Id, Region>, ids: seq<Id>, lo: int, hi: int, a: int)
    requires Known(table, ids) && Tiles(Regs(table, ids), lo, hi)
    ensures Scan(table, ids, a).Some? <==> lo <= a < hi
  {
    var rs := Regs(table, ids);
    TilesOrder(rs, lo, hi);
    if ids != [] {
      assert Regs(table, ids[1..]) == rs[1..];
      TilesOrder(rs[1..], rs[0].ceiling, hi);
      ScanRange(table, ids[1..], rs[0].ceiling, hi, a);
    }
  }

  // ---------------------------------------------------------------------
  // All address spaces
  // ---------------------------------------------------------------------

  datatype RegionLists = RegionLists(sorted: seq<Id>, free: seq<Id>, hint: Option<Id>)

  /** The descriptor table, the pool, and the lists of every address space. */
  datatype System = System(table: map<Id, Region>, unused: seq<Id>, spaces: seq<RegionLists>)

  ghost function Used(spaces: seq<RegionLists>): multiset<Id> {
    if spaces == [] then multiset{} else multiset(spaces[0].sorted) + Used(spaces[1..])
  }

  function SpaceOf(y: System, k: nat): Space
    requires k < |y.spaces|
  {
    Space(y.table, y.unused, y.spaces[k].sorted, y.spaces[k].free, y.spaces[k].hint)
  }

  /** An address space is in order, or has been torn down. */
  ghost predicate SpaceOk(s: Space) {
    Known(s.table, s.free) && (Valid(s) || (s.sorted == [] && s.hint.None?))
  }

  /** Every descriptor is in the pool or in one address space, once. */
  ghost predicate SystemOk(y: System) {
    && multiset(y.unused) + Used(y.spaces) == multiset(y.table.Keys)
    && forall k :: 0 <= k < |y.spaces| ==> SpaceOk(SpaceOf(y, k))
  }

  function Put(y: System, k: nat, t: Space): System
    requires k < |y.spaces|
  {
    System(t.table, t.unused, y.spaces[k := RegionLists(t.sorted, t.free, t.hint)])
  }

  lemma Regroup(f: multiset<Id>, b: multiset<Id>, a: multiset<Id>, x: multiset<Id>, y: multiset<Id>)
    requires a + x == b + y
    ensures f + a + x == f + b + y
  {
    assert f + a + x == f + (a + x) && f + b + y == f + (b + y);
  }

  lemma {:induction false} UsedUpdate(spaces: seq<RegionLists>, k: nat, l: RegionLists)
    requires k < |spaces|
    ensures Used(spaces[k := l]) + multiset(spaces[k].sorted) == Used(spaces) + multiset(l.sorted)
  {
    if k > 0 {
      UsedUpdate(spaces[1..], k - 1, l);
      assert spaces[k := l][1..] == spaces[1..][k - 1 := l];
      assert spaces[k := l][0] == spaces[0] && spaces[1..][k - 1] == spaces[k];
      Regroup(multiset(spaces[0].sorted), Used(spaces[1..]), Used(spaces[1..][k - 1 := l]),
              multiset(spaces[k].sorted), multiset(l.sorted));
    } else {
      assert spaces[k := l][1..] == spaces[1..];
    }
  }

  lemma {:induction false} UsedTwo(spaces: seq<RegionLists>, j: nat, k: nat)
    requires j < |spaces| && k < |spaces| && j != k
    ensures multiset(spaces[j].sorted) + multiset(spaces[k].sorted) <= Used(spaces)
  {
    if j > 0 && k > 0 {
      UsedTwo(spaces[1..], j - 1, k - 1);
    } else {
      UsedOne(spaces[1..], if j > 0 then j - 1 else k - 1);
    }
  }

  lemma {:induction false} UsedOne(spaces: seq<RegionLists>, k: nat)
    requires k < |spaces|
    ensures multiset(spaces[k].sorted) <= Used(spaces)
  {
    if k > 0 {
      UsedOne(spaces[1..], k - 1);
    }
  }

  /** No descriptor is in two places. */
  lemma Disjoint(y: System, j: nat, k: nat, id: Id)
    requires SystemOk(y) && j < |y.spaces| && k < |y.spaces| && j != k && id in y.spaces[j].sorted
    ensures id !in y.spaces[k].sorted && id !in y.unused && id in y.table
  {
    UsedTwo(y.spaces, j, k);
    var all := multiset(y.unused) + Used(y.spaces);
    assert all[id] <= 1;
    assert multiset(y.spaces[j].sorted)[id] >= 1;
    assert (multiset(y.spaces[j].sorted) + multiset(y.spaces[k].sorted))[id] <= Used(y.spaces)[id];
    assert id in multiset(y.table.Keys);
  }

  lemma Cancel(u: multiset<Id>, v: multiset<Id>, a: multiset<Id>, b: multiset<Id>, x: multiset<Id>, w: multiset<Id>)
    requires v + x == b + w && x + a == w + u
    ensures u + v == a + b
  {
    forall id
      ensures (u + v)[id] == (a + b)[id]
    {
      assert (v + x)[id] == (b + w)[id] && (x + a)[id] == (w + u)[id];
    }
  }

  /** What one address space does leaves every other one in order and no descriptor unaccounted for. */
  lemma SystemKeeps(y: System, k: nat, t: Space)
    requires SystemOk(y) && k < |y.spaces| && SpaceOk(t) && Conserved(SpaceOf(y, k), t)
    ensures SystemOk(Put(y, k, t))
    ensures Put(y, k, t).table.Keys == y.table.Keys
  {
    var z := Put(y, k, t);
    UsedUpdate(y.spaces, k, RegionLists(t.sorted, t.free, t.hint));
    Cancel(multiset(t.unused), Used(z.spaces), multiset(y.unused), Used(y.spaces), multiset(y.spaces[k].sorted),
           multiset(t.sorted));
    forall j | 0 <= j < |z.spaces|
      ensures SpaceOk(SpaceOf(z, j))
    {
      if j != k {
        OtherSpaceKept(y, j, k, t);
      }
    }
  }

  lemma OtherSpaceKept(y: System, j: nat, k: nat, t: Space)
    requires SystemOk(y) && j < |y.spaces| && k < |y.spaces| && j != k && Conserved(SpaceOf(y, k), t)
    requires SpaceOk(t)
    ensures SpaceOk(SpaceOf(Put(y, k, t), j))
    ensures FreeAgrees(SpaceOf(y, j)) ==> FreeAgrees(SpaceOf(Put(y, k, t), j))
  {
    hide Tiles, IdsOk, Used;
    var s, u := SpaceOf(y, j), SpaceOf(Put(y, k, t), j);
    assert SpaceOk(s);
    forall id | id in s.sorted
      ensures id in u.table && u.table[id] == s.table[id]
    {
      Disjoint(y, j, k, id);
    }
    if Valid(s) {
      RegsSame(s.table, u.table, s.sorted);
      OtherIdsKept(y, j, k, t);
    }
  }

  lemma OtherIdsKept(y: System, j: nat, k: nat, t: Space)
    requires SystemOk(y) && j < |y.spaces| && k < |y.spaces| && j != k && Conserved(SpaceOf(y, k), t)
    requires Valid(SpaceOf(y, j))
    ensures IdsOk(SpaceOf(Put(y, k, t), j))
  {
    hide Tiles, SpaceOk, Used;
    var u := SpaceOf(Put(y, k, t), j);
    UsedTwo(y.spaces, j, k);
    forall id
      ensures (multiset(u.sorted) + multiset(u.unused))[id] <= 1
    {
      assert (multiset(y.spaces[j].sorted) + multiset(y.spaces[k].sorted))[id] <= Used(y.spaces)[id];
      assert (multiset(y.unused) + Used(y.spaces))[id] <= 1;
      assert (multiset(t.sorted) + multiset(t.unused))[id] == (multiset(y.spaces[k].sorted) + multiset(y.unused))[id];
    }
    forall id | id in u.unused
      ensures id in u.table
    {
      assert id in multiset(t.sorted) + multiset(t.unused);
      assert id in multiset(y.unused) + Used(y.spaces) by { UsedOne(y.spaces, k); }
    }
  }

  ghost function Lengths(spaces: seq<RegionLists>): nat {
    if spaces == [] then 0 else |spaces[0].sorted| + Lengths(spaces[1..])
  }

  lemma {:induction false} UsedCount(spaces: seq<RegionLists>)
    ensures |Used(spaces)| == Lengths(spaces)
  {
    if spaces != [] {
      UsedCount(spaces[1..]);
    }
  }

  /** Unused descriptors and the regions of all address spaces add up to the table. */
  lemma DescriptorsTotal(y: System)
    requires SystemOk(y)
    ensures |y.unused| + Lengths(y.spaces) == |y.table|
  {
    UsedCount(y.spaces);
    assert |multiset(y.unused)| == |y.unused|;
    assert |multiset(y.table.Keys)| == |y.table.Keys| == |y.table|;
  }
}
