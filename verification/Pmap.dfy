/**
  Two-level page tables (boards/raspberry_pi_4/pmap.c).

  A directory entry of an address space points to a table of 256 page-table entries.
  Beside each entry the kernel keeps its flags, and each page frame keeps a list of
  the entries that map it. All of it together stands for a partial map from pages to
  physical addresses and flags.
 */
module Pmap {
  import opened Lists

  const PAGE_SIZE: nat := 4096
  const ENTRIES: nat := 256

  datatype CachePolicy = Default | WriteBack | WriteThru | WriteCombine | Uncacheable

  datatype Flags = Flags(write: bool, exec: bool, cow: bool, phys: bool, cache: CachePolicy)

  /** A page that holds a table. */
  datatype Tid = Tid(page: nat)

  /** Address space and index in its directory. */
  datatype Dir = Dir(space: nat, pde: nat)

  /** One entry of one table. */
  datatype Vpte = Vpte(table: Tid, idx: nat)

  datatype Table = Table(ptes: seq<nat>, flags: seq<Flags>, refs: int)

  datatype State = State(dirs: map<Dir, Tid>, tables: map<Tid, Table>, pool: set<Tid>, lists: map<nat, seq<Vpte>>)

  // ---------------------------------------------------------------------
  // Entries
  // ---------------------------------------------------------------------

  const L2_NX: nat := 0x1
  const L2_TYPE_S: nat := 0x2
  const L2_B: nat := 0x4
  const L2_C: nat := 0x8
  const L2_AP_RWKU: nat := 0x30
  const L2_AP_RKU: nat := 0x230

  function CacheBits(f: Flags): nat {
    match f.cache
    case Default => if f.phys then 0 else L2_C + L2_B
    case WriteBack => L2_B + L2_C
    case WriteThru => L2_C
    case WriteCombine => L2_B
    case Uncacheable => 0
  }

  /** pmap_calc_pa_bits: the bits are disjoint, so their union is their sum. */
  function PaBits(f: Flags): (b: nat)
    ensures b < PAGE_SIZE && Present(b)
  {
    L2_TYPE_S
    + (if f.write && !f.cow then L2_AP_RWKU else L2_AP_RKU)
    + (if f.exec then 0 else L2_NX)
    + CacheBits(f)
  }

  predicate Present(w: nat) {
    w % 4 != 0
  }

  /** The bit of value m. */
  predicate Bit(w: nat, m: nat)
    requires m > 0
  {
    w / m % 2 == 1
  }

  /** XN, bit 0. */
  predicate NeverExecute(w: nat) {
    w % 2 == 1
  }

  /** Bit 1: the entry is for a small page. */
  predicate SmallPage(w: nat) {
    Bit(w, 0x2)
  }

  /** AP[1], bit 5: user code may read. */
  predicate UserReads(w: nat) {
    Bit(w, 0x20)
  }

  /** AP[2], bit 9: the entry is read-only. */
  predicate ReadOnly(w: nat) {
    Bit(w, 0x200)
  }

  /** AP[2:0] is 011, bits 9, 5 and 4: user code may write; with 010 only the kernel could. */
  predicate UserWrites(w: nat) {
    !Bit(w, 0x200) && Bit(w, 0x20) && Bit(w, 0x10)
  }

  /** C and B, bits 3 and 2: how the hardware caches the page. */
  function Caching(w: nat): CachePolicy {
    if Bit(w, 0x8) then (if Bit(w, 0x4) then WriteBack else WriteThru)
    else if Bit(w, 0x4) then WriteCombine
    else Uncacheable
  }

  /** What a caller asks for: by default memory is cached and devices are not. */
  function Wanted(f: Flags): CachePolicy {
    if f.cache != Default then f.cache else if f.phys then Uncacheable else WriteBack
  }

  function Pa(w: nat): nat {
    w / PAGE_SIZE * PAGE_SIZE
  }

  function Encode(pa: nat, f: Flags): nat {
    pa + PaBits(f)
  }

  lemma BitsMean(f: Flags)
    ensures NeverExecute(PaBits(f)) <==> !f.exec
    ensures ReadOnly(PaBits(f)) <==> !f.write || f.cow
    ensures SmallPage(PaBits(f)) && UserReads(PaBits(f)) && Caching(PaBits(f)) == Wanted(f)
    ensures UserWrites(PaBits(f)) <==> f.write && !f.cow
  {
  }

  lemma Parts(m: nat, q: nat, r: nat)
    requires m == 2 || m == 4 || m == 8 || m == 0x20 || m == 0x200 || m == PAGE_SIZE
    requires r < m
    ensures (m * q + r) / m == q && (m * q + r) % m == r
  {
  }

  lemma WordFrame(k: nat, b: nat)
    requires b < PAGE_SIZE
    ensures (PAGE_SIZE * k + b) / PAGE_SIZE == k
  {
    Parts(PAGE_SIZE, k, b);
  }

  lemma WordLow(k: nat, b: nat)
    ensures Present(PAGE_SIZE * k + b) == Present(b)
    ensures NeverExecute(PAGE_SIZE * k + b) == NeverExecute(b)
  {
    Parts(4, 1024 * k + b / 4, b % 4);
    Parts(2, 2048 * k + b / 2, b % 2);
    assert b == 4 * (b / 4) + b % 4 && b == 2 * (b / 2) + b % 2;
  }

  /** A word that is x pairs of m's above b has the same bit of value m. */
  lemma SameBit(w: nat, b: nat, m: nat, x: nat)
    requires m > 0 && w / m == 2 * x + b / m
    ensures Bit(w, m) == Bit(b, m)
  {
    var q := b / m;
    Parts(2, x + q / 2, q % 2);
    assert 2 * x + q == 2 * (x + q / 2) + q % 2;
  }

  /** The address does not reach into the low bits. */
  lemma WordBits(k: nat, b: nat)
    ensures var w := PAGE_SIZE * k + b;
            && Bit(w, 0x2) == Bit(b, 0x2) && Bit(w, 0x4) == Bit(b, 0x4) && Bit(w, 0x8) == Bit(b, 0x8)
            && Bit(w, 0x10) == Bit(b, 0x10) && Bit(w, 0x20) == Bit(b, 0x20) && Bit(w, 0x200) == Bit(b, 0x200)
  {
    hide Bit;
    var w := PAGE_SIZE * k + b;
    SameBit(w, b, 0x2, 1024 * k);
    SameBit(w, b, 0x4, 512 * k);
    SameBit(w, b, 0x8, 256 * k);
    SameBit(w, b, 0x10, 128 * k);
    SameBit(w, b, 0x20, 64 * k);
    SameBit(w, b, 0x200, 4 * k);
  }

  /**
    The hardware reads an entry as it was meant: a small page at its address, open to user
    code, which may write exactly when the page is writable and not copy-on-write and may
    execute exactly when it may, cached as asked for.
   */
  lemma EncodeIsFaithful(pa: nat, f: Flags)
    requires pa % PAGE_SIZE == 0
    ensures var w := Encode(pa, f);
            && Present(w) && SmallPage(w) && Pa(w) == pa && w / PAGE_SIZE == pa / PAGE_SIZE
            && UserReads(w) && (UserWrites(w) <==> f.write && !f.cow)
            && (ReadOnly(w) <==> !f.write || f.cow)
            && (NeverExecute(w) <==> !f.exec)
            && Caching(w) == Wanted(f)
  {
    hide PaBits, Present, Bit, NeverExecute;
    BitsMean(f);
    var k, b := pa / PAGE_SIZE, PaBits(f);
    assert pa == PAGE_SIZE * k;
    WordFrame(k, b);
    WordLow(k, b);
    WordBits(k, b);
  }

  // ---------------------------------------------------------------------
  // The invariant
  // ---------------------------------------------------------------------

  function Count(ptes: seq<nat>): nat {
    if ptes == [] then 0 else (if Present(ptes[0]) then 1 else 0) + Count(ptes[1..])
  }

  ghost predicate PteOk(w: nat, f: Flags) {
    if Present(w) then w == Encode(Pa(w), f) else w == 0
  }

  ghost predicate TableOk(t: Table) {
    && |t.ptes| == ENTRIES == |t.flags|
    && (forall i :: 0 <= i < ENTRIES ==> PteOk(t.ptes[i], t.flags[i]))
    && t.refs == Count(t.ptes) > 0
  }

  ghost predicate TablesOk(tables: map<Tid, Table>) {
    forall t :: t in tables ==> TableOk(tables[t])
  }

  /** Every table belongs to one directory entry. */
  ghost predicate DirsOk(dirs: map<Dir, Tid>, tables: map<Tid, Table>, pool: set<Tid>) {
    && (forall d :: d in dirs ==> dirs[d] in tables)
    && (forall d, e :: d in dirs && e in dirs && dirs[d] == dirs[e] ==> d == e)
    && (forall t :: t in tables ==> (exists d :: d in dirs && dirs[d] == t))
    && pool !! tables.Keys
  }

  predicate MapsFrame(tables: map<Tid, Table>, v: Vpte, f: nat) {
    && v.table in tables
    && v.idx < |tables[v.table].ptes| && v.idx < |tables[v.table].flags|
    && Present(tables[v.table].ptes[v.idx])
    && !tables[v.table].flags[v.idx].phys
    && tables[v.table].ptes[v.idx] / PAGE_SIZE == f
  }

  function ListOf(lists: map<nat, seq<Vpte>>, f: nat): seq<Vpte> {
    if f in lists then lists[f] else []
  }

  ghost predicate ListAt(list: seq<Vpte>, tables: map<Tid, Table>, f: nat) {
    && NoDup(list)
    && forall v :: v in list <==> MapsFrame(tables, v, f)
  }

  /** A frame's list is exactly the inverse of the map. */
  ghost predicate ListsOk(lists: map<nat, seq<Vpte>>, tables: map<Tid, Table>) {
    forall f {:trigger ListOf(lists, f)} :: ListAt(ListOf(lists, f), tables, f)
  }

  ghost predicate Inv(s: State) {
    && TablesOk(s.tables)
    && DirsOk(s.dirs, s.tables, s.pool)
    && ListsOk(s.lists, s.tables)
  }

  /** What the tables mean: the physical address and flags of a virtual page. */
  ghost function Lookup(s: State, space: nat, vpn: nat): Option<(nat, Flags)>
    requires Inv(s)
  {
    var d := Dir(space, vpn / ENTRIES);
    if d !in s.dirs then None
    else
      var t := s.tables[s.dirs[d]];
      var w := t.ptes[vpn % ENTRIES];
      if Present(w) then Some((Pa(w), t.flags[vpn % ENTRIES])) else None
  }

  /** The table entry of a mapped page says to the hardware what the tables mean. */
  lemma HardwareAgrees(s: State, space: nat, vpn: nat)
    requires Inv(s) && Lookup(s, space, vpn).Some?
    ensures var (pa, f) := Lookup(s, space, vpn).value; var d := Dir(space, vpn / ENTRIES);
            && d in s.dirs && s.dirs[d] in s.tables && vpn % ENTRIES < |s.tables[s.dirs[d]].ptes|
            && var w := s.tables[s.dirs[d]].ptes[vpn % ENTRIES];
               && Pa(w) == pa && SmallPage(w) && UserReads(w) && Caching(w) == Wanted(f)
               && (UserWrites(w) <==> f.write && !f.cow) && (NeverExecute(w) <==> !f.exec)
  {
    hide ListsOk, Count, Encode, SmallPage, UserReads, UserWrites, NeverExecute, Caching;
    var t := s.tables[s.dirs[Dir(space, vpn / ENTRIES)]];
    assert PteOk(t.ptes[vpn % ENTRIES], t.flags[vpn % ENTRIES]);
    EncodeIsFaithful(Pa(t.ptes[vpn % ENTRIES]), t.flags[vpn % ENTRIES]);
  }

  // ---------------------------------------------------------------------
  // Counting
  // ---------------------------------------------------------------------

  lemma {:induction false} CountSet(ptes: seq<nat>, i: nat, w: nat)
    requires i < |ptes|
    ensures Count(ptes[i := w]) == Count(ptes) - (if Present(ptes[i]) then 1 else 0) + (if Present(w) then 1 else 0)
  {
    if i > 0 {
      CountSet(ptes[1..], i - 1, w);
      assert ptes[i := w][1..] == ptes[1..][i - 1 := w];
    } else {
      assert ptes[i := w][1..] == ptes[1..];
    }
  }

  lemma {:induction false} CountZero(ptes: seq<nat>)
    ensures Count(ptes) == 0 <==> forall i :: 0 <= i < |ptes| ==> !Present(ptes[i])
  {
    if ptes != [] {
      CountZero(ptes[1..]);
      assert forall i :: 0 < i < |ptes| ==> ptes[i] == ptes[1..][i - 1];
      if Count(ptes) == 0 {
        forall i | 0 <= i < |ptes|
          ensures !Present(ptes[i])
        {
          if i > 0 { assert ptes[i] == ptes[1..][i - 1]; }
        }
      }
    }
  }

  function Zeros(): (r: seq<nat>)
    ensures |r| == ENTRIES && forall i :: 0 <= i < ENTRIES ==> r[i] == 0
  {
    seq(ENTRIES, _ => 0)
  }

  const NO_FLAGS: Flags := Flags(false, false, false, false, Default)

  function NoFlags(): (r: seq<Flags>)
    ensures |r| == ENTRIES && forall i :: 0 <= i < ENTRIES ==> r[i] == NO_FLAGS
  {
    seq(ENTRIES, _ => NO_FLAGS)
  }

  const EMPTY_TABLE: Table := Table(Zeros(), NoFlags(), 0)

  // ---------------------------------------------------------------------
  // The operations
  // ---------------------------------------------------------------------

  datatype Status = Ok | Fault | Invalid | NoMemory

  /** One entry and its flags written, with the table's count given. */
  function SetEntry(t: Table, i: nat, w: nat, f: Flags, refs: int): Table
    requires |t.ptes| == ENTRIES == |t.flags| && i < ENTRIES
  {
    Table(t.ptes[i := w], t.flags[i := f], refs)
  }

  predicate Shape(s: State) {
    && (forall d :: d in s.dirs ==> s.dirs[d] in s.tables)
    && (forall t :: t in s.tables ==> |s.tables[t].ptes| == ENTRIES == |s.tables[t].flags|)
  }

  /** An entry in a table that is there. */
  function Fill(s: State, id: Tid, i: nat, pa: nat, f: Flags): State
    requires id in s.tables && |s.tables[id].ptes| == ENTRIES == |s.tables[id].flags| && i < ENTRIES
  {
    var t := s.tables[id];
    var frame := pa / PAGE_SIZE;
    s.(tables := s.tables[id := SetEntry(t, i, Encode(pa, f), f, t.refs + 1)],
       lists := if f.phys then s.lists else s.lists[frame := [Vpte(id, i)] + ListOf(s.lists, frame)])
  }

  /** A fresh table for a directory entry. */
  function NewTable(s: State, d: Dir, id: Tid): State {
    s.(dirs := s.dirs[d := id], tables := s.tables[id := EMPTY_TABLE], pool := s.pool - {id})
  }

  /** free_page on a table page: it goes back to the pool once its count has dropped to zero or below. */
  function FreeTable(s: State, id: Tid): State
    requires id in s.tables
  {
    var refs := s.tables[id].refs - 1;
    if refs > 0 then s.(tables := s.tables[id := s.tables[id].(refs := refs)])
    else s.(tables := s.tables - {id}, pool := s.pool + {id})
  }

  /** pmap_enter; `id` is the page that alloc_page would hand out. */
  function Enter(s: State, space: nat, va: nat, pa: nat, f: Flags, id: Tid): (State, Status)
    requires Shape(s)
  {
    var d, i := Dir(space, va / PAGE_SIZE / ENTRIES), va / PAGE_SIZE % ENTRIES;
    if va == 0 then (s, Fault)
    else if d !in s.dirs then
      if id !in s.pool then (s, NoMemory) else (Fill(NewTable(s, d, id), id, i, pa, f), Ok)
    else if Present(s.tables[s.dirs[d]].ptes[i]) then
      (FreeTable(s.(dirs := s.dirs - {d}), s.dirs[d]), Invalid)
    else (Fill(s, s.dirs[d], i, pa, f), Ok)
  }

  /** An entry made invalid and taken off its frame's list. */
  function Cleared(s: State, id: Tid, i: nat): State
    requires id in s.tables && |s.tables[id].ptes| == ENTRIES == |s.tables[id].flags| && i < ENTRIES
  {
    var t := s.tables[id];
    var frame := t.ptes[i] / PAGE_SIZE;
    s.(tables := s.tables[id := SetEntry(t, i, 0, NO_FLAGS, t.refs - 1)],
       lists := if t.flags[i].phys then s.lists else s.lists[frame := Without(ListOf(s.lists, frame), Vpte(id, i))])
  }

  /** The state after an entry and, if it was the last one, its table are gone. */
  function Removed(s: State, d: Dir, i: nat): State
    requires Shape(s) && d in s.dirs && i < ENTRIES
  {
    var c := Cleared(s, s.dirs[d], i);
    if c.tables[s.dirs[d]].refs == 0 then FreeTable(c.(dirs := c.dirs - {d}), s.dirs[d]) else c
  }

  /** pmap_remove: the table goes with its last entry. */
  function Remove(s: State, space: nat, va: nat): (State, Status)
    requires Shape(s)
  {
    var d, i := Dir(space, va / PAGE_SIZE / ENTRIES), va / PAGE_SIZE % ENTRIES;
    if va == 0 then (s, Fault)
    else if d !in s.dirs || !Present(s.tables[s.dirs[d]].ptes[i]) then (s, Invalid)
    else (Removed(s, d, i), Ok)
  }

  /** The flags of one entry changed. */
  function Protected(s: State, d: Dir, i: nat, f: Flags): State
    requires Shape(s) && d in s.dirs && i < ENTRIES
  {
    var t := s.tables[s.dirs[d]];
    s.(tables := s.tables[s.dirs[d] := SetEntry(t, i, Encode(Pa(t.ptes[i]), f), f, t.refs)])
  }

  /** The page has an entry. */
  predicate CanChange(s: State, space: nat, va: nat) {
    var d := Dir(space, va / PAGE_SIZE / ENTRIES);
    Shape(s) && d in s.dirs && Present(s.tables[s.dirs[d]].ptes[va / PAGE_SIZE % ENTRIES])
  }

  /** pmap_protect on a mapped page; the kernel panics on any other. */
  function Protect(s: State, space: nat, va: nat, f: Flags): State
    requires Shape(s) && (va != 0 ==> CanChange(s, space, va))
  {
    if va == 0 then s
    else Protected(s, Dir(space, va / PAGE_SIZE / ENTRIES), va / PAGE_SIZE % ENTRIES, f)
  }

  // ---------------------------------------------------------------------
  // What each operation keeps
  // ---------------------------------------------------------------------

  lemma SetEntryOk(t: Table, i: nat, w: nat, f: Flags, refs: int)
    requires |t.ptes| == ENTRIES == |t.flags| && i < ENTRIES
    requires forall k :: 0 <= k < ENTRIES ==> PteOk(t.ptes[k], t.flags[k])
    requires PteOk(w, f)
    requires refs == Count(t.ptes) - (if Present(t.ptes[i]) then 1 else 0) + (if Present(w) then 1 else 0)
    ensures refs > 0 ==> TableOk(SetEntry(t, i, w, f, refs))
    ensures refs == Count(SetEntry(t, i, w, f, refs).ptes)
  {
    hide PteOk, Present, Count;
    CountSet(t.ptes, i, w);
  }

  /** Filling an empty entry adds it to its frame's list and changes no other list. */
  lemma FillLists(s: State, id: Tid, i: nat, pa: nat, f: Flags)
    requires ListsOk(s.lists, s.tables) && id in s.tables && |s.tables[id].ptes| == ENTRIES == |s.tables[id].flags|
             && i < ENTRIES
    requires !Present(s.tables[id].ptes[i]) && pa % PAGE_SIZE == 0
    ensures var u := Fill(s, id, i, pa, f); ListsOk(u.lists, u.tables)
  {
    hide Present, PaBits, Encode;
    EncodeIsFaithful(pa, f);
    var u := Fill(s, id, i, pa, f);
    forall frame
      ensures ListAt(ListOf(u.lists, frame), u.tables, frame)
    {
      assert ListAt(ListOf(s.lists, frame), s.tables, frame);
      FillMaps(s, id, i, pa, f, frame);
      assert Vpte(id, i) !in ListOf(s.lists, frame);
    }
  }

  lemma FillMaps(s: State, id: Tid, i: nat, pa: nat, f: Flags, frame: nat)
    requires id in s.tables && |s.tables[id].ptes| == ENTRIES == |s.tables[id].flags| && i < ENTRIES
    requires pa % PAGE_SIZE == 0
    ensures var u := Fill(s, id, i, pa, f);
            forall v :: MapsFrame(u.tables, v, frame) <==>
                        if v == Vpte(id, i) then !f.phys && pa / PAGE_SIZE == frame else MapsFrame(s.tables, v, frame)
  {
    hide Present, PaBits, Encode;
    EncodeIsFaithful(pa, f);
  }

  lemma FillKeeps(s: State, d: Dir, i: nat, pa: nat, f: Flags)
    requires DirsOk(s.dirs, s.tables, s.pool) && ListsOk(s.lists, s.tables) && d in s.dirs && pa % PAGE_SIZE == 0
             && i < ENTRIES
    requires forall t :: t in s.tables && t != s.dirs[d] ==> TableOk(s.tables[t])
    requires var t := s.tables[s.dirs[d]];
             && |t.ptes| == ENTRIES == |t.flags| && !Present(t.ptes[i]) && t.refs == Count(t.ptes)
             && (forall k :: 0 <= k < ENTRIES ==> PteOk(t.ptes[k], t.flags[k]))
    ensures Inv(Fill(s, s.dirs[d], i, pa, f))
  {
    hide Present, PaBits, Encode, Count, ListsOk;
    EncodeIsFaithful(pa, f);
    assert PteOk(Encode(pa, f), f);
    SetEntryOk(s.tables[s.dirs[d]], i, Encode(pa, f), f, s.tables[s.dirs[d]].refs + 1);
    FillLists(s, s.dirs[d], i, pa, f);
  }

  lemma EmptyTableOk()
    ensures Count(EMPTY_TABLE.ptes) == 0 && forall k :: 0 <= k < ENTRIES ==>
            PteOk(EMPTY_TABLE.ptes[k], EMPTY_TABLE.flags[k])
  {
    CountZero(EMPTY_TABLE.ptes);
  }

  lemma EmptyEntry(i: nat)
    requires i < ENTRIES
    ensures |EMPTY_TABLE.ptes| == ENTRIES == |EMPTY_TABLE.flags| && !Present(EMPTY_TABLE.ptes[i])
  {
  }

  lemma NewTableLists(s: State, d: Dir, id: Tid)
    requires Inv(s) && id in s.pool
    ensures var u := NewTable(s, d, id); ListsOk(u.lists, u.tables)
  {
    hide TableOk;
    var u := NewTable(s, d, id);
    forall frame
      ensures ListAt(ListOf(u.lists, frame), u.tables, frame)
    {
      assert ListAt(ListOf(s.lists, frame), s.tables, frame);
      forall v
        ensures MapsFrame(u.tables, v, frame) <==> MapsFrame(s.tables, v, frame)
      {
        assert v.table == id ==> !MapsFrame(u.tables, v, frame) && !MapsFrame(s.tables, v, frame);
      }
    }
  }

  lemma NewTableDirs(s: State, d: Dir, id: Tid)
    requires Inv(s) && d !in s.dirs && id in s.pool
    ensures var u := NewTable(s, d, id); DirsOk(u.dirs, u.tables, u.pool)
  {
    hide TableOk, ListsOk;
    var u := NewTable(s, d, id);
    forall t | t in u.tables
      ensures exists e :: e in u.dirs && u.dirs[e] == t
    {
      if t == id {
        assert u.dirs[d] == id;
      } else {
        var e :| e in s.dirs && s.dirs[e] == t;
        assert e in u.dirs && u.dirs[e] == t;
      }
    }
  }

  lemma InvShape(s: State)
    requires Inv(s)
    ensures Shape(s)
  {
    hide ListsOk, PteOk, Count;
  }

  /** A page-table entry of one directory entry. */
  ghost function LookupAt(s: State, d: Dir, i: nat): Option<(nat, Flags)>
    requires Inv(s) && i < ENTRIES
  {
    if d in s.dirs && Present(s.tables[s.dirs[d]].ptes[i])
    then Some((Pa(s.tables[s.dirs[d]].ptes[i]), s.tables[s.dirs[d]].flags[i]))
    else None
  }

  lemma LookupIsAt(s: State, space: nat, vpn: nat)
    requires Inv(s)
    ensures Lookup(s, space, vpn) == LookupAt(s, Dir(space, vpn / ENTRIES), vpn % ENTRIES)
  {
    hide ListsOk, PteOk, Count;
  }

  /** Directory and entry index name a page, and no two pages share them. */
  lemma PagesDiffer(v: nat, w: nat)
    requires v / ENTRIES == w / ENTRIES && v % ENTRIES == w % ENTRIES
    ensures v == w
  {
  }

  /** Two states that differ in one entry differ in the meaning of one page. */
  lemma OnePageChanged(s: State, u: State, d: Dir, i: nat, space: nat, vpn: nat)
    requires Inv(s) && Inv(u) && i < ENTRIES && d == Dir(space, vpn / ENTRIES) && i == vpn % ENTRIES
    requires forall e: Dir, k: nat :: k < ENTRIES && (e != d || k != i) ==> LookupAt(u, e, k) == LookupAt(s, e, k)
    ensures forall a: nat, v: nat :: a != space || v != vpn ==> Lookup(u, a, v) == Lookup(s, a, v)
  {
    hide Inv, LookupAt, Lookup;
    forall a: nat, v: nat | a != space || v != vpn
      ensures Lookup(u, a, v) == Lookup(s, a, v)
    {
      LookupIsAt(u, a, v);
      LookupIsAt(s, a, v);
      if v / ENTRIES == vpn / ENTRIES && v % ENTRIES == vpn % ENTRIES {
        PagesDiffer(v, vpn);
      }
      assert Dir(a, v / ENTRIES) != d || v % ENTRIES != i;
    }
  }

  lemma FillLookup(s: State, d: Dir, i: nat, pa: nat, f: Flags)
    requires Inv(s) && d in s.dirs && i < ENTRIES && pa % PAGE_SIZE == 0 && !Present(s.tables[s.dirs[d]].ptes[i])
    ensures var u := Fill(s, s.dirs[d], i, pa, f);
            && Inv(u)
            && LookupAt(u, d, i) == Some((pa, f))
            && forall e: Dir, k: nat :: k < ENTRIES && (e != d || k != i) ==> LookupAt(u, e, k) == LookupAt(s, e, k)
  {
    hide Present, PaBits, Encode, Count, ListsOk, PteOk;
    FillKeeps(s, d, i, pa, f);
    EncodeIsFaithful(pa, f);
  }

  lemma NewFillLookup(s: State, d: Dir, id: Tid, i: nat, pa: nat, f: Flags)
    requires Inv(s) && d !in s.dirs && id in s.pool && i < ENTRIES && pa % PAGE_SIZE == 0
    ensures var u := Fill(NewTable(s, d, id), id, i, pa, f);
            && Inv(u)
            && LookupAt(u, d, i) == Some((pa, f))
            && forall e: Dir, k: nat :: k < ENTRIES && (e != d || k != i) ==> LookupAt(u, e, k) == LookupAt(s, e, k)
  {
    hide PaBits, Encode, Count, ListsOk, PteOk;
    var m := NewTable(s, d, id);
    NewTableLists(s, d, id);
    NewTableDirs(s, d, id);
    EmptyTableOk();
    FillKeeps(m, d, i, pa, f);
    EncodeIsFaithful(pa, f);
  }

  /**
    pmap_enter maps exactly one page, and fails only for address zero, for want of a
    page table, or when the page is mapped already.
   */
  lemma EnterKeeps(s: State, space: nat, va: nat, pa: nat, f: Flags, id: Tid)
    requires Inv(s) && pa % PAGE_SIZE == 0
    ensures Shape(s)
    ensures var (u, st) := Enter(s, space, va, pa, f, id); var vpn := va / PAGE_SIZE;
            && (st == Fault <==> va == 0)
            && (st == Invalid <==> va != 0 && Lookup(s, space, vpn).Some?)
            && (st == NoMemory <==> va != 0 && Dir(space, vpn / ENTRIES) !in s.dirs && id !in s.pool)
            && (st == Ok ==> Inv(u) && Lookup(u, space, vpn) == Some((pa, f))
                             && forall a: nat, v: nat :: a != space || v != vpn ==> Lookup(u, a, v) == Lookup(s, a, v))
            && (st == Fault || st == NoMemory ==> u == s)
  {
    hide Present, PaBits, Encode, Count, ListsOk, PteOk, Fill, NewTable, FreeTable;
    InvShape(s);
    var vpn := va / PAGE_SIZE;
    var d, i := Dir(space, vpn / ENTRIES), vpn % ENTRIES;
    var (u, st) := Enter(s, space, va, pa, f, id);
    if st == Ok {
      if d in s.dirs {
        FillLookup(s, d, i, pa, f);
      } else {
        NewFillLookup(s, d, id, i, pa, f);
      }
      OnePageChanged(s, u, d, i, space, vpn);
      LookupIsAt(u, space, vpn);
    }
  }

  lemma ClearedLists(s: State, id: Tid, i: nat)
    requires ListsOk(s.lists, s.tables) && id in s.tables && |s.tables[id].ptes| == ENTRIES == |s.tables[id].flags|
             && i < ENTRIES
    ensures var u := Cleared(s, id, i); ListsOk(u.lists, u.tables)
  {
    var u := Cleared(s, id, i);
    assert !Present(0);
    forall frame
      ensures ListAt(ListOf(u.lists, frame), u.tables, frame)
    {
      hide Present, NoDup, Without;
      assert ListAt(ListOf(s.lists, frame), s.tables, frame);
      assert forall v :: MapsFrame(u.tables, v, frame) <==> v != Vpte(id, i) && MapsFrame(s.tables, v, frame);
    }
  }

  lemma ClearedTables(s: State, id: Tid, i: nat)
    requires TablesOk(s.tables) && id in s.tables && i < ENTRIES && Present(s.tables[id].ptes[i])
    ensures var u := Cleared(s, id, i);
            && u.tables[id].refs == Count(u.tables[id].ptes) == s.tables[id].refs - 1
            && (u.tables[id].refs > 0 ==> TablesOk(u.tables))
            && (forall t :: t in u.tables && t != id ==> TableOk(u.tables[t]))
  {
    hide Count, Encode;
    SetEntryOk(s.tables[id], i, 0, NO_FLAGS, s.tables[id].refs - 1);
  }

  /** A table without entries can be given back. */
  lemma FreeEmptyTable(s: State, d: Dir)
    requires DirsOk(s.dirs, s.tables, s.pool) && ListsOk(s.lists, s.tables) && d in s.dirs
    requires var t := s.tables[s.dirs[d]]; t.refs == Count(t.ptes) == 0
    requires forall t :: t in s.tables && t != s.dirs[d] ==> TableOk(s.tables[t])
    ensures var u := FreeTable(s.(dirs := s.dirs - {d}), s.dirs[d]);
            Inv(u) && u.dirs == s.dirs - {d} && u.tables == s.tables - {s.dirs[d]} && u.pool == s.pool + {s.dirs[d]}
  {
    hide TableOk, Present;
    var id := s.dirs[d];
    var u := FreeTable(s.(dirs := s.dirs - {d}), id);
    CountZero(s.tables[id].ptes);
    forall frame
      ensures ListAt(ListOf(u.lists, frame), u.tables, frame)
    {
      assert ListAt(ListOf(s.lists, frame), s.tables, frame);
      assert forall v :: MapsFrame(u.tables, v, frame) <==> MapsFrame(s.tables, v, frame);
    }
    DropDirs(s, d);
  }

  lemma RemovedInv(s: State, d: Dir, i: nat)
    requires Inv(s) && Shape(s) && d in s.dirs && i < ENTRIES && Present(s.tables[s.dirs[d]].ptes[i])
    ensures var u := Removed(s, d, i); var id := s.dirs[d];
            && Inv(u)
            && if Count(s.tables[id].ptes) == 1
               then u.dirs == s.dirs - {d} && u.tables == s.tables - {id} && id in u.pool
               else u.dirs == s.dirs && u.tables == Cleared(s, id, i).tables
  {
    hide Count, ListsOk, PteOk, Encode, Present;
    var id := s.dirs[d];
    var c := Cleared(s, id, i);
    ClearedLists(s, id, i);
    ClearedTables(s, id, i);
    if c.tables[id].refs == 0 {
      FreeEmptyTable(c, d);
      assert c.tables - {id} == s.tables - {id};
    }
  }

  lemma OnlyEntry(ptes: seq<nat>, i: nat, k: nat)
    requires i < |ptes| && k < |ptes| && k != i && Present(ptes[i]) && Count(ptes) == 1
    ensures !Present(ptes[k])
  {
    CountSet(ptes, i, 0);
    CountZero(ptes[i := 0]);
    assert ptes[k] == ptes[i := 0][k];
  }

  lemma RemoveLookup(s: State, d: Dir, i: nat, e: Dir, k: nat)
    requires Inv(s) && Shape(s) && d in s.dirs && i < ENTRIES && Present(s.tables[s.dirs[d]].ptes[i]) && k < ENTRIES
    ensures var u := Removed(s, d, i);
            Inv(u) && LookupAt(u, e, k) == if e == d && k == i then None else LookupAt(s, e, k)
  {
    hide Count, ListsOk, PteOk, Encode, TableOk, FreeTable;
    RemovedInv(s, d, i);
    var t := s.tables[s.dirs[d]];
    if Count(t.ptes) == 1 && e == d && k != i {
      OnlyEntry(t.ptes, i, k);
    }
  }

  /** pmap_remove unmaps exactly one page. */
  lemma RemoveKeeps(s: State, space: nat, va: nat)
    requires Inv(s)
    ensures Shape(s)
    ensures var (u, st) := Remove(s, space, va); var vpn := va / PAGE_SIZE;
            && (st == Fault <==> va == 0)
            && (st == Ok <==> va != 0 && Lookup(s, space, vpn).Some?)
            && (st == Invalid <==> va != 0 && Lookup(s, space, vpn).None?)
            && (st != Ok ==> u == s)
            && (st == Ok ==> Inv(u) && Lookup(u, space, vpn).None?
                             && forall a: nat, v: nat :: a != space || v != vpn ==> Lookup(u, a, v) == Lookup(s, a, v))
  {
    hide Present, Count, ListsOk, PteOk, Removed, TableOk, LookupAt;
    InvShape(s);
    var vpn := va / PAGE_SIZE;
    var d, i := Dir(space, vpn / ENTRIES), vpn % ENTRIES;
    var (u, st) := Remove(s, space, va);
    if st == Ok {
      RemoveLookup(s, d, i, d, i);
      forall e: Dir, k: nat | k < ENTRIES && (e != d || k != i)
        ensures LookupAt(u, e, k) == LookupAt(s, e, k)
      {
        RemoveLookup(s, d, i, e, k);
      }
      OnePageChanged(s, u, d, i, space, vpn);
      LookupIsAt(u, space, vpn);
    }
  }

  /** A page table exists exactly as long as some page in its reach is mapped. */
  lemma TableIffMapped(s: State, d: Dir)
    requires Inv(s)
    ensures d in s.dirs <==> exists k: nat :: k < ENTRIES && LookupAt(s, d, k).Some?
  {
    hide ListsOk, PteOk;
    if d in s.dirs {
      CountZero(s.tables[s.dirs[d]].ptes);
      var k: nat :| k < ENTRIES && Present(s.tables[s.dirs[d]].ptes[k]);
      assert LookupAt(s, d, k).Some?;
    }
  }

  // ---------------------------------------------------------------------
  // pmap_protect
  // ---------------------------------------------------------------------

  lemma ProtectedTables(s: State, d: Dir, i: nat, f: Flags)
    requires Inv(s) && Shape(s) && d in s.dirs && i < ENTRIES && Present(s.tables[s.dirs[d]].ptes[i])
    ensures var u := Protected(s, d, i, f); TablesOk(u.tables) && DirsOk(u.dirs, u.tables, u.pool)
  {
    hide Count, ListsOk, Encode, Present;
    var t := s.tables[s.dirs[d]];
    PaAligned(t.ptes[i]);
    EncodeIsFaithful(Pa(t.ptes[i]), f);
    SetEntryOk(t, i, Encode(Pa(t.ptes[i]), f), f, t.refs);
  }

  lemma PaAligned(w: nat)
    ensures Pa(w) % PAGE_SIZE == 0 && Pa(w) / PAGE_SIZE == w / PAGE_SIZE
  {
  }

  lemma ProtectedMaps(s: State, d: Dir, i: nat, f: Flags, frame: nat)
    requires Shape(s) && d in s.dirs && i < ENTRIES && Present(s.tables[s.dirs[d]].ptes[i])
    ensures var u := Protected(s, d, i, f); var v := Vpte(s.dirs[d], i);
            && (forall x :: x != v ==> (MapsFrame(u.tables, x, frame) <==> MapsFrame(s.tables, x, frame)))
            && (MapsFrame(u.tables, v, frame) <==> !f.phys && s.tables[s.dirs[d]].ptes[i] / PAGE_SIZE == frame)
  {
    hide Count, Encode, Present;
    var w := s.tables[s.dirs[d]].ptes[i];
    PaAligned(w);
    EncodeIsFaithful(Pa(w), f);
  }

  /**
    Changing a page's protection keeps the reverse lists right exactly when it does not
    change whether the page is physical.
   */
  lemma ProtectedInv(s: State, d: Dir, i: nat, f: Flags)
    requires Inv(s) && Shape(s) && d in s.dirs && i < ENTRIES && Present(s.tables[s.dirs[d]].ptes[i])
    ensures Inv(Protected(s, d, i, f)) <==> f.phys == s.tables[s.dirs[d]].flags[i].phys
  {
    hide Count, Encode, Present, TablesOk, DirsOk, Protected, MapsFrame, NoDup;
    ProtectedTables(s, d, i, f);
    var u := Protected(s, d, i, f);
    var t := s.tables[s.dirs[d]];
    var v := Vpte(s.dirs[d], i);
    assert u.lists == s.lists by { ProtectedKeepsLists(s, d, i, f); }
    forall frame
      ensures f.phys == t.flags[i].phys ==> ListAt(ListOf(u.lists, frame), u.tables, frame)
    {
      assert ListAt(ListOf(s.lists, frame), s.tables, frame);
      ProtectedMaps(s, d, i, f, frame);
      OwnFrame(s, d, i, frame);
    }
    if f.phys != t.flags[i].phys {
      var frame := t.ptes[i] / PAGE_SIZE;
      assert ListAt(ListOf(s.lists, frame), s.tables, frame);
      ProtectedMaps(s, d, i, f, frame);
      OwnFrame(s, d, i, frame);
      assert !ListAt(ListOf(u.lists, frame), u.tables, frame);
    }
  }

  lemma ProtectedKeepsLists(s: State, d: Dir, i: nat, f: Flags)
    requires Shape(s) && d in s.dirs && i < ENTRIES
    ensures Protected(s, d, i, f).lists == s.lists
  {
  }

  lemma OwnFrame(s: State, d: Dir, i: nat, frame: nat)
    requires Shape(s) && d in s.dirs && i < ENTRIES && Present(s.tables[s.dirs[d]].ptes[i])
    ensures MapsFrame(s.tables, Vpte(s.dirs[d], i), frame) <==>
            !s.tables[s.dirs[d]].flags[i].phys && s.tables[s.dirs[d]].ptes[i] / PAGE_SIZE == frame
  {
  }

  lemma ProtectedLookup(s: State, d: Dir, i: nat, f: Flags)
    requires Inv(s) && Shape(s) && d in s.dirs && i < ENTRIES && Present(s.tables[s.dirs[d]].ptes[i])
    requires Inv(Protected(s, d, i, f))
    ensures var u := Protected(s, d, i, f);
            && LookupAt(u, d, i) == Some((Pa(s.tables[s.dirs[d]].ptes[i]), f))
            && forall e: Dir, k: nat :: k < ENTRIES && (e != d || k != i) ==> LookupAt(u, e, k) == LookupAt(s, e, k)
  {
    hide Present, PaBits, Encode, Count, ListsOk, PteOk;
    PaAligned(s.tables[s.dirs[d]].ptes[i]);
    EncodeIsFaithful(Pa(s.tables[s.dirs[d]].ptes[i]), f);
  }

  /** pmap_protect changes the flags of exactly one page and leaves its address alone. */
  lemma ProtectKeeps(s: State, space: nat, va: nat, f: Flags)
    requires Inv(s) && va != 0 && Lookup(s, space, va / PAGE_SIZE).Some?
    ensures Shape(s)
    ensures var u := Protect(s, space, va, f); var vpn := va / PAGE_SIZE;
            var (pa, before) := Lookup(s, space, vpn).value;
            && (Inv(u) <==> f.phys == before.phys)
            && (Inv(u) ==> Lookup(u, space, vpn) == Some((pa, f))
                           && forall a: nat, v: nat :: a != space || v != vpn ==> Lookup(u, a, v) == Lookup(s, a, v))
  {
    hide Present, Count, ListsOk, PteOk, TableOk, Encode, LookupAt, DirsOk;
    InvShape(s);
    var vpn := va / PAGE_SIZE;
    var d, i := Dir(space, vpn / ENTRIES), vpn % ENTRIES;
    var u := Protect(s, space, va, f);
    ProtectedInv(s, d, i, f);
    if Inv(u) {
      ProtectedLookup(s, d, i, f);
      OnePageChanged(s, u, d, i, space, vpn);
      LookupIsAt(u, space, vpn);
    }
  }

  // ---------------------------------------------------------------------
  // Entering a page that is mapped already
  // ---------------------------------------------------------------------

  /**
    pmap_enter on a mapped page drops the whole page table. What is left is in order
    exactly when that table had no other entry and the page was a physical mapping.
   */
  lemma EnterMapped(s: State, space: nat, va: nat, pa: nat, f: Flags, id: Tid)
    requires Inv(s) && va != 0 && Lookup(s, space, va / PAGE_SIZE).Some?
    ensures Shape(s)
    ensures var (u, st) := Enter(s, space, va, pa, f, id); var vpn := va / PAGE_SIZE;
            var d := Dir(space, vpn / ENTRIES);
            && st == Invalid && d !in u.dirs && d in s.dirs
            && (Inv(u) <==> Count(s.tables[s.dirs[d]].ptes) == 1 && Lookup(s, space, vpn).value.1.phys)
  {
    hide Count, ListsOk, PteOk, Encode, PaBits;
    InvShape(s);
    var vpn := va / PAGE_SIZE;
    var d, i := Dir(space, vpn / ENTRIES), vpn % ENTRIES;
    var t := s.dirs[d];
    var (u, st) := Enter(s, space, va, pa, f, id);
    if Count(s.tables[t].ptes) > 1 {
      assert t in u.tables && forall e :: e in u.dirs ==> u.dirs[e] != t;
    } else if Lookup(s, space, vpn).value.1.phys {
      DropPhysTable(s, d, i);
    } else {
      DropStale(s, d, i);
    }
  }

  lemma DropPhysTable(s: State, d: Dir, i: nat)
    requires Inv(s) && Shape(s) && d in s.dirs && i < ENTRIES && Present(s.tables[s.dirs[d]].ptes[i])
    requires Count(s.tables[s.dirs[d]].ptes) == 1 && s.tables[s.dirs[d]].flags[i].phys
    ensures Inv(FreeTable(s.(dirs := s.dirs - {d}), s.dirs[d]))
  {
    hide Count, PteOk, ListsOk;
    var u := FreeTable(s.(dirs := s.dirs - {d}), s.dirs[d]);
    DropPhysLists(s, d, i);
    DropDirs(s, d);
    assert u.tables == s.tables - {s.dirs[d]};
  }

  lemma DropDirs(s: State, d: Dir)
    requires DirsOk(s.dirs, s.tables, s.pool) && d in s.dirs
    ensures DirsOk(s.dirs - {d}, s.tables - {s.dirs[d]}, s.pool + {s.dirs[d]})
  {
    var dirs := s.dirs - {d};
    forall t | t in s.tables && t != s.dirs[d]
      ensures exists e :: e in dirs && dirs[e] == t
    {
      var e :| e in s.dirs && s.dirs[e] == t;
      assert e in dirs && dirs[e] == t;
    }
  }

  lemma DropPhysLists(s: State, d: Dir, i: nat)
    requires ListsOk(s.lists, s.tables) && Shape(s) && d in s.dirs && i < ENTRIES
             && Present(s.tables[s.dirs[d]].ptes[i])
    requires Count(s.tables[s.dirs[d]].ptes) == 1 && s.tables[s.dirs[d]].flags[i].phys
    ensures ListsOk(s.lists, s.tables - {s.dirs[d]})
  {
    hide Count, NoDup, Present;
    var id := s.dirs[d];
    forall k: nat | k < ENTRIES && k != i
      ensures !Present(s.tables[id].ptes[k])
    {
      OnlyEntry(s.tables[id].ptes, i, k);
    }
    forall frame
      ensures ListAt(ListOf(s.lists, frame), s.tables - {id}, frame)
    {
      assert ListAt(ListOf(s.lists, frame), s.tables, frame);
      assert forall v :: MapsFrame(s.tables - {id}, v, frame) <==> MapsFrame(s.tables, v, frame);
    }
  }

  lemma DropStale(s: State, d: Dir, i: nat)
    requires Inv(s) && Shape(s) && d in s.dirs && i < ENTRIES && Present(s.tables[s.dirs[d]].ptes[i])
    requires Count(s.tables[s.dirs[d]].ptes) == 1 && !s.tables[s.dirs[d]].flags[i].phys
    ensures !Inv(FreeTable(s.(dirs := s.dirs - {d}), s.dirs[d]))
  {
    hide Count, PteOk, Encode, PaBits, NoDup;
    var id := s.dirs[d];
    var u := FreeTable(s.(dirs := s.dirs - {d}), id);
    var v, frame := Vpte(id, i), s.tables[id].ptes[i] / PAGE_SIZE;
    assert ListAt(ListOf(s.lists, frame), s.tables, frame);
    assert MapsFrame(s.tables, v, frame) && !MapsFrame(u.tables, v, frame);
    assert !ListAt(ListOf(u.lists, frame), u.tables, frame);
  }

  // ---------------------------------------------------------------------
  // All runs
  // ---------------------------------------------------------------------

  function Boot(pool: set<Tid>): State {
    State(map[], map[], pool, map[])
  }

  lemma BootOk(pool: set<Tid>)
    ensures Inv(Boot(pool)) && forall a: nat, v: nat :: Lookup(Boot(pool), a, v).None?
  {
  }

  /** Entering a page twice: the second call leaves the page's reverse list pointing into a freed table. */
  lemma EnterTwiceBreaks()
    ensures var s := Boot({Tid(0)}); var va, pa := 0x40_0000, 0x1000;
            var f := Flags(true, false, false, false, Default);
            Inv(s) && Shape(s)
            && var (t, st) := Enter(s, 1, va, pa, f, Tid(0));
               st == Ok && Inv(t) && Shape(t)
               && var (u, st2) := Enter(t, 1, va, pa, f, Tid(0)); st2 == Invalid && !Inv(u)
  {
    hide Inv, Enter, Lookup;
    var s := Boot({Tid(0)});
    var f := Flags(true, false, false, false, Default);
    BootOk({Tid(0)});
    EnterKeeps(s, 1, 0x40_0000, 0x1000, f, Tid(0));
    var (t, st) := Enter(s, 1, 0x40_0000, 0x1000, f, Tid(0));
    EnterMapped(t, 1, 0x40_0000, 0x1000, f, Tid(0));
  }

  datatype Op =
    | DoEnter(space: nat, va: nat, pa: nat, flags: Flags, id: Tid)
    | DoRemove(space: nat, va: nat)
    | DoProtect(space: nat, va: nat, flags: Flags)

  /**
    What callers keep to: aligned frames, no page entered twice, and protect only on mapped
    pages, of the same sort.
   */
  ghost predicate Allowed(s: State, op: Op)
    requires Inv(s)
  {
    match op
    case DoEnter(space, va, pa, _, _) => pa % PAGE_SIZE == 0 && Lookup(s, space, va / PAGE_SIZE).None?
    case DoRemove(_, _) => true
    case DoProtect(space, va, f) =>
      va != 0 ==> Lookup(s, space, va / PAGE_SIZE).Some? && Lookup(s, space, va / PAGE_SIZE).value.1.phys == f.phys
  }

  lemma CanProtect(s: State, space: nat, va: nat)
    requires Inv(s) && Lookup(s, space, va / PAGE_SIZE).Some?
    ensures var d := Dir(space, va / PAGE_SIZE / ENTRIES);
            d in s.dirs && Shape(s) && Present(s.tables[s.dirs[d]].ptes[va / PAGE_SIZE % ENTRIES])
  {
    hide ListsOk, PteOk, Count;
    InvShape(s);
  }

  ghost function Apply(s: State, op: Op): (State, Status)
    requires Inv(s) && Allowed(s, op)
  {
    InvShape(s);
    match op
    case DoEnter(space, va, pa, f, id) => Enter(s, space, va, pa, f, id)
    case DoRemove(space, va) => Remove(s, space, va)
    case DoProtect(space, va, f) =>
      if va == 0 then (s, Ok)
      else
        CanProtect(s, space, va);
        (Protect(s, space, va, f), Ok)
  }

  type Mapping = map<(nat, nat), (nat, Flags)>

  /** Some page of the directory entry is mapped. */
  ghost predicate HasPage(m: Mapping, d: Dir) {
    exists v: nat :: (d.space, v) in m && v / ENTRIES == d.pde
  }

  /** The same operation on a plain map; `short` says that alloc_page has no page to give. */
  ghost function ApplyPlain(m: Mapping, op: Op, short: bool): (Mapping, Status) {
    var k: (nat, nat) := (op.space, op.va / PAGE_SIZE);
    match op
    case DoEnter(_, va, pa, f, _) =>
      if va == 0 then (m, Fault)
      else if k in m then (m, Invalid)
      else if short && !HasPage(m, Dir(op.space, va / PAGE_SIZE / ENTRIES)) then (m, NoMemory)
      else (m[k := (pa, f)], Ok)
    case DoRemove(_, va) => if va == 0 then (m, Fault) else if k in m then (m - {k}, Ok) else (m, Invalid)
    case DoProtect(_, va, f) => (if va != 0 && k in m then m[k := (m[k].0, f)] else m, Ok)
  }

  ghost predicate Stands(s: State, m: Mapping)
    requires Inv(s)
  {
    forall a: nat, v: nat :: Lookup(s, a, v) == if (a, v) in m then Some(m[(a, v)]) else None
  }

  /** A directory entry has a table exactly while one of its pages is mapped. */
  lemma TableIffPage(s: State, m: Mapping, d: Dir)
    requires Inv(s) && Stands(s, m)
    ensures d in s.dirs <==> HasPage(m, d)
  {
    hide Inv, LookupAt, Lookup;
    TableIffMapped(s, d);
    if d in s.dirs {
      var i: nat :| i < ENTRIES && LookupAt(s, d, i).Some?;
      Index(d.pde, i);
      LookupIsAt(s, d.space, d.pde * ENTRIES + i);
      assert (d.space, d.pde * ENTRIES + i) in m;
    }
    if HasPage(m, d) {
      var v: nat :| (d.space, v) in m && v / ENTRIES == d.pde;
      LookupIsAt(s, d.space, v);
    }
  }

  lemma Index(q: nat, i: nat)
    requires i < ENTRIES
    ensures (q * ENTRIES + i) / ENTRIES == q && (q * ENTRIES + i) % ENTRIES == i
  {
  }

  ghost predicate Short(s: State, op: Op) {
    op.DoEnter? && op.id !in s.pool
  }

  lemma StepRefines(s: State, m: Mapping, op: Op)
    requires Inv(s) && Allowed(s, op) && Stands(s, m)
    ensures var (t, st) := Apply(s, op); var (n, plain) := ApplyPlain(m, op, Short(s, op));
            Inv(t) && Stands(t, n) && st == plain
  {
    hide Inv, Lookup, Enter, Remove, Protect, HasPage;
    InvShape(s);
    match op
    case DoEnter(space, va, pa, f, id) =>
      EnterKeeps(s, space, va, pa, f, id);
      TableIffPage(s, m, Dir(space, va / PAGE_SIZE / ENTRIES));
    case DoRemove(space, va) => RemoveKeeps(s, space, va);
    case DoProtect(space, va, f) =>
      if va != 0 {
        CanProtect(s, space, va);
        ProtectKeeps(s, space, va, f);
      }
  }

  ghost predicate IsRun(s: State, run: seq<Op>)
    decreases |run|
  {
    run != [] ==> Inv(s) && Allowed(s, run[0]) && IsRun(Apply(s, run[0]).0, run[1..])
  }

  /** The tables after a run, and what each call returned. */
  ghost function Run(s: State, run: seq<Op>): (State, seq<Status>)
    requires IsRun(s, run)
    decreases |run|
  {
    if run == [] then (s, [])
    else
      var (t, st) := Apply(s, run[0]);
      var (u, rest) := Run(t, run[1..]);
      (u, [st] + rest)
  }

  /** Which calls of the run find no page to allocate. */
  ghost function Shortages(s: State, run: seq<Op>): (r: seq<bool>)
    requires IsRun(s, run)
    ensures |r| == |run|
    decreases |run|
  {
    if run == [] then [] else [Short(s, run[0])] + Shortages(Apply(s, run[0]).0, run[1..])
  }

  ghost function PlainRun(m: Mapping, run: seq<Op>, short: seq<bool>): (Mapping, seq<Status>)
    requires |short| == |run|
    decreases |run|
  {
    if run == [] then (m, [])
    else
      var (n, st) := ApplyPlain(m, run[0], short[0]);
      var (u, rest) := PlainRun(n, run[1..], short[1..]);
      (u, [st] + rest)
  }

  /** Whatever the run, every call returns what it would on a plain map, and the page tables stand for that map. */
  lemma {:induction false} RunRefines(s: State, m: Mapping, run: seq<Op>)
    requires Inv(s) && Stands(s, m) && IsRun(s, run)
    ensures var (t, returned) := Run(s, run); var (n, plain) := PlainRun(m, run, Shortages(s, run));
            Inv(t) && Stands(t, n) && returned == plain
    decreases |run|
  {
    hide Inv, Stands, Apply, ApplyPlain, Allowed, Short;
    if run != [] {
      StepRefines(s, m, run[0]);
      var t := Apply(s, run[0]).0;
      var short := Shortages(s, run);
      assert short[0] == Short(s, run[0]) && short[1..] == Shortages(t, run[1..]);
      RunRefines(t, ApplyPlain(m, run[0], short[0]).0, run[1..]);
    }
  }

  /** The reverse lists and the map are each other's inverse. */
  lemma ReverseListIsExact(s: State, frame: nat)
    requires Inv(s)
    ensures forall space: nat, vpn: nat ::
              var d := Dir(space, vpn / ENTRIES); var r := Lookup(s, space, vpn);
              d in s.dirs ==> (Vpte(s.dirs[d], vpn % ENTRIES) in ListOf(s.lists, frame)
                               <==> r.Some? && !r.value.1.phys && r.value.0 == frame * PAGE_SIZE)
    ensures forall v :: v in ListOf(s.lists, frame) ==> exists d :: d in s.dirs && s.dirs[d] == v.table
  {
    hide Count, PteOk, NoDup, Present;
    assert ListAt(ListOf(s.lists, frame), s.tables, frame);
    forall space: nat, vpn: nat | Dir(space, vpn / ENTRIES) in s.dirs
      ensures var d := Dir(space, vpn / ENTRIES); var r := Lookup(s, space, vpn);
              Vpte(s.dirs[d], vpn % ENTRIES) in ListOf(s.lists, frame)
              <==> r.Some? && !r.value.1.phys && r.value.0 == frame * PAGE_SIZE
    {
      var d := Dir(space, vpn / ENTRIES);
      var t := s.tables[s.dirs[d]];
      assert MapsFrame(s.tables, Vpte(s.dirs[d], vpn % ENTRIES), frame) <==>
             Present(t.ptes[vpn % ENTRIES]) && !t.flags[vpn % ENTRIES].phys
               && t.ptes[vpn % ENTRIES] / PAGE_SIZE == frame;
    }
  }

  // ---------------------------------------------------------------------
  // The code
  // ---------------------------------------------------------------------

  class PageTables {
    var dirs: map<Dir, Tid>
    var tables: map<Tid, Table>
    var pool: set<Tid>
    var lists: map<nat, seq<Vpte>>

    ghost function View(): State
      reads this
    {
      State(dirs, tables, pool, lists)
    }

    /** pmap_alloc_pagetable: every entry of the page is cleared, whatever was in it. */
    method ClearTable(garbage: seq<nat>, oldFlags: seq<Flags>) returns (t: Table)
      requires |garbage| == ENTRIES == |oldFlags|
      ensures t == EMPTY_TABLE
    {
      var ptes, flags := garbage, oldFlags;
      for i := 0 to ENTRIES
        invariant |ptes| == ENTRIES == |flags|
        invariant forall k :: 0 <= k < i ==> ptes[k] == 0 && flags[k] == NO_FLAGS
      {
        ptes, flags := ptes[i := 0], flags[i := NO_FLAGS];
      }
      t := Table(ptes, flags, 0);
      assert ptes == Zeros() && flags == NoFlags();
    }

    method FreePageTable(id: Tid)
      requires id in tables
      modifies `tables, `pool
      ensures View() == FreeTable(old(View()), id)
    {
      tables := tables[id := tables[id].(refs := tables[id].refs - 1)];
      if tables[id].refs > 0 {
        return;
      }
      tables, pool := tables - {id}, pool + {id};
    }

    method PmapEnter(space: nat, va: nat, pa: nat, f: Flags, id: Tid, garbage: seq<nat>, oldFlags: seq<Flags>)
        returns (st: Status)
      requires Inv(View()) && pa % PAGE_SIZE == 0 && |garbage| == ENTRIES == |oldFlags|
      modifies this
      ensures Shape(old(View())) && (View(), st) == Enter(old(View()), space, va, pa, f, id)
      ensures st == Ok ==> Inv(View())
    {
      hide Present, PaBits, Encode, ListsOk, DirsOk, TableOk;
      InvShape(View());
      EnterKeeps(View(), space, va, pa, f, id);
      if va == 0 {
        return Fault;
      }
      var d := Dir(space, va / PAGE_SIZE / ENTRIES);
      if d !in dirs {
        if id !in pool {
          return NoMemory;
        }
        var cleared := ClearTable(garbage, oldFlags);
        pool := pool - {id};
        tables := tables[id := cleared];
        dirs := dirs[d := id];
        EmptyEntry(va / PAGE_SIZE % ENTRIES);
      }
      var pt := dirs[d];
      var i := va / PAGE_SIZE % ENTRIES;
      if Present(tables[pt].ptes[i]) {
        dirs := dirs - {d};
        FreePageTable(pt);
        return Invalid;
      }
      if !f.phys {
        var frame := pa / PAGE_SIZE;
        lists := lists[frame := [Vpte(pt, i)] + ListOf(lists, frame)];
      }
      var t := tables[pt];
      tables := tables[pt := Table(t.ptes[i := Encode(pa, f)], t.flags[i := f], t.refs + 1)];
      return Ok;
    }

    method PmapRemove(space: nat, va: nat) returns (st: Status)
      requires Inv(View())
      modifies this
      ensures Shape(old(View())) && (View(), st) == Remove(old(View()), space, va) && Inv(View())
    {
      hide Present, ListsOk, DirsOk, TableOk, Without;
      InvShape(View());
      RemoveKeeps(View(), space, va);
      if va == 0 {
        return Fault;
      }
      var d := Dir(space, va / PAGE_SIZE / ENTRIES);
      if d !in dirs {
        return Invalid;
      }
      var pt, i := dirs[d], va / PAGE_SIZE % ENTRIES;
      var t := tables[pt];
      if !Present(t.ptes[i]) {
        return Invalid;
      }
      if !t.flags[i].phys {
        var frame := t.ptes[i] / PAGE_SIZE;
        lists := lists[frame := Without(ListOf(lists, frame), Vpte(pt, i))];
      }
      tables := tables[pt := Table(t.ptes[i := 0], t.flags[i := NO_FLAGS], t.refs - 1)];
      if tables[pt].refs == 0 {
        dirs := dirs - {d};
        FreePageTable(pt);
      }
      return Ok;
    }

    method PmapProtect(space: nat, va: nat, f: Flags)
      requires Inv(View()) && (va != 0 ==> Lookup(View(), space, va / PAGE_SIZE).Some?)
      modifies `tables
      ensures va == 0 ==> View() == old(View())
      ensures va != 0 ==> CanChange(old(View()), space, va) && View() == Protect(old(View()), space, va, f)
      ensures va != 0 && Inv(View()) ==> forall a: nat, v: nat :: a != space || v != va / PAGE_SIZE ==>
                Lookup(View(), a, v) == Lookup(old(View()), a, v)
      ensures va != 0 ==> var (pa, before) := Lookup(old(View()), space, va / PAGE_SIZE).value;
                          && (Inv(View()) <==> f.phys == before.phys)
                          && (Inv(View()) ==> Lookup(View(), space, va / PAGE_SIZE) == Some((pa, f)))
    {
      hide Present, ListsOk, DirsOk, TableOk, Encode, Inv, Lookup;
      if va == 0 {
        return;
      }
      CanProtect(View(), space, va);
      ProtectKeeps(View(), space, va, f);
      var pt, i := dirs[Dir(space, va / PAGE_SIZE / ENTRIES)], va / PAGE_SIZE % ENTRIES;
      var t := tables[pt];
      tables := tables[pt := Table(t.ptes[i := Encode(Pa(t.ptes[i]), f)], t.flags[i := f], t.refs)];
      assert View() == Protect(old(View()), space, va, f);
    }

    method PmapExtract(space: nat, va: nat) returns (r: Option<(nat, Flags)>)
      requires Inv(View())
      ensures r == Lookup(View(), space, va / PAGE_SIZE)
    {
      hide Present, ListsOk, PteOk, Count;
      var d := Dir(space, va / PAGE_SIZE / ENTRIES);
      if d !in dirs {
        return None;
      }
      var t, i := tables[dirs[d]], va / PAGE_SIZE % ENTRIES;
      if !Present(t.ptes[i]) {
        return None;
      }
      return Some((Pa(t.ptes[i]), t.flags[i]));
    }
  }
}
