/**
  The page tables under copy-on-write memory: what `CopyOnWrite` does to the entries of an
  address space is what vm/as.c, vm/pagefault.c and vm/mmap.c ask of `Pmap`, call by call,
  so that its results hold of the words the hardware reads.
 */
module MappedMemory {
  import opened Lists
  import C = CopyOnWrite
  import P = Pmap
  import R = CopyOnWriteRuns
  import F = MmapFailure

  type Spaces = map<nat, C.Space>

  /** A table entry, as pmap_extract reports it, says what the copy-on-write entry says. */
  predicate Says(r: (nat, P.Flags), e: C.Pte) {
    r.0 == e.frame * P.PAGE_SIZE && r.1.write == e.write && r.1.cow == e.cow && r.1.phys == e.phys
  }

  ghost predicate JoinedAt(s: P.State, spaces: Spaces, p: nat, a: nat)
    requires P.Inv(s)
  {
    if p in spaces && a in spaces[p] then P.Lookup(s, p, a).Some? && Says(P.Lookup(s, p, a).value, spaces[p][a])
    else P.Lookup(s, p, a).None?
  }

  /** The tables map exactly the pages of the address spaces, with their frames and flags. */
  ghost predicate Joined(s: P.State, spaces: Spaces)
    requires P.Inv(s)
  {
    forall p: nat, a: nat :: JoinedAt(s, spaces, p, a)
  }

  // ---------------------------------------------------------------------
  // One call
  // ---------------------------------------------------------------------

  /** What the entries do not say: execute permission and cache policy. */
  datatype Attrs = Attrs(exec: bool, cache: P.CachePolicy)

  datatype Edit =
    | Enter(p: nat, a: nat, e: C.Pte, attrs: Attrs, id: P.Tid)
    | Remove(p: nat, a: nat)
    | Protect(p: nat, a: nat, e: C.Pte, attrs: Attrs)

  function FlagsOf(e: C.Pte, attrs: Attrs): P.Flags {
    P.Flags(e.write, attrs.exec, e.cow, e.phys, attrs.cache)
  }

  function CallOf(x: Edit): P.Op {
    match x
    case Enter(p, a, e, attrs, id) => P.DoEnter(p, a * P.PAGE_SIZE, e.frame * P.PAGE_SIZE, FlagsOf(e, attrs), id)
    case Remove(p, a) => P.DoRemove(p, a * P.PAGE_SIZE)
    case Protect(p, a, e, attrs) => P.DoProtect(p, a * P.PAGE_SIZE, FlagsOf(e, attrs))
  }

  function EditSpaces(spaces: Spaces, x: Edit): Spaces
    requires x.p in spaces
  {
    if x.Remove? then C.DropPte(spaces, x.p, x.a) else C.SetPte(spaces, x.p, x.a, x.e)
  }

  /** A new page is entered, a mapped one removed, or the flags of a mapped one changed. */
  predicate Fits(spaces: Spaces, x: Edit) {
    && x.p in spaces && x.a > 0
    && match x
       case Enter(p, a, _, _, _) => a !in spaces[p]
       case Remove(p, a) => a in spaces[p]
       case Protect(p, a, e, _) => a in spaces[p] && e.frame == spaces[p][a].frame && e.phys == spaces[p][a].phys
  }

  lemma Page(a: nat)
    ensures a * P.PAGE_SIZE / P.PAGE_SIZE == a && a * P.PAGE_SIZE % P.PAGE_SIZE == 0
    ensures a > 0 ==> a * P.PAGE_SIZE != 0
  {
  }

  lemma MayCall(s: P.State, spaces: Spaces, x: Edit)
    requires P.Inv(s) && Joined(s, spaces) && Fits(spaces, x)
    ensures P.Allowed(s, CallOf(x))
  {
    hide P.Inv, P.Lookup;
    Page(x.a);
    assert JoinedAt(s, spaces, x.p, x.a);
    if x.Enter? {
      Page(x.e.frame);
    }
  }

  /** One page's lookup has changed as the edit says, and no other. */
  ghost predicate OnePage(s: P.State, t: P.State, x: Edit)
    requires P.Inv(s) && P.Inv(t)
  {
    && (if x.Remove? then P.Lookup(t, x.p, x.a).None?
        else P.Lookup(t, x.p, x.a).Some? && Says(P.Lookup(t, x.p, x.a).value, x.e))
    && forall q: nat, b: nat :: q != x.p || b != x.a ==> P.Lookup(t, q, b) == P.Lookup(s, q, b)
  }

  lemma OnePageJoined(s: P.State, t: P.State, spaces: Spaces, x: Edit)
    requires P.Inv(s) && P.Inv(t) && Joined(s, spaces) && Fits(spaces, x) && OnePage(s, t, x)
    ensures Joined(t, EditSpaces(spaces, x))
  {
    hide P.Inv, P.Lookup, Says;
    forall q: nat, b: nat
      ensures JoinedAt(t, EditSpaces(spaces, x), q, b)
    {
      assert JoinedAt(s, spaces, q, b);
    }
  }

  lemma EnterOnePage(s: P.State, x: Edit)
    requires P.Inv(s) && P.Allowed(s, CallOf(x)) && x.Enter? && x.a > 0
    ensures var (t, st) := P.Apply(s, CallOf(x));
            (st == P.Ok && P.Inv(t) && OnePage(s, t, x)) || (st == P.NoMemory && t == s)
  {
    hide P.Inv, P.Lookup, P.Enter;
    Page(x.a);
    Page(x.e.frame);
    P.EnterKeeps(s, x.p, x.a * P.PAGE_SIZE, x.e.frame * P.PAGE_SIZE, FlagsOf(x.e, x.attrs), x.id);
  }

  lemma RemoveOnePage(s: P.State, x: Edit)
    requires P.Inv(s) && P.Allowed(s, CallOf(x)) && x.Remove? && x.a > 0 && P.Lookup(s, x.p, x.a).Some?
    ensures var (t, st) := P.Apply(s, CallOf(x)); st == P.Ok && P.Inv(t) && OnePage(s, t, x)
  {
    hide P.Inv, P.Lookup, P.Remove;
    Page(x.a);
    P.RemoveKeeps(s, x.p, x.a * P.PAGE_SIZE);
  }

  lemma ProtectOnePage(s: P.State, x: Edit)
    requires P.Inv(s) && P.Allowed(s, CallOf(x)) && x.Protect? && x.a > 0
    requires P.Lookup(s, x.p, x.a).Some? && P.Lookup(s, x.p, x.a).value.0 == x.e.frame * P.PAGE_SIZE
    ensures var (t, st) := P.Apply(s, CallOf(x)); st == P.Ok && P.Inv(t) && OnePage(s, t, x)
  {
    hide P.Inv, P.Lookup, P.Protect;
    Page(x.a);
    P.InvShape(s);
    P.CanProtect(s, x.p, x.a * P.PAGE_SIZE);
    P.ProtectKeeps(s, x.p, x.a * P.PAGE_SIZE, FlagsOf(x.e, x.attrs));
  }

  /**
    A call does to the tables what the edit does to the entries; only pmap_enter can fail,
    and then changes nothing.
   */
  lemma CallFollows(s: P.State, spaces: Spaces, x: Edit)
    requires P.Inv(s) && Joined(s, spaces) && Fits(spaces, x)
    ensures P.Allowed(s, CallOf(x))
    ensures var (t, st) := P.Apply(s, CallOf(x));
            && P.Inv(t)
            && (st == P.Ok ==> Joined(t, EditSpaces(spaces, x)))
            && (st != P.Ok ==> x.Enter? && st == P.NoMemory && t == s)
  {
    hide P.Inv, P.Lookup, P.Apply, P.Allowed, EditSpaces, OnePage;
    MayCall(s, spaces, x);
    assert JoinedAt(s, spaces, x.p, x.a);
    match x {
      case Enter(_, _, _, _, _) => EnterOnePage(s, x);
      case Remove(_, _) => RemoveOnePage(s, x);
      case Protect(_, _, _, _) => ProtectOnePage(s, x);
    }
    var (t, st) := P.Apply(s, CallOf(x));
    if st == P.Ok {
      OnePageJoined(s, t, spaces, x);
    }
  }

  // ---------------------------------------------------------------------
  // The calls behind each copy-on-write step
  // ---------------------------------------------------------------------

  ghost predicate AllFit(spaces: Spaces, edits: seq<Edit>)
    decreases |edits|
  {
    edits != [] ==> Fits(spaces, edits[0]) && AllFit(EditSpaces(spaces, edits[0]), edits[1..])
  }

  ghost function EditAll(spaces: Spaces, edits: seq<Edit>): Spaces
    requires AllFit(spaces, edits)
    decreases |edits|
  {
    if edits == [] then spaces else EditAll(EditSpaces(spaces, edits[0]), edits[1..])
  }

  /** What a system call or fault does for one page of one process. */
  datatype PageStep =
    | Map(p: nat, a: nat, write: bool)
    | MapDevice(p: nat, a: nat, frame: nat, write: bool)
    | Unmap(p: nat, a: nat)
    | Fork(p: nat, child: nat, a: nat)
    | Fault(p: nat, a: nat)
    | Cleanup(p: nat, a: nat)

  predicate MayStep(v: C.Vm, x: PageStep) {
    && x.p in v.spaces
    && match x
       case Map(p, a, _) => v.free != [] && a !in v.spaces[p] && C.USER_BASE <= a < C.USER_CEILING
       case MapDevice(p, a, _, _) => a !in v.spaces[p] && C.USER_BASE <= a < C.USER_CEILING
       case Fork(p, c, a) => c in v.spaces && p != c && a !in v.spaces[c]
       case Fault(p, a) => C.Supplied(v, p, a)
       case _ => true
  }

  ghost function DoStep(v: C.Vm, x: PageStep): C.Vm
    requires MayStep(v, x)
  {
    match x
    case Map(p, a, write) => C.MmapOne(v, p, a, write)
    case MapDevice(p, a, f, write) => C.MmapPhysOne(v, p, a, f, write)
    case Unmap(p, a) => C.MunmapOne(v, p, a)
    case Fork(p, c, a) => C.ForkOne(v, p, c, a)
    case Fault(p, a) => C.Fault(v, p, a).0
    case Cleanup(p, a) => C.CleanupOne(v, p, a)
  }

  /** The pmap calls of the step; `id` is the page alloc_page hands out for a table. */
  ghost function CallsOf(v: C.Vm, x: PageStep, attrs: Attrs, id: P.Tid): seq<Edit>
    requires MayStep(v, x)
  {
    match x
    case Map(p, a, write) => [Enter(p, a, C.Pte(C.AllocFrame(v), write, false, false), attrs, id)]
    case MapDevice(p, a, f, write) => [Enter(p, a, C.Pte(f, write, false, true), attrs, id)]
    case Unmap(p, a) => if a in v.spaces[p] then [Remove(p, a)] else []
    case Fork(p, c, a) =>
      if a !in v.spaces[p] then []
      else
        var e := v.spaces[p][a];
        if e.phys then [Enter(c, a, C.Pte(e.frame, true, false, true), Attrs(false, P.Default), id)]
        else if e.write then [Protect(p, a, e.(cow := true), attrs), Enter(c, a, e.(cow := true), attrs, id)]
        else [Enter(c, a, e, attrs, id)]
    case Fault(p, a) =>
      if !C.CanBreak(v, p, a) then []
      else
        var e := v.spaces[p][a];
        var f := if e.frame in v.refs && v.refs[e.frame] > 1 then C.AllocFrame(v) else e.frame;
        [Remove(p, a), Enter(p, a, C.Pte(f, true, false, false), attrs, id)]
    case Cleanup(p, a) => if a in v.spaces[p] then [Remove(p, a)] else []
  }

  lemma OneEdit(spaces: Spaces, x: Edit)
    ensures AllFit(spaces, [x]) <==> Fits(spaces, x)
    ensures Fits(spaces, x) ==> EditAll(spaces, [x]) == EditSpaces(spaces, x)
  {
    assert [x][1..] == [];
    if Fits(spaces, x) {
      assert AllFit(EditSpaces(spaces, x), []);
    }
  }

  lemma TwoEdits(spaces: Spaces, x: Edit, y: Edit)
    requires Fits(spaces, x) && Fits(EditSpaces(spaces, x), y)
    ensures AllFit(spaces, [x, y]) && EditAll(spaces, [x, y]) == EditSpaces(EditSpaces(spaces, x), y)
  {
    assert [x, y][1..] == [y];
    OneEdit(EditSpaces(spaces, x), y);
  }

  lemma SetDropped(spaces: Spaces, p: nat, a: nat, e: C.Pte)
    requires p in spaces
    ensures C.SetPte(C.DropPte(spaces, p, a), p, a, e) == C.SetPte(spaces, p, a, e)
  {
    var s: C.Space := spaces[p];
    assert (s - {a})[a := e] == s[a := e];
  }

  lemma SetSame(spaces: Spaces, p: nat, a: nat)
    requires p in spaces && a in spaces[p]
    ensures C.SetPte(spaces, p, a, spaces[p][a]) == spaces
  {
    var s: C.Space := spaces[p];
    assert s[a := s[a]] == s;
  }

  /** The calls of a step are in order, and together they make the step's change. */
  lemma CallsMakeStep(v: C.Vm, x: PageStep, attrs: Attrs, id: P.Tid)
    requires C.Inv(v) && MayStep(v, x)
    ensures AllFit(v.spaces, CallsOf(v, x, attrs, id))
    ensures EditAll(v.spaces, CallsOf(v, x, attrs, id)) == DoStep(v, x).spaces
  {
    hide C.Exclusive, C.CountsOk;
    var calls := CallsOf(v, x, attrs, id);
    if |calls| == 1 {
      OneEdit(v.spaces, calls[0]);
    }
    match x
    case Fork(p, c, a) =>
      if a in v.spaces[p] {
        ForkCalls(v, x, attrs, id);
      }
    case Fault(p, a) =>
      if C.CanBreak(v, p, a) {
        TwoEdits(v.spaces, calls[0], calls[1]);
        SetDropped(v.spaces, p, a, calls[1].e);
      }
    case _ =>
  }

  lemma ForkCalls(v: C.Vm, x: PageStep, attrs: Attrs, id: P.Tid)
    requires C.Inv(v) && x.Fork? && MayStep(v, x) && x.a in v.spaces[x.p]
    ensures AllFit(v.spaces, CallsOf(v, x, attrs, id))
    ensures EditAll(v.spaces, CallsOf(v, x, attrs, id)) == DoStep(v, x).spaces
  {
    hide C.Exclusive, C.CountsOk;
    var calls := CallsOf(v, x, attrs, id);
    var e := v.spaces[x.p][x.a];
    if |calls| == 1 {
      OneEdit(v.spaces, calls[0]);
      SetSame(v.spaces, x.p, x.a);
    } else {
      TwoEdits(v.spaces, calls[0], calls[1]);
    }
  }

  // ---------------------------------------------------------------------
  // All runs
  // ---------------------------------------------------------------------

  /** Every call of the list succeeds. */
  ghost predicate AllOk(s: P.State, edits: seq<Edit>)
    decreases |edits|
  {
    edits != [] ==>
      && P.Inv(s) && P.Allowed(s, CallOf(edits[0]))
      && P.Apply(s, CallOf(edits[0])).1 == P.Ok
      && AllOk(P.Apply(s, CallOf(edits[0])).0, edits[1..])
  }

  ghost function TablesAfter(s: P.State, edits: seq<Edit>): P.State
    requires AllOk(s, edits)
    decreases |edits|
  {
    if edits == [] then s else TablesAfter(P.Apply(s, CallOf(edits[0])).0, edits[1..])
  }

  lemma {:induction false} CallsFollow(s: P.State, spaces: Spaces, edits: seq<Edit>)
    requires P.Inv(s) && Joined(s, spaces) && AllFit(spaces, edits) && AllOk(s, edits)
    ensures P.Inv(TablesAfter(s, edits)) && Joined(TablesAfter(s, edits), EditAll(spaces, edits))
    decreases |edits|
  {
    hide P.Inv, Joined, EditSpaces, P.Allowed, P.Apply;
    if edits != [] {
      CallFollows(s, spaces, edits[0]);
      CallsFollow(P.Apply(s, CallOf(edits[0])).0, EditSpaces(spaces, edits[0]), edits[1..]);
    }
  }

  datatype Event = Event(step: PageStep, attrs: Attrs, id: P.Tid)

  /** Steps in which no pmap call runs out of memory. */
  ghost predicate IsRun(v: C.Vm, s: P.State, run: seq<Event>)
    decreases |run|
  {
    run != [] ==>
      && MayStep(v, run[0].step)
      && AllOk(s, CallsOf(v, run[0].step, run[0].attrs, run[0].id))
      && IsRun(DoStep(v, run[0].step), TablesAfter(s, CallsOf(v, run[0].step, run[0].attrs, run[0].id)), run[1..])
  }

  ghost function Run(v: C.Vm, s: P.State, run: seq<Event>): (C.Vm, P.State)
    requires IsRun(v, s, run)
    decreases |run|
  {
    if run == [] then (v, s)
    else Run(DoStep(v, run[0].step), TablesAfter(s, CallsOf(v, run[0].step, run[0].attrs, run[0].id)), run[1..])
  }

  lemma StepInv(v: C.Vm, x: PageStep)
    requires C.Inv(v) && MayStep(v, x)
    ensures C.Inv(DoStep(v, x))
  {
    hide C.Inv, C.Fault, C.MmapOne, C.MmapPhysOne, C.MunmapOne, C.ForkOne, C.CleanupOne;
    match x
    case Map(p, a, write) => C.MmapOneInv(v, p, a, write);
    case MapDevice(p, a, f, write) => C.MmapPhysOneInv(v, p, a, f, write);
    case Unmap(p, a) => C.MunmapOneInv(v, p, a);
    case Fork(p, c, a) => C.ForkOneInv(v, p, c, a);
    case Fault(p, a) => C.FaultInv(v, p, a);
    case Cleanup(p, a) => C.CleanupOneInv(v, p, a);
  }

  /** Over every run the page tables stand for the entries of the copy-on-write model. */
  lemma {:induction false} TablesFollowMemory(v: C.Vm, s: P.State, run: seq<Event>)
    requires C.Inv(v) && P.Inv(s) && Joined(s, v.spaces) && IsRun(v, s, run)
    ensures var (w, t) := Run(v, s, run); C.Inv(w) && P.Inv(t) && Joined(t, w.spaces)
    decreases |run|
  {
    hide C.Inv, P.Inv, Joined, MayStep, DoStep, CallsOf, AllOk, AllFit, TablesAfter;
    if run != [] {
      var e := run[0];
      var calls := CallsOf(v, e.step, e.attrs, e.id);
      StepInv(v, e.step);
      CallsMakeStep(v, e.step, e.attrs, e.id);
      CallsFollow(s, v.spaces, calls);
      TablesFollowMemory(DoStep(v, e.step), TablesAfter(s, calls), run[1..]);
    }
  }

  // ---------------------------------------------------------------------
  // What that says about the hardware
  // ---------------------------------------------------------------------

  /** The word of a mapped page. */
  ghost function Word(s: P.State, x: P.Vpte): nat
    requires P.Inv(s) && x.table in s.tables && x.idx < P.ENTRIES
  {
    s.tables[x.table].ptes[x.idx]
  }

  lemma ListEntry(s: P.State, spaces: Spaces, f: nat, x: P.Vpte) returns (p: nat, a: nat)
    requires P.Inv(s) && Joined(s, spaces) && x in P.ListOf(s.lists, f)
    ensures x.table in s.tables && x.idx < P.ENTRIES
    ensures C.Maps(spaces, p, a, f) && P.Dir(p, a / P.ENTRIES) in s.dirs
    ensures x == P.Vpte(s.dirs[P.Dir(p, a / P.ENTRIES)], a % P.ENTRIES)
    ensures P.ReadOnly(Word(s, x)) <==> !C.HwWritable(spaces[p][a])
  {
    hide P.Count, P.Present, P.ReadOnly, P.Encode, NoDup;
    assert P.ListAt(P.ListOf(s.lists, f), s.tables, f);
    assert P.MapsFrame(s.tables, x, f);
    var d :| d in s.dirs && s.dirs[d] == x.table;
    p, a := d.space, d.pde * P.ENTRIES + x.idx;
    P.Index(d.pde, x.idx);
    assert JoinedAt(s, spaces, p, a);
    var (pa, flags) := P.Lookup(s, p, a).value;
    var w := Word(s, x);
    assert P.PteOk(w, s.tables[x.table].flags[x.idx]);
    WordIs(w, flags);
  }

  lemma WordIs(w: nat, f: P.Flags)
    requires w == P.Encode(P.Pa(w), f)
    ensures P.ReadOnly(w) <==> !f.write || f.cow
    ensures P.Pa(w) == w / P.PAGE_SIZE * P.PAGE_SIZE
  {
    hide P.ReadOnly, P.Encode, P.Present;
    P.EncodeIsFaithful(P.Pa(w), f);
  }

  /** A frame that any table entry lets user code write is mapped by that entry only. */
  lemma WritableIsAlone(v: C.Vm, s: P.State, f: nat, x: P.Vpte, y: P.Vpte)
    requires C.Inv(v) && P.Inv(s) && Joined(s, v.spaces)
    requires x in P.ListOf(s.lists, f) && y in P.ListOf(s.lists, f)
    ensures x.table in s.tables && x.idx < P.ENTRIES
    ensures !P.ReadOnly(Word(s, x)) ==> x == y
  {
    hide P.Inv, C.CountsOk, Joined, P.ReadOnly, Word;
    var p, a := ListEntry(s, v.spaces, f, x);
    var q, b := ListEntry(s, v.spaces, f, y);
  }

  /** The table entry of a page. */
  function EntryOf(s: P.State, u: (nat, nat)): P.Vpte {
    var d := P.Dir(u.0, u.1 / P.ENTRIES);
    P.Vpte(if d in s.dirs then s.dirs[d] else P.Tid(0), u.1 % P.ENTRIES)
  }

  ghost predicate Matches(s: P.State, list: seq<P.Vpte>, users: set<(nat, nat)>) {
    && NoDup(list)
    && (forall x :: x in list ==> exists u :: u in users && EntryOf(s, u) == x)
    && (forall u :: u in users ==> EntryOf(s, u) in list)
    && (forall u, w :: u in users && w in users && EntryOf(s, u) == EntryOf(s, w) ==> u == w)
  }

  lemma {:induction false} MatchSize(s: P.State, list: seq<P.Vpte>, users: set<(nat, nat)>)
    requires Matches(s, list, users)
    ensures |list| == |users|
  {
    hide EntryOf;
    if list == [] {
      assert users == {};
    } else {
      NoDupTail(list);
      assert list[0] in list;
      var u :| u in users && EntryOf(s, u) == list[0];
      assert Matches(s, list[1..], users - {u});
      MatchSize(s, list[1..], users - {u});
    }
  }

  /** The reverse list of a frame has one entry for each page that maps it, so reference_cnt counts its entries. */
  lemma ReverseListCounts(v: C.Vm, s: P.State, f: nat)
    requires C.Inv(v) && P.Inv(s) && Joined(s, v.spaces)
    ensures |P.ListOf(s.lists, f)| == |C.Users(v.spaces, f)|
    ensures f in v.mem && f !in v.free ==>
              f in v.refs && v.refs[f] == |P.ListOf(s.lists, f)| + C.Leak(v.leaked, f)
  {
    hide C.Exclusive, C.Inv, P.Inv, Joined;
    ListMatches(v.spaces, s, f);
    MatchSize(s, P.ListOf(s.lists, f), C.Users(v.spaces, f));
    if f in v.mem && f !in v.free {
      RefsCount(v, f);
    }
  }

  lemma RefsCount(v: C.Vm, f: nat)
    requires C.Inv(v) && f in v.mem && f !in v.free
    ensures f in v.refs && v.refs[f] == |C.Users(v.spaces, f)| + C.Leak(v.leaked, f)
  {
    hide C.Exclusive, C.Users;
  }

  lemma ListMatches(spaces: Spaces, s: P.State, f: nat)
    requires P.Inv(s) && Joined(s, spaces)
    ensures Matches(s, P.ListOf(s.lists, f), C.Users(spaces, f))
  {
    hide P.Inv, Joined;
    var list, users := P.ListOf(s.lists, f), C.Users(spaces, f);
    ListOnce(s, f);
    forall x | x in list
      ensures exists u :: u in users && EntryOf(s, u) == x
    {
      var p, a := ListEntry(s, spaces, f, x);
      assert (p, a) in users && EntryOf(s, (p, a)) == x;
    }
    forall u | u in users
      ensures EntryOf(s, u) in list && P.Dir(u.0, u.1 / P.ENTRIES) in s.dirs
    {
      UserListed(s, spaces, f, u.0, u.1);
    }
    forall u, w | u in users && w in users && EntryOf(s, u) == EntryOf(s, w)
      ensures u == w
    {
      OneDirEach(s, P.Dir(u.0, u.1 / P.ENTRIES), P.Dir(w.0, w.1 / P.ENTRIES));
      P.PagesDiffer(u.1, w.1);
    }
  }

  lemma ListOnce(s: P.State, f: nat)
    requires P.Inv(s)
    ensures NoDup(P.ListOf(s.lists, f))
  {
    assert P.ListAt(P.ListOf(s.lists, f), s.tables, f);
  }

  lemma OneDirEach(s: P.State, d: P.Dir, e: P.Dir)
    requires P.Inv(s) && d in s.dirs && e in s.dirs && s.dirs[d] == s.dirs[e]
    ensures d == e
  {
  }

  lemma UserListed(s: P.State, spaces: Spaces, f: nat, p: nat, a: nat)
    requires P.Inv(s) && Joined(s, spaces) && C.Maps(spaces, p, a, f)
    ensures P.Dir(p, a / P.ENTRIES) in s.dirs && EntryOf(s, (p, a)) in P.ListOf(s.lists, f)
  {
    hide P.Inv, P.Lookup;
    assert JoinedAt(s, spaces, p, a);
    P.ReverseListIsExact(s, f);
    SomeDir(s, p, a);
  }

  lemma SomeDir(s: P.State, p: nat, a: nat)
    requires P.Inv(s) && P.Lookup(s, p, a).Some?
    ensures P.Dir(p, a / P.ENTRIES) in s.dirs
  {
  }

  // ---------------------------------------------------------------------
  // A page entered that is mapped already
  // ---------------------------------------------------------------------

  /** What a table entry maps, read off the tables whether they are in order or not. */
  function Raw(u: P.State, q: nat, b: nat): Option<(nat, P.Flags)>
    requires P.Shape(u)
  {
    var d, i := P.Dir(q, b / P.ENTRIES), b % P.ENTRIES;
    if d in u.dirs && P.Present(u.tables[u.dirs[d]].ptes[i])
    then Some((P.Pa(u.tables[u.dirs[d]].ptes[i]), u.tables[u.dirs[d]].flags[i]))
    else None
  }

  ghost predicate RawAt(u: P.State, spaces: Spaces, q: nat, b: nat)
    requires P.Shape(u)
  {
    if q in spaces && b in spaces[q] then Raw(u, q, b).Some? && Says(Raw(u, q, b).value, spaces[q][b])
    else Raw(u, q, b).None?
  }

  lemma RawIsLookup(s: P.State, q: nat, b: nat)
    requires P.Inv(s)
    ensures P.Shape(s) && Raw(s, q, b) == P.Lookup(s, q, b)
  {
    hide P.ListsOk, P.PteOk, P.Count, P.Present;
    P.InvShape(s);
  }

  /** The refusal takes one directory entry away and no other table changes. */
  lemma RefusedRaw(s: P.State, p: nat, a: nat, pa: nat, f: P.Flags, id: P.Tid, q: nat, b: nat)
    requires P.Inv(s) && a > 0 && P.Lookup(s, p, a).Some?
    ensures P.Shape(s)
    ensures var (u, st) := P.Enter(s, p, a * P.PAGE_SIZE, pa, f, id);
            && st == P.Invalid && P.Shape(u)
            && Raw(u, q, b) == if q == p && b / P.ENTRIES == a / P.ENTRIES then None else Raw(s, q, b)
  {
    hide P.ListsOk, P.PteOk, P.Count, P.Present;
    P.InvShape(s);
    Page(a);
    var d := P.Dir(p, a / P.ENTRIES);
    assert forall e :: e in s.dirs && e != d ==> s.dirs[e] != s.dirs[d];
  }

  /**
    Entering a page that is mapped fails, and leaves the tables mapping what is left when the
    page's whole table is dropped: the refusal of `MmapFailure`.
   */
  lemma MappedEntryDropsTable(v: C.Vm, s: P.State, p: nat, a: nat, pa: nat, f: P.Flags, id: P.Tid)
    requires C.Inv(v) && P.Inv(s) && Joined(s, v.spaces) && p in v.spaces && a in v.spaces[p]
    ensures P.Shape(s)
    ensures var (u, st) := P.Enter(s, p, a * P.PAGE_SIZE, pa, f, id);
            && st == P.Invalid && P.Shape(u)
            && forall q: nat, b: nat :: RawAt(u, F.DropTable(v, p, a).spaces, q, b)
  {
    hide P.Inv, P.Enter, P.Lookup, Raw, R.Munmap, R.Pages, Says, P.Shape;
    P.InvShape(s);
    UserPage(v, p, a);
    var u := P.Enter(s, p, a * P.PAGE_SIZE, pa, f, id).0;
    F.MunmapRest(v, p, F.TableBase(a), C.PAGES_PER_TABLE);
    assert JoinedAt(s, v.spaces, p, a);
    RefusedRaw(s, p, a, pa, f, id, 0, 0);
    forall q: nat, b: nat
      ensures RawAt(u, F.DropTable(v, p, a).spaces, q, b)
    {
      RefusedRaw(s, p, a, pa, f, id, q, b);
      RawIsLookup(s, q, b);
      assert JoinedAt(s, v.spaces, q, b);
      InTable(a, b);
    }
  }

  lemma UserPage(v: C.Vm, p: nat, a: nat)
    requires C.Inv(v) && p in v.spaces && a in v.spaces[p]
    ensures a > 0
  {
    hide C.Exclusive, C.CountsOk;
  }

  lemma InTable(a: nat, b: nat)
    ensures b in R.Pages(F.TableBase(a), C.PAGES_PER_TABLE) <==> b / P.ENTRIES == a / P.ENTRIES
  {
  }
}
