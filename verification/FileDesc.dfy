/**
  File descriptors and the open files (filps) behind them (fs/filedesc.c, fs/filp.c,
  fs/close.c, fs/fproc.c, fs/open.c).

  A slot that is not in `slots` has no flags set. A slot that open has allocated and
  not yet made valid is Reserved, with the filp it is going to point to.

  The table of a process is one page. fd_alloc may look one slot past it, at memory that
  belongs to something else: each call is told whether that memory looks like a free slot,
  and a descriptor allocated there has no slot in the table. `stray` counts the references
  such descriptors hold, `pending` are the filps an open past the table has not finished
  with, and `wild` counts the slots allocated past a table.
 */
module FileDesc {
  import opened Lists

  const FILEDESC_MAX: nat := 512

  datatype Filp = Filp(index: nat)

  datatype Ref = Ref(pid: nat, fd: int)

  datatype Slot = Reserved(filp: Filp) | Valid(filp: Filp, cloexec: bool)

  datatype State = State(procs: set<nat>, slots: map<Ref, Slot>, refs: map<Filp, int>, free: seq<Filp>,
                         stray: map<Filp, nat>, pending: set<Filp>, wild: nat)

  function Stray(stray: map<Filp, nat>, f: Filp): nat {
    if f in stray then stray[f] else 0
  }

  /** The slots that point at a filp. */
  ghost function Users(slots: map<Ref, Slot>, f: Filp): set<Ref> {
    set r | r in slots && slots[r].filp == f
  }

  ghost predicate SlotsOk(s: State) {
    forall r :: r in s.slots ==> r.pid in s.procs && 0 <= r.fd < FILEDESC_MAX && s.slots[r].filp in s.refs
  }

  /** reference_cnt is the number of slots that point at the filp, and of descriptors past a table. */
  ghost predicate CountsOk(slots: map<Ref, Slot>, refs: map<Filp, int>, stray: map<Filp, nat>) {
    forall f :: f in refs ==> refs[f] == |Users(slots, f)| + Stray(stray, f)
  }

  ghost predicate StrayOk(s: State) {
    && (forall f :: f in s.stray ==> f in s.refs)
    && (forall f :: f in s.pending ==> Stray(s.stray, f) > 0)
    && (s.wild == 0 ==> forall f :: Stray(s.stray, f) == 0)
  }

  /** A filp is on the free list, once, exactly when nothing points at it. */
  ghost predicate FreeOk(refs: map<Filp, int>, free: seq<Filp>) {
    && NoDup(free)
    && forall f :: f in free <==> f in refs && refs[f] == 0
  }

  ghost predicate Inv(s: State) {
    && SlotsOk(s)
    && CountsOk(s.slots, s.refs, s.stray)
    && StrayOk(s)
    && FreeOk(s.refs, s.free)
  }

  // ---------------------------------------------------------------------
  // One slot at a time
  // ---------------------------------------------------------------------

  /** A free slot made to point at a filp that is in use. */
  function Point(s: State, r: Ref, slot: Slot): State
    requires slot.filp in s.refs
  {
    s.(slots := s.slots[r := slot], refs := s.refs[slot.filp := s.refs[slot.filp] + 1])
  }

  /** filp_get_new for a slot that fd_alloc has found. */
  function Reserve(s: State, r: Ref): State
    requires s.free != []
  {
    s.(slots := s.slots[r := Reserved(s.free[0])], refs := s.refs[s.free[0] := 1], free := s.free[1..])
  }

  /** A slot allocated past the table. */
  function Overrun(s: State): State {
    s.(wild := s.wild + 1)
  }

  /** A descriptor past the table made to point at a filp. */
  function PointPast(s: State, f: Filp): State
    requires f in s.refs
  {
    Overrun(s).(refs := s.refs[f := s.refs[f] + 1], stray := s.stray[f := Stray(s.stray, f) + 1])
  }

  /** filp_get_new for a descriptor past the table. */
  function ReservePast(s: State): State
    requires s.free != []
  {
    var f := s.free[0];
    Overrun(s).(refs := s.refs[f := 1], free := s.free[1..], stray := s.stray[f := Stray(s.stray, f) + 1],
                pending := s.pending + {f})
  }

  /** filp_release for an open past the table that fails: fd_free refuses the descriptor. */
  function DropPast(s: State, f: Filp): State
    requires f in s.refs && Stray(s.stray, f) > 0
  {
    var n := s.refs[f] - 1;
    s.(refs := s.refs[f := n], free := if n == 0 then [f] + s.free else s.free,
       stray := s.stray[f := Stray(s.stray, f) - 1], pending := s.pending - {f})
  }

  /** fd_free and filp_release. */
  function Drop(s: State, r: Ref): State
    requires r in s.slots && s.slots[r].filp in s.refs
  {
    var f := s.slots[r].filp;
    var n := s.refs[f] - 1;
    s.(slots := s.slots - {r}, refs := s.refs[f := n], free := if n == 0 then [f] + s.free else s.free)
  }

  lemma UsersAdd(slots: map<Ref, Slot>, r: Ref, slot: Slot, f: Filp)
    requires r !in slots
    ensures Users(slots[r := slot], f) == if slot.filp == f then Users(slots, f) + {r} else Users(slots, f)
    ensures r !in Users(slots, f)
  {
  }

  lemma UsersDrop(slots: map<Ref, Slot>, r: Ref, f: Filp)
    requires r in slots
    ensures Users(slots - {r}, f) == Users(slots, f) - {r}
    ensures r in Users(slots, f) <==> slots[r].filp == f
  {
  }

  lemma PointKeeps(s: State, r: Ref, slot: Slot)
    requires Inv(s) && r !in s.slots && r.pid in s.procs && 0 <= r.fd < FILEDESC_MAX
    requires slot.filp in s.refs && s.refs[slot.filp] > 0
    ensures Inv(Point(s, r, slot))
  {
    hide Users, NoDup;
    var u := Point(s, r, slot);
    forall f | f in u.refs
      ensures u.refs[f] == |Users(u.slots, f)| + Stray(u.stray, f)
    {
      UsersAdd(s.slots, r, slot, f);
    }
  }

  lemma ReserveKeeps(s: State, r: Ref)
    requires Inv(s) && r !in s.slots && r.pid in s.procs && 0 <= r.fd < FILEDESC_MAX && s.free != []
    ensures Inv(Reserve(s, r))
  {
    hide Users;
    var u := Reserve(s, r);
    NoDupTail(s.free);
    forall f | f in u.refs
      ensures u.refs[f] == |Users(u.slots, f)| + Stray(u.stray, f)
    {
      UsersAdd(s.slots, r, Reserved(s.free[0]), f);
    }
  }

  lemma DropKeeps(s: State, r: Ref)
    requires Inv(s) && r in s.slots
    ensures Inv(Drop(s, r))
  {
    hide Users;
    var u := Drop(s, r);
    forall f | f in u.refs
      ensures u.refs[f] == |Users(u.slots, f)| + Stray(u.stray, f)
    {
      UsersDrop(s.slots, r, f);
    }
    UsersDrop(s.slots, r, s.slots[r].filp);
    assert s.slots[r].filp !in s.free;
  }

  lemma OverrunKeeps(s: State)
    requires Inv(s)
    ensures Inv(Overrun(s))
  {
    hide Users, NoDup;
  }

  lemma PointPastKeeps(s: State, f: Filp)
    requires Inv(s) && f in s.refs && s.refs[f] > 0
    ensures Inv(PointPast(s, f))
  {
    hide Users, NoDup;
  }

  lemma ReservePastKeeps(s: State)
    requires Inv(s) && s.free != []
    ensures Inv(ReservePast(s))
  {
    hide Users;
    NoDupTail(s.free);
  }

  lemma DropPastKeeps(s: State, f: Filp)
    requires Inv(s) && Stray(s.stray, f) > 0
    ensures f in s.refs && Inv(DropPast(s, f))
  {
    hide Users;
  }

  /** Flags of a slot changed, its filp kept. */
  lemma RetagKeeps(s: State, r: Ref, slot: Slot)
    requires Inv(s) && r in s.slots && slot.filp == s.slots[r].filp
    ensures Inv(s.(slots := s.slots[r := slot]))
  {
    hide NoDup;
    forall f
      ensures Users(s.slots[r := slot], f) == Users(s.slots, f)
    {
    }
  }

  /** A slot that points at a filp keeps it off the free list. */
  lemma InUse(s: State, r: Ref)
    requires Inv(s) && r in s.slots
    ensures s.slots[r].filp in s.refs && s.refs[s.slots[r].filp] > 0
  {
    assert r in Users(s.slots, s.slots[r].filp);
  }

  // ---------------------------------------------------------------------
  // The system calls
  // ---------------------------------------------------------------------

  datatype Result = Fd(fd: int) | BadFd | Invalid | NoSlot | NoFilp | Done

  predicate InRange(fd: int) {
    0 <= fd < FILEDESC_MAX
  }

  /** FDF_ALLOCED is clear: in the table, or in the memory past it, which `past` speaks of. */
  predicate LooksFree(slots: map<Ref, Slot>, pid: nat, fd: int, past: bool) {
    if fd < FILEDESC_MAX then Ref(pid, fd) !in slots else past
  }

  /** fd_alloc: the first slot in [fd, max] that looks free. */
  function FirstFree(slots: map<Ref, Slot>, pid: nat, fd: int, max: int, past: bool): (r: Option<int>)
    ensures r.Some? ==> fd <= r.value <= max && LooksFree(slots, pid, r.value, past)
    ensures r.Some? ==> forall k :: fd <= k < r.value ==> !LooksFree(slots, pid, k, past)
    ensures r.None? ==> forall k :: fd <= k <= max ==> !LooksFree(slots, pid, k, past)
    decreases max - fd
  {
    if fd > max then None
    else if LooksFree(slots, pid, fd, past) then Some(fd)
    else FirstFree(slots, pid, fd + 1, max, past)
  }

  /** The bounds fd_alloc's callers pass. */
  predicate Bounds(min: int, max: int) {
    0 <= min < FILEDESC_MAX && max <= FILEDESC_MAX
  }

  /**
    The search runs past the table: its bound lets it, every slot from min on is taken, and
    what follows looks free.
   */
  ghost predicate RunsPast(slots: map<Ref, Slot>, pid: nat, min: int, max: int, past: bool) {
    max == FILEDESC_MAX && past && forall k :: min <= k < FILEDESC_MAX ==> Ref(pid, k) in slots
  }

  predicate IsValid(s: State, pid: nat, fd: int) {
    InRange(fd) && Ref(pid, fd) in s.slots && s.slots[Ref(pid, fd)].Valid?
  }

  function Dup(s: State, pid: nat, fd: int, min: int, max: int, cloexec: bool, past: bool): (State, Result)
    requires SlotsOk(s)
  {
    if !IsValid(s, pid, fd) then (s, Invalid)
    else
      var f := s.slots[Ref(pid, fd)].filp;
      match FirstFree(s.slots, pid, min, max, past)
      case None => (s, NoSlot)
      case Some(n) => (if n < FILEDESC_MAX then Point(s, Ref(pid, n), Valid(f, cloexec)) else PointPast(s, f), Fd(n))
  }

  function Close(s: State, pid: nat, fd: int): (State, Result)
    requires SlotsOk(s)
  {
    if !InRange(fd) then (s, Invalid)
    else if !IsValid(s, pid, fd) then (s, BadFd)
    else (Drop(s, Ref(pid, fd)), Done)
  }

  function Dup2(s: State, pid: nat, fd: int, newFd: int): (State, Result)
    requires Inv(s)
  {
    if !InRange(fd) || !InRange(newFd) then (s, Invalid)
    else
      var t := if IsValid(s, pid, newFd) then DropKeeps(s, Ref(pid, newFd)); Drop(s, Ref(pid, newFd)) else s;
      Dup(t, pid, fd, newFd, newFd, false, false)
  }

  /** Where the search ends: in the table, or past it exactly under `RunsPast`. */
  lemma SearchEnds(slots: map<Ref, Slot>, pid: nat, min: int, max: int, past: bool)
    requires Bounds(min, max)
    ensures var r := FirstFree(slots, pid, min, max, past);
            && (r.Some? <==> exists k :: min <= k <= max && LooksFree(slots, pid, k, past))
            && (r == Some(FILEDESC_MAX) <==> RunsPast(slots, pid, min, max, past))
            && (r.Some? && r.value != FILEDESC_MAX ==> InRange(r.value) && Ref(pid, r.value) !in slots)
            && (r.Some? ==> forall k :: min <= k < r.value ==> Ref(pid, k) in slots)
            && (r.None? ==> forall k :: min <= k <= max && k < FILEDESC_MAX ==> Ref(pid, k) in slots)
  {
    var r := FirstFree(slots, pid, min, max, past);
    assert forall k :: min <= k < FILEDESC_MAX ==> (LooksFree(slots, pid, k, past) <==> Ref(pid, k) !in slots);
    if RunsPast(slots, pid, min, max, past) {
      assert LooksFree(slots, pid, FILEDESC_MAX, past);
    }
  }

  /**
    dup succeeds exactly when the descriptor is open and a slot from min to max looks free,
    and takes the first. It allocates past the table exactly when `RunsPast`; then the filp
    has a reference that no slot of any table accounts for.
   */
  lemma DupKeeps(s: State, pid: nat, fd: int, min: int, max: int, cloexec: bool, past: bool)
    requires Inv(s) && pid in s.procs && Bounds(min, max)
    ensures var (t, r) := Dup(s, pid, fd, min, max, cloexec, past);
            && Inv(t) && t.procs == s.procs
            && (r.Fd? <==> IsValid(s, pid, fd) && exists k :: min <= k <= max && LooksFree(s.slots, pid, k, past))
            && (r == Invalid <==> !IsValid(s, pid, fd)) && (r.Fd? || r == Invalid || r == NoSlot)
            && (!r.Fd? ==> t == s)
            && (t.wild != s.wild <==> IsValid(s, pid, fd) && RunsPast(s.slots, pid, min, max, past))
            && (r.Fd? ==> && min <= r.fd <= max && Ref(pid, r.fd) !in s.slots
                          && (forall k :: min <= k < r.fd ==> Ref(pid, k) in s.slots)
                          && (r.fd == FILEDESC_MAX <==> RunsPast(s.slots, pid, min, max, past))
                          && var f := s.slots[Ref(pid, fd)].filp;
                             if InRange(r.fd) then t.slots == s.slots[Ref(pid, r.fd) := Valid(f, cloexec)]
                             else t.slots == s.slots && Stray(t.stray, f) == Stray(s.stray, f) + 1)
  {
    hide CountsOk, FreeOk, Inv, StrayOk, RunsPast, FirstFree;
    SearchEnds(s.slots, pid, min, max, past);
    InvSlots(s);
    var n := FirstFree(s.slots, pid, min, max, past);
    if IsValid(s, pid, fd) && n.Some? {
      var f := s.slots[Ref(pid, fd)].filp;
      InUse(s, Ref(pid, fd));
      if n.value < FILEDESC_MAX {
        PointKeeps(s, Ref(pid, n.value), Valid(f, cloexec));
      } else {
        PointPastKeeps(s, f);
        assert Ref(pid, FILEDESC_MAX) !in s.slots;
      }
    }
  }

  lemma InvSlots(s: State)
    requires Inv(s)
    ensures SlotsOk(s)
  {
  }

  lemma CloseKeeps(s: State, pid: nat, fd: int)
    requires Inv(s)
    ensures var (t, r) := Close(s, pid, fd);
            && Inv(t)
            && (r == Done <==> IsValid(s, pid, fd)) && (r == Invalid <==> !InRange(fd))
            && (r == BadFd <==> InRange(fd) && !IsValid(s, pid, fd))
            && t.slots == if r.Done? then s.slots - {Ref(pid, fd)} else s.slots
  {
    hide CountsOk, FreeOk;
    if IsValid(s, pid, fd) {
      DropKeeps(s, Ref(pid, fd));
    }
  }

  /**
    dup2 closes newFd before it looks at fd. So it succeeds, or leaves the table as it
    was, exactly when fd is open and not newFd itself, or newFd was not open; a slot
    that another open has reserved is never taken.
   */
  lemma Dup2Keeps(s: State, pid: nat, fd: int, newFd: int)
    requires Inv(s) && pid in s.procs
    ensures var (t, r) := Dup2(s, pid, fd, newFd); var n := Ref(pid, newFd);
            && Inv(t) && t.wild == s.wild
            && (r.Fd? <==> && IsValid(s, pid, fd) && fd != newFd && InRange(newFd)
                           && (n in s.slots ==> s.slots[n].Valid?))
            && (r == NoSlot <==> && IsValid(s, pid, fd) && fd != newFd && InRange(newFd)
                                 && n in s.slots && !s.slots[n].Valid?)
            && (r.Fd? || r == NoSlot || r == Invalid)
            && (r.Fd? ==> r.fd == newFd && t.slots == s.slots[n := Valid(s.slots[Ref(pid, fd)].filp, false)])
            && (!r.Fd? ==> t.slots == if InRange(fd) && IsValid(s, pid, newFd) then s.slots - {n} else s.slots)
  {
    hide CountsOk, FreeOk, Inv;
    InvSlots(s);
    if InRange(fd) && InRange(newFd) {
      var n := Ref(pid, newFd);
      var t := s;
      if IsValid(s, pid, newFd) {
        DropKeeps(s, n);
        t := Drop(s, n);
        assert t.slots == s.slots - {n};
      }
      DupKeeps(t, pid, fd, newFd, newFd, false, false);
      SearchEnds(t.slots, pid, newFd, newFd, false);
      var (u, r) := Dup(t, pid, fd, newFd, newFd, false, false);
      if r.Fd? {
        assert u.slots == s.slots[n := Valid(s.slots[Ref(pid, fd)].filp, false)];
      }
    }
  }

  /** dup2 of a descriptor onto itself closes it and fails. */
  lemma Dup2OntoItselfCloses(s: State, pid: nat, fd: int)
    requires Inv(s) && pid in s.procs && IsValid(s, pid, fd)
    ensures var (t, r) := Dup2(s, pid, fd, fd); r == Invalid && !IsValid(t, pid, fd)
  {
    hide CountsOk, FreeOk;
    Dup2Keeps(s, pid, fd, fd);
    DropKeeps(s, Ref(pid, fd));
  }

  /** open, first part: a slot and a filp are set aside. A slot past the table cannot be given back. */
  function OpenBegin(s: State, pid: nat, past: bool): (State, Result) {
    match FirstFree(s.slots, pid, 0, FILEDESC_MAX, past)
    case None => (s, NoSlot)
    case Some(n) =>
      if n < FILEDESC_MAX then (if s.free == [] then (s, NoFilp) else (Reserve(s, Ref(pid, n)), Fd(n)))
      else (if s.free == [] then (Overrun(s), NoFilp) else (ReservePast(s), Fd(n)))
  }

  /** open, second part: the slot becomes valid, or slot and filp are given back. */
  function OpenEnd(s: State, pid: nat, fd: int, ok: bool, cloexec: bool): State
    requires SlotsOk(s) && Ref(pid, fd) in s.slots
  {
    var r := Ref(pid, fd);
    if ok then s.(slots := s.slots[r := Valid(s.slots[r].filp, cloexec)]) else Drop(s, r)
  }

  /** An open past the table, second part: the descriptor stays with its filp, or only the filp is given back. */
  function OpenEndPast(s: State, f: Filp, ok: bool): State
    requires f in s.refs && Stray(s.stray, f) > 0
  {
    if ok then s.(pending := s.pending - {f}) else DropPast(s, f)
  }

  /** open takes the lowest free slot of the table, and allocates past the table exactly when `RunsPast`. */
  lemma OpenBeginKeeps(s: State, pid: nat, past: bool)
    requires Inv(s) && pid in s.procs
    ensures var (t, r) := OpenBegin(s, pid, past);
            && Inv(t) && t.procs == s.procs
            && (r.Fd? <==> s.free != [] && exists k :: 0 <= k <= FILEDESC_MAX && LooksFree(s.slots, pid, k, past))
            && (t.wild != s.wild <==> RunsPast(s.slots, pid, 0, FILEDESC_MAX, past))
            && (r == NoSlot <==> !exists k :: 0 <= k <= FILEDESC_MAX && LooksFree(s.slots, pid, k, past))
            && (r.Fd? || r == NoSlot || r == NoFilp)
            && (!r.Fd? ==> t == s.(wild := t.wild))
            && (r.Fd? ==> && Ref(pid, r.fd) !in s.slots
                          && (forall k :: 0 <= k < r.fd ==> Ref(pid, k) in s.slots)
                          && (r.fd == FILEDESC_MAX <==> RunsPast(s.slots, pid, 0, FILEDESC_MAX, past))
                          && Users(s.slots, s.free[0]) == {} && Stray(s.stray, s.free[0]) == 0
                          && if InRange(r.fd) then t.slots == s.slots[Ref(pid, r.fd) := Reserved(s.free[0])]
                             else t.slots == s.slots && Stray(t.stray, s.free[0]) == 1)
  {
    hide CountsOk, FreeOk, Inv, Users, StrayOk, RunsPast, FirstFree;
    SearchEnds(s.slots, pid, 0, FILEDESC_MAX, past);
    InvSlots(s);
    var n := FirstFree(s.slots, pid, 0, FILEDESC_MAX, past);
    if n.Some? {
      OverrunKeeps(s);
      if s.free != [] {
        FreeIsUnused(s, s.free[0]);
        if n.value < FILEDESC_MAX {
          ReserveKeeps(s, Ref(pid, n.value));
        } else {
          ReservePastKeeps(s);
        }
      }
    }
  }

  lemma OpenEndPastKeeps(s: State, f: Filp, ok: bool)
    requires Inv(s) && f in s.pending
    ensures f in s.refs && Stray(s.stray, f) > 0 && Inv(OpenEndPast(s, f, ok))
    ensures OpenEndPast(s, f, ok).slots == s.slots
  {
    hide Users, NoDup;
    DropPastKeeps(s, f);
  }

  lemma FreeIsUnused(s: State, f: Filp)
    requires Inv(s) && f in s.free
    ensures Users(s.slots, f) == {} && Stray(s.stray, f) == 0
  {
    hide NoDup, Users;
  }

  lemma OpenEndKeeps(s: State, pid: nat, fd: int, ok: bool, cloexec: bool)
    requires Inv(s) && Ref(pid, fd) in s.slots
    ensures var t := OpenEnd(s, pid, fd, ok, cloexec); var r := Ref(pid, fd);
            && Inv(t)
            && t.slots == if ok then s.slots[r := Valid(s.slots[r].filp, cloexec)] else s.slots - {r}
  {
    hide CountsOk, FreeOk;
    if ok {
      RetagKeeps(s, Ref(pid, fd), Valid(s.slots[Ref(pid, fd)].filp, cloexec));
    } else {
      DropKeeps(s, Ref(pid, fd));
    }
  }

  // ---------------------------------------------------------------------
  // fork, exec and exit
  // ---------------------------------------------------------------------

  /** One turn of the loop in fork_fds. */
  function ForkSlot(s: State, newp: nat, oldp: nat, fd: int): State {
    if IsValid(s, oldp, fd) && s.slots[Ref(oldp, fd)].filp in s.refs
      then Point(s, Ref(newp, fd), s.slots[Ref(oldp, fd)]) else s
  }

  lemma ForkSlotKeeps(s: State, newp: nat, oldp: nat, fd: int)
    requires Inv(s) && newp in s.procs && Ref(newp, fd) !in s.slots && InRange(fd)
    ensures Inv(ForkSlot(s, newp, oldp, fd)) && ForkSlot(s, newp, oldp, fd).procs == s.procs
  {
    hide CountsOk, FreeOk;
    if IsValid(s, oldp, fd) {
      InUse(s, Ref(oldp, fd));
      PointKeeps(s, Ref(newp, fd), s.slots[Ref(oldp, fd)]);
    }
  }

  /** The child's slots after fork_fds has gone through the table. */
  ghost predicate Forked(before: map<Ref, Slot>, after: map<Ref, Slot>, newp: nat, oldp: nat, upto: int) {
    forall r: Ref :: if r.pid == newp && 0 <= r.fd < upto
                then (r in after <==> Ref(oldp, r.fd) in before && before[Ref(oldp, r.fd)].Valid?)
                     && (r in after ==> after[r] == before[Ref(oldp, r.fd)])
                else (r in after <==> r in before) && (r in after ==> after[r] == before[r])
  }

  /** One turn of the loops in exec_fds (close-on-exec slots only) and fini_fproc. */
  function CloseSlot(s: State, pid: nat, fd: int, cloexecOnly: bool): State {
    var r := Ref(pid, fd);
    if IsValid(s, pid, fd) && s.slots[r].filp in s.refs
      && (cloexecOnly ==> s.slots[r].cloexec) then Drop(s, Ref(pid, fd)) else s
  }

  lemma CloseSlotKeeps(s: State, pid: nat, fd: int, cloexecOnly: bool)
    requires Inv(s)
    ensures Inv(CloseSlot(s, pid, fd, cloexecOnly)) && CloseSlot(s, pid, fd, cloexecOnly).procs == s.procs
  {
    hide CountsOk, FreeOk;
    if IsValid(s, pid, fd) && (cloexecOnly ==> s.slots[Ref(pid, fd)].cloexec) {
      DropKeeps(s, Ref(pid, fd));
    }
  }

  /** The slots that are left when descriptors below `upto` have been closed. */
  ghost predicate Swept(before: map<Ref, Slot>, after: map<Ref, Slot>, pid: nat, cloexecOnly: bool, upto: int) {
    forall r: Ref ::
      && (r in after <==> r in before && !(r.pid == pid && r.fd < upto && before[r].Valid?
                                           && (cloexecOnly ==> before[r].cloexec)))
      && (r in after ==> after[r] == before[r])
  }

  lemma ForkStep(s0: State, s: State, newp: nat, oldp: nat, fd: int)
    requires SlotsOk(s) && newp != oldp && InRange(fd) && Forked(s0.slots, s.slots, newp, oldp, fd)
             && Ref(newp, fd) !in s0.slots
    ensures Forked(s0.slots, ForkSlot(s, newp, oldp, fd).slots, newp, oldp, fd + 1)
    ensures Ref(newp, fd) !in s.slots
  {
    var t := ForkSlot(s, newp, oldp, fd);
    assert Ref(oldp, fd).pid == oldp;
    assert Ref(newp, fd).pid == newp;
    forall r: Ref
      ensures if r.pid == newp && 0 <= r.fd < fd + 1
              then (r in t.slots <==> Ref(oldp, r.fd) in s0.slots && s0.slots[Ref(oldp, r.fd)].Valid?)
                   && (r in t.slots ==> t.slots[r] == s0.slots[Ref(oldp, r.fd)])
              else (r in t.slots <==> r in s0.slots) && (r in t.slots ==> t.slots[r] == s0.slots[r])
    {
      assert r == Ref(newp, fd) <==> r.pid == newp && r.fd == fd;
    }
  }

  lemma SweepStep(s0: State, s: State, pid: nat, cloexecOnly: bool, fd: int)
    requires SlotsOk(s) && SlotsOk(s0) && InRange(fd) && Swept(s0.slots, s.slots, pid, cloexecOnly, fd)
    ensures Swept(s0.slots, CloseSlot(s, pid, fd, cloexecOnly).slots, pid, cloexecOnly, fd + 1)
  {
    assert forall r: Ref :: r == Ref(pid, fd) <==> r.pid == pid && r.fd == fd;
  }

  /** The loop of fork_fds from descriptor fd on. */
  function ForkAll(s: State, newp: nat, oldp: nat, fd: nat): State
    decreases FILEDESC_MAX - fd
  {
    if fd >= FILEDESC_MAX then s else ForkAll(ForkSlot(s, newp, oldp, fd), newp, oldp, fd + 1)
  }

  /** The loop of exec_fds or fini_fproc from descriptor fd on. */
  function CloseAll(s: State, pid: nat, fd: nat, cloexecOnly: bool): State
    decreases FILEDESC_MAX - fd
  {
    if fd >= FILEDESC_MAX then s else CloseAll(CloseSlot(s, pid, fd, cloexecOnly), pid, fd + 1, cloexecOnly)
  }

  lemma {:induction false} ForkAllKeeps(s: State, newp: nat, oldp: nat, fd: nat, s0: State)
    requires Inv(s) && newp in s.procs && newp != oldp && fd <= FILEDESC_MAX
    requires Forked(s0.slots, s.slots, newp, oldp, fd) && forall r :: r in s0.slots ==> r.pid != newp
    ensures var t := ForkAll(s, newp, oldp, fd);
            Inv(t) && t.procs == s.procs && Forked(s0.slots, t.slots, newp, oldp, FILEDESC_MAX)
    decreases FILEDESC_MAX - fd
  {
    hide Inv, Forked, ForkSlot;
    if fd < FILEDESC_MAX {
      InvSlots(s);
      ForkStep(s0, s, newp, oldp, fd);
      ForkSlotKeeps(s, newp, oldp, fd);
      ForkAllKeeps(ForkSlot(s, newp, oldp, fd), newp, oldp, fd + 1, s0);
    }
  }

  lemma {:induction false} CloseAllKeeps(s: State, pid: nat, fd: nat, cloexecOnly: bool, s0: State)
    requires Inv(s) && Inv(s0) && fd <= FILEDESC_MAX && Swept(s0.slots, s.slots, pid, cloexecOnly, fd)
    ensures var t := CloseAll(s, pid, fd, cloexecOnly);
            Inv(t) && t.procs == s.procs && Swept(s0.slots, t.slots, pid, cloexecOnly, FILEDESC_MAX)
    decreases FILEDESC_MAX - fd
  {
    hide Inv, Swept, CloseSlot;
    if fd < FILEDESC_MAX {
      InvSlots(s);
      InvSlots(s0);
      SweepStep(s0, s, pid, cloexecOnly, fd);
      CloseSlotKeeps(s, pid, fd, cloexecOnly);
      CloseAllKeeps(CloseSlot(s, pid, fd, cloexecOnly), pid, fd + 1, cloexecOnly, s0);
    }
  }

  function Fork(s: State, newp: nat, oldp: nat): State {
    ForkAll(s.(procs := s.procs + {newp}), newp, oldp, 0)
  }

  function Exec(s: State, pid: nat): State {
    CloseAll(s, pid, 0, true)
  }

  function Exit(s: State, pid: nat): State {
    var t := CloseAll(s, pid, 0, false);
    t.(procs := t.procs - {pid})
  }

  /** The child shares exactly the parent's open files, flags included; no one else is touched. */
  lemma ForkKeeps(s: State, newp: nat, oldp: nat)
    requires Inv(s) && newp !in s.procs && oldp in s.procs
    ensures Inv(Fork(s, newp, oldp)) && Forked(s.slots, Fork(s, newp, oldp).slots, newp, oldp, FILEDESC_MAX)
  {
    hide CountsOk, FreeOk;
    ForkAllKeeps(s.(procs := s.procs + {newp}), newp, oldp, 0, s);
  }

  /** exec closes the close-on-exec descriptors of the process and nothing else. */
  lemma ExecKeeps(s: State, pid: nat)
    requires Inv(s)
    ensures Inv(Exec(s, pid)) && Swept(s.slots, Exec(s, pid).slots, pid, true, FILEDESC_MAX)
  {
    hide CountsOk, FreeOk;
    CloseAllKeeps(s, pid, 0, true, s);
  }

  /** exit closes every descriptor of the process and nothing else. */
  lemma ExitKeeps(s: State, pid: nat)
    requires Inv(s) && forall r :: r in s.slots && r.pid == pid ==> s.slots[r].Valid?
    ensures Inv(Exit(s, pid)) && Swept(s.slots, Exit(s, pid).slots, pid, false, FILEDESC_MAX)
    ensures forall r :: r in Exit(s, pid).slots ==> r.pid != pid
  {
    hide CountsOk, FreeOk;
    CloseAllKeeps(s, pid, 0, false, s);
  }

  // ---------------------------------------------------------------------
  // All runs
  // ---------------------------------------------------------------------

  datatype Action =
    | DoOpenBegin(pid: nat, past: bool)
    | DoOpenEnd(pid: nat, fd: int, ok: bool, setCloexec: bool)
    | DoOpenEndPast(filp: Filp, ok: bool)
    | DoDup(pid: nat, fd: int, min: int, max: int, setCloexec: bool, past: bool)
    | DoDup2(pid: nat, fd: int, newFd: int)
    | DoClose(pid: nat, fd: int)
    | DoFork(newp: nat, oldp: nat)
    | DoExec(pid: nat)
    | DoExit(pid: nat)

  ghost predicate Enabled(s: State, a: Action) {
    match a
    case DoOpenBegin(pid, _) => pid in s.procs
    case DoOpenEndPast(f, _) => f in s.pending
    case DoOpenEnd(pid, fd, _, _) => Ref(pid, fd) in s.slots && s.slots[Ref(pid, fd)].Reserved?
    case DoDup(pid, _, min, max, _, _) => pid in s.procs && Bounds(min, max)
    case DoDup2(pid, _, _) => pid in s.procs
    case DoClose(pid, _) => pid in s.procs
    case DoFork(newp, oldp) => newp !in s.procs && oldp in s.procs
    case DoExec(pid) => pid in s.procs
    case DoExit(pid) => forall r :: r in s.slots && r.pid == pid ==> s.slots[r].Valid?
  }

  ghost function Step(s: State, a: Action): State
    requires Inv(s) && Enabled(s, a)
  {
    match a
    case DoOpenBegin(pid, past) => OpenBegin(s, pid, past).0
    case DoOpenEndPast(f, ok) => OpenEndPast(s, f, ok)
    case DoOpenEnd(pid, fd, ok, c) => OpenEnd(s, pid, fd, ok, c)
    case DoDup(pid, fd, min, max, c, past) => Dup(s, pid, fd, min, max, c, past).0
    case DoDup2(pid, fd, newFd) => Dup2(s, pid, fd, newFd).0
    case DoClose(pid, fd) => Close(s, pid, fd).0
    case DoFork(newp, oldp) => Fork(s, newp, oldp)
    case DoExec(pid) => Exec(s, pid)
    case DoExit(pid) => Exit(s, pid)
  }

  lemma StepKeeps(s: State, a: Action)
    requires Inv(s) && Enabled(s, a)
    ensures Inv(Step(s, a))
  {
    hide CountsOk, FreeOk, OpenBegin, OpenEnd, OpenEndPast, Dup, Dup2, Close, Fork, Exec, Exit;
    match a
    case DoOpenBegin(pid, past) => OpenBeginKeeps(s, pid, past);
    case DoOpenEndPast(f, ok) => OpenEndPastKeeps(s, f, ok);
    case DoOpenEnd(pid, fd, ok, c) => OpenEndKeeps(s, pid, fd, ok, c);
    case DoDup(pid, fd, min, max, c, past) => DupKeeps(s, pid, fd, min, max, c, past);
    case DoDup2(pid, fd, newFd) => Dup2Keeps(s, pid, fd, newFd);
    case DoClose(pid, fd) => CloseKeeps(s, pid, fd);
    case DoFork(newp, oldp) => ForkKeeps(s, newp, oldp);
    case DoExec(pid) => ExecKeeps(s, pid);
    case DoExit(pid) => ExitKeeps(s, pid);
  }

  function Filps(n: nat): (s: seq<Filp>)
    ensures |s| == n && NoDup(s)
  {
    seq(n, i requires 0 <= i < n => Filp(i))
  }

  /** One process without open files, and n free filps. */
  function Boot(n: nat): State {
    var free := Filps(n);
    State({0}, map[], map f | f in free :: 0, free, map[], {}, 0)
  }

  lemma BootOk(n: nat)
    ensures Inv(Boot(n))
  {
    hide NoDup;
    var s := Boot(n);
    assert forall f :: Users(s.slots, f) == {};
  }

  ghost predicate IsRun(s: State, run: seq<Action>)
    decreases |run|
  {
    run != [] ==> Inv(s) && Enabled(s, run[0]) && IsRun(Step(s, run[0]), run[1..])
  }

  ghost function After(s: State, run: seq<Action>): State
    requires IsRun(s, run)
    decreases |run|
  {
    if run == [] then s else After(Step(s, run[0]), run[1..])
  }

  lemma {:induction false} RunKeeps(s: State, run: seq<Action>)
    requires Inv(s) && IsRun(s, run)
    ensures Inv(After(s, run))
    decreases |run|
  {
    hide Inv, Step, Enabled;
    if run != [] {
      StepKeeps(s, run[0]);
      RunKeeps(Step(s, run[0]), run[1..]);
    }
  }

  /**
    After any run by any processes a filp's count is the number of slots that point at it and
    of descriptors past a table that do, and it is free exactly when there are none.
   */
  lemma CountsAreReferences(n: nat, run: seq<Action>, f: Filp)
    requires IsRun(Boot(n), run) && f in After(Boot(n), run).refs
    ensures var s := After(Boot(n), run);
            && s.refs[f] == |Users(s.slots, f)| + Stray(s.stray, f)
            && (f in s.free <==> Users(s.slots, f) == {} && Stray(s.stray, f) == 0)
            && NoDup(s.free)
            && forall r :: r in s.slots ==> InRange(r.fd)
  {
    hide Users, NoDup, After, IsRun, Boot;
    BootOk(n);
    RunKeeps(Boot(n), run);
  }

  /** The call allocates a slot past its table. */
  ghost predicate GoesPast(s: State, a: Action) {
    match a
    case DoOpenBegin(pid, past) => RunsPast(s.slots, pid, 0, FILEDESC_MAX, past)
    case DoDup(pid, fd, min, max, _, past) => IsValid(s, pid, fd) && RunsPast(s.slots, pid, min, max, past)
    case _ => false
  }

  /** No call of the run does. */
  ghost predicate StaysInside(s: State, run: seq<Action>)
    requires IsRun(s, run)
    decreases |run|
  {
    run != [] ==> !GoesPast(s, run[0]) && StaysInside(Step(s, run[0]), run[1..])
  }

  lemma {:induction false} ForkAllSame(s: State, newp: nat, oldp: nat, fd: nat)
    ensures var t := ForkAll(s, newp, oldp, fd); t.wild == s.wild && t.stray == s.stray && t.pending == s.pending
    decreases FILEDESC_MAX - fd
  {
    if fd < FILEDESC_MAX {
      ForkAllSame(ForkSlot(s, newp, oldp, fd), newp, oldp, fd + 1);
    }
  }

  lemma {:induction false} CloseAllSame(s: State, pid: nat, fd: nat, cloexecOnly: bool)
    ensures var t := CloseAll(s, pid, fd, cloexecOnly);
            t.wild == s.wild && t.stray == s.stray && t.pending == s.pending
    decreases FILEDESC_MAX - fd
  {
    if fd < FILEDESC_MAX {
      CloseAllSame(CloseSlot(s, pid, fd, cloexecOnly), pid, fd + 1, cloexecOnly);
    }
  }

  /** References held past a table by descriptors that are open. */
  function Settled(s: State, f: Filp): int {
    Stray(s.stray, f) - if f in s.pending then 1 else 0
  }

  /** A step allocates past a table exactly when it `GoesPast`, and no step takes back a reference held there. */
  lemma StepPast(s: State, a: Action, f: Filp)
    requires Inv(s) && Enabled(s, a)
    ensures Step(s, a).wild == s.wild + if GoesPast(s, a) then 1 else 0
    ensures Settled(Step(s, a), f) >= Settled(s, f)
  {
    hide CountsOk, FreeOk, RunsPast, FirstFree, ForkAll, CloseAll, Users, IsValid;
    InvSlots(s);
    match a
    case DoOpenBegin(pid, past) =>
      SearchEnds(s.slots, pid, 0, FILEDESC_MAX, past);
      if s.free != [] {
        FreeNotPending(s, s.free[0]);
      }
    case DoDup(pid, fd, min, max, _, past) => SearchEnds(s.slots, pid, min, max, past);
    case DoDup2(pid, fd, newFd) => Dup2Past(s, pid, fd, newFd);
    case DoFork(newp, oldp) => ForkAllSame(s.(procs := s.procs + {newp}), newp, oldp, 0);
    case DoExec(pid) => CloseAllSame(s, pid, 0, true);
    case DoExit(pid) => CloseAllSame(s, pid, 0, false);
    case _ =>
  }

  lemma FreeNotPending(s: State, f: Filp)
    requires Inv(s) && f in s.free
    ensures f !in s.pending && Stray(s.stray, f) == 0
  {
    hide NoDup, Users;
  }

  lemma Dup2Past(s: State, pid: nat, fd: int, newFd: int)
    requires Inv(s)
    ensures var t := Dup2(s, pid, fd, newFd).0; t.wild == s.wild && t.stray == s.stray && t.pending == s.pending
  {
    hide CountsOk, FreeOk, FirstFree, Users;
    if InRange(fd) && InRange(newFd) {
      var n := Ref(pid, newFd);
      var t := s;
      if IsValid(s, pid, newFd) {
        DropKeeps(s, n);
        t := Drop(s, n);
      }
      SearchEnds(t.slots, pid, newFd, newFd, false);
    }
  }

  /** Over any run: no slot is allocated past a table if and only if no call comes upon a full table. */
  lemma {:induction false} InsideIff(s: State, run: seq<Action>)
    requires Inv(s) && IsRun(s, run)
    ensures After(s, run).wild >= s.wild
    ensures After(s, run).wild == s.wild <==> StaysInside(s, run)
    decreases |run|
  {
    hide Inv, Step, Enabled, GoesPast;
    if run != [] {
      StepKeeps(s, run[0]);
      StepPast(s, run[0], Filp(0));
      InsideIff(Step(s, run[0]), run[1..]);
    }
  }

  /** The call gives filp f to a descriptor past its table. */
  ghost predicate TakesPast(s: State, a: Action, f: Filp) {
    && GoesPast(s, a)
    && if a.DoDup? then s.slots[Ref(a.pid, a.fd)].filp == f else s.free != [] && s.free[0] == f
  }

  /** References to f that the run leaves past the tables: those given there, less those of opens that failed. */
  ghost function LeftPast(s: State, run: seq<Action>, f: Filp): int
    requires IsRun(s, run)
    decreases |run|
  {
    if run == [] then 0
    else
      (if TakesPast(s, run[0], f) then 1 else if run[0] == DoOpenEndPast(f, false) then -1 else 0)
      + LeftPast(Step(s, run[0]), run[1..], f)
  }

  lemma StepStray(s: State, a: Action, f: Filp)
    requires Inv(s) && Enabled(s, a)
    ensures Stray(Step(s, a).stray, f) ==
            Stray(s.stray, f) + if TakesPast(s, a, f) then 1 else if a == DoOpenEndPast(f, false) then -1 else 0
  {
    hide CountsOk, FreeOk, RunsPast, FirstFree, ForkAll, CloseAll, Users, IsValid;
    InvSlots(s);
    match a
    case DoOpenBegin(pid, past) => SearchEnds(s.slots, pid, 0, FILEDESC_MAX, past);
    case DoDup(pid, fd, min, max, _, past) => SearchEnds(s.slots, pid, min, max, past);
    case DoDup2(pid, fd, newFd) => Dup2Past(s, pid, fd, newFd);
    case DoFork(newp, oldp) => ForkAllSame(s.(procs := s.procs + {newp}), newp, oldp, 0);
    case DoExec(pid) => CloseAllSame(s, pid, 0, true);
    case DoExit(pid) => CloseAllSame(s, pid, 0, false);
    case _ =>
  }

  lemma {:induction false} RunStray(s: State, run: seq<Action>, f: Filp)
    requires Inv(s) && IsRun(s, run)
    ensures Stray(After(s, run).stray, f) == Stray(s.stray, f) + LeftPast(s, run, f)
    decreases |run|
  {
    hide Inv, Step, Enabled, TakesPast, Stray;
    if run != [] {
      StepKeeps(s, run[0]);
      StepStray(s, run[0], f);
      RunStray(Step(s, run[0]), run[1..], f);
    }
  }

  /**
    After any run from boot a filp's count is its number of slots if and only if the run leaves
    no reference to it past a table: an open past a table that failed has given its own back.
   */
  lemma CountsAreSlotsIff(n: nat, run: seq<Action>, f: Filp)
    requires IsRun(Boot(n), run) && f in After(Boot(n), run).refs
    ensures var s := After(Boot(n), run);
            && (s.refs[f] == |Users(s.slots, f)| <==> LeftPast(Boot(n), run, f) == 0)
            && LeftPast(Boot(n), run, f) >= 0
  {
    hide Users, NoDup, After, IsRun, LeftPast;
    BootOk(n);
    RunStray(Boot(n), run, f);
    CountsAreReferences(n, run, f);
  }

  /** After any run from boot that stays inside the tables, a filp's count is its number of slots. */
  lemma CountsAreSlots(n: nat, run: seq<Action>, f: Filp)
    requires IsRun(Boot(n), run) && StaysInside(Boot(n), run) && f in After(Boot(n), run).refs
    ensures var s := After(Boot(n), run);
            s.refs[f] == |Users(s.slots, f)| && (f in s.free <==> Users(s.slots, f) == {}) && NoDup(s.free)
  {
    hide Users, NoDup, After, IsRun, StaysInside;
    BootOk(n);
    InsideIff(Boot(n), run);
    RunKeeps(Boot(n), run);
    CountsAreReferences(n, run, f);
  }

  /** A filp once held by an open descriptor past a table is never free again: no call reaches that descriptor. */
  lemma {:induction false} PastIsForever(s: State, run: seq<Action>, f: Filp)
    requires Inv(s) && IsRun(s, run) && Settled(s, f) > 0
    ensures Settled(After(s, run), f) >= Settled(s, f) && f !in After(s, run).free
    decreases |run|
  {
    hide Inv, Step, Enabled, Settled;
    if run == [] {
      SettledInUse(s, f);
    } else {
      StepKeeps(s, run[0]);
      StepPast(s, run[0], f);
      PastIsForever(Step(s, run[0]), run[1..], f);
    }
  }

  lemma SettledInUse(s: State, f: Filp)
    requires Inv(s) && Settled(s, f) > 0
    ensures f !in s.free
  {
    if f in s.free {
      FreeNotPending(s, f);
    }
  }

  // ---------------------------------------------------------------------
  // A full table
  // ---------------------------------------------------------------------

  /** Process 0 with its first k descriptors open on one file, and one filp left. */
  function Filled(k: nat): State {
    State({0}, map fd | 0 <= fd < k :: Ref(0, fd) := Valid(Filp(0), false), map[Filp(0) := k, Filp(1) := 0], [Filp(1)],
          map[], {}, 0)
  }

  lemma FilledSlots(k: nat, r: Ref)
    ensures r in Filled(k).slots <==> r.pid == 0 && 0 <= r.fd < k
  {
    if r.pid == 0 && 0 <= r.fd < k {
      assert r == Ref(0, r.fd);
    }
  }

  lemma FilledSearch(k: nat, past: bool)
    requires k < FILEDESC_MAX
    ensures FirstFree(Filled(k).slots, 0, 0, FILEDESC_MAX, past) == Some(k)
  {
    hide FirstFree, Filled;
    var slots := Filled(k).slots;
    forall j | 0 <= j <= k
      ensures LooksFree(slots, 0, j, past) <==> j == k
    {
      FilledSlots(k, Ref(0, j));
    }
    SearchEnds(slots, 0, 0, FILEDESC_MAX, past);
    var r := FirstFree(slots, 0, 0, FILEDESC_MAX, past);
    assert LooksFree(slots, 0, k, past) && r.Some?;
    assert LooksFree(slots, 0, r.value, past) && r.value <= k;
  }

  lemma FilledNext(k: nat)
    ensures Filled(k + 1).slots == Filled(k).slots[Ref(0, k) := Valid(Filp(0), false)]
  {
    forall r: Ref
      ensures r in Filled(k + 1).slots <==> r == Ref(0, k) || r in Filled(k).slots
    {
      FilledSlots(k, r);
      FilledSlots(k + 1, r);
    }
  }

  /** dup fills the table slot by slot. */
  lemma DupFills(k: nat, past: bool)
    requires 0 < k < FILEDESC_MAX && Inv(Filled(k))
    ensures Dup(Filled(k), 0, 0, 0, FILEDESC_MAX, false, past) == (Filled(k + 1), Fd(k))
  {
    hide CountsOk, FreeOk, StrayOk, Users, FirstFree;
    FilledSearch(k, past);
    FilledNext(k);
    FilledSlots(k, Ref(0, 0));
    assert Filled(k + 1).refs == Filled(k).refs[Filp(0) := k + 1];
  }

  lemma {:induction false} FilledOk(k: nat)
    requires 0 < k <= FILEDESC_MAX
    ensures Inv(Filled(k))
  {
    if k == 1 {
      OneSlotOk();
    } else {
      FilledOk(k - 1);
      DupFills(k - 1, false);
      DupKeeps(Filled(k - 1), 0, 0, 0, FILEDESC_MAX, false, false);
    }
  }

  lemma OneSlotOk()
    ensures Inv(Filled(1))
  {
    var s := Filled(1);
    forall r: Ref
      ensures r in s.slots <==> r == Ref(0, 0)
    {
      FilledSlots(1, r);
    }
    assert Users(s.slots, Filp(0)) == {Ref(0, 0)};
    assert Users(s.slots, Filp(1)) == {};
  }

  /** An open, then dups until k descriptors are open. */
  function FillRun(k: nat): seq<Action> {
    if k <= 1 then [DoOpenBegin(0, false), DoOpenEnd(0, 0, true, false)]
    else FillRun(k - 1) + [DoDup(0, 0, 0, FILEDESC_MAX, false, false)]
  }

  lemma {:induction false} RunThen(s: State, run: seq<Action>, a: Action)
    requires Inv(s) && IsRun(s, run) && Enabled(After(s, run), a) && Inv(After(s, run))
    ensures IsRun(s, run + [a]) && After(s, run + [a]) == Step(After(s, run), a)
    decreases |run|
  {
    hide Inv, Step, Enabled;
    if run == [] {
      assert run + [a] == [a] && [a][1..] == [];
    } else {
      StepKeeps(s, run[0]);
      RunThen(Step(s, run[0]), run[1..], a);
      assert (run + [a])[1..] == run[1..] + [a];
    }
  }

  lemma FirstOpen()
    ensures IsRun(Boot(2), FillRun(1)) && After(Boot(2), FillRun(1)) == Filled(1)
  {
    hide Users, CountsOk, FreeOk, StrayOk, SlotsOk;
    var s, run := Boot(2), FillRun(1);
    BootOk(2);
    assert s.free == [Filp(0), Filp(1)];
    SearchEnds(s.slots, 0, 0, FILEDESC_MAX, false);
    var b := Step(s, run[0]);
    StepKeeps(s, run[0]);
    assert LooksFree(s.slots, 0, 0, false);
    assert b.slots == map[Ref(0, 0) := Reserved(Filp(0))] && b.free == [Filp(1)];
    var c := Step(b, run[1]);
    assert run[1..] == [run[1]] && run[1..][1..] == [];
    OneFilled();
    assert c.refs == Filled(1).refs;
    assert c == Filled(1);
  }

  lemma OneFilled()
    ensures Filled(1).slots == map[Ref(0, 0) := Valid(Filp(0), false)]
  {
    forall r: Ref
      ensures r in Filled(1).slots <==> r == Ref(0, 0)
    {
      FilledSlots(1, r);
    }
  }

  /** A full table is what 511 dups of one open file lead to. */
  lemma {:induction false} FullTableReached(k: nat)
    requires 0 < k <= FILEDESC_MAX
    ensures IsRun(Boot(2), FillRun(k)) && After(Boot(2), FillRun(k)) == Filled(k)
  {
    hide Inv, Filled, After, IsRun, Boot, Dup;
    if k == 1 {
      FirstOpen();
    } else {
      FullTableReached(k - 1);
      BootOk(2);
      FilledOk(k - 1);
      DupFills(k - 1, false);
      FilledProcs(k - 1);
      RunThen(Boot(2), FillRun(k - 1), DoDup(0, 0, 0, FILEDESC_MAX, false, false));
    }
  }

  lemma FilledProcs(k: nat)
    ensures Filled(k).procs == {0}
  {
  }

  /** One open more than the table holds: descriptor 512 is handed out, and close refuses it. */
  lemma OpenPastFullTable()
    ensures var s := Filled(FILEDESC_MAX);
            && Inv(s)
            && var (t, r) := OpenBegin(s, 0, true);
               && r == Fd(FILEDESC_MAX) && t.wild == 1 && t.refs[Filp(1)] == 1 && Users(t.slots, Filp(1)) == {}
               && Inv(t) && Close(t, 0, FILEDESC_MAX) == (t, Invalid)
  {
    hide CountsOk, FreeOk, StrayOk;
    var s := Filled(FILEDESC_MAX);
    FilledOk(FILEDESC_MAX);
    forall k: int | 0 <= k < FILEDESC_MAX
      ensures Ref(0, k) in s.slots
    {
      FilledSlots(FILEDESC_MAX, Ref(0, k));
    }
    assert RunsPast(s.slots, 0, 0, FILEDESC_MAX, true);
    OpenBeginKeeps(s, 0, true);
  }

  // ---------------------------------------------------------------------
  // The code
  // ---------------------------------------------------------------------

  class DescriptorTables {
    var procs: set<nat>
    var slots: map<Ref, Slot>
    var refs: map<Filp, int>
    var free: seq<Filp>
    ghost var stray: map<Filp, nat>
    ghost var pending: set<Filp>
    ghost var wild: nat

    ghost function View(): State
      reads this
    {
      State(procs, slots, refs, free, stray, pending, wild)
    }

    /** fd_alloc: a scan from min to max, both included; it leaves the table exactly when `RunsPast`. */
    method FdAlloc(pid: nat, min: int, max: int, past: bool) returns (r: Option<int>)
      requires Bounds(min, max)
      ensures r == FirstFree(slots, pid, min, max, past)
      ensures r == Some(FILEDESC_MAX) <==> RunsPast(slots, pid, min, max, past)
    {
      SearchEnds(slots, pid, min, max, past);
      var fd := min;
      while fd <= max
        invariant min <= fd
        invariant FirstFree(slots, pid, fd, max, past) == FirstFree(slots, pid, min, max, past)
        decreases max - fd
      {
        if LooksFree(slots, pid, fd, past) {
          return Some(fd);
        }
        fd := fd + 1;
      }
      r := None;
    }

    /** filp_release: the last reference puts the filp on the free list. */
    method FilpRelease(f: Filp) returns (left: int)
      requires f in refs
      modifies `refs, `free
      ensures left == old(refs[f]) - 1 && refs == old(refs)[f := left]
      ensures free == if left == 0 then [f] + old(free) else old(free)
    {
      refs := refs[f := refs[f] - 1];
      left := refs[f];
      if refs[f] == 0 {
        free := [f] + free;
      }
    }

    method DoClose(pid: nat, fd: int) returns (r: Result)
      requires Inv(View())
      modifies this
      ensures SlotsOk(old(View())) && (View(), r) == Close(old(View()), pid, fd) && Inv(View())
    {
      hide CountsOk, FreeOk;
      CloseKeeps(View(), pid, fd);
      if fd < 0 || fd >= FILEDESC_MAX {
        return Invalid;
      }
      var slot := Ref(pid, fd);
      if slot !in slots || slots[slot].Reserved? {
        return BadFd;
      }
      var filp := slots[slot].filp;
      slots := slots - {slot};
      var left := FilpRelease(filp);
      return Done;
    }

    method DupFd(pid: nat, fd: int, min: int, max: int, cloexec: bool, past: bool) returns (r: Result)
      requires Inv(View()) && pid in procs && Bounds(min, max)
      modifies this
      ensures SlotsOk(old(View())) && (View(), r) == Dup(old(View()), pid, fd, min, max, cloexec, past)
      ensures Inv(View())
    {
      hide CountsOk, FreeOk, StrayOk, RunsPast, FirstFree;
      DupKeeps(View(), pid, fd, min, max, cloexec, past);
      if !InRange(fd) || Ref(pid, fd) !in slots || slots[Ref(pid, fd)].Reserved? {
        return Invalid;
      }
      var filp := slots[Ref(pid, fd)].filp;
      var n := FdAlloc(pid, min, max, past);
      if n.None? {
        return NoSlot;
      }
      if n.value < FILEDESC_MAX {
        slots := slots[Ref(pid, n.value) := Valid(filp, cloexec)];
      } else {
        stray, wild := stray[filp := Stray(stray, filp) + 1], wild + 1;
      }
      refs := refs[filp := refs[filp] + 1];
      return Fd(n.value);
    }

    method SysDup2(pid: nat, fd: int, newFd: int) returns (r: Result)
      requires Inv(View()) && pid in procs
      modifies this
      ensures (View(), r) == Dup2(old(View()), pid, fd, newFd) && Inv(View())
    {
      hide CountsOk, FreeOk;
      Dup2Keeps(View(), pid, fd, newFd);
      if fd < 0 || fd >= FILEDESC_MAX || newFd < 0 || newFd >= FILEDESC_MAX {
        return Invalid;
      }
      if Ref(pid, newFd) in slots && slots[Ref(pid, newFd)].Valid? {
        var closed := DoClose(pid, newFd);
      }
      r := DupFd(pid, fd, newFd, newFd, false, false);
    }

    /** The allocation at the start of do_open. */
    method OpenReserve(pid: nat, past: bool) returns (r: Result)
      requires Inv(View()) && pid in procs
      modifies this
      ensures (View(), r) == OpenBegin(old(View()), pid, past) && Inv(View())
    {
      hide CountsOk, FreeOk, StrayOk, RunsPast, FirstFree;
      OpenBeginKeeps(View(), pid, past);
      var n := FdAlloc(pid, 0, FILEDESC_MAX, past);
      if n.None? {
        return NoSlot;
      }
      if n.value == FILEDESC_MAX {
        wild := wild + 1;
      }
      if free == [] {
        return NoFilp;
      }
      var filp := free[0];
      free := free[1..];
      refs := refs[filp := 1];
      if n.value < FILEDESC_MAX {
        slots := slots[Ref(pid, n.value) := Reserved(filp)];
      } else {
        stray, pending := stray[filp := Stray(stray, filp) + 1], pending + {filp};
      }
      return Fd(n.value);
    }

    method ForkFds(newp: nat, oldp: nat)
      requires Inv(View()) && newp !in procs && oldp in procs
      modifies this
      ensures View() == Fork(old(View()), newp, oldp) && Inv(View())
      ensures Forked(old(slots), slots, newp, oldp, FILEDESC_MAX)
    {
      hide Inv, Forked, ForkSlot;
      ghost var s0 := View();
      ForkKeeps(s0, newp, oldp);
      ForkStarts(s0, newp, oldp);
      procs := procs + {newp};
      for fd := 0 to FILEDESC_MAX
        invariant Inv(View()) && newp in procs && Forked(s0.slots, slots, newp, oldp, fd)
        invariant ForkAll(View(), newp, oldp, fd) == Fork(s0, newp, oldp)
      {
        InvSlots(View());
        ForkStep(s0, View(), newp, oldp, fd);
        ForkSlotKeeps(View(), newp, oldp, fd);
        CopySlot(newp, oldp, fd);
      }
    }

    method CopySlot(newp: nat, oldp: nat, fd: int)
      requires SlotsOk(View()) && InRange(fd)
      modifies this
      ensures View() == ForkSlot(old(View()), newp, oldp, fd)
    {
      var slot := Ref(oldp, fd);
      if slot in slots && slots[slot].Valid? {
        var filp := slots[slot].filp;
        slots := slots[Ref(newp, fd) := slots[slot]];
        refs := refs[filp := refs[filp] + 1];
      }
    }

    /** exec_fds with cloexecOnly, fini_fproc without. */
    method CloseFds(pid: nat, cloexecOnly: bool)
      requires Inv(View())
      modifies this
      ensures View() == CloseAll(old(View()), pid, 0, cloexecOnly) && Inv(View())
      ensures Swept(old(slots), slots, pid, cloexecOnly, FILEDESC_MAX)
    {
      hide Inv, Swept;
      ghost var s0 := View();
      SweepStarts(s0, pid, cloexecOnly);
      CloseAllKeeps(s0, pid, 0, cloexecOnly, s0);
      for fd := 0 to FILEDESC_MAX
        invariant Inv(View())
        invariant CloseAll(View(), pid, fd, cloexecOnly) == CloseAll(s0, pid, 0, cloexecOnly)
      {
        InvSlots(View());
        CloseSlotKeeps(View(), pid, fd, cloexecOnly);
        var slot := Ref(pid, fd);
        if !cloexecOnly || (slot in slots && slots[slot].Valid? && slots[slot].cloexec) {
          var closed := DoClose(pid, fd);
        }
      }
    }
  }

  lemma ForkStarts(s: State, newp: nat, oldp: nat)
    requires Inv(s) && newp !in s.procs && oldp in s.procs
    ensures Inv(s.(procs := s.procs + {newp})) && newp != oldp && Forked(s.slots, s.slots, newp, oldp, 0)
    ensures forall fd :: Ref(newp, fd) !in s.slots
  {
  }

  lemma SweepStarts(s: State, pid: nat, cloexecOnly: bool)
    requires Inv(s)
    ensures Swept(s.slots, s.slots, pid, cloexecOnly, 0)
  {
  }
}
