/**
  The page cache with its contents: bread, bread_zero and bwrite over the protocol of
  `PageCache` (fs/cache.c:318-461, fs/file.c:60-180).

  Threads interleave as in `PageCache`. A holder fills its page from the server, changes
  it, writes it through and releases it; the transfers happen while the page is busy.
 */
module PageCacheData {
  import opened Lists
  import opened PageCache

  type Data = seq<bv8>

  function Zeros(): (z: Data)
    ensures |z| == 4096 && forall i :: 0 <= i < 4096 ==> z[i] == 0
  {
    seq(4096, _ => 0)
  }

  /** What the pages hold, what the servers store, and the pages changed since they were filled or written. */
  datatype Store = Store(c: Cache, content: map<Pg, Data>, server: map<Key, Data>, dirty: set<Pg>)

  /** A block the server does not have reads as zeros. */
  function Stored(server: map<Key, Data>, k: Key): Data {
    if k in server then server[k] else Zeros()
  }

  function Content(s: Store, p: Pg): Data {
    if p in s.content then s.content[p] else Zeros()
  }

  /** The page caches a block and its contents may be used. */
  predicate Good(b: Buf) {
    b.valid && !b.bad && b.key.Some?
  }

  ghost predicate CleanAt(s: Store, p: Pg) {
    p in s.c.pages && Good(s.c.pages[p]) && p !in s.dirty ==> Content(s, p) == Stored(s.server, s.c.pages[p].key.value)
  }

  ghost predicate Ok(s: Store) {
    && Inv(s.c)
    && (forall p :: p in s.dirty ==> p in s.c.pages && s.c.pages[p].busy && s.c.pages[p].key.Some?)
    && (forall p {:trigger CleanAt(s, p)} :: CleanAt(s, p))
  }

  // ---------------------------------------------------------------------
  // The steps
  // ---------------------------------------------------------------------

  datatype Op =
    | Protocol(a: Action)
    | Fetch(t: Tid, p: Pg)                       // bread: vfs_read, then B_VALID
    | Zero(t: Tid, p: Pg)                        // bread_zero
    | Edit(t: Tid, p: Pg, d: Data)               // the holder changes the page
    | Flush(t: Tid, p: Pg)                       // bwrite: vfs_write has succeeded
    | FlushFails(t: Tid, p: Pg, d: Data)         // it has not: the server has d, and the page B_ERROR

  /**
    What callers do beyond the protocol: a page is changed once it is filled, and released
    only written or bad. bread_zero clears any page it is handed, whatever the server has.
   */
  ghost predicate May(s: Store, op: Op) {
    match op
    case Protocol(a) => !a.MakeValid? && Enabled(s.c, a) && (a.Release? ==> a.p !in s.dirty || s.c.pages[a.p].bad)
    case Fetch(t, p) => Holds(s.c, t, p) && s.c.pages[p].key.Some? && !s.c.pages[p].valid
    case Zero(t, p) => Holds(s.c, t, p) && s.c.pages[p].key.Some? && !s.c.pages[p].bad
    case Edit(t, p, _) => Holds(s.c, t, p) && Good(s.c.pages[p])
    case Flush(t, p) => Holds(s.c, t, p) && Good(s.c.pages[p])
    case FlushFails(t, p, _) => Holds(s.c, t, p) && Good(s.c.pages[p])
  }

  function BlockOf(s: Store, p: Pg): Key
    requires p in s.c.pages && s.c.pages[p].key.Some?
  {
    s.c.pages[p].key.value
  }

  ghost function Next(s: Store, op: Op): Store
    requires Ok(s) && May(s, op)
  {
    match op
    case Protocol(a) => s.(c := Step(s.c, a), dirty := if a.Release? then s.dirty - {a.p} else s.dirty)
    case Fetch(_, p) => s.(c := SetFlags(s.c, p, true, false),
                           content := s.content[p := Stored(s.server, BlockOf(s, p))])
    case Zero(_, p) => s.(c := SetFlags(s.c, p, true, false),
                          content := s.content[p := Zeros()],
                          dirty := s.dirty + {p})
    case Edit(_, p, d) => s.(content := s.content[p := d], dirty := s.dirty + {p})
    case Flush(_, p) => s.(server := s.server[BlockOf(s, p) := Content(s, p)], dirty := s.dirty - {p})
    case FlushFails(_, p, d) => s.(c := SetFlags(s.c, p, false, true), server := s.server[BlockOf(s, p) := d])
  }

  // ---------------------------------------------------------------------
  // Each step keeps clean pages equal to the server
  // ---------------------------------------------------------------------

  /**
    A step of the protocol makes no page good, keeps the block of every page that stays good,
    and of every page still held.
   */
  lemma ProtocolPages(c: Cache, a: Action, q: Pg)
    requires Inv(c) && Enabled(c, a) && !a.MakeValid? && q in c.pages
    ensures var d := Step(c, a);
            && q in d.pages
            && (Good(d.pages[q]) ==> Good(c.pages[q]) && d.pages[q].key == c.pages[q].key)
            && (c.pages[q].busy && !(a.Release? && a.p == q) && !(a.ReleaseAnon? && a.p == q) ==>
                  d.pages[q].busy && d.pages[q].key == c.pages[q].key)
  {
    hide ChainsOk, ListsOk, NoDup, WaitsOk, HoldersOk, Bucket, Unhash, Unlist, Hash, Enlist, Woken, Attempt;
    if a.Turn? {
      TurnPages(c, a.t, a.aborted, q);
    }
  }

  lemma TurnPages(c: Cache, t: Tid, aborted: bool, q: Pg)
    requires Inv(c) && t in c.request && q in c.pages
    ensures var d := Attempt(c, t, aborted);
            && q in d.pages
            && (Good(d.pages[q]) ==> Good(c.pages[q]) && d.pages[q].key == c.pages[q].key)
            && (c.pages[q].busy ==> d.pages[q].busy && d.pages[q].key == c.pages[q].key)
  {
    hide ChainsOk, ListsOk, NoDup, WaitsOk, HoldersOk, Bucket, Unhash, Unlist, Hash, Enlist, Without, Find;
    if c.request[t].Block? {
      FindIsExact(c, c.request[t].key);
    }
  }

  lemma ProtocolKeys(c: Cache, a: Action)
    requires Inv(c) && Enabled(c, a)
    ensures Step(c, a).pages.Keys == c.pages.Keys
  {
    hide ChainsOk, ListsOk, NoDup, WaitsOk, HoldersOk, Bucket, Unhash, Unlist, Hash, Enlist, Woken, BufsOk;
    if a.Turn? && c.request[a.t].Block? {
      FindIsExact(c, c.request[a.t].key);
    }
  }

  lemma ProtocolOk(s: Store, a: Action)
    requires Ok(s) && May(s, Protocol(a))
    ensures Ok(Next(s, Protocol(a)))
  {
    hide Inv, Step, Enabled;
    var n := Next(s, Protocol(a));
    StepKeeps(s.c, a);
    ProtocolKeys(s.c, a);
    forall p | p in n.dirty
      ensures p in n.c.pages && n.c.pages[p].busy && n.c.pages[p].key.Some?
    {
      ProtocolPages(s.c, a, p);
      AnonHasNoBlock(s.c, a);
    }
    forall p
      ensures CleanAt(n, p)
    {
      assert CleanAt(s, p);
      if p in n.c.pages {
        ProtocolPages(s.c, a, p);
        assert a.Release? && a.p == p ==> p !in s.dirty || s.c.pages[p].bad;
      }
    }
  }

  lemma AnonHasNoBlock(c: Cache, a: Action)
    requires Enabled(c, a)
    ensures a.ReleaseAnon? ==> a.p in c.pages && c.pages[a.p].key.None?
  {
  }

  /** A page that its holder has just filled or changed, its block and every other page as before. */
  lemma HolderOk(s: Store, n: Store, p: Pg)
    requires Ok(s) && p in s.c.pages && s.c.pages[p].busy && s.c.pages[p].key.Some?
    requires Inv(n.c) && p in n.c.pages && n.c.pages == s.c.pages[p := n.c.pages[p]]
    requires n.c.pages[p].busy && n.c.pages[p].key == s.c.pages[p].key
    requires n.dirty - {p} == s.dirty - {p}
    requires forall q :: q != p ==> Content(n, q) == Content(s, q)
    requires forall k :: s.c.pages[p].key != Some(k) ==> Stored(n.server, k) == Stored(s.server, k)
    requires CleanAt(n, p)
    ensures Ok(n)
  {
    hide ChainsOk, ListsOk, FreeOk, HoldersOk, WaitsOk, Stored, Content;
    forall q
      ensures CleanAt(n, q)
    {
      assert CleanAt(s, q);
      if q in s.dirty {
        assert q == p || q in n.dirty - {p};
      }
    }
    forall q | q in n.dirty
      ensures q in n.c.pages && n.c.pages[q].busy && n.c.pages[q].key.Some?
    {
      assert q == p || q in s.dirty - {p};
    }
  }

  lemma HeldBusy(c: Cache, t: Tid, p: Pg)
    requires Inv(c) && Holds(c, t, p)
    ensures c.pages[p].busy
  {
    hide ChainsOk, ListsOk, FreeOk, BufsOk, WaitsOk;
  }

  /** Every step keeps each good and unchanged page equal to the block its server stores. */
  lemma NextOk(s: Store, op: Op)
    requires Ok(s) && May(s, op)
    ensures Ok(Next(s, op))
  {
    hide Inv, Enabled, Step;
    if op.Protocol? {
      ProtocolOk(s, op.a);
    } else {
      HeldBusy(s.c, op.t, op.p);
      assert CleanAt(s, op.p);
      if op.Fetch? || op.Zero? {
        SetFlagsKeeps(s.c, op.p, true, false);
      } else if op.FlushFails? {
        SetFlagsKeeps(s.c, op.p, false, true);
      }
      assert s.c.pages[op.p := s.c.pages[op.p]] == s.c.pages;
      HolderOk(s, Next(s, op), op.p);
    }
  }

  // ---------------------------------------------------------------------
  // All runs
  // ---------------------------------------------------------------------

  ghost predicate IsRun(s: Store, run: seq<Op>)
    decreases |run|
  {
    run != [] ==> Ok(s) && May(s, run[0]) && IsRun(Next(s, run[0]), run[1..])
  }

  ghost function After(s: Store, run: seq<Op>): Store
    requires IsRun(s, run)
    decreases |run|
  {
    if run == [] then s else After(Next(s, run[0]), run[1..])
  }

  /** What block k was last written with in the run; `was` is what it held before. */
  ghost function LastWritten(s: Store, run: seq<Op>, k: Key, was: Data): Data
    requires IsRun(s, run)
    decreases |run|
  {
    if run == [] then was
    else
      var op := run[0];
      var wrote := (op.Flush? || op.FlushFails?) && BlockOf(s, op.p) == k;
      var now := if !wrote then was else if op.Flush? then Content(s, op.p) else op.d;
      LastWritten(Next(s, op), run[1..], k, now)
  }

  lemma NextStored(s: Store, op: Op, k: Key)
    requires Ok(s) && May(s, op)
    ensures (op.Flush? || op.FlushFails?) && BlockOf(s, op.p) == k ==>
              Stored(Next(s, op).server, k) == if op.Flush? then Content(s, op.p) else op.d
    ensures !((op.Flush? || op.FlushFails?) && BlockOf(s, op.p) == k) ==>
            Stored(Next(s, op).server, k) == Stored(s.server, k)
  {
    hide Inv, Step, Ok;
  }

  lemma {:induction false} RunOk(s: Store, run: seq<Op>, k: Key)
    requires Ok(s) && IsRun(s, run)
    ensures Ok(After(s, run)) && Stored(After(s, run).server, k) == LastWritten(s, run, k, Stored(s.server, k))
    decreases |run|
  {
    hide Ok, May, Next, Stored, Content;
    if run != [] {
      NextOk(s, run[0]);
      NextStored(s, run[0], k);
      RunOk(Next(s, run[0]), run[1..], k);
    }
  }

  /** The cache at boot, in front of servers that store anything. */
  function BootStore(n: nat, server: map<Key, Data>): Store {
    Store(Boot(n), map[], server, {})
  }

  lemma BootStoreOk(n: nat, server: map<Key, Data>)
    ensures Ok(BootStore(n, server))
  {
    hide Inv;
    BootOk(n);
    assert forall p :: p in Boot(n).pages ==> !Good(Boot(n).pages[p]);
  }

  /**
    Reads see the last write: whatever threads do, a page handed out as valid and not yet
    changed by its holder holds what its block was last written with, by any thread, or what
    its server had from the start.
   */
  lemma ReadsSeeLastWrite(n: nat, server: map<Key, Data>, run: seq<Op>, t: Tid, p: Pg)
    requires IsRun(BootStore(n, server), run)
    requires var s := After(BootStore(n, server), run);
             Holds(s.c, t, p) && Good(s.c.pages[p]) && p !in s.dirty
    ensures var s0 := BootStore(n, server); var s := After(s0, run); var k := BlockOf(s, p);
            Content(s, p) == LastWritten(s0, run, k, Stored(server, k))
  {
    hide Inv, IsRun, After, LastWritten, Boot;
    BootStoreOk(n, server);
    var s0 := BootStore(n, server);
    var s := After(s0, run);
    RunOk(s0, run, BlockOf(s, p));
    assert CleanAt(s, p);
  }

  /** A page that is not held is clean: what the cache keeps is what the servers store. */
  lemma CacheRepeatsServer(n: nat, server: map<Key, Data>, run: seq<Op>, p: Pg)
    requires IsRun(BootStore(n, server), run)
    ensures var s := After(BootStore(n, server), run);
            p in s.c.pages && !s.c.pages[p].busy && s.c.pages[p].key.Some? ==>
              s.c.pages[p].valid && Content(s, p) == Stored(s.server, BlockOf(s, p))
  {
    hide IsRun, After, Boot, ChainsOk, ListsOk, FreeOk, HoldersOk, WaitsOk;
    BootStoreOk(n, server);
    var s0 := BootStore(n, server);
    RunOk(s0, run, PageCache.Key(VNode(0, 0), 0));
    assert CleanAt(After(s0, run), p);
  }

  // ---------------------------------------------------------------------
  // What bread_zero costs
  // ---------------------------------------------------------------------

  /** A cleared page repeats its server's block exactly when that block is zeros. */
  lemma ZeroIsBlockIff(s: Store, t: Tid, p: Pg)
    requires Ok(s) && May(s, Zero(t, p))
    ensures Content(Next(s, Zero(t, p)), p) == Stored(s.server, BlockOf(s, p)) <==>
            Stored(s.server, BlockOf(s, p)) == Zeros()
  {
  }
}
