/**
  Runs of the writers of `FileWriters`: what is lost when two of them extend a file at once
  (fs/file.c:128-178, fs/cache.c:318-409), and what a failed copy leaves behind.
 */
module FileWriterRuns {
  import opened Lists
  import opened PageCache
  import opened FileWriters
  import D = PageCacheData

  // ---------------------------------------------------------------------
  // All runs
  // ---------------------------------------------------------------------

  ghost predicate IsRun(w: Files, run: seq<Op>)
    decreases |run|
  {
    run != [] ==> FilesOk(w) && May(w, run[0]) && IsRun(Next(w, run[0]), run[1..])
  }

  ghost function After(w: Files, run: seq<Op>): Files
    requires IsRun(w, run)
    decreases |run|
  {
    if run == [] then w else After(Next(w, run[0]), run[1..])
  }

  predicate Writes(op: Op) {
    op.Send? || op.SendFails?
  }

  /** The operation writes block k through. */
  ghost predicate WritesBlock(w: Files, op: Op, k: Key) {
    Writes(op) && op.t in w.turn && w.turn[op.t].key == k
  }

  /** What block k was last written with in the run; `was` is what it held before. */
  ghost function LastWritten(w: Files, run: seq<Op>, k: Key, was: Data): Data
    requires IsRun(w, run)
    decreases |run|
  {
    if run == [] then was
    else
      var op := run[0];
      var now := if !WritesBlock(w, op, k) then was else if op.Send? then D.Content(w.s, op.p) else op.d;
      LastWritten(Next(w, op), run[1..], k, now)
  }

  ghost predicate NoWrite(w: Files, run: seq<Op>, k: Key)
    requires IsRun(w, run)
    decreases |run|
  {
    run != [] ==> !WritesBlock(w, run[0], k) && NoWrite(Next(w, run[0]), run[1..], k)
  }

  /** Only bwrite changes what the server stores. */
  lemma NextStored(w: Files, op: Op, k: Key)
    requires FilesOk(w) && May(w, op)
    ensures WritesBlock(w, op, k) ==>
              D.Stored(Next(w, op).s.server, k) == if op.Send? then D.Content(w.s, op.p) else op.d
    ensures !WritesBlock(w, op, k) ==> D.Stored(Next(w, op).s.server, k) == D.Stored(w.s.server, k)
  {
    hide D.Ok, TailsOk, TurnOk, DirtyOk, LostOk, D.Content, Step, Enabled;
    if op.Send? {
      SentMayGo(w, op.t, op.p);
    } else if op.SendFails? {
      UnsentMayGo(w, op.t, op.p, op.d);
    } else if op.FillFails? {
      BadMayGo(w.s, op.t, op.p);
    }
  }

  lemma {:induction false} RunOk(w: Files, run: seq<Op>, k: Key)
    requires FilesOk(w) && IsRun(w, run)
    ensures FilesOk(After(w, run))
    ensures D.Stored(After(w, run).s.server, k) == LastWritten(w, run, k, D.Stored(w.s.server, k))
    ensures NoWrite(w, run, k) ==> D.Stored(After(w, run).s.server, k) == D.Stored(w.s.server, k)
    decreases |run|
  {
    hide FilesOk, May, Next, D.Stored, D.Content, WritesBlock;
    if run != [] {
      NextOk(w, run[0]);
      NextStored(w, run[0], k);
      RunOk(Next(w, run[0]), run[1..], k);
    }
  }

  /** At boot, in front of servers whose files end where the vnodes say they do. */
  function BootFiles(n: nat, server: map<Key, Data>, size: map<VNode, nat>): Files {
    Files(D.BootStore(n, server), size, map[], {})
  }

  lemma BootFilesOk(n: nat, server: map<Key, Data>, size: map<VNode, nat>)
    requires TailsOk(server, size)
    ensures FilesOk(BootFiles(n, server, size))
  {
    hide D.Ok, TailsOk, Boot;
    D.BootStoreOk(n, server);
  }

  /**
    Over any run from boot: no block holds bytes past the end of its file, and a page that is
    valid, not lost and in no writer's hands is the block its server stores.
   */
  lemma RunsKeepFiles(n: nat, server: map<Key, Data>, size: map<VNode, nat>, run: seq<Op>, k: Key, p: Pg)
    requires TailsOk(server, size) && IsRun(BootFiles(n, server, size), run)
    ensures var w := After(BootFiles(n, server, size), run);
            && D.Stored(w.s.server, k) == LastWritten(BootFiles(n, server, size), run, k, D.Stored(server, k))
            && TailOk(D.Stored(w.s.server, k), k, w.size)
            && (p in w.s.c.pages && D.Good(w.s.c.pages[p]) && p !in w.lost
                && !(p in w.s.c.holder && w.s.c.holder[p] in w.turn) ==>
                  D.Content(w.s, p) == D.Stored(w.s.server, D.BlockOf(w.s, p)))
  {
    hide D.Ok, IsRun, After, LastWritten, Boot, TailOk, D.Content, D.Stored;
    BootFilesOk(n, server, size);
    RunOk(BootFiles(n, server, size), run, k);
    var w := After(BootFiles(n, server, size), run);
    StoredTail(w, k);
    assert DirtyOk(w, p);
    if p in w.s.c.pages && D.Good(w.s.c.pages[p]) && p !in w.s.dirty {
      CleanContent(w.s, p);
    }
  }

  /** Where file v ends after the run, if it ended at `end` before: copies raise it to the last byte they put in. */
  ghost function EndAfter(w: Files, run: seq<Op>, v: VNode, end: nat): nat
    requires IsRun(w, run)
    decreases |run|
  {
    if run == [] then end
    else
      var op := run[0];
      var last := if op.Copy? && op.t in w.turn && w.turn[op.t].key.vnode == v
                  then w.turn[op.t].key.offset + w.turn[op.t].at + |w.turn[op.t].data| else 0;
      EndAfter(Next(w, op), run[1..], v, if end < last then last else end)
  }

  lemma NextSize(w: Files, op: Op, v: VNode)
    requires FilesOk(w) && May(w, op)
    ensures var last := if op.Copy? && op.t in w.turn && w.turn[op.t].key.vnode == v
                        then w.turn[op.t].key.offset + w.turn[op.t].at + |w.turn[op.t].data| else 0;
            var end := SizeOf(w.size, v);
            SizeOf(Next(w, op).size, v) == if end < last then last else end
  {
    hide FilesOk, D.May, D.Next, Splice;
  }

  /** The size of a file is the end of the furthest byte ever written to it, or what it was at first. */
  lemma {:induction false} SizeIsEnd(w: Files, run: seq<Op>, v: VNode)
    requires FilesOk(w) && IsRun(w, run)
    ensures SizeOf(After(w, run).size, v) == EndAfter(w, run, v, SizeOf(w.size, v))
    decreases |run|
  {
    hide FilesOk, May, Next, SizeOf;
    if run != [] {
      NextOk(w, run[0]);
      NextSize(w, run[0], v);
      SizeIsEnd(Next(w, run[0]), run[1..], v);
    }
  }

  // ---------------------------------------------------------------------
  // When a write is an update of its block
  // ---------------------------------------------------------------------

  ghost predicate ZeroOutside(block: Data, at: nat, n: nat) {
    forall i :: 0 <= i < |block| && !(at <= i < at + n) ==> block[i] == 0
  }

  /**
    bwrite updates its block and no other: the server's block becomes the old one with the
    turn's bytes in place, unless the turn had found the block past the end of the file and
    the server by now has other bytes in it. Those bytes are lost.
   */
  lemma SendIsUpdateIff(w: Files, t: Tid, p: Pg)
    requires FilesOk(w) && May(w, Send(t, p))
    ensures var r := w.turn[t]; var was := D.Stored(w.s.server, r.key);
            var now := D.Stored(Next(w, Send(t, p)).s.server, r.key);
            && |was| == PAGE_SIZE && r.at + |r.data| <= PAGE_SIZE
            && (now == Splice(was, r.at, r.data) <==> (r.past ==> ZeroOutside(was, r.at, |r.data|)))
            && (r.past ==> now == Splice(D.Zeros(), r.at, r.data))
    ensures forall k :: k != w.turn[t].key ==> D.Stored(Next(w, Send(t, p)).s.server, k) == D.Stored(w.s.server, k)
  {
    hide D.Ok, TailsOk, D.Content, D.Stored;
    assert TurnOk(w, t);
    StoredTail(w, w.turn[t].key);
    NextStored(w, Send(t, p), w.turn[t].key);
    forall k | k != w.turn[t].key
      ensures D.Stored(Next(w, Send(t, p)).s.server, k) == D.Stored(w.s.server, k)
    {
      NextStored(w, Send(t, p), k);
    }
    var r := w.turn[t];
    SpliceIff(D.Stored(w.s.server, r.key), r.at, r.data);
  }

  lemma SpliceIff(block: Data, at: nat, data: Data)
    requires |block| == PAGE_SIZE && at + |data| <= PAGE_SIZE
    ensures Splice(D.Zeros(), at, data) == Splice(block, at, data) <==> ZeroOutside(block, at, |data|)
  {
    var x, y := Splice(D.Zeros(), at, data), Splice(block, at, data);
    if x == y {
      assert forall i :: 0 <= i < PAGE_SIZE ==> x[i] == y[i];
    }
  }

  /** The bytes that bwrite counts out, with its remainder, are all of the page that is in the file. */
  lemma SentIsWhole(w: Files, t: Tid, p: Pg)
    requires FilesOk(w) && May(w, Send(t, p))
    ensures var r := w.turn[t]; var n := Sent(SizeOf(w.size, r.key.vnode), r.key.offset);
            && r.at + |r.data| <= n <= PAGE_SIZE == |D.Content(w.s, p)| == |D.Stored(w.s.server, r.key)|
            && D.Content(w.s, p)[..n] + D.Stored(w.s.server, r.key)[n..] == D.Content(w.s, p)
  {
    hide D.Ok, TailsOk, D.Content, D.Stored;
    assert TurnOk(w, t);
    var r := w.turn[t];
    CopiedTail(w, t, p);
    StoredTail(w, r.key);
    Remainder(SizeOf(w.size, r.key.vnode), r.key.offset);
  }

  lemma Remainder(size: nat, offset: nat)
    requires offset % PAGE_SIZE == 0 && offset < size
    ensures Sent(size, offset) == if size - offset < PAGE_SIZE then size - offset else PAGE_SIZE
  {
    var b := offset / PAGE_SIZE;
    assert offset == b * PAGE_SIZE;
    if size - offset < PAGE_SIZE {
      assert size == b * PAGE_SIZE + (size - offset);
    }
  }

  predicate Tests(op: Op, t: Tid) {
    op.Test? && op.t == t
  }

  /** The turn of thread t is still the one described, or over. */
  ghost predicate SameTurn(w: Files, t: Tid, r: Turning) {
    t in w.turn ==> w.turn[t].(stage := Asking) == r.(stage := Asking)
  }

  lemma NextTurn(w: Files, op: Op, t: Tid, r: Turning)
    requires FilesOk(w) && May(w, op) && !Tests(op, t) && SameTurn(w, t, r)
    ensures SameTurn(Next(w, op), t, r)
  {
    hide FilesOk, D.May, D.Next, Splice;
  }

  lemma {:induction false} RunTurn(w: Files, run: seq<Op>, t: Tid, r: Turning)
    requires FilesOk(w) && IsRun(w, run) && SameTurn(w, t, r)
    requires forall i :: 0 <= i < |run| ==> !Tests(run[i], t)
    ensures SameTurn(After(w, run), t, r)
    decreases |run|
  {
    hide FilesOk, May, Next, SameTurn;
    if run != [] {
      NextOk(w, run[0]);
      NextTurn(w, run[0], t, r);
      RunTurn(Next(w, run[0]), run[1..], t, r);
    }
  }

  /**
    From the test of the size to bwrite, whatever other threads do in between: the block
    becomes its latest version with the turn's bytes in place, if and only if the test saw
    the block inside the file, or the latest version is zero outside the turn's bytes.
    So it does when no one else wrote the block since the test, which found it all zeros if
    past the end.
   */
  lemma WriteIsLostIff(w: Files, t: Tid, k: Key, at: nat, data: Data, gap: seq<Op>, p: Pg)
    requires FilesOk(w) && May(w, Test(t, k, at, data)) && IsRun(Next(w, Test(t, k, at, data)), gap)
    requires forall i :: 0 <= i < |gap| ==> !Tests(gap[i], t)
    requires May(After(Next(w, Test(t, k, at, data)), gap), Send(t, p))
    ensures var s := Next(w, Test(t, k, at, data));
            var was := D.Stored(w.s.server, k);
            var latest := LastWritten(s, gap, k, was);
            && FilesOk(s) && FilesOk(After(s, gap))
            && |was| == |latest| == PAGE_SIZE
            && var now := D.Stored(Next(After(s, gap), Send(t, p)).s.server, k);
               && (now == Splice(latest, at, data) <==>
                     k.offset < SizeOf(w.size, k.vnode) || ZeroOutside(latest, at, |data|))
               && (NoWrite(s, gap, k) ==> now == Splice(was, at, data))
               && (k.offset >= SizeOf(w.size, k.vnode) ==> was == D.Zeros())
  {
    hide D.Ok, TailsOk, IsRun, After, D.Content, LastWritten, Splice, NoWrite, D.Stored, TurnOk, DirtyOk, LostOk;
    var op := Test(t, k, at, data);
    var s := Next(w, op);
    NextOk(w, op);
    NextStored(w, op, k);
    RunOk(s, gap, k);
    RunTurn(s, gap, t, s.turn[t]);
    SendIsUpdateIff(After(s, gap), t, p);
    StoredTail(w, k);
    if k.offset >= SizeOf(w.size, k.vnode) {
      assert D.Stored(w.s.server, k) == D.Zeros();
    }
  }

  /**
    While a thread holds the page of a block no one else writes it: what is lost was written
    before getblk returned.
   */
  lemma HolderWritesAlone(w: Files, op: Op, k: Key, t: Tid, p: Pg)
    requires FilesOk(w) && May(w, op) && WritesBlock(w, op, k)
    requires Holds(w.s.c, t, p) && w.s.c.pages[p].key == Some(k)
    ensures op.t == t && op.p == p
  {
    hide ChainsOk, ListsOk, FreeOk, WaitsOk, HoldersOk, TailsOk, TurnOk, DirtyOk, LostOk, D.CleanAt;
    assert w.s.c.pages[op.p].key == w.s.c.pages[p].key;
  }

  /** Testing the size again once getblk has returned would be enough: a block still past the end is zeros. */
  lemma LateTestIsExact(w: Files, t: Tid, p: Pg)
    requires FilesOk(w) && May(w, Fill(t, p)) && w.turn[t].past
    requires w.turn[t].key.offset >= SizeOf(w.size, w.turn[t].key.vnode)
    ensures D.Content(Next(w, Fill(t, p)).s, p) == D.Stored(w.s.server, w.turn[t].key)
  {
    hide D.Ok, TailsOk, D.Content, D.Stored, TurnOk, DirtyOk, LostOk;
    StoredTail(w, w.turn[t].key);
    D.ZeroIsBlockIff(w.s, t, p);
  }

  // ---------------------------------------------------------------------
  // A failed copy
  // ---------------------------------------------------------------------

  /** A page left busy by a failed copy stays busy, with its block and its holder, whatever anyone does. */
  lemma NextLost(w: Files, op: Op, p: Pg)
    requires FilesOk(w) && May(w, op) && p in w.lost
    ensures p in Next(w, op).lost && Kept(w.s, Next(w, op).s, p)
  {
    hide D.Ok, TailsOk, Inv, D.Content, D.Stored, Splice, Kept;
    assert LostOk(w, p);
    if op.Copy? || op.Fault? || op.Send? || op.SendFails? {
      assert TurnOk(w, op.t);
    }
    NextKept(w, op, p);
  }

  /** A thread that wants a busy block stays in getblk, unless its superblock is aborted. */
  lemma BusyBlocks(c: Cache, a: Action, p: Pg, t: Tid)
    requires Inv(c) && Enabled(c, a) && a != Turn(t, true)
    requires p in c.pages && c.pages[p].busy && t in c.request
    requires c.request[t].Block? && c.pages[p].key == Some(c.request[t].key)
    ensures t in Step(c, a).request && Step(c, a).request[t] == c.request[t]
  {
    hide Inv, Attempt, Unhash, Unlist, Woken;
    if a.Turn? {
      OthersTurn(c, a.t, a.aborted, p, t);
    }
  }

  lemma OthersTurn(c: Cache, u: Tid, aborted: bool, p: Pg, t: Tid)
    requires Inv(c) && u in c.request && u !in c.asleep && !(u == t && aborted)
    requires p in c.pages && c.pages[p].busy && t in c.request
    requires c.request[t].Block? && c.pages[p].key == Some(c.request[t].key)
    ensures t in Attempt(c, u, aborted).request && Attempt(c, u, aborted).request[t] == c.request[t]
  {
    hide ChainsOk, ListsOk, NoDup, WaitsOk, HoldersOk, FreeOk, Unhash, Unlist, Hash, Enlist, Find;
    if u == t {
      FindIsExact(c, c.request[t].key);
    }
  }

  ghost predicate WaitsFor(w: Files, t: Tid, p: Pg) {
    && p in w.lost && p in w.s.c.pages && w.s.c.pages[p].busy
    && t in w.s.c.request && w.s.c.request[t].Block? && w.s.c.pages[p].key == Some(w.s.c.request[t].key)
  }

  lemma StoreWaits(s: D.Store, op: D.Op, t: Tid, p: Pg)
    requires D.Ok(s) && D.May(s, op) && op != D.Protocol(Turn(t, true))
    requires p in s.c.pages && s.c.pages[p].busy && t in s.c.request
    requires s.c.request[t].Block? && s.c.pages[p].key == Some(s.c.request[t].key)
    ensures t in D.Next(s, op).c.request && D.Next(s, op).c.request[t] == s.c.request[t]
  {
    hide Inv, Enabled, Step, D.CleanAt;
    if op.Protocol? {
      BusyBlocks(s.c, op.a, p, t);
    }
  }

  /** A turn that ends asks for nothing. */
  lemma ReleaseWaits(s: D.Store, op: D.Op, t: Tid, p: Pg)
    requires D.Ok(s) && D.May(s, op) && (op.Protocol? ==> op.a.MakeBad?)
    requires D.Ok(D.Next(s, op)) && D.May(D.Next(s, op), D.Protocol(Release(t, p)))
    ensures Released(D.Next(s, op), t, p).c.request == s.c.request
  {
    hide D.Ok, Unhash, Unlist, Woken;
  }

  lemma LostKept(w: Files, op: Op, p: Pg)
    requires FilesOk(w) && May(w, op) && p in w.lost && p in w.s.c.pages && w.s.c.pages[p].busy
    ensures var n := Next(w, op); p in n.lost && p in n.s.c.pages && n.s.c.pages[p] == w.s.c.pages[p]
  {
    hide FilesOk, May, Next;
    NextLost(w, op, p);
  }

  lemma NextWaits(w: Files, op: Op, t: Tid, p: Pg)
    requires FilesOk(w) && May(w, op) && WaitsFor(w, t, p) && op != Protocol(Turn(t, true))
    ensures WaitsFor(Next(w, op), t, p)
    ensures Next(w, op).s.c.pages[p] == w.s.c.pages[p] && Next(w, op).s.c.request[t] == w.s.c.request[t]
  {
    hide TailsOk, D.Ok, Inv, Kept, D.Next, D.Content, D.Stored, Splice, TurnOk, DirtyOk, LostOk, Step;
    LostKept(w, op, p);
    match op
    case Protocol(a) => StoreWaits(w.s, D.Protocol(a), t, p);
    case Fetch(u, q) => StoreWaits(w.s, D.Fetch(u, q), t, p);
    case Test(u, k, _, _) => StoreWaits(w.s, D.Protocol(Call(u, Block(k))), t, p);
    case GiveUp(_) =>
    case Fill(u, q) =>
      if w.turn[u].past {
        StoreWaits(w.s, D.Zero(u, q), t, p);
      } else if !w.s.c.pages[q].valid {
        StoreWaits(w.s, D.Fetch(u, q), t, p);
      }
    case Copy(u, q) =>
      FilledPage(w, u, q);
      StoreWaits(w.s, D.Edit(u, q, Splice(D.Content(w.s, q), w.turn[u].at, w.turn[u].data)), t, p);
    case Fault(u, q, n) =>
      if u in w.turn {
        FilledPage(w, u, q);
        StoreWaits(w.s, D.Edit(u, q, Splice(D.Content(w.s, q), w.turn[u].at, w.turn[u].data[..n])), t, p);
      }
    case FillFails(u, q) =>
      BadMayGo(w.s, u, q);
      ReleaseWaits(w.s, D.Protocol(MakeBad(u, q)), u, q);
    case Send(u, q) =>
      SentMayGo(w, u, q);
      ReleaseWaits(w.s, D.Flush(u, q), u, q);
    case SendFails(u, q, d) =>
      UnsentMayGo(w, u, q, d);
      ReleaseWaits(w.s, D.FlushFails(u, q, d), u, q);
  }

  /**
    A failed copy blocks its block for good: over any run the page keeps its block and stays
    busy, and a thread that asks for the block never gets it.
   */
  lemma {:induction false} LostForever(w: Files, run: seq<Op>, t: Tid, p: Pg)
    requires FilesOk(w) && IsRun(w, run) && WaitsFor(w, t, p)
    requires forall i :: 0 <= i < |run| ==> run[i] != Protocol(Turn(t, true))
    ensures WaitsFor(After(w, run), t, p)
    ensures After(w, run).s.c.pages[p] == w.s.c.pages[p] && After(w, run).s.c.request[t] == w.s.c.request[t]
    decreases |run|
  {
    hide FilesOk, May, Next;
    if run != [] {
      NextOk(w, run[0]);
      NextWaits(w, run[0], t, p);
      LostForever(Next(w, run[0]), run[1..], t, p);
    }
  }

  /** Pages are lost exactly by failed copies. */
  lemma {:induction false} LostIffFault(w: Files, run: seq<Op>)
    requires FilesOk(w) && IsRun(w, run) && w.lost == {}
    ensures After(w, run).lost == {} <==> forall i :: 0 <= i < |run| ==> !run[i].Fault?
    decreases |run|
  {
    hide FilesOk, May, Next;
    if run != [] {
      NextOk(w, run[0]);
      NextLoses(w, run[0]);
      if run[0].Fault? {
        LostStays(Next(w, run[0]), run[1..], run[0].p);
      } else {
        LostIffFault(Next(w, run[0]), run[1..]);
        assert forall i :: 0 <= i < |run[1..]| ==> run[1..][i] == run[i + 1];
        assert forall i :: 0 < i < |run| ==> run[i] == run[1..][i - 1];
      }
    }
  }

  lemma NextLoses(w: Files, op: Op)
    requires FilesOk(w) && May(w, op)
    ensures Next(w, op).lost == if op.Fault? then w.lost + {op.p} else w.lost
  {
    hide FilesOk, D.May, D.Next, Splice;
  }

  lemma {:induction false} LostStays(w: Files, run: seq<Op>, p: Pg)
    requires FilesOk(w) && IsRun(w, run) && p in w.lost
    ensures p in After(w, run).lost
    decreases |run|
  {
    hide FilesOk, May, Next;
    if run != [] {
      NextOk(w, run[0]);
      NextLoses(w, run[0]);
      LostStays(Next(w, run[0]), run[1..], p);
    }
  }

  // ---------------------------------------------------------------------
  // Two writers extend a file
  // ---------------------------------------------------------------------

  /** One more step of a run. */
  lemma {:induction false} RunThen(w: Files, run: seq<Op>, op: Op)
    requires FilesOk(w) && IsRun(w, run) && FilesOk(After(w, run)) && May(After(w, run), op)
    ensures IsRun(w, run + [op]) && After(w, run + [op]) == Next(After(w, run), op)
    ensures FilesOk(After(w, run + [op]))
    decreases |run|
  {
    hide FilesOk, May, Next;
    var more := run + [op];
    if run == [] {
      NextOk(w, op);
      assert more[1..] == [];
    } else {
      NextOk(w, run[0]);
      assert more[1..] == run[1..] + [op];
      RunThen(Next(w, run[0]), run[1..], op);
    }
  }

  /** The run has come to state w after i steps. */
  ghost predicate Along(run: seq<Op>, i: nat, w: Files) {
    && i <= |run|
    && FilesOk(BootFiles(1, map[], map[])) && IsRun(BootFiles(1, map[], map[]), run[..i])
    && After(BootFiles(1, map[], map[]), run[..i]) == w && FilesOk(w)
  }

  lemma Advance(run: seq<Op>, i: nat, w: Files) returns (n: Files)
    requires Along(run, i, w) && i < |run| && May(w, run[i])
    ensures FilesOk(w) && n == Next(w, run[i]) && Along(run, i + 1, n) && FilesOk(n)
  {
    hide FilesOk, May, Next, BootFiles, IsRun, After;
    RunThen(BootFiles(1, map[], map[]), run[..i], run[i]);
    assert run[..i + 1] == run[..i] + [run[i]];
    n := Next(w, run[i]);
  }

  lemma FindBlock(w: Files, k: Key)
    requires FilesOk(w)
    ensures |w.s.c.chains| == HASH_SIZE
    ensures var r := Find(w.s.c.chains, w.s.c.pages, k);
            && (r.Some? ==> r.value in w.s.c.pages && w.s.c.pages[r.value].key == Some(k))
            && (r.None? ==> forall p :: p in w.s.c.pages ==> w.s.c.pages[p].key != Some(k))
  {
    hide ChainsOk, ListsOk, Find, TailsOk, TurnOk, DirtyOk, LostOk;
    FindIsExact(w.s.c, k);
  }

  /**
    Thread 3 has the only page for its memory while threads 1 and 2 test the size and wait for
    a page. The page comes free, and thread 1 writes the block through while thread 2 waits for
    it. Then thread 2 gets the page, clears it and writes the block through.
   */
  function Writers(k: Key, a: nat, x: Data, b: nat, y: Data): seq<Op> {
    [Protocol(Call(3, Anon)), Protocol(Turn(3, false)),
     Test(1, k, a, x), Protocol(Turn(1, false)),
     Test(2, k, b, y), Protocol(Turn(2, false)),
     Protocol(ReleaseAnon(3, 0)),
     Protocol(Turn(1, false)), Fill(1, 0), Copy(1, 0),
     Protocol(Turn(2, false)),
     Send(1, 0),
     Protocol(Turn(2, false)), Fill(2, 0), Copy(2, 0), Send(2, 0)]
  }

  /** A cache of one page. */
  ghost predicate One(c: Cache, b: Buf, holder: map<Pg, Tid>, request: map<Tid, Request>, asleep: map<Tid, Wait>) {
    && c.pages == map[0 := b] && c.free == (if b.busy then [] else [0])
    && c.holder == holder && c.request == request && c.asleep == asleep
  }

  ghost predicate Writing(w: Files, turn: map<Tid, Turning>, size: map<VNode, nat>) {
    w.turn == turn && w.size == size && w.lost == {}
  }

  lemma Start(run: seq<Op>)
    ensures Along(run, 0, BootFiles(1, map[], map[]))
    ensures One(Boot(1), Buf(None, false, false, false), map[], map[], map[])
  {
    BootFilesOk(1, map[], map[]);
    assert run[..0] == [];
    assert Boot(1).free == [0];
  }

  /** A thread's turn in getblk, with one page: it waits for a page, waits for the page, or takes it. */
  lemma OneTurn(w: Files, t: Tid, k: Key, b: Buf, holder: map<Pg, Tid>, request: map<Tid, Request>,
                asleep: map<Tid, Wait>)
    requires FilesOk(w) && One(w.s.c, b, holder, request, asleep)
    requires t in request && request[t] == Block(k) && t !in asleep && (b.key.Some? ==> b.key == Some(k))
    ensures var op := Protocol(Turn(t, false));
            && May(w, op) && Next(w, op) == w.(s := w.s.(c := Next(w, op).s.c))
            && if !b.busy then
                 One(Next(w, op).s.c, b.(key := Some(k), busy := true), holder[0 := t], request - {t}, asleep)
               else
                 One(Next(w, op).s.c, b, holder, request,
                     asleep[t := if b.key.Some? then OnPage(0) else OnList])
  {
    hide D.Ok, TailsOk, TurnOk, DirtyOk, LostOk, Find, Hash, Enlist;
    FindBlock(w, k);
    OneInv(w);
    assert 0 in w.s.c.pages && w.s.c.pages[0] == b;
    assert b.key.Some? <==> Find(w.s.c.chains, w.s.c.pages, k) == Some(0);
  }

  lemma OneInv(w: Files)
    requires FilesOk(w)
    ensures Inv(w.s.c) && BufsOk(w.s.c.pages)
  {
    hide TailsOk, TurnOk, DirtyOk, LostOk, BufsOk, ChainsOk, ListsOk;
  }

  lemma TakesTurn(r: seq<Op>, i: nat, w: Files, t: Tid, k: Key, b: Buf, holder: map<Pg, Tid>,
                  request: map<Tid, Request>, asleep: map<Tid, Wait>)
    returns (n: Files)
    requires Along(r, i, w) && FilesOk(w) && i < |r| && r[i] == Protocol(Turn(t, false))
    requires One(w.s.c, b, holder, request, asleep)
    requires t in request && request[t] == Block(k) && t !in asleep && (b.key.Some? ==> b.key == Some(k))
    ensures Along(r, i + 1, n) && FilesOk(n) && n == w.(s := w.s.(c := n.s.c))
    ensures if !b.busy then One(n.s.c, b.(key := Some(k), busy := true), holder[0 := t], request - {t}, asleep)
            else One(n.s.c, b, holder, request, asleep[t := if b.key.Some? then OnPage(0) else OnList])
  {
    hide Along, FilesOk, May, Next, One;
    OneTurn(w, t, k, b, holder, request, asleep);
    n := Advance(r, i, w);
  }

  lemma TakesTest(r: seq<Op>, i: nat, w: Files, t: Tid, k: Key, at: nat, data: Data, b: Buf, holder: map<Pg, Tid>,
                  request: map<Tid, Request>, asleep: map<Tid, Wait>)
    returns (n: Files)
    requires Along(r, i, w) && FilesOk(w) && i < |r| && r[i] == Test(t, k, at, data)
    requires One(w.s.c, b, holder, request, asleep) && t !in request && t !in w.turn
    requires k.offset % PAGE_SIZE == 0 && data != [] && at + |data| <= PAGE_SIZE && w.size == map[]
    ensures Along(r, i + 1, n) && FilesOk(n) && One(n.s.c, b, holder, request[t := Block(k)], asleep)
    ensures n == w.(s := w.s.(c := n.s.c), turn := w.turn[t := Turning(k, at, data, true, Asking)])
  {
    hide Along, FilesOk;
    n := Advance(r, i, w);
  }

  lemma BothTest(k: Key, a: nat, x: Data, b: nat, y: Data) returns (w: Files)
    requires k.offset % PAGE_SIZE == 0 && x != [] && a + |x| <= PAGE_SIZE && y != [] && b + |y| <= PAGE_SIZE
    ensures Along(Writers(k, a, x, b, y), 6, w) && FilesOk(w)
    ensures One(w.s.c, Buf(None, true, false, false), map[0 := 3], map[1 := Block(k), 2 := Block(k)],
                map[1 := OnList, 2 := OnList])
    ensures Writing(w, map[1 := Turning(k, a, x, true, Asking), 2 := Turning(k, b, y, true, Asking)], map[])
  {
    hide Along, FilesOk, May, Next, One;
    var r := Writers(k, a, x, b, y);
    var busy := Buf(None, true, false, false);
    w := PageInUse(r);
    w := TakesTest(r, 2, w, 1, k, a, x, busy, map[0 := 3], map[], map[]);
    w := TakesTurn(r, 3, w, 1, k, busy, map[0 := 3], map[1 := Block(k)], map[]);
    w := TakesTest(r, 4, w, 2, k, b, y, busy, map[0 := 3], map[1 := Block(k)], map[1 := OnList]);
    w := TakesTurn(r, 5, w, 2, k, busy, map[0 := 3], map[1 := Block(k), 2 := Block(k)], map[1 := OnList]);
  }

  lemma PageInUse(r: seq<Op>) returns (w: Files)
    requires |r| > 2 && r[0] == Protocol(Call(3, Anon)) && r[1] == Protocol(Turn(3, false))
    ensures Along(r, 2, w) && FilesOk(w)
    ensures One(w.s.c, Buf(None, true, false, false), map[0 := 3], map[], map[]) && Writing(w, map[], map[])
  {
    hide Along, FilesOk, Find, D.Zeros, Bucket, Boot, TailsOk, D.Stored, Hash, Enlist, Unhash, Unlist;
    w := BootFiles(1, map[], map[]);
    Start(r);
    w := Advance(r, 0, w);
    OneInv(w);
    w := Advance(r, 1, w);
  }

  /** The page comes free and thread 1 takes it, */
  lemma FirstTakes(k: Key, a: nat, x: Data, b: nat, y: Data) returns (w: Files)
    requires k.offset % PAGE_SIZE == 0 && x != [] && a + |x| <= PAGE_SIZE && y != [] && b + |y| <= PAGE_SIZE
    ensures Along(Writers(k, a, x, b, y), 8, w) && FilesOk(w)
    ensures One(w.s.c, Buf(Some(k), true, false, false), map[0 := 1], map[2 := Block(k)], map[])
    ensures Writing(w, map[1 := Turning(k, a, x, true, Asking), 2 := Turning(k, b, y, true, Asking)], map[])
  {
    hide Along, FilesOk, May, Next, One;
    var r := Writers(k, a, x, b, y);
    var both := map[1 := Block(k), 2 := Block(k)];
    w := BothTest(k, a, x, b, y);
    w := PageBack(r, w, k);
    w := TakesTurn(r, 7, w, 1, k, Buf(None, false, false, false), map[], both, map[]);
    assert map[][0 := 1] == map[0 := 1] && both - {1} == map[2 := Block(k)];
  }

  /** copies its bytes in, and thread 2 waits for it. */
  lemma FirstCopies(k: Key, a: nat, x: Data, b: nat, y: Data) returns (w: Files)
    requires k.offset % PAGE_SIZE == 0 && x != [] && a + |x| <= PAGE_SIZE && y != [] && b + |y| <= PAGE_SIZE
    ensures Along(Writers(k, a, x, b, y), 11, w) && FilesOk(w)
    ensures One(w.s.c, Buf(Some(k), true, true, false), map[0 := 1], map[2 := Block(k)], map[2 := OnPage(0)])
    ensures Writing(w, map[1 := Turning(k, a, x, true, Copied(0)), 2 := Turning(k, b, y, true, Asking)],
                    map[k.vnode := k.offset + a + |x|])
  {
    hide Along, FilesOk, May, Next, One;
    var r := Writers(k, a, x, b, y);
    w := FirstTakes(k, a, x, b, y);
    w := Copies(r, 8, w, 1, k, Buf(Some(k), true, false, false), map[2 := Block(k)], map[]);
    w := TakesTurn(r, 10, w, 2, k, Buf(Some(k), true, true, false), map[0 := 1], map[2 := Block(k)], map[]);
  }

  lemma PageBack(r: seq<Op>, w: Files, k: Key) returns (n: Files)
    requires Along(r, 6, w) && |r| > 6 && r[6] == Protocol(ReleaseAnon(3, 0)) && 3 !in w.turn && w.lost == {}
    requires One(w.s.c, Buf(None, true, false, false), map[0 := 3], map[1 := Block(k), 2 := Block(k)],
                 map[1 := OnList, 2 := OnList])
    ensures Along(r, 7, n) && FilesOk(n) && n == w.(s := w.s.(c := n.s.c))
    ensures One(n.s.c, Buf(None, false, false, false), map[], map[1 := Block(k), 2 := Block(k)], map[])
  {
    hide Along, FilesOk, Find, D.Zeros, Bucket, Attempt;
    n := Advance(r, 6, w);
    assert n.s.c.asleep == map[];
  }

  /** bread_zero by a thread that has the page, */
  lemma FillView(w: Files, t: Tid, k: Key, b: Buf, request: map<Tid, Request>, asleep: map<Tid, Wait>)
    requires FilesOk(w) && w.lost == {} && t in w.turn && w.turn[t].key == k && w.turn[t].past
    requires w.turn[t].stage == Asking
    requires One(w.s.c, b, map[0 := t], request, asleep) && b.key == Some(k) && !b.bad && b.busy && t !in request
    ensures May(w, Fill(t, 0))
    ensures var n := Next(w, Fill(t, 0));
            && One(n.s.c, Buf(Some(k), true, true, false), map[0 := t], request, asleep)
            && n == w.(s := n.s, turn := w.turn[t := w.turn[t].(stage := Filled(0))])
  {
    hide FilesOk, D.Zeros, D.Ok;
  }

  /** and its copyin. */
  lemma CopyView(w: Files, t: Tid, k: Key, request: map<Tid, Request>, asleep: map<Tid, Wait>)
    requires FilesOk(w) && t in w.turn && w.turn[t].key == k && w.turn[t].stage == Filled(0)
    requires One(w.s.c, Buf(Some(k), true, true, false), map[0 := t], request, asleep)
    ensures May(w, Copy(t, 0))
    ensures var n := Next(w, Copy(t, 0)); var r := w.turn[t];
            && One(n.s.c, Buf(Some(k), true, true, false), map[0 := t], request, asleep)
            && n == w.(s := n.s, turn := w.turn[t := r.(stage := Copied(0))],
                       size := w.size[k.vnode := Max(SizeOf(w.size, k.vnode), k.offset + r.at + |r.data|)])
  {
    hide FilesOk, D.Ok, Splice, D.Content;
    FilledPage(w, t, 0);
  }

  lemma Copies(r: seq<Op>, i: nat, w: Files, t: Tid, k: Key, b: Buf, request: map<Tid, Request>, asleep: map<Tid, Wait>)
    returns (n: Files)
    requires Along(r, i, w) && FilesOk(w) && |r| > i + 1 && r[i] == Fill(t, 0) && r[i + 1] == Copy(t, 0) && w.lost == {}
    requires t in w.turn && w.turn[t].key == k && w.turn[t].past && w.turn[t].stage == Asking
    requires One(w.s.c, b, map[0 := t], request, asleep) && b.key == Some(k) && !b.bad && b.busy && t !in request
    ensures Along(r, i + 2, n) && FilesOk(n) && n.lost == {}
    ensures n.turn == w.turn[t := w.turn[t].(stage := Copied(0))]
    ensures n.size == w.size[k.vnode := Max(SizeOf(w.size, k.vnode), k.offset + w.turn[t].at + |w.turn[t].data|)]
    ensures One(n.s.c, Buf(Some(k), true, true, false), map[0 := t], request, asleep)
  {
    hide Along, FilesOk, May, Next, One, SizeOf;
    FillView(w, t, k, b, request, asleep);
    n := Advance(r, i, w);
    CopyView(n, t, k, request, asleep);
    n := Advance(r, i + 1, n);
  }

  /**
    Two writers find the same block past the end of the file and both write it, without a
    failure. The block ends up with the bytes of the second on zeros: those of the first,
    which the server had, are gone.
   */
  lemma SecondWriterClears(k: Key, a: nat, x: Data, b: nat, y: Data)
    requires k.offset % PAGE_SIZE == 0 && x != [] && a + |x| <= PAGE_SIZE && y != [] && b + |y| <= PAGE_SIZE
    ensures var w := BootFiles(1, map[], map[]); var run := Writers(k, a, x, b, y);
            && IsRun(w, run[..12]) && D.Stored(After(w, run[..12]).s.server, k) == Splice(D.Zeros(), a, x)
            && IsRun(w, run) && D.Stored(After(w, run).s.server, k) == Splice(D.Zeros(), b, y)
  {
    hide Along, FilesOk, May, Next, One, Splice, IsRun, After, D.Stored;
    var r := Writers(k, a, x, b, y);
    var w := FirstCopies(k, a, x, b, y);
    w := Sends(r, 11, w, 1, k, map[2 := Block(k)], map[2 := OnPage(0)]);
    assert Woken(map[2 := OnPage(0)], 0) == map[];
    AlongIs(r, 12, w);
    w := TakesTurn(r, 12, w, 2, k, Buf(Some(k), false, true, false), map[], map[2 := Block(k)], map[]);
    assert map[][0 := 2] == map[0 := 2] && map[2 := Block(k)] - {2} == map[];
    w := Copies(r, 13, w, 2, k, Buf(Some(k), true, true, false), map[], map[]);
    w := Sends(r, 15, w, 2, k, map[], map[]);
    AlongIs(r, 16, w);
    assert r[..16] == r;
  }

  lemma AlongIs(r: seq<Op>, i: nat, w: Files)
    requires Along(r, i, w)
    ensures IsRun(BootFiles(1, map[], map[]), r[..i]) && After(BootFiles(1, map[], map[]), r[..i]) == w
  {
  }

  lemma SendView(w: Files, t: Tid, k: Key, request: map<Tid, Request>, asleep: map<Tid, Wait>)
    requires FilesOk(w) && t in w.turn && w.turn[t].key == k && w.turn[t].stage == Copied(0)
    requires One(w.s.c, Buf(Some(k), true, true, false), map[0 := t], request, asleep)
    ensures May(w, Send(t, 0))
    ensures var n := Next(w, Send(t, 0));
            && One(n.s.c, Buf(Some(k), false, true, false), map[], request, Woken(asleep, 0))
            && n == w.(s := n.s, turn := w.turn - {t})
  {
    hide FilesOk, D.Ok, Woken, D.Content;
    SentMayGo(w, t, 0);
  }

  lemma Sends(r: seq<Op>, i: nat, w: Files, t: Tid, k: Key, request: map<Tid, Request>, asleep: map<Tid, Wait>)
    returns (n: Files)
    requires Along(r, i, w) && FilesOk(w) && |r| > i && r[i] == Send(t, 0)
    requires t in w.turn && w.turn[t].key == k && w.turn[t].past && w.turn[t].stage == Copied(0)
    requires w.turn[t].at + |w.turn[t].data| <= PAGE_SIZE
    requires One(w.s.c, Buf(Some(k), true, true, false), map[0 := t], request, asleep)
    ensures Along(r, i + 1, n) && FilesOk(n)
    ensures n == w.(s := n.s, turn := w.turn - {t})
    ensures One(n.s.c, Buf(Some(k), false, true, false), map[], request, Woken(asleep, 0))
    ensures D.Stored(n.s.server, k) == Splice(D.Zeros(), w.turn[t].at, w.turn[t].data)
  {
    hide Along, FilesOk, May, Next, One, Splice, D.Stored, D.Zeros, Woken;
    SendView(w, t, k, request, asleep);
    SendIsUpdateIff(w, t, 0);
    n := Advance(r, i, w);
  }
}
