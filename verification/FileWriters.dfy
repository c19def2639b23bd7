/**
  Writers of files over the page cache with its contents: the turns of write_to_file
  (fs/file.c:114-181) of any number of threads, interleaved.

  The locks that sys_write takes around the loop do nothing (proc/rwlock.c), so one thread
  may test the file's size while another is about to extend the file. A turn tests the size,
  asks getblk for the block, fills the page from the server or with zeros, copies its bytes
  in, raises the size and writes the page through.
 */
module FileWriters {
  import opened Lists
  import opened PageCache
  import D = PageCacheData

  type Data = D.Data

  const PAGE_SIZE: nat := 4096

  /** How far a turn is: in getblk, with the page filled, with its bytes copied into the page. */
  datatype Stage = Asking | Filled(p: Pg) | Copied(p: Pg)

  /** One turn of the write loop: `past` is what the test of the size said. */
  datatype Turning = Turning(key: Key, at: nat, data: Data, past: bool, stage: Stage)

  /** `lost` are the pages whose holders returned EFAULT: nothing releases them. */
  datatype Files = Files(s: D.Store, size: map<VNode, nat>, turn: map<Tid, Turning>, lost: set<Pg>)

  function SizeOf(size: map<VNode, nat>, v: VNode): nat {
    if v in size then size[v] else 0
  }

  /** A page with some bytes overwritten. */
  function Splice(page: Data, at: nat, data: Data): (r: Data)
    requires at + |data| <= |page|
    ensures |r| == |page|
    ensures forall i :: 0 <= i < |r| ==> r[i] == if at <= i < at + |data| then data[i - at] else page[i]
  {
    page[..at] + data + page[at + |data|..]
  }

  // ---------------------------------------------------------------------
  // The steps
  // ---------------------------------------------------------------------

  datatype Op =
    | Protocol(a: Action)                                // a reader's step, or anyone's turn in getblk
    | Fetch(t: Tid, p: Pg)                               // a reader's bread
    | Test(t: Tid, key: Key, at: nat, data: Data)        // compares with the size, asks for the block
    | GiveUp(t: Tid)                                     // getblk returned no page
    | Fill(t: Tid, p: Pg)                                // the rest of bread or bread_zero
    | FillFails(t: Tid, p: Pg)                           // bread's vfs_read failed
    | Copy(t: Tid, p: Pg)                                // copyin, and the size raised
    | Fault(t: Tid, p: Pg, n: nat)                       // copyin or copyout failed after n bytes
    | Send(t: Tid, p: Pg)                                // bwrite
    | SendFails(t: Tid, p: Pg, d: Data)                  // bwrite's vfs_write failed: the server has d

  /** The part of the page that bwrite sends. */
  function Sent(size: nat, offset: nat): (n: int) {
    if size - offset < PAGE_SIZE then size % PAGE_SIZE else PAGE_SIZE
  }

  ghost predicate HasTurn(w: Files, t: Tid, p: Pg, stage: Stage) {
    && t in w.turn && w.turn[t].stage == stage
    && Holds(w.s.c, t, p) && w.s.c.pages[p].key == Some(w.turn[t].key)
  }

  ghost predicate May(w: Files, op: Op) {
    match op
    case Protocol(a) =>
      && D.May(w.s, D.Protocol(a))
      && (a.Turn? || a.t !in w.turn)
      && (a.Release? || a.ReleaseAnon? || a.MakeBad? ==> a.p !in w.lost)
    case Fetch(t, p) => t !in w.turn && D.May(w.s, D.Fetch(t, p))
    case Test(t, k, at, data) =>
      && t !in w.turn && t !in w.s.c.request && k.offset % PAGE_SIZE == 0
      && data != [] && at + |data| <= PAGE_SIZE
    case GiveUp(t) => t in w.turn && w.turn[t].stage.Asking? && !w.turn[t].past && t !in w.s.c.request
    case Fill(t, p) => HasTurn(w, t, p, Asking) && !w.s.c.pages[p].bad && t !in w.s.c.request && p !in w.lost
    case FillFails(t, p) =>
      HasTurn(w, t, p, Asking) && !w.turn[t].past && !w.s.c.pages[p].valid && t !in w.s.c.request && p !in w.lost
    case Copy(t, p) => HasTurn(w, t, p, Filled(p))
    case Fault(t, p, n) =>
      if t in w.turn then HasTurn(w, t, p, Filled(p)) && n < |w.turn[t].data|
      else Holds(w.s.c, t, p) && D.Good(w.s.c.pages[p]) && p !in w.lost
    case Send(t, p) => HasTurn(w, t, p, Copied(p))
    case SendFails(t, p, d) =>
      && HasTurn(w, t, p, Copied(p)) && |d| == PAGE_SIZE
      && var k := w.turn[t].key;
         forall i :: 0 <= i < PAGE_SIZE && k.offset + i >= SizeOf(w.size, k.vnode) ==> d[i] == 0
  }

  function Max(a: nat, b: nat): nat {
    if a < b then b else a
  }

  /** The store after the rest of bread or bread_zero: a page of bread that is valid is used as it is. */
  ghost function FilledStore(w: Files, t: Tid, p: Pg): D.Store
    requires FilesOk(w) && May(w, Fill(t, p))
  {
    if w.turn[t].past then D.Next(w.s, D.Zero(t, p))
    else if w.s.c.pages[p].valid then w.s
    else D.Next(w.s, D.Fetch(t, p))
  }

  ghost function Released(s: D.Store, t: Tid, p: Pg): D.Store
    requires D.Ok(s) && D.May(s, D.Protocol(Release(t, p)))
  {
    D.Next(s, D.Protocol(Release(t, p)))
  }

  ghost function Next(w: Files, op: Op): Files
    requires FilesOk(w) && May(w, op)
  {
    match op
    case Protocol(a) => w.(s := D.Next(w.s, D.Protocol(a)))
    case Fetch(t, p) => w.(s := D.Next(w.s, D.Fetch(t, p)))
    case Test(t, k, at, data) =>
      w.(s := D.Next(w.s, D.Protocol(Call(t, Block(k)))),
         turn := w.turn[t := Turning(k, at, data, !(k.offset < SizeOf(w.size, k.vnode)), Asking)])
    case GiveUp(t) => w.(turn := w.turn - {t})
    case Fill(t, p) => w.(s := FilledStore(w, t, p), turn := w.turn[t := w.turn[t].(stage := Filled(p))])
    case FillFails(t, p) =>
      BadMayGo(w.s, t, p);
      w.(s := Released(D.Next(w.s, D.Protocol(MakeBad(t, p))), t, p), turn := w.turn - {t})
    case Copy(t, p) =>
      FilledPage(w, t, p);
      var r := w.turn[t]; var v := r.key.vnode;
      w.(s := D.Next(w.s, D.Edit(t, p, Splice(D.Content(w.s, p), r.at, r.data))),
         size := w.size[v := Max(SizeOf(w.size, v), r.key.offset + r.at + |r.data|)],
         turn := w.turn[t := r.(stage := Copied(p))])
    case Fault(t, p, n) => w.(s := FaultedStore(w, t, p, n), turn := w.turn - {t}, lost := w.lost + {p})
    case Send(t, p) =>
      SentMayGo(w, t, p);
      w.(s := Released(D.Next(w.s, D.Flush(t, p)), t, p), turn := w.turn - {t})
    case SendFails(t, p, d) =>
      UnsentMayGo(w, t, p, d);
      w.(s := Released(D.Next(w.s, D.FlushFails(t, p, d)), t, p), turn := w.turn - {t})
  }

  /** What a failed copy leaves: copyin has copied some of the bytes. */
  ghost function FaultedStore(w: Files, t: Tid, p: Pg, n: nat): D.Store
    requires FilesOk(w) && May(w, Fault(t, p, n))
  {
    if t in w.turn then
      FilledPage(w, t, p);
      var r := w.turn[t];
      D.Next(w.s, D.Edit(t, p, Splice(D.Content(w.s, p), r.at, r.data[..n])))
    else w.s
  }

  // ---------------------------------------------------------------------
  // The invariant
  // ---------------------------------------------------------------------

  /** A block holds nothing past the end of its file. */
  ghost predicate TailOk(block: Data, k: Key, size: map<VNode, nat>) {
    && |block| == PAGE_SIZE
    && forall i :: 0 <= i < PAGE_SIZE && k.offset + i >= SizeOf(size, k.vnode) ==> block[i] == 0
  }

  ghost predicate TailsOk(server: map<Key, Data>, size: map<VNode, nat>) {
    forall k {:trigger D.Stored(server, k)} :: TailOk(D.Stored(server, k), k, size)
  }

  ghost predicate PageOf(w: Files, t: Tid, p: Pg) {
    t in w.turn && HasTurn(w, t, p, w.turn[t].stage) && D.Good(w.s.c.pages[p]) && p !in w.lost
  }

  /** What the turn found its block to be. */
  ghost function Base(w: Files, r: Turning): Data {
    if r.past then D.Zeros() else D.Stored(w.s.server, r.key)
  }

  ghost predicate TurnOk(w: Files, t: Tid) {
    t in w.turn ==>
      var r := w.turn[t];
      && r.key.offset % PAGE_SIZE == 0 && r.data != [] && r.at + |r.data| <= PAGE_SIZE
      && (r.stage.Filled? ==> PageOf(w, t, r.stage.p) && D.Content(w.s, r.stage.p) == Base(w, r))
      && (r.stage.Copied? ==>
            && PageOf(w, t, r.stage.p)
            && |Base(w, r)| == PAGE_SIZE
            && D.Content(w.s, r.stage.p) == Splice(Base(w, r), r.at, r.data)
            && SizeOf(w.size, r.key.vnode) >= r.key.offset + r.at + |r.data|)
  }

  /** A changed page is in the hands of the turn that changed it, or lost. */
  ghost predicate DirtyOk(w: Files, p: Pg) {
    p in w.s.dirty && p !in w.lost ==>
      && p in w.s.c.holder && w.s.c.holder[p] in w.turn
      && var g := w.turn[w.s.c.holder[p]].stage; g == Filled(p) || g == Copied(p)
  }

  ghost predicate LostOk(w: Files, p: Pg) {
    p in w.lost ==> p in w.s.c.holder && p in w.s.c.pages && D.Good(w.s.c.pages[p])
  }

  ghost predicate FilesOk(w: Files) {
    && D.Ok(w.s)
    && TailsOk(w.s.server, w.size)
    && (forall t {:trigger TurnOk(w, t)} :: TurnOk(w, t))
    && (forall p {:trigger DirtyOk(w, p)} :: DirtyOk(w, p))
    && (forall p {:trigger LostOk(w, p)} :: LostOk(w, p))
  }

  lemma FilledPage(w: Files, t: Tid, p: Pg)
    requires FilesOk(w) && HasTurn(w, t, p, Filled(p))
    ensures D.Good(w.s.c.pages[p]) && |D.Content(w.s, p)| == PAGE_SIZE
    ensures w.turn[t].at + |w.turn[t].data| <= PAGE_SIZE
  {
    hide D.Ok, TailsOk;
    assert TurnOk(w, t);
    StoredTail(w, w.turn[t].key);
  }

  lemma StoredTail(w: Files, k: Key)
    requires TailsOk(w.s.server, w.size)
    ensures TailOk(D.Stored(w.s.server, k), k, w.size)
  {
  }

  /** A page marked bad may be released. */
  lemma BadMayGo(s: D.Store, t: Tid, p: Pg)
    requires D.Ok(s) && Holds(s.c, t, p) && s.c.pages[p].key.Some?
    ensures D.May(s, D.Protocol(MakeBad(t, p)))
    ensures var n := D.Next(s, D.Protocol(MakeBad(t, p))); D.Ok(n) && D.May(n, D.Protocol(Release(t, p)))
  {
    hide D.Ok;
    D.NextOk(s, D.Protocol(MakeBad(t, p)));
  }

  /** So may one that was written, */
  lemma SentMayGo(w: Files, t: Tid, p: Pg)
    requires FilesOk(w) && HasTurn(w, t, p, Copied(p))
    ensures D.May(w.s, D.Flush(t, p))
    ensures var n := D.Next(w.s, D.Flush(t, p)); D.Ok(n) && D.May(n, D.Protocol(Release(t, p)))
  {
    hide D.Ok, TailsOk;
    assert TurnOk(w, t);
    D.NextOk(w.s, D.Flush(t, p));
  }

  /** and one whose write failed. */
  lemma UnsentMayGo(w: Files, t: Tid, p: Pg, d: Data)
    requires FilesOk(w) && HasTurn(w, t, p, Copied(p))
    ensures D.May(w.s, D.FlushFails(t, p, d))
    ensures var n := D.Next(w.s, D.FlushFails(t, p, d)); D.Ok(n) && D.May(n, D.Protocol(Release(t, p)))
  {
    hide D.Ok, TailsOk;
    assert TurnOk(w, t);
    D.NextOk(w.s, D.FlushFails(t, p, d));
  }

  // ---------------------------------------------------------------------
  // Each step keeps it
  // ---------------------------------------------------------------------

  /** What a thread relies on while it holds page q. */
  ghost predicate Kept(s: D.Store, n: D.Store, q: Pg) {
    && q in s.c.holder && q in n.c.holder && n.c.holder[q] == s.c.holder[q]
    && q in s.c.pages && q in n.c.pages && n.c.pages[q] == s.c.pages[q]
    && D.Content(n, q) == D.Content(s, q)
    && (q in n.dirty <==> q in s.dirty)
    && (s.c.pages[q].key.Some? ==>
          D.Stored(n.server, s.c.pages[q].key.value) == D.Stored(s.server, s.c.pages[q].key.value))
  }

  /** The page an operation works on. */
  predicate Touches(op: D.Op, q: Pg) {
    if op.Protocol? then (op.a.MakeBad? || op.a.Release? || op.a.ReleaseAnon?) && op.a.p == q
    else op.p == q
  }

  lemma ProtocolLeaves(c: Cache, a: Action, q: Pg)
    requires Inv(c) && Enabled(c, a) && !a.MakeValid? && q in c.holder && !Touches(D.Protocol(a), q)
    ensures var d := Step(c, a);
            && q in c.pages && q in d.pages && d.pages[q] == c.pages[q]
            && q in d.holder && d.holder[q] == c.holder[q]
  {
    hide ChainsOk, ListsOk, NoDup, BufsOk, WaitsOk, Bucket, Unhash, Unlist, Hash, Enlist, Woken;
    if a.Turn? && c.request[a.t].Block? {
      FindIsExact(c, c.request[a.t].key);
    }
  }

  /** No operation on another page disturbs a held page or the block it caches. */
  lemma NextLeaves(s: D.Store, op: D.Op, q: Pg)
    requires D.Ok(s) && D.May(s, op) && q in s.c.holder && !Touches(op, q)
    ensures Kept(s, D.Next(s, op), q)
  {
    hide ChainsOk, ListsOk, FreeOk, WaitsOk, Enabled, Step, D.CleanAt;
    if op.Protocol? {
      ProtocolLeaves(s.c, op.a, q);
    } else {
      var p := op.p;
      assert s.c.pages[p].key.Some? && s.c.pages[p].key == s.c.pages[q].key ==> p == q;
    }
  }

  /** A turn whose page is left alone goes on as it was. */
  lemma OtherTurn(w: Files, n: Files, t: Tid)
    requires TurnOk(w, t) && t in w.turn && t in n.turn && n.turn[t] == w.turn[t]
    requires !w.turn[t].stage.Asking? ==> Kept(w.s, n.s, w.turn[t].stage.p) && w.turn[t].stage.p !in n.lost
    requires SizeOf(w.size, w.turn[t].key.vnode) <= SizeOf(n.size, w.turn[t].key.vnode)
    ensures TurnOk(n, t)
  {
    hide D.Content, D.Stored, SizeOf;
  }

  /** What a step on page p owes to everyone else. */
  ghost predicate Apart(w: Files, n: Files, t: Tid, p: Pg) {
    && (forall q :: q in w.s.c.holder && q != p ==> Kept(w.s, n.s, q))
    && n.s.dirty - {p} <= w.s.dirty
    && n.lost - {p} == w.lost - {p} && w.lost <= n.lost
    && n.turn - {t} == w.turn - {t}
    && (forall v :: SizeOf(w.size, v) <= SizeOf(n.size, v))
  }

  /** It is enough to look at the thread that moves and its page. */
  lemma ApartOk(w: Files, n: Files, t: Tid, p: Pg)
    requires FilesOk(w) && Holds(w.s.c, t, p) && Apart(w, n, t, p)
    requires D.Ok(n.s) && TailsOk(n.s.server, n.size) && TurnOk(n, t) && DirtyOk(n, p) && LostOk(n, p)
    requires t in w.turn && !w.turn[t].stage.Asking? ==> w.turn[t].stage.p == p
    ensures FilesOk(n)
  {
    hide D.Ok, TailsOk, Kept;
    forall u
      ensures TurnOk(n, u)
    {
      assert TurnOk(w, u);
      if u != t && u in n.turn {
        assert u in n.turn - {t} && (n.turn - {t})[u] == n.turn[u];
        if !w.turn[u].stage.Asking? {
          assert w.turn[u].stage.p !in w.lost - {p};
        }
        OtherTurn(w, n, u);
      }
    }
    forall q
      ensures DirtyOk(n, q) && LostOk(n, q)
    {
      if q != p {
        OtherPage(w, n, t, p, q);
      }
    }
  }

  lemma OtherPage(w: Files, n: Files, t: Tid, p: Pg, q: Pg)
    requires FilesOk(w) && Holds(w.s.c, t, p) && Apart(w, n, t, p) && q != p
    requires t in w.turn && !w.turn[t].stage.Asking? ==> w.turn[t].stage.p == p
    ensures DirtyOk(n, q) && LostOk(n, q)
  {
    hide D.Ok, TailsOk, TurnOk, D.Content, D.Stored;
    assert DirtyOk(w, q) && LostOk(w, q);
    assert q in n.lost ==> q in n.lost - {p};
    assert q in n.s.dirty ==> q in n.s.dirty - {p};
    if q in n.s.dirty && q !in n.lost {
      var u := w.s.c.holder[q];
      assert u in w.turn - {t};
      assert Kept(w.s, n.s, q);
    }
  }

  /** A step that works on no page. */
  lemma QuietOk(w: Files, n: Files, t: Tid)
    requires FilesOk(w) && D.Ok(n.s)
    requires forall q :: q in w.s.c.holder ==> Kept(w.s, n.s, q)
    requires n.s.dirty == w.s.dirty && n.s.server == w.s.server && n.size == w.size && n.lost == w.lost
    requires n.turn - {t} == w.turn - {t} && TurnOk(n, t)
    requires t in w.turn ==> n.turn == w.turn || w.turn[t].stage.Asking?
    ensures FilesOk(n)
  {
    hide D.Ok, TailsOk, D.Content, D.Stored;
    forall u
      ensures TurnOk(n, u)
    {
      assert TurnOk(w, u);
      if u != t && u in n.turn {
        assert u in n.turn - {t} && (n.turn - {t})[u] == n.turn[u];
        OtherTurn(w, n, u);
      }
    }
    forall q
      ensures DirtyOk(n, q) && LostOk(n, q)
    {
      assert DirtyOk(w, q) && LostOk(w, q);
      if q in w.s.dirty && q !in w.lost {
        assert w.s.c.holder[q] != t ==> w.s.c.holder[q] in w.turn - {t};
      }
    }
  }

  /** The page a step works on. */
  predicate Works(op: Op, q: Pg) {
    match op
    case Protocol(a) => Touches(D.Protocol(a), q)
    case Test(_, _, _, _) => false
    case GiveUp(_) => false
    case _ => op.p == q
  }

  lemma SelfKept(s: D.Store, q: Pg)
    requires D.Ok(s) && q in s.c.holder
    ensures Kept(s, s, q)
  {
    hide ChainsOk, ListsOk, FreeOk, BufsOk, WaitsOk;
  }

  lemma TwoLeave(s: D.Store, op: D.Op, t: Tid, p: Pg, q: Pg)
    requires D.Ok(s) && D.May(s, op) && Touches(op, p) && q in s.c.holder && q != p
    requires D.Ok(D.Next(s, op)) && D.May(D.Next(s, op), D.Protocol(Release(t, p)))
    ensures Kept(s, Released(D.Next(s, op), t, p), q)
  {
    hide D.Ok, D.May, D.Next, D.Content, D.Stored;
    NextLeaves(s, op, q);
    NextLeaves(D.Next(s, op), D.Protocol(Release(t, p)), q);
  }

  /** A held page that a step does not work on is left alone. */
  lemma NextKept(w: Files, op: Op, q: Pg)
    requires FilesOk(w) && May(w, op) && q in w.s.c.holder && !Works(op, q)
    ensures Kept(w.s, Next(w, op).s, q)
  {
    hide D.Ok, D.Next, TailsOk, TurnOk, DirtyOk, LostOk, Kept, Splice;
    SelfKept(w.s, q);
    match op
    case Protocol(a) => NextLeaves(w.s, D.Protocol(a), q);
    case Fetch(t, p) => NextLeaves(w.s, D.Fetch(t, p), q);
    case Test(t, k, _, _) => NextLeaves(w.s, D.Protocol(Call(t, Block(k))), q);
    case GiveUp(_) =>
    case Fill(t, p) =>
      if w.turn[t].past {
        NextLeaves(w.s, D.Zero(t, p), q);
      } else if !w.s.c.pages[p].valid {
        NextLeaves(w.s, D.Fetch(t, p), q);
      }
    case FillFails(t, p) =>
      BadMayGo(w.s, t, p);
      TwoLeave(w.s, D.Protocol(MakeBad(t, p)), t, p, q);
    case Copy(t, p) =>
      FilledPage(w, t, p);
      NextLeaves(w.s, D.Edit(t, p, Splice(D.Content(w.s, p), w.turn[t].at, w.turn[t].data)), q);
    case Fault(t, p, n) =>
      if t in w.turn {
        FilledPage(w, t, p);
        NextLeaves(w.s, D.Edit(t, p, Splice(D.Content(w.s, p), w.turn[t].at, w.turn[t].data[..n])), q);
      }
    case Send(t, p) =>
      SentMayGo(w, t, p);
      TwoLeave(w.s, D.Flush(t, p), t, p, q);
    case SendFails(t, p, d) =>
      UnsentMayGo(w, t, p, d);
      TwoLeave(w.s, D.FlushFails(t, p, d), t, p, q);
  }

  lemma AllKept(w: Files, op: Op)
    requires FilesOk(w) && May(w, op)
    ensures forall q :: q in w.s.c.holder && !Works(op, q) ==> Kept(w.s, Next(w, op).s, q)
  {
    hide FilesOk, May, Next, Works, Kept;
    forall q | q in w.s.c.holder && !Works(op, q)
      ensures Kept(w.s, Next(w, op).s, q)
    {
      NextKept(w, op, q);
    }
  }

  lemma ProtocolOk(w: Files, a: Action)
    requires FilesOk(w) && May(w, Protocol(a))
    ensures FilesOk(Next(w, Protocol(a)))
  {
    hide D.Ok, TailsOk, TurnOk, Kept, Inv, Enabled, Step;
    var n := Next(w, Protocol(a));
    D.NextOk(w.s, D.Protocol(a));
    AllKept(w, Protocol(a));
    if a.Turn? || a.Call? {
      ProtocolTurn(w, a);
      QuietOk(w, n, a.t);
    } else {
      ProtocolPage(w, a);
      ApartOk(w, n, a.t, a.p);
    }
  }

  /** A thread in getblk has no page yet that its turn relies on. */
  lemma ProtocolTurn(w: Files, a: Action)
    requires FilesOk(w) && May(w, Protocol(a)) && (a.Turn? || a.Call?)
    ensures TurnOk(Next(w, Protocol(a)), a.t)
  {
    hide D.Ok, TailsOk, Inv, Enabled, Step, D.Content, D.Stored;
    assert TurnOk(w, a.t);
    if a.t in w.turn {
      AllKept(w, Protocol(a));
      OtherTurn(w, Next(w, Protocol(a)), a.t);
    }
  }

  /** A reader's page has not been changed. */
  lemma ProtocolPage(w: Files, a: Action)
    requires FilesOk(w) && May(w, Protocol(a)) && (a.MakeBad? || a.Release? || a.ReleaseAnon?)
    ensures var n := Next(w, Protocol(a));
            Holds(w.s.c, a.t, a.p) && TurnOk(n, a.t) && DirtyOk(n, a.p) && LostOk(n, a.p)
  {
    hide D.Ok, TailsOk, Inv, Step, D.Content, D.Stored;
    assert DirtyOk(w, a.p) && LostOk(w, a.p);
  }

  lemma FetchOk(w: Files, t: Tid, p: Pg)
    requires FilesOk(w) && May(w, Fetch(t, p))
    ensures FilesOk(Next(w, Fetch(t, p)))
  {
    hide D.Ok, TailsOk, Inv, D.Content, D.Stored, Kept;
    D.NextOk(w.s, D.Fetch(t, p));
    AllKept(w, Fetch(t, p));
    assert TurnOk(w, t) && DirtyOk(w, p) && LostOk(w, p);
    ApartOk(w, Next(w, Fetch(t, p)), t, p);
  }

  lemma TestOk(w: Files, t: Tid, k: Key, at: nat, data: Data)
    requires FilesOk(w) && May(w, Test(t, k, at, data))
    ensures FilesOk(Next(w, Test(t, k, at, data)))
  {
    hide D.Ok, TailsOk, Inv, Step, D.Content, D.Stored, Kept;
    D.NextOk(w.s, D.Protocol(Call(t, Block(k))));
    AllKept(w, Test(t, k, at, data));
    QuietOk(w, Next(w, Test(t, k, at, data)), t);
  }

  lemma GiveUpOk(w: Files, t: Tid)
    requires FilesOk(w) && May(w, GiveUp(t))
    ensures FilesOk(Next(w, GiveUp(t)))
  {
    hide D.Ok, TailsOk, Inv, D.Content, D.Stored, Kept;
    AllKept(w, GiveUp(t));
    QuietOk(w, Next(w, GiveUp(t)), t);
  }

  /** The page that getblk gave is filled: with the server's block after bread, with zeros after bread_zero. */
  lemma FillOk(w: Files, t: Tid, p: Pg)
    requires FilesOk(w) && May(w, Fill(t, p))
    ensures FilesOk(Next(w, Fill(t, p)))
  {
    hide D.Ok, TailsOk, Inv, Kept, D.Content, D.Stored;
    FillPage(w, t, p);
    AllKept(w, Fill(t, p));
    ApartOk(w, Next(w, Fill(t, p)), t, p);
  }

  lemma FillPage(w: Files, t: Tid, p: Pg)
    requires FilesOk(w) && May(w, Fill(t, p))
    ensures var n := Next(w, Fill(t, p));
            && D.Ok(n.s) && TurnOk(n, t) && DirtyOk(n, p) && LostOk(n, p)
            && n.s.dirty - {p} <= w.s.dirty && n.s.server == w.s.server
  {
    hide D.Ok, TailsOk, Inv, D.Content, D.Stored;
    assert TurnOk(w, t) && DirtyOk(w, p) && LostOk(w, p);
    if w.turn[t].past {
      D.NextOk(w.s, D.Zero(t, p));
      ZeroContent(w.s, t, p);
    } else if !w.s.c.pages[p].valid {
      D.NextOk(w.s, D.Fetch(t, p));
      FetchContent(w.s, t, p);
    } else {
      CleanContent(w.s, p);
    }
  }

  lemma ZeroContent(s: D.Store, t: Tid, p: Pg)
    requires D.Ok(s) && D.May(s, D.Zero(t, p))
    ensures D.Content(D.Next(s, D.Zero(t, p)), p) == D.Zeros()
  {
    hide D.Ok;
  }

  lemma FetchContent(s: D.Store, t: Tid, p: Pg)
    requires D.Ok(s) && D.May(s, D.Fetch(t, p))
    ensures D.Content(D.Next(s, D.Fetch(t, p)), p) == D.Stored(s.server, D.BlockOf(s, p))
  {
    hide D.Ok;
  }

  lemma CleanContent(s: D.Store, p: Pg)
    requires D.Ok(s) && p in s.c.pages && D.Good(s.c.pages[p]) && p !in s.dirty
    ensures D.Content(s, p) == D.Stored(s.server, D.BlockOf(s, p))
  {
    hide Inv;
    assert D.CleanAt(s, p);
  }

  lemma CopyOk(w: Files, t: Tid, p: Pg)
    requires FilesOk(w) && May(w, Copy(t, p))
    ensures FilesOk(Next(w, Copy(t, p)))
  {
    hide D.Ok, TailsOk, Inv, Kept, D.Content, D.Stored;
    FilledPage(w, t, p);
    var op := D.Edit(t, p, Splice(D.Content(w.s, p), w.turn[t].at, w.turn[t].data));
    D.NextOk(w.s, op);
    EditContent(w.s, op);
    AllKept(w, Copy(t, p));
    assert TurnOk(w, t) && LostOk(w, p);
    TailsGrow(w.s.server, w.size, Next(w, Copy(t, p)).size);
    ApartOk(w, Next(w, Copy(t, p)), t, p);
  }

  lemma EditContent(s: D.Store, op: D.Op)
    requires D.Ok(s) && op.Edit? && D.May(s, op)
    ensures D.Content(D.Next(s, op), op.p) == op.d
  {
    hide D.Ok;
  }

  lemma TailsGrow(server: map<Key, Data>, size: map<VNode, nat>, after: map<VNode, nat>)
    requires TailsOk(server, size) && forall v :: SizeOf(size, v) <= SizeOf(after, v)
    ensures TailsOk(server, after)
  {
    hide D.Stored, SizeOf;
  }

  /** A page whose copy failed stays with its thread. */
  lemma FaultOk(w: Files, t: Tid, p: Pg, n: nat)
    requires FilesOk(w) && May(w, Fault(t, p, n))
    ensures FilesOk(Next(w, Fault(t, p, n)))
  {
    hide D.Ok, TailsOk, Inv, Kept, D.Content, D.Stored;
    if t in w.turn {
      FilledPage(w, t, p);
      D.NextOk(w.s, D.Edit(t, p, Splice(D.Content(w.s, p), w.turn[t].at, w.turn[t].data[..n])));
    }
    AllKept(w, Fault(t, p, n));
    ApartOk(w, Next(w, Fault(t, p, n)), t, p);
  }

  /** A turn that is over has given its page back. */
  lemma LeaveOk(w: Files, op: Op, m: D.Store)
    requires FilesOk(w) && May(w, op) && (op.FillFails? || op.Send? || op.SendFails?)
    requires D.Ok(m) && D.May(m, D.Protocol(Release(op.t, op.p)))
    requires Next(w, op) == w.(s := Released(m, op.t, op.p), turn := w.turn - {op.t})
    requires m.dirty <= w.s.dirty && TailsOk(m.server, w.size)
    ensures FilesOk(Next(w, op))
  {
    hide D.Ok, TailsOk, Inv, Kept, D.Content, D.Stored, D.May;
    D.NextOk(m, D.Protocol(Release(op.t, op.p)));
    AllKept(w, op);
    assert TurnOk(w, op.t);
    ApartOk(w, Next(w, op), op.t, op.p);
  }

  lemma FillFailsOk(w: Files, t: Tid, p: Pg)
    requires FilesOk(w) && May(w, FillFails(t, p))
    ensures FilesOk(Next(w, FillFails(t, p)))
  {
    hide D.Ok, TailsOk, Inv;
    BadMayGo(w.s, t, p);
    LeaveOk(w, FillFails(t, p), D.Next(w.s, D.Protocol(MakeBad(t, p))));
  }

  lemma SendOk(w: Files, t: Tid, p: Pg)
    requires FilesOk(w) && May(w, Send(t, p))
    ensures FilesOk(Next(w, Send(t, p)))
  {
    hide D.Ok, Inv;
    SentMayGo(w, t, p);
    var m := D.Next(w.s, D.Flush(t, p));
    CopiedTail(w, t, p);
    forall k
      ensures TailOk(D.Stored(m.server, k), k, w.size)
    {
      StoredTail(w, k);
    }
    LeaveOk(w, Send(t, p), m);
  }

  lemma CopiedTail(w: Files, t: Tid, p: Pg)
    requires FilesOk(w) && HasTurn(w, t, p, Copied(p))
    ensures TailOk(D.Content(w.s, p), w.turn[t].key, w.size)
  {
    hide D.Ok, TailsOk, D.Content, D.Stored, SizeOf;
    assert TurnOk(w, t);
    StoredTail(w, w.turn[t].key);
  }

  lemma SendFailsOk(w: Files, t: Tid, p: Pg, d: Data)
    requires FilesOk(w) && May(w, SendFails(t, p, d))
    ensures FilesOk(Next(w, SendFails(t, p, d)))
  {
    hide D.Ok, Inv;
    UnsentMayGo(w, t, p, d);
    var m := D.Next(w.s, D.FlushFails(t, p, d));
    forall k
      ensures TailOk(D.Stored(m.server, k), k, w.size)
    {
      StoredTail(w, k);
    }
    LeaveOk(w, SendFails(t, p, d), m);
  }

  /** Every step of every writer and reader keeps the store, the tails of the files and the turns in order. */
  lemma NextOk(w: Files, op: Op)
    requires FilesOk(w) && May(w, op)
    ensures FilesOk(Next(w, op))
  {
    hide FilesOk, May, Next;
    match op
    case Protocol(a) => ProtocolOk(w, a);
    case Fetch(t, p) => FetchOk(w, t, p);
    case Test(t, k, at, data) => TestOk(w, t, k, at, data);
    case GiveUp(t) => GiveUpOk(w, t);
    case Fill(t, p) => FillOk(w, t, p);
    case FillFails(t, p) => FillFailsOk(w, t, p);
    case Copy(t, p) => CopyOk(w, t, p);
    case Fault(t, p, n) => FaultOk(w, t, p, n);
    case Send(t, p) => SendOk(w, t, p);
    case SendFails(t, p, d) => SendFailsOk(w, t, p, d);
  }
}
