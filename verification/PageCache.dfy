/**
  The page cache as a protocol between threads (fs/cache.c).

  Every kernel call runs under the kernel lock, so a step of this machine is one
  stretch of cache code up to the point where it returns or sleeps. A thread that
  finds its page busy, or no page free, sleeps and tries again after a wakeup.
  Steps of different threads interleave freely.
 */
module PageCache {
  import opened Lists
  import Lookup3

  type Pg = nat
  type Tid = nat

  /** A vnode's identity and the inode number that its pages are hashed by. */
  datatype VNode = VNode(id: nat, inode: nat)

  datatype Key = Key(vnode: VNode, offset: nat)

  /** vnode and file_offset (None when the page has no vnode), and the flags; bad is B_ERROR or B_DISCARD. */
  datatype Buf = Buf(key: Option<Key>, busy: bool, valid: bool, bad: bool)

  datatype Request = Block(key: Key) | Anon

  datatype Wait = OnPage(page: Pg) | OnList

  datatype Cache = Cache(
    pages: map<Pg, Buf>,
    free: seq<Pg>,
    chains: seq<seq<Pg>>,
    lists: map<VNode, seq<Pg>>,
    holder: map<Pg, Tid>,
    request: map<Tid, Request>,
    asleep: map<Tid, Wait>
  )

  const HASH_SIZE: nat := 1024

  /** calc_page_lookup_hash */
  function Bucket(k: Key): (h: nat)
    ensures h < HASH_SIZE
  {
    var w := Lookup3.WORD;
    var s := Lookup3.Final(Lookup3.Mix(Lookup3.Abc(k.vnode.inode % w, k.offset % w, k.offset / w % w)));
    s.c % HASH_SIZE
  }

  // ---------------------------------------------------------------------
  // The invariant
  // ---------------------------------------------------------------------

  ghost predicate InBucket(b: Buf, h: nat) {
    b.key.Some? && Bucket(b.key.value) == h
  }

  /** A chain lists each page of its bucket once and nothing else. */
  ghost predicate ChainAt(chain: seq<Pg>, h: nat, pages: map<Pg, Buf>) {
    && NoDup(chain)
    && (forall p :: p in chain ==> p in pages && InBucket(pages[p], h))
    && (forall p :: p in pages && InBucket(pages[p], h) ==> p in chain)
  }

  ghost predicate ChainsOk(chains: seq<seq<Pg>>, pages: map<Pg, Buf>) {
    && |chains| == HASH_SIZE
    && forall h :: 0 <= h < HASH_SIZE ==> ChainAt(chains[h], h, pages)
  }

  function ListOf(lists: map<VNode, seq<Pg>>, v: VNode): seq<Pg> {
    if v in lists then lists[v] else []
  }

  ghost predicate OfVNode(b: Buf, v: VNode) {
    b.key.Some? && b.key.value.vnode == v
  }

  ghost predicate ListAt(list: seq<Pg>, v: VNode, pages: map<Pg, Buf>) {
    && NoDup(list)
    && (forall p :: p in list ==> p in pages && OfVNode(pages[p], v))
    && (forall p :: p in pages && OfVNode(pages[p], v) ==> p in list)
  }

  ghost predicate ListsOk(lists: map<VNode, seq<Pg>>, pages: map<Pg, Buf>) {
    forall v {:trigger ListOf(lists, v)} :: ListAt(ListOf(lists, v), v, pages)
  }

  ghost predicate FreeOk(free: seq<Pg>, pages: map<Pg, Buf>) {
    && NoDup(free)
    && (forall p :: p in free ==> p in pages && !pages[p].busy)
    && (forall p :: p in pages && !pages[p].busy ==> p in free)
  }

  ghost predicate HoldersOk(holder: map<Pg, Tid>, pages: map<Pg, Buf>) {
    && (forall p :: p in holder ==> p in pages && pages[p].busy)
    && (forall p :: p in pages && pages[p].busy ==> p in holder)
  }

  /** A page that no one holds has a block exactly when its contents are valid. */
  ghost predicate BufOk(b: Buf) {
    && (!b.busy ==> (b.valid <==> b.key.Some?) && !b.bad)
    && (b.valid || b.bad ==> b.key.Some?)
  }

  ghost predicate BufsOk(pages: map<Pg, Buf>) {
    && (forall p :: p in pages ==> BufOk(pages[p]))
    && (forall p, q :: p in pages && q in pages && pages[p].key.Some? && pages[p].key == pages[q].key ==> p == q)
  }

  ghost predicate WaitOk(t: Tid, w: Wait, free: seq<Pg>, pages: map<Pg, Buf>, request: map<Tid, Request>) {
    && t in request
    && match w
       case OnList => free == []
       case OnPage(p) => p in pages && pages[p].busy && request[t].Block? && pages[p].key == Some(request[t].key)
  }

  ghost predicate WaitsOk(asleep: map<Tid, Wait>, free: seq<Pg>, pages: map<Pg, Buf>, request: map<Tid, Request>) {
    forall t :: t in asleep ==> WaitOk(t, asleep[t], free, pages, request)
  }

  ghost predicate Inv(c: Cache) {
    && BufsOk(c.pages)
    && FreeOk(c.free, c.pages)
    && HoldersOk(c.holder, c.pages)
    && |c.chains| == HASH_SIZE
    && ChainsOk(c.chains, c.pages)
    && ListsOk(c.lists, c.pages)
    && WaitsOk(c.asleep, c.free, c.pages, c.request)
  }

  // ---------------------------------------------------------------------
  // The steps
  // ---------------------------------------------------------------------

  /** find_blk: the first page of a chain that has the wanted vnode and offset. */
  function FindIn(chain: seq<Pg>, pages: map<Pg, Buf>, k: Key): (r: Option<Pg>)
    ensures r.Some? ==> r.value in chain && r.value in pages && pages[r.value].key == Some(k)
    ensures r.None? ==> forall p :: p in chain && p in pages ==> pages[p].key != Some(k)
  {
    if chain == [] then None
    else if chain[0] in pages && pages[chain[0]].key == Some(k) then Some(chain[0])
    else FindIn(chain[1..], pages, k)
  }

  function Find(chains: seq<seq<Pg>>, pages: map<Pg, Buf>, k: Key): Option<Pg>
    requires |chains| == HASH_SIZE
  {
    FindIn(chains[Bucket(k)], pages, k)
  }

  function Hash(chains: seq<seq<Pg>>, k: Key, p: Pg): seq<seq<Pg>>
    requires |chains| == HASH_SIZE
  {
    chains[Bucket(k) := [p] + chains[Bucket(k)]]
  }

  function Unhash(chains: seq<seq<Pg>>, k: Key, p: Pg): seq<seq<Pg>>
    requires |chains| == HASH_SIZE
  {
    chains[Bucket(k) := Without(chains[Bucket(k)], p)]
  }

  function Enlist(lists: map<VNode, seq<Pg>>, v: VNode, p: Pg): map<VNode, seq<Pg>> {
    lists[v := [p] + ListOf(lists, v)]
  }

  function Unlist(lists: map<VNode, seq<Pg>>, v: VNode, p: Pg): map<VNode, seq<Pg>> {
    lists[v := Without(ListOf(lists, v), p)]
  }

  /** The page leaves the lookup hash and its vnode's list, and has no block any more. */
  function Detach(c: Cache, p: Pg): Cache
    requires |c.chains| == HASH_SIZE && p in c.pages && c.pages[p].key.Some?
  {
    var k := c.pages[p].key.value;
    c.(pages := c.pages[p := c.pages[p].(key := None, valid := false, bad := false)],
       chains := Unhash(c.chains, k, p),
       lists := Unlist(c.lists, k.vnode, p))
  }

  /** The page takes on a block and can be found. */
  function Attach(c: Cache, p: Pg, k: Key): Cache
    requires |c.chains| == HASH_SIZE && p in c.pages
  {
    c.(pages := c.pages[p := c.pages[p].(key := Some(k))],
       chains := Hash(c.chains, k, p),
       lists := Enlist(c.lists, k.vnode, p))
  }

  /** Thread t leaves with page p. */
  function Take(c: Cache, t: Tid, p: Pg): Cache
    requires p in c.pages
  {
    c.(pages := c.pages[p := c.pages[p].(busy := true)],
       free := Without(c.free, p),
       holder := c.holder[p := t],
       request := c.request - {t})
  }

  function Sleep(c: Cache, t: Tid, w: Wait): Cache {
    c.(asleep := c.asleep[t := w])
  }

  function Last(s: seq<Pg>): Pg
    requires s != []
  {
    s[|s| - 1]
  }

  /** The last page of the free queue is emptied, given a block if one is wanted, and taken. */
  function Recycle(c: Cache, t: Tid, k: Option<Key>): Cache
    requires |c.chains| == HASH_SIZE && c.free != [] && Last(c.free) in c.pages
    requires var b := c.pages[Last(c.free)]; b.valid ==> b.key.Some?
  {
    var p := Last(c.free);
    var d := if c.pages[p].valid then Detach(c, p) else c;
    var e := if k.Some? then Attach(d, p, k.value) else d;
    Take(e, t, p)
  }

  /** One turn of the loop in getblk or getblk_anon; `aborted` is SBF_ABORT of the file's superblock. */
  function Attempt(c: Cache, t: Tid, aborted: bool): Cache
    requires Inv(c) && t in c.request
  {
    match c.request[t]
    case Anon =>
      if c.free == [] then Sleep(c, t, OnList) else Recycle(c, t, None)
    case Block(k) =>
      if aborted then c.(request := c.request - {t})
      else
        match Find(c.chains, c.pages, k)
        case Some(p) => if c.pages[p].busy then Sleep(c, t, OnPage(p)) else Take(c, t, p)
        case None => if c.free == [] then Sleep(c, t, OnList) else Recycle(c, t, Some(k))
  }

  /** TaskWakeupAll on the list rendez and on a page's rendez. */
  function Woken(asleep: map<Tid, Wait>, p: Pg): (r: map<Tid, Wait>)
    ensures forall t :: t in r <==> t in asleep && asleep[t].OnPage? && asleep[t].page != p
    ensures forall t :: t in r ==> r[t] == asleep[t]
  {
    map t | t in asleep && asleep[t].OnPage? && asleep[t].page != p :: asleep[t]
  }

  /** The page goes back to the free queue, at its head or its tail. */
  function PutBack(c: Cache, p: Pg, head: bool): Cache
    requires p in c.pages
  {
    c.(pages := c.pages[p := c.pages[p].(busy := false)],
       free := if head then [p] + c.free else c.free + [p],
       holder := c.holder - {p},
       asleep := Woken(c.asleep, p))
  }

  function Brelse(c: Cache, p: Pg): Cache
    requires |c.chains| == HASH_SIZE && p in c.pages && (c.pages[p].bad ==> c.pages[p].key.Some?)
  {
    if c.pages[p].bad then PutBack(Detach(c, p), p, false) else PutBack(c, p, true)
  }

  function PutAnon(c: Cache, p: Pg): Cache
    requires p in c.pages
  {
    PutBack(c, p, false)
  }

  function SetFlags(c: Cache, p: Pg, valid: bool, bad: bool): Cache
    requires p in c.pages
  {
    c.(pages := c.pages[p := c.pages[p].(valid := c.pages[p].valid || valid, bad := c.pages[p].bad || bad)])
  }

  // ---------------------------------------------------------------------
  // Each step keeps the invariant
  // ---------------------------------------------------------------------

  /** find_blk is exact: it finds the page of a block if and only if there is one. */
  lemma FindIsExact(c: Cache, k: Key)
    requires ChainsOk(c.chains, c.pages)
    ensures var r := Find(c.chains, c.pages, k);
            && (r.Some? ==> r.value in c.pages && c.pages[r.value].key == Some(k))
            && (r.None? ==> forall p :: p in c.pages ==> c.pages[p].key != Some(k))
  {
    hide NoDup;
    assert ChainAt(c.chains[Bucket(k)], Bucket(k), c.pages);
    forall p | p in c.pages && c.pages[p].key == Some(k)
      ensures p in c.chains[Bucket(k)]
    {
      assert InBucket(c.pages[p], Bucket(k));
    }
  }

  lemma DetachChains(chains: seq<seq<Pg>>, pages: map<Pg, Buf>, p: Pg, b: Buf)
    requires ChainsOk(chains, pages) && p in pages && pages[p].key.Some? && b.key.None?
    ensures ChainsOk(Unhash(chains, pages[p].key.value, p), pages[p := b])
  {
    hide Bucket, NoDup;
    var k := pages[p].key.value;
    var after := Unhash(chains, k, p);
    forall h | 0 <= h < HASH_SIZE
      ensures ChainAt(after[h], h, pages[p := b])
    {
      assert ChainAt(chains[h], h, pages);
    }
  }

  lemma AttachChains(chains: seq<seq<Pg>>, pages: map<Pg, Buf>, p: Pg, b: Buf)
    requires ChainsOk(chains, pages) && p in pages && pages[p].key.None? && b.key.Some?
    ensures ChainsOk(Hash(chains, b.key.value, p), pages[p := b])
  {
    hide Bucket;
    var after := Hash(chains, b.key.value, p);
    forall h | 0 <= h < HASH_SIZE
      ensures ChainAt(after[h], h, pages[p := b])
    {
      assert ChainAt(chains[h], h, pages);
    }
  }

  lemma SameChains(chains: seq<seq<Pg>>, pages: map<Pg, Buf>, p: Pg, b: Buf)
    requires ChainsOk(chains, pages) && p in pages && pages[p].key == b.key
    ensures ChainsOk(chains, pages[p := b])
  {
    hide Bucket, NoDup;
    forall h | 0 <= h < HASH_SIZE
      ensures ChainAt(chains[h], h, pages[p := b])
    {
      assert ChainAt(chains[h], h, pages);
    }
  }

  lemma DetachLists(lists: map<VNode, seq<Pg>>, pages: map<Pg, Buf>, p: Pg, b: Buf)
    requires ListsOk(lists, pages) && p in pages && pages[p].key.Some? && b.key.None?
    ensures ListsOk(Unlist(lists, pages[p].key.value.vnode, p), pages[p := b])
  {
    hide NoDup;
    var after := Unlist(lists, pages[p].key.value.vnode, p);
    forall v
      ensures ListAt(ListOf(after, v), v, pages[p := b])
    {
      assert ListAt(ListOf(lists, v), v, pages);
    }
  }

  lemma AttachLists(lists: map<VNode, seq<Pg>>, pages: map<Pg, Buf>, p: Pg, b: Buf)
    requires ListsOk(lists, pages) && p in pages && pages[p].key.None? && b.key.Some?
    ensures ListsOk(Enlist(lists, b.key.value.vnode, p), pages[p := b])
  {
    var after := Enlist(lists, b.key.value.vnode, p);
    forall v
      ensures ListAt(ListOf(after, v), v, pages[p := b])
    {
      assert ListAt(ListOf(lists, v), v, pages);
    }
  }

  lemma SameLists(lists: map<VNode, seq<Pg>>, pages: map<Pg, Buf>, p: Pg, b: Buf)
    requires ListsOk(lists, pages) && p in pages && pages[p].key == b.key
    ensures ListsOk(lists, pages[p := b])
  {
    hide NoDup;
    forall v
      ensures ListAt(ListOf(lists, v), v, pages[p := b])
    {
      assert ListAt(ListOf(lists, v), v, pages);
    }
  }

  lemma BufsSet(pages: map<Pg, Buf>, p: Pg, b: Buf)
    requires BufsOk(pages) && p in pages && BufOk(b)
    requires b.key == pages[p].key || b.key.None? || forall q :: q in pages ==> pages[q].key != b.key
    ensures BufsOk(pages[p := b])
  {
    hide BufOk;
  }

  lemma FreeSet(free: seq<Pg>, pages: map<Pg, Buf>, p: Pg, b: Buf)
    requires FreeOk(free, pages) && p in pages
    ensures b.busy == pages[p].busy ==> FreeOk(free, pages[p := b])
    ensures b.busy ==> FreeOk(Without(free, p), pages[p := b])
    ensures !b.busy && pages[p].busy ==> FreeOk([p] + free, pages[p := b]) && FreeOk(free + [p], pages[p := b])
  {
  }

  lemma HoldersSet(holder: map<Pg, Tid>, pages: map<Pg, Buf>, p: Pg, b: Buf, t: Tid)
    requires HoldersOk(holder, pages) && p in pages
    ensures b.busy == pages[p].busy ==> HoldersOk(holder, pages[p := b])
    ensures b.busy ==> HoldersOk(holder[p := t], pages[p := b])
    ensures !b.busy ==> HoldersOk(holder - {p}, pages[p := b])
  {
  }

  /** Taking a free page leaves every sleeper with a reason: no one sleeps on it, and no one on the list. */
  lemma WaitsTake(c: Cache, p: Pg, b: Buf, t: Tid)
    requires WaitsOk(c.asleep, c.free, c.pages, c.request) && FreeOk(c.free, c.pages)
    requires p in c.free && t !in c.asleep
    ensures WaitsOk(c.asleep, Without(c.free, p), c.pages[p := b], c.request - {t})
  {
    hide NoDup;
    forall u | u in c.asleep
      ensures WaitOk(u, c.asleep[u], Without(c.free, p), c.pages[p := b], c.request - {t})
    {
      assert WaitOk(u, c.asleep[u], c.free, c.pages, c.request);
    }
  }

  lemma WaitsPut(asleep: map<Tid, Wait>, free: seq<Pg>, after: seq<Pg>, pages: map<Pg, Buf>, p: Pg, b: Buf,
                 request: map<Tid, Request>)
    requires WaitsOk(asleep, free, pages, request)
    ensures WaitsOk(Woken(asleep, p), after, pages[p := b], request)
  {
    var woken := Woken(asleep, p);
    forall u | u in woken
      ensures WaitOk(u, woken[u], after, pages[p := b], request)
    {
      assert WaitOk(u, asleep[u], free, pages, request);
    }
  }

  /** A free page can be emptied. */
  lemma DetachKeeps(c: Cache, p: Pg)
    requires Inv(c) && p in c.free && c.pages[p].key.Some?
    ensures Inv(Detach(c, p))
  {
    hide ChainsOk, ListsOk, Unhash, Unlist, NoDup, WaitsOk, HoldersOk;
    var b := c.pages[p].(key := None, valid := false, bad := false);
    DetachChains(c.chains, c.pages, p, b);
    DetachLists(c.lists, c.pages, p, b);
    BufsSet(c.pages, p, b);
    FreeSet(c.free, c.pages, p, b);
    HoldersSet(c.holder, c.pages, p, b, 0);
    DetachWaits(c, p, b);
    ChainCount(c.chains, c.pages[p].key.value, p);
  }

  lemma ChainCount(chains: seq<seq<Pg>>, k: Key, p: Pg)
    requires |chains| == HASH_SIZE
    ensures |Unhash(chains, k, p)| == HASH_SIZE && |Hash(chains, k, p)| == HASH_SIZE
  {
  }

  lemma DetachWaits(c: Cache, p: Pg, b: Buf)
    requires WaitsOk(c.asleep, c.free, c.pages, c.request) && FreeOk(c.free, c.pages) && p in c.free
    ensures WaitsOk(c.asleep, c.free, c.pages[p := b], c.request)
  {
    hide NoDup;
    forall u | u in c.asleep
      ensures WaitOk(u, c.asleep[u], c.free, c.pages[p := b], c.request)
    {
      assert WaitOk(u, c.asleep[u], c.free, c.pages, c.request);
    }
  }

  lemma TakeKeeps(c: Cache, t: Tid, p: Pg)
    requires Inv(c) && p in c.free && t !in c.asleep
    ensures Inv(Take(c, t, p))
  {
    hide ChainsOk, ListsOk, NoDup, WaitsOk, HoldersOk;
    var b := c.pages[p].(busy := true);
    SameChains(c.chains, c.pages, p, b);
    SameLists(c.lists, c.pages, p, b);
    BufsSet(c.pages, p, b);
    FreeSet(c.free, c.pages, p, b);
    HoldersSet(c.holder, c.pages, p, b, t);
    WaitsTake(c, p, b, t);
  }

  lemma AttachKeeps(c: Cache, t: Tid, p: Pg, k: Key)
    requires Inv(c) && p in c.free && t !in c.asleep && c.pages[p].key.None?
    requires forall q :: q in c.pages ==> c.pages[q].key != Some(k)
    ensures Inv(Take(Attach(c, p, k), t, p))
  {
    hide ChainsOk, ListsOk, Hash, Enlist, NoDup, WaitsOk, HoldersOk;
    var b := c.pages[p].(key := Some(k), busy := true);
    AttachChains(c.chains, c.pages, p, b);
    AttachLists(c.lists, c.pages, p, b);
    BufsSet(c.pages, p, b);
    FreeSet(c.free, c.pages, p, b);
    HoldersSet(c.holder, c.pages, p, b, t);
    WaitsTake(c, p, b, t);
    ChainCount(c.chains, k, p);
    assert Take(Attach(c, p, k), t, p).pages == c.pages[p := b];
  }

  lemma RecycleKeeps(c: Cache, t: Tid, k: Option<Key>)
    requires Inv(c) && c.free != [] && t !in c.asleep
    requires k.Some? ==> forall q :: q in c.pages ==> c.pages[q].key != k
    ensures Inv(Recycle(c, t, k))
  {
    hide ChainsOk, ListsOk, Hash, Enlist, Unhash, Unlist, NoDup, WaitsOk, HoldersOk;
    var p := Last(c.free);
    var d := c;
    if c.pages[p].valid {
      DetachKeeps(c, p);
      d := Detach(c, p);
    }
    if k.Some? {
      AttachKeeps(d, t, p, k.value);
    } else {
      TakeKeeps(d, t, p);
    }
  }

  /** Every outcome of a turn keeps the invariant: found, recycled, asleep or given up. */
  lemma AttemptKeeps(c: Cache, t: Tid, aborted: bool)
    requires Inv(c) && t in c.request && t !in c.asleep
    ensures Inv(Attempt(c, t, aborted))
  {
    hide ChainsOk, ListsOk, NoDup, Recycle, Take, Find, BufsOk, HoldersOk;
    match c.request[t]
    case Anon =>
      if c.free != [] {
        RecycleKeeps(c, t, None);
      }
    case Block(k) =>
      if !aborted {
        FindIsExact(c, k);
        match Find(c.chains, c.pages, k)
        case Some(p) => if !c.pages[p].busy { TakeKeeps(c, t, p); }
        case None => if c.free != [] { RecycleKeeps(c, t, Some(k)); }
      }
  }

  lemma PutBackKeeps(c: Cache, p: Pg, head: bool)
    requires Inv(c) && p in c.pages && c.pages[p].busy && BufOk(c.pages[p].(busy := false))
    ensures Inv(PutBack(c, p, head))
  {
    hide ChainsOk, ListsOk, BufOk, BufsOk, FreeOk, HoldersOk, WaitsOk;
    var b := c.pages[p].(busy := false);
    SameChains(c.chains, c.pages, p, b);
    SameLists(c.lists, c.pages, p, b);
    BufsSet(c.pages, p, b);
    FreeSet(c.free, c.pages, p, b);
    HoldersSet(c.holder, c.pages, p, b, 0);
    WaitsPut(c.asleep, c.free, if head then [p] + c.free else c.free + [p], c.pages, p, b, c.request);
  }

  lemma DiscardKeeps(c: Cache, p: Pg)
    requires Inv(c) && p in c.pages && c.pages[p].busy && c.pages[p].key.Some?
    ensures Inv(PutBack(Detach(c, p), p, false))
  {
    hide ChainsOk, ListsOk, Unhash, Unlist, BufsOk, FreeOk, HoldersOk, WaitsOk;
    var b := c.pages[p].(key := None, valid := false, bad := false, busy := false);
    DetachChains(c.chains, c.pages, p, b);
    DetachLists(c.lists, c.pages, p, b);
    BufsSet(c.pages, p, b);
    FreeSet(c.free, c.pages, p, b);
    HoldersSet(c.holder, c.pages, p, b, 0);
    WaitsPut(c.asleep, c.free, c.free + [p], c.pages, p, b, c.request);
    ChainCount(c.chains, c.pages[p].key.value, p);
    assert PutBack(Detach(c, p), p, false).pages == c.pages[p := b];
  }

  /**
    brelse keeps the cache in order exactly when the holder has made the page
    valid or marked it bad, or when the page has no block at all.
   */
  lemma BrelseKeeps(c: Cache, p: Pg)
    requires Inv(c) && p in c.pages && c.pages[p].busy
    ensures BufOk(c.pages[p]) && |c.chains| == HASH_SIZE
    ensures Inv(Brelse(c, p)) <==> c.pages[p].valid || c.pages[p].bad || c.pages[p].key.None?
  {
    hide ChainsOk, ListsOk, Detach, NoDup, WaitsOk, HoldersOk, FreeOk;
    var b := c.pages[p];
    if b.bad {
      DiscardKeeps(c, p);
    } else if b.valid || b.key.None? {
      PutBackKeeps(c, p, true);
    } else {
      assert !BufOk(Brelse(c, p).pages[p]);
    }
  }

  lemma PutAnonKeeps(c: Cache, p: Pg)
    requires Inv(c) && p in c.pages && c.pages[p].busy && c.pages[p].key.None?
    ensures Inv(PutAnon(c, p))
  {
    hide ChainsOk, ListsOk, WaitsOk, HoldersOk, FreeOk, PutBack;
    PutBackKeeps(c, p, false);
  }

  lemma SetFlagsKeeps(c: Cache, p: Pg, valid: bool, bad: bool)
    requires Inv(c) && p in c.pages && c.pages[p].busy && c.pages[p].key.Some?
    ensures Inv(SetFlags(c, p, valid, bad))
  {
    hide ChainsOk, ListsOk, FreeOk, HoldersOk;
    var b := c.pages[p].(valid := c.pages[p].valid || valid, bad := c.pages[p].bad || bad);
    SameChains(c.chains, c.pages, p, b);
    SameLists(c.lists, c.pages, p, b);
    BufsSet(c.pages, p, b);
    FreeSet(c.free, c.pages, p, b);
    HoldersSet(c.holder, c.pages, p, b, 0);
  }

  // ---------------------------------------------------------------------
  // All runs
  // ---------------------------------------------------------------------

  datatype Action =
    | Call(t: Tid, req: Request)
    | Turn(t: Tid, aborted: bool)
    | MakeValid(t: Tid, p: Pg)
    | MakeBad(t: Tid, p: Pg)
    | Release(t: Tid, p: Pg)
    | ReleaseAnon(t: Tid, p: Pg)

  ghost predicate Holds(c: Cache, t: Tid, p: Pg) {
    p in c.holder && c.holder[p] == t && p in c.pages
  }

  /** What callers do: they touch only pages they hold, and release a block only once it is valid or bad. */
  ghost predicate Enabled(c: Cache, a: Action) {
    match a
    case Call(t, _) => t !in c.request
    case Turn(t, _) => t in c.request && t !in c.asleep
    case MakeValid(t, p) => Holds(c, t, p) && c.pages[p].key.Some?
    case MakeBad(t, p) => Holds(c, t, p) && c.pages[p].key.Some?
    case Release(t, p) => Holds(c, t, p) && (c.pages[p].valid || c.pages[p].bad)
    case ReleaseAnon(t, p) => Holds(c, t, p) && c.pages[p].key.None?
  }

  ghost function Step(c: Cache, a: Action): Cache
    requires Inv(c) && Enabled(c, a)
  {
    match a
    case Call(t, req) => c.(request := c.request[t := req])
    case Turn(t, aborted) => Attempt(c, t, aborted)
    case MakeValid(_, p) => SetFlags(c, p, true, false)
    case MakeBad(_, p) => SetFlags(c, p, false, true)
    case Release(_, p) => Brelse(c, p)
    case ReleaseAnon(_, p) => PutAnon(c, p)
  }

  lemma StepKeeps(c: Cache, a: Action)
    requires Inv(c) && Enabled(c, a)
    ensures Inv(Step(c, a))
  {
    hide ChainsOk, ListsOk, FreeOk, BufsOk, Attempt, Brelse, PutAnon, SetFlags;
    match a
    case Call(t, req) =>
    case Turn(t, aborted) => AttemptKeeps(c, t, aborted);
    case MakeValid(_, p) => SetFlagsKeeps(c, p, true, false);
    case MakeBad(_, p) => SetFlagsKeeps(c, p, false, true);
    case Release(_, p) => BrelseKeeps(c, p);
    case ReleaseAnon(_, p) => PutAnonKeeps(c, p);
  }

  function Numbers(n: nat): (s: seq<nat>)
    ensures |s| == n && forall i :: 0 <= i < n ==> s[i] == i
  {
    seq(n, i => i)
  }

  /** n pages, all free, none with a block. */
  function Boot(n: nat): Cache {
    var free := Numbers(n);
    Cache(map p | p in free :: Buf(None, false, false, false), free, seq(HASH_SIZE, _ => []), map[], map[], map[],
          map[])
  }

  lemma BootOk(n: nat)
    ensures Inv(Boot(n))
  {
    var c := Boot(n);
    assert forall p :: p in c.free ==> p in c.pages;
    assert forall h :: 0 <= h < HASH_SIZE ==> c.chains[h] == [];
    assert forall v :: ListOf(c.lists, v) == [];
  }

  ghost predicate IsRun(c: Cache, run: seq<Action>)
    decreases |run|
  {
    run != [] ==> Inv(c) && Enabled(c, run[0]) && IsRun(Step(c, run[0]), run[1..])
  }

  ghost function After(c: Cache, run: seq<Action>): Cache
    requires IsRun(c, run)
    decreases |run|
  {
    if run == [] then c else After(Step(c, run[0]), run[1..])
  }

  /** The invariant holds after any interleaving of any number of threads. */
  lemma {:induction false} RunKeeps(c: Cache, run: seq<Action>)
    requires Inv(c) && IsRun(c, run)
    ensures Inv(After(c, run))
    decreases |run|
  {
    hide Inv, Enabled, Step;
    if run != [] {
      StepKeeps(c, run[0]);
      RunKeeps(Step(c, run[0]), run[1..]);
    }
  }

  /** At most one page caches a block, and find_blk finds it. */
  lemma OnePagePerBlock(n: nat, run: seq<Action>, k: Key)
    requires IsRun(Boot(n), run)
    ensures var c := After(Boot(n), run);
            && |c.chains| == HASH_SIZE
            && (forall p, q :: p in c.pages && q in c.pages && c.pages[p].key == Some(k) == c.pages[q].key ==> p == q)
            && (forall p :: p in c.pages ==> (c.pages[p].key == Some(k) <==> Find(c.chains, c.pages, k) == Some(p)))
  {
    hide ChainsOk, ListsOk, FreeOk, WaitsOk, HoldersOk, BufOk, Find, Step, IsRun, After, Boot;
    BootOk(n);
    RunKeeps(Boot(n), run);
    FindIsExact(After(Boot(n), run), k);
  }

  /** A page no one holds is on the free queue once and, exactly when valid, on one chain and one vnode list, once. */
  lemma FreePagesInOrder(n: nat, run: seq<Action>, p: Pg)
    requires IsRun(Boot(n), run) && p in After(Boot(n), run).pages
    ensures var c := After(Boot(n), run); var b := c.pages[p];
            && multiset(c.free)[p] == (if b.busy then 0 else 1)
            && (b.busy <==> p in c.holder)
            && |c.chains| == HASH_SIZE
            && (forall h :: 0 <= h < HASH_SIZE ==> multiset(c.chains[h])[p] == if InBucket(b, h) then 1 else 0)
            && (forall v :: multiset(ListOf(c.lists, v))[p] == if OfVNode(b, v) then 1 else 0)
            && (!b.busy ==> (b.valid <==> b.key.Some?))
  {
    hide NoDup, Step, IsRun, After, Boot, Bucket, WaitsOk;
    BootOk(n);
    RunKeeps(Boot(n), run);
    var c := After(Boot(n), run);
    OnceOrNever(c.free, p);
    forall h | 0 <= h < HASH_SIZE
      ensures multiset(c.chains[h])[p] == if InBucket(c.pages[p], h) then 1 else 0
    {
      assert ChainAt(c.chains[h], h, c.pages);
      OnceOrNever(c.chains[h], p);
    }
    forall v
      ensures multiset(ListOf(c.lists, v))[p] == if OfVNode(c.pages[p], v) then 1 else 0
    {
      assert ListAt(ListOf(c.lists, v), v, c.pages);
      OnceOrNever(ListOf(c.lists, v), p);
    }
  }

  lemma {:induction false} OnceOrNever(s: seq<Pg>, p: Pg)
    requires NoDup(s)
    ensures multiset(s)[p] == if p in s then 1 else 0
  {
    if s != [] {
      NoDupTail(s);
      OnceOrNever(s[1..], p);
      assert s == [s[0]] + s[1..];
    }
  }

  /** A page changes hands only through a release by the thread that holds it. */
  lemma OneHolder(c: Cache, a: Action, p: Pg)
    requires Inv(c) && Enabled(c, a) && p in c.holder
    ensures var d := Step(c, a);
            if a == Release(c.holder[p], p) || a == ReleaseAnon(c.holder[p], p) then p !in d.holder
            else p in d.holder && d.holder[p] == c.holder[p]
  {
    hide ChainsOk, ListsOk, NoDup, BufsOk, WaitsOk, Bucket, Unhash, Unlist, Hash, Enlist;
    if a.Turn? && c.request[a.t].Block? {
      FindIsExact(c, c.request[a.t].key);
    }
  }

  /** No wakeup is lost: a thread that still sleeps would only go back to sleep if it were woken. */
  lemma SleeperIsBlocked(n: nat, run: seq<Action>, t: Tid)
    requires IsRun(Boot(n), run) && t in After(Boot(n), run).asleep
    ensures var c := After(Boot(n), run);
            && Inv(c)
            && t in c.request
            && Attempt(c, t, false).asleep.Keys == c.asleep.Keys
            && Attempt(c, t, false).holder == c.holder
  {
    hide ChainsOk, ListsOk, NoDup, HoldersOk, Step, IsRun, After, Boot, Bucket, Recycle, Take;
    BootOk(n);
    RunKeeps(Boot(n), run);
    var c := After(Boot(n), run);
    assert WaitOk(t, c.asleep[t], c.free, c.pages, c.request);
    if c.request[t].Block? {
      FindIsExact(c, c.request[t].key);
    }
  }

  function Elements(s: seq<Pg>): (e: set<Pg>)
    ensures forall p :: p in e <==> p in s
  {
    set p | p in s
  }

  /** Pages are never lost: each is on the free queue or held. */
  lemma PagesConserved(c: Cache)
    requires Inv(c)
    ensures |c.free| + |c.holder| == |c.pages|
  {
    hide ChainsOk, ListsOk, BufsOk, WaitsOk, Elements;
    ElementCount(c.free);
    var f := Elements(c.free);
    assert f !! c.holder.Keys && f + c.holder.Keys == c.pages.Keys;
    assert |c.pages| == |c.pages.Keys| && |c.holder| == |c.holder.Keys|;
  }

  lemma {:induction false} ElementCount(s: seq<Pg>)
    requires NoDup(s)
    ensures |Elements(s)| == |s|
  {
    if s == [] {
      assert Elements(s) == {};
    } else {
      NoDupTail(s);
      ElementCount(s[1..]);
      assert Elements(s) == {s[0]} + Elements(s[1..]);
    }
  }
}
