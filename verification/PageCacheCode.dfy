/** The cache routines as they update the queues, the hash and the flags (fs/cache.c:48-301, 431-455). */
module PageCacheCode {
  import opened Lists
  import opened PageCache

  datatype Outcome = Got(page: Pg) | Slept | Aborted

  class BlockCache {
    var pages: map<Pg, Buf>
    var free: seq<Pg>
    var chains: seq<seq<Pg>>
    var lists: map<VNode, seq<Pg>>
    var holder: map<Pg, Tid>
    var request: map<Tid, Request>
    var asleep: map<Tid, Wait>

    ghost function View(): Cache
      reads this
    {
      Cache(pages, free, chains, lists, holder, request, asleep)
    }

    constructor (n: nat)
      ensures View() == Boot(n) && Inv(View())
    {
      free := Numbers(n);
      var queue := Numbers(n);
      pages := map p | p in queue :: Buf(None, false, false, false);
      chains := seq(HASH_SIZE, _ => []);
      lists, holder, request, asleep := map[], map[], map[], map[];
      new;
      BootOk(n);
    }

    /** find_blk: the scan of one chain. */
    method FindBlk(k: Key) returns (r: Option<Pg>)
      requires Inv(View())
      ensures r == Find(chains, pages, k)
      ensures r.Some? ==> r.value in pages && pages[r.value].key == Some(k)
      ensures r.None? ==> forall p :: p in pages ==> pages[p].key != Some(k)
    {
      hide ListsOk, FreeOk, WaitsOk, HoldersOk, BufsOk, ChainsOk;
      FindIsExact(View(), k);
      var rest := chains[Bucket(k)];
      while rest != []
        invariant FindIn(rest, pages, k) == Find(chains, pages, k)
      {
        if rest[0] in pages && pages[rest[0]].key == Some(k) {
          return Some(rest[0]);
        }
        rest := rest[1..];
      }
      r := None;
    }

    method RemoveFromFreeQueue(p: Pg)
      modifies `free
      ensures free == Without(old(free), p)
    {
      free := Without(free, p);
    }

    method RemoveFromIndexes(p: Pg)
      requires |chains| == HASH_SIZE && p in pages && pages[p].key.Some?
      modifies `chains, `lists
      ensures chains == Unhash(old(chains), pages[p].key.value, p)
      ensures lists == Unlist(old(lists), pages[p].key.value.vnode, p)
    {
      var k := pages[p].key.value;
      chains := chains[Bucket(k) := Without(chains[Bucket(k)], p)];
      lists := lists[k.vnode := Without(ListOf(lists, k.vnode), p)];
    }

    method AddToIndexes(p: Pg)
      requires |chains| == HASH_SIZE && p in pages && pages[p].key.Some?
      modifies `chains, `lists
      ensures chains == Hash(old(chains), pages[p].key.value, p)
      ensures lists == Enlist(old(lists), pages[p].key.value.vnode, p)
    {
      var k := pages[p].key.value;
      chains := chains[Bucket(k) := [p] + chains[Bucket(k)]];
      lists := lists[k.vnode := [p] + ListOf(lists, k.vnode)];
    }

    /** A page that caches a block gives it up before it is reused. */
    method Forget(p: Pg)
      requires |chains| == HASH_SIZE && p in pages && (pages[p].valid ==> pages[p].key.Some?) && !pages[p].bad
      modifies `pages, `chains, `lists
      ensures View() == if old(pages)[p].valid then Detach(old(View()), p) else old(View())
      ensures |chains| == HASH_SIZE
    {
      hide Unhash, Unlist;
      if pages[p].valid {
        ChainCount(chains, pages[p].key.value, p);
        RemoveFromIndexes(p);
        pages := pages[p := pages[p].(key := None, valid := false)];
      }
    }

    /** The common tail of getblk and getblk_anon: reuse the last page of the free queue. */
    method TakeLast(t: Tid, k: Option<Key>) returns (p: Pg)
      requires |chains| == HASH_SIZE && free != [] && Last(free) in pages
      requires !pages[Last(free)].busy && BufOk(pages[Last(free)])
      modifies this
      ensures View() == Recycle(old(View()), t, k)
      ensures p == Last(old(free))
    {
      hide Unhash, Unlist, Hash, Enlist;
      p := free[|free| - 1];
      Forget(p);
      if k.Some? {
        pages := pages[p := pages[p].(key := k)];
        AddToIndexes(p);
      }
      pages := pages[p := pages[p].(busy := true)];
      holder := holder[p := t];
      RemoveFromFreeQueue(p);
      request := request - {t};
    }

    /** One turn of getblk's loop. */
    method Getblk(t: Tid, k: Key, aborted: bool) returns (r: Outcome)
      requires Inv(View()) && t in request && t !in asleep && request[t] == Block(k)
      modifies this
      ensures View() == Attempt(old(View()), t, aborted) && Inv(View())
      ensures r.Aborted? <==> aborted
      ensures r.Slept? <==> t in asleep
      ensures r.Got? ==> r.page in pages && pages[r.page].key == Some(k) && pages[r.page].busy
                         && holder[r.page := t] == holder
    {
      hide Inv, BufOk, Recycle, Find;
      AttemptKeeps(View(), t, aborted);
      if aborted {
        request := request - {t};
        return Aborted;
      }
      var found := FindBlk(k);
      if found.Some? {
        var p := found.value;
        if pages[p].busy {
          asleep := asleep[t := OnPage(p)];
          return Slept;
        }
        pages := pages[p := pages[p].(busy := true)];
        holder := holder[p := t];
        request := request - {t};
        RemoveFromFreeQueue(p);
        return Got(p);
      }
      if free == [] {
        asleep := asleep[t := OnList];
        return Slept;
      }
      LastIsFree(View());
      RecycleTakes(View(), t, Some(k));
      var p := TakeLast(t, Some(k));
      return Got(p);
    }

    /** One turn of getblk_anon's loop. */
    method GetblkAnon(t: Tid) returns (r: Outcome)
      requires Inv(View()) && t in request && t !in asleep && request[t] == Anon
      modifies this
      ensures View() == Attempt(old(View()), t, false) && Inv(View())
      ensures r.Slept? <==> t in asleep
      ensures r.Got? <==> t !in asleep
      ensures r.Got? ==> r.page in pages && pages[r.page].key.None? && pages[r.page].busy
                         && holder[r.page := t] == holder
    {
      hide Inv, BufOk, Recycle, Find;
      AttemptKeeps(View(), t, false);
      if free == [] {
        asleep := asleep[t := OnList];
        return Slept;
      }
      LastIsFree(View());
      RecycleTakes(View(), t, None);
      var p := TakeLast(t, None);
      return Got(p);
    }

    /** TaskWakeupAll on a rendez: every thread asleep on it may run again. */
    method WakeupAll(w: Wait)
      modifies `asleep
      ensures asleep == map t | t in old(asleep) && old(asleep)[t] != w :: old(asleep)[t]
    {
      asleep := map t | t in asleep && asleep[t] != w :: asleep[t];
    }

    method PutblkAnon(p: Pg)
      requires Inv(View()) && p in pages && pages[p].busy && pages[p].key.None?
      modifies this
      ensures View() == PutAnon(old(View()), p) && Inv(View())
    {
      hide ListsOk, HoldersOk, ChainsOk, FreeOk, BufsOk;
      PutAnonKeeps(View(), p);
      free := free + [p];
      pages := pages[p := pages[p].(busy := false)];
      holder := holder - {p};
      assert forall t :: t in asleep && asleep[t].OnPage? ==> asleep[t].page != p;
      WakeupAll(OnList);
      assert asleep == Woken(old(asleep), p);
    }

    method BrelsePage(p: Pg)
      requires Inv(View()) && p in pages && pages[p].busy && (pages[p].valid || pages[p].bad)
      modifies this
      ensures View() == Brelse(old(View()), p) && Inv(View())
    {
      hide Inv, Unhash, Unlist;
      BrelseKeeps(View(), p);
      if pages[p].bad {
        RemoveFromIndexes(p);
        pages := pages[p := Buf(None, false, false, false)];
        free := free + [p];
      } else {
        pages := pages[p := pages[p].(busy := false)];
        free := [p] + free;
      }
      holder := holder - {p};
      WakeupAll(OnList);
      WakeupAll(OnPage(p));
      assert asleep == Woken(old(asleep), p);
    }
  }

  lemma LastIsFree(c: Cache)
    requires Inv(c) && c.free != []
    ensures var p := Last(c.free); p in c.pages && !c.pages[p].busy && BufOk(c.pages[p])
    ensures |c.chains| == HASH_SIZE
  {
    hide ListsOk, WaitsOk, HoldersOk, ChainsOk;
  }

  /** The page that a recycle hands out: busy, held by the caller, with the wanted block and no other. */
  lemma RecycleTakes(c: Cache, t: Tid, k: Option<Key>)
    requires Inv(c) && c.free != []
    ensures var p := Last(c.free); var d := Recycle(c, t, k);
            && p in d.pages && d.pages[p] == Buf(k, true, false, false) && p in d.holder && d.holder[p] == t
            && d.asleep == c.asleep
  {
    hide ListsOk, WaitsOk, HoldersOk, ChainsOk, Unhash, Unlist, Hash, Enlist;
    assert BufOk(c.pages[Last(c.free)]);
  }
}
