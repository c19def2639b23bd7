/**
  What a turn in getblk comes to, and the order in which pages are used again (fs/cache.c:48-240,
  424-452): the free queue holds cached blocks by their last use, and the page that has lain there
  longest is taken first.
 */
module CacheOrder {
  import opened Lists
  import opened PageCache

  /** The page of a block, as any search that is exact would find it. */
  ghost predicate Caches(c: Cache, p: Pg, k: Key) {
    p in c.pages && c.pages[p].key == Some(k)
  }

  /** Thread t has page p, which now is b, and no other page has changed. */
  ghost predicate Took(c: Cache, n: Cache, t: Tid, p: Pg, b: Buf) {
    && Holds(n, t, p) && n.pages == c.pages[p := b]
    && n.free == Without(c.free, p) && t !in n.request && n.asleep == c.asleep
  }

  /**
    What a turn for a block comes to: it gives up on an aborted superblock; the page that caches
    the block is waited for while it is busy and taken otherwise.
   */
  lemma BlockTurn(c: Cache, t: Tid, aborted: bool, k: Key, p: Pg)
    requires Inv(c) && t in c.request && t !in c.asleep && c.request[t] == Block(k)
    ensures var n := Attempt(c, t, aborted);
            && (aborted ==> n == c.(request := c.request - {t}))
            && (!aborted && Caches(c, p, k) ==>
                  if c.pages[p].busy then n == c.(asleep := c.asleep[t := OnPage(p)])
                  else Took(c, n, t, p, c.pages[p].(busy := true)))
  {
    hide ChainsOk, ListsOk, WaitsOk, HoldersOk, NoDup, Recycle, Find;
    FindIsExact(c, k);
    if Caches(c, p, k) {
      assert Find(c.chains, c.pages, k) == Some(p);
    }
  }

  lemma NotCached(c: Cache, k: Key)
    requires |c.chains| == HASH_SIZE && ChainsOk(c.chains, c.pages) && forall q :: !Caches(c, q, k)
    ensures Find(c.chains, c.pages, k) == None
  {
    hide ChainsOk, Find;
    FindIsExact(c, k);
    var found := Find(c.chains, c.pages, k);
    assert found.Some? ==> Caches(c, found.value, k);
  }

  /** The last free page, emptied and given the block that is wanted. */
  lemma RecycleTakes(c: Cache, t: Tid, k: Option<Key>)
    requires Inv(c) && c.free != []
    ensures Last(c.free) in c.pages && (c.pages[Last(c.free)].valid ==> c.pages[Last(c.free)].key.Some?)
    ensures Took(c, Recycle(c, t, k), t, Last(c.free), Buf(k, true, false, false))
  {
    hide ChainsOk, ListsOk, WaitsOk, HoldersOk, NoDup, Hash, Enlist, Unhash, Unlist;
    assert Last(c.free) in c.free;
  }

  /** For a block that no page caches the last free page is taken, without contents, or a free page is waited for. */
  lemma NewBlockTurn(c: Cache, t: Tid, k: Key)
    requires Inv(c) && t in c.request && t !in c.asleep && c.request[t] == Block(k) && forall q :: !Caches(c, q, k)
    ensures var n := Attempt(c, t, false);
            if c.free == [] then n == c.(asleep := c.asleep[t := OnList])
            else Took(c, n, t, Last(c.free), Buf(Some(k), true, false, false))
  {
    hide ChainsOk, ListsOk, WaitsOk, HoldersOk, NoDup, Recycle, Find, Took;
    NotCached(c, k);
    if c.free != [] {
      RecycleTakes(c, t, Some(k));
    }
  }

  /** A turn for a page without a block takes the last free page, emptied, or waits for one. */
  lemma AnonTurn(c: Cache, t: Tid, aborted: bool)
    requires Inv(c) && t in c.request && t !in c.asleep && c.request[t] == Anon
    ensures var n := Attempt(c, t, aborted);
            if c.free == [] then n == c.(asleep := c.asleep[t := OnList])
            else Took(c, n, t, Last(c.free), Buf(None, true, false, false))
  {
    hide ChainsOk, ListsOk, WaitsOk, HoldersOk, NoDup, Recycle, Took;
    if c.free != [] {
      RecycleTakes(c, t, None);
    }
  }

  // ---------------------------------------------------------------------
  // The order of the free queue
  // ---------------------------------------------------------------------

  /** p is nearer the head of the queue than q. */
  ghost predicate Before(s: seq<Pg>, p: Pg, q: Pg) {
    exists i, j :: 0 <= i < j < |s| && s[i] == p && s[j] == q
  }

  lemma BeforeIn(s: seq<Pg>, x: Pg, p: Pg, q: Pg)
    requires Before(s, p, q)
    ensures Before([x] + s, p, q) && Before(s + [x], p, q)
  {
    var i, j :| 0 <= i < j < |s| && s[i] == p && s[j] == q;
    assert ([x] + s)[i + 1] == p && ([x] + s)[j + 1] == q;
    assert (s + [x])[i] == p && (s + [x])[j] == q;
  }

  lemma BeforeWithout(s: seq<Pg>, x: Pg, p: Pg, q: Pg)
    requires NoDup(s) && Before(s, p, q) && x != p && x != q
    ensures Before(Without(s, x), p, q)
  {
    hide Without;
    if x in s {
      var m :| 0 <= m < |s| && s[m] == x;
      WithoutAt(s, m);
      var r := s[..m] + s[m + 1..];
      var i, j :| 0 <= i < j < |s| && s[i] == p && s[j] == q;
      var i', j' := if i < m then i else i - 1, if j < m then j else j - 1;
      assert r[i'] == p && r[j'] == q;
    }
  }

  lemma {:induction false} AtTheEnds(s: seq<Pg>, p: Pg, q: Pg)
    requires q in s
    ensures Before([p] + s, p, q) && Before(s + [p], q, p)
  {
    var j :| 0 <= j < |s| && s[j] == q;
    assert ([p] + s)[0] == p && ([p] + s)[j + 1] == q;
    assert (s + [p])[j] == q && (s + [p])[|s|] == p;
  }

  /** Pages that stay free stay in their order. */
  lemma StepOrder(c: Cache, a: Action, p: Pg, q: Pg)
    requires Inv(c) && Enabled(c, a) && Before(c.free, p, q) && p in Step(c, a).free && q in Step(c, a).free
    ensures Before(Step(c, a).free, p, q)
  {
    hide ChainsOk, ListsOk, WaitsOk, NoDup, Without, Before, Hash, Enlist, Unhash, Unlist, Woken, Find, BufsOk;
    FreeInOrder(c, a);
    var d := Step(c, a);
    if a.Release? || a.ReleaseAnon? {
      BeforeIn(c.free, a.p, p, q);
    } else if d.free != c.free {
      var x :| x in c.free && d.free == Without(c.free, x);
      BeforeWithout(c.free, x, p, q);
    }
  }

  /** A step puts one page at an end of the queue, takes one out of it, or leaves it. */
  lemma FreeInOrder(c: Cache, a: Action)
    requires Inv(c) && Enabled(c, a)
    ensures NoDup(c.free)
    ensures var d := Step(c, a);
            if a.Release? then d.free == if c.pages[a.p].bad then c.free + [a.p] else [a.p] + c.free
            else if a.ReleaseAnon? then d.free == c.free + [a.p]
            else d.free == c.free || exists x :: x in c.free && d.free == Without(c.free, x)
  {
    hide ChainsOk, ListsOk, WaitsOk, HoldersOk, NoDup, Without, Hash, Enlist, Unhash, Unlist, Woken, Find;
    if a.Turn? {
      TurnOrder(c, a.t, a.aborted);
    }
  }

  lemma TurnOrder(c: Cache, t: Tid, aborted: bool)
    requires Inv(c) && t in c.request
    ensures var d := Attempt(c, t, aborted); d.free == c.free || exists x :: x in c.free && d.free == Without(c.free, x)
  {
    hide ChainsOk, ListsOk, WaitsOk, HoldersOk, NoDup, Without, Hash, Enlist, Unhash, Unlist, Find;
    if c.request[t].Block? {
      FindIsExact(c, c.request[t].key);
    }
  }

  /** Over the run both pages stay on the free queue. */
  ghost predicate StayFree(c: Cache, run: seq<Action>, p: Pg, q: Pg)
    requires IsRun(c, run)
    decreases |run|
  {
    && p in c.free && q in c.free
    && (run != [] ==> StayFree(Step(c, run[0]), run[1..], p, q))
  }

  lemma {:induction false} RunOrder(c: Cache, run: seq<Action>, p: Pg, q: Pg)
    requires Inv(c) && IsRun(c, run) && StayFree(c, run, p, q) && Before(c.free, p, q)
    ensures Before(After(c, run).free, p, q)
    decreases |run|
  {
    hide Inv, Enabled, Step, Before;
    if run != [] {
      StepKeeps(c, run[0]);
      StepOrder(c, run[0], p, q);
      RunOrder(Step(c, run[0]), run[1..], p, q);
    }
  }

  lemma LastIsLast(s: seq<Pg>, p: Pg, q: Pg)
    requires NoDup(s) && Before(s, p, q)
    ensures s != [] && Last(s) != p
  {
  }

  /**
    Least recently used: a page released with good contents is not used for another block
    while a page that was free at that time lies free still. A page without contents is used
    before all that were free when it was released.
   */
  lemma LeastRecentlyUsed(c: Cache, a: Action, run: seq<Action>, q: Pg)
    requires Inv(c) && Enabled(c, a) && (a.Release? || a.ReleaseAnon?) && q in c.free
    requires IsRun(Step(c, a), run) && StayFree(Step(c, a), run, a.p, q)
    ensures var d := After(Step(c, a), run);
            && d.free != []
            && (a.Release? && !c.pages[a.p].bad ==> Last(d.free) != a.p)
            && (a.ReleaseAnon? || c.pages[a.p].bad ==> Last(d.free) != q)
  {
    hide Inv, Step, Before, IsRun, After, StayFree;
    StepKeeps(c, a);
    FreeInOrder(c, a);
    AtTheEnds(c.free, a.p, q);
    var s := Step(c, a);
    RunKeeps(s, run);
    FreeNoDup(After(s, run));
    if a.Release? && !c.pages[a.p].bad {
      RunOrder(s, run, a.p, q);
      LastIsLast(After(s, run).free, a.p, q);
    } else {
      StaySwapped(s, run, a.p, q);
      RunOrder(s, run, q, a.p);
      LastIsLast(After(s, run).free, q, a.p);
    }
  }

  lemma FreeNoDup(c: Cache)
    requires Inv(c)
    ensures NoDup(c.free)
  {
  }

  lemma {:induction false} StaySwapped(c: Cache, run: seq<Action>, p: Pg, q: Pg)
    requires IsRun(c, run) && StayFree(c, run, p, q)
    ensures StayFree(c, run, q, p)
    decreases |run|
  {
    hide Inv, Enabled, Step;
    if run != [] {
      StaySwapped(Step(c, run[0]), run[1..], p, q);
    }
  }
}
