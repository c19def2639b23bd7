/**
  Futex wait and wake (proc/thread_futex.c:35-250).

  The word a futex guards can be stored to by user code at any moment. The check of its
  value and the sleep that follows are one stretch under the kernel lock, so a wake,
  which needs that lock, comes before the check or after the sleep.
 */
module Futex {
  import opened Lists

  const HASH_SIZE: nat := 128

  datatype Fid = Fid(index: nat)

  datatype Tid = Tid(id: nat)

  datatype Key = Key(pid: nat, uaddr: nat)

  /** futexes without a key are free; `memory` holds the user words that can be read; `busy` is the table's lock. */
  datatype State = State(
    keys: map<Fid, Option<Key>>,
    chains: seq<seq<Fid>>,
    lists: map<nat, seq<Fid>>,
    free: seq<Fid>,
    waiters: map<Fid, seq<Tid>>,
    memory: map<Key, nat>,
    busy: bool
  )

  /** futex_hash */
  function Bucket(k: Key): (h: nat)
    ensures h < HASH_SIZE
  {
    (k.uaddr + k.pid) % HASH_SIZE
  }

  function Blocked(waiters: map<Fid, seq<Tid>>, f: Fid): seq<Tid> {
    if f in waiters then waiters[f] else []
  }

  function ListOf(lists: map<nat, seq<Fid>>, pid: nat): seq<Fid> {
    if pid in lists then lists[pid] else []
  }

  // ---------------------------------------------------------------------
  // The invariant
  // ---------------------------------------------------------------------

  ghost predicate InBucket(k: Option<Key>, h: nat) {
    k.Some? && Bucket(k.value) == h
  }

  ghost predicate ChainAt(chain: seq<Fid>, h: nat, keys: map<Fid, Option<Key>>) {
    && NoDup(chain)
    && forall f :: f in chain <==> f in keys && InBucket(keys[f], h)
  }

  ghost predicate ChainsOk(chains: seq<seq<Fid>>, keys: map<Fid, Option<Key>>) {
    |chains| == HASH_SIZE && forall h :: 0 <= h < HASH_SIZE ==> ChainAt(chains[h], h, keys)
  }

  ghost predicate OfProc(k: Option<Key>, pid: nat) {
    k.Some? && k.value.pid == pid
  }

  ghost predicate ListAt(list: seq<Fid>, pid: nat, keys: map<Fid, Option<Key>>) {
    && NoDup(list)
    && forall f :: f in list <==> f in keys && OfProc(keys[f], pid)
  }

  ghost predicate ListsOk(lists: map<nat, seq<Fid>>, keys: map<Fid, Option<Key>>) {
    forall pid {:trigger ListOf(lists, pid)} :: ListAt(ListOf(lists, pid), pid, keys)
  }

  ghost predicate KeysOk(keys: map<Fid, Option<Key>>) {
    forall f, g :: f in keys && g in keys && keys[f].Some? && keys[f] == keys[g] ==> f == g
  }

  ghost predicate FreeOk(free: seq<Fid>, keys: map<Fid, Option<Key>>) {
    && NoDup(free)
    && forall f :: f in free <==> f in keys && keys[f].None?
  }

  /** Threads wait only on futexes in use, each thread in one place. */
  ghost predicate WaitersOk(waiters: map<Fid, seq<Tid>>, keys: map<Fid, Option<Key>>) {
    && (forall f {:trigger Blocked(waiters, f)} ::
          NoDup(Blocked(waiters, f)) && (Blocked(waiters, f) != [] ==> f in keys && keys[f].Some?))
    && (forall f, g, t :: t in Blocked(waiters, f) && t in Blocked(waiters, g) ==> f == g)
  }

  ghost predicate Inv(s: State) {
    && |s.chains| == HASH_SIZE
    && KeysOk(s.keys)
    && FreeOk(s.free, s.keys)
    && ChainsOk(s.chains, s.keys)
    && ListsOk(s.lists, s.keys)
    && WaitersOk(s.waiters, s.keys)
  }

  // ---------------------------------------------------------------------
  // futex_get
  // ---------------------------------------------------------------------

  function FindIn(chain: seq<Fid>, keys: map<Fid, Option<Key>>, k: Key): (r: Option<Fid>)
    ensures r.Some? ==> r.value in chain && r.value in keys && keys[r.value] == Some(k)
    ensures r.None? ==> forall f :: f in chain && f in keys ==> keys[f] != Some(k)
  {
    if chain == [] then None
    else if chain[0] in keys && keys[chain[0]] == Some(k) then Some(chain[0])
    else FindIn(chain[1..], keys, k)
  }

  function Find(s: State, k: Key): Option<Fid>
    requires |s.chains| == HASH_SIZE
  {
    FindIn(s.chains[Bucket(k)], s.keys, k)
  }

  /** The lookup is exact. */
  lemma FindIsExact(s: State, k: Key)
    requires Inv(s)
    ensures var r := Find(s, k);
            && (r.Some? ==> r.value in s.keys && s.keys[r.value] == Some(k))
            && (r.None? ==> forall f :: f in s.keys ==> s.keys[f] != Some(k))
            && (forall f :: f in s.keys && s.keys[f] == Some(k) ==> r == Some(f))
  {
    hide NoDup, ListsOk, WaitersOk, FreeOk;
    assert ChainAt(s.chains[Bucket(k)], Bucket(k), s.keys);
    forall f | f in s.keys && s.keys[f] == Some(k)
      ensures f in s.chains[Bucket(k)]
    {
      assert InBucket(s.keys[f], Bucket(k));
    }
  }

  /** futex_create with the first free futex. */
  function Create(s: State, k: Key): State
    requires |s.chains| == HASH_SIZE && s.free != []
  {
    var f := s.free[0];
    s.(free := s.free[1..],
       lists := s.lists[k.pid := [f] + ListOf(s.lists, k.pid)],
       chains := s.chains[Bucket(k) := [f] + s.chains[Bucket(k)]],
       keys := s.keys[f := Some(k)],
       waiters := s.waiters[f := []])
  }

  lemma CreateChains(s: State, k: Key)
    requires ChainsOk(s.chains, s.keys) && FreeOk(s.free, s.keys) && s.free != []
    ensures var t := Create(s, k); ChainsOk(t.chains, t.keys)
  {
    var t := Create(s, k);
    assert s.free[0] in s.free;
    forall h | 0 <= h < HASH_SIZE
      ensures ChainAt(t.chains[h], h, t.keys)
    {
      assert ChainAt(s.chains[h], h, s.keys);
    }
  }

  lemma CreateLists(s: State, k: Key)
    requires |s.chains| == HASH_SIZE && ListsOk(s.lists, s.keys) && FreeOk(s.free, s.keys) && s.free != []
    ensures var t := Create(s, k); ListsOk(t.lists, t.keys)
  {
    var t := Create(s, k);
    assert s.free[0] in s.free;
    forall pid
      ensures ListAt(ListOf(t.lists, pid), pid, t.keys)
    {
      assert ListAt(ListOf(s.lists, pid), pid, s.keys);
    }
  }

  lemma CreateWaiters(s: State, k: Key)
    requires |s.chains| == HASH_SIZE && WaitersOk(s.waiters, s.keys) && FreeOk(s.free, s.keys) && s.free != []
    ensures var t := Create(s, k);
            WaitersOk(t.waiters, t.keys) && forall f :: Blocked(t.waiters, f) == Blocked(s.waiters, f)
  {
    var t := Create(s, k);
    assert s.free[0] in s.free;
    assert Blocked(s.waiters, s.free[0]) == [];
    assert forall f :: Blocked(t.waiters, f) == Blocked(s.waiters, f);
  }

  lemma CreateKeeps(s: State, k: Key)
    requires Inv(s) && s.free != [] && forall f :: f in s.keys ==> s.keys[f] != Some(k)
    ensures Inv(Create(s, k)) && forall f :: Blocked(Create(s, k).waiters, f) == Blocked(s.waiters, f)
  {
    hide ChainsOk, ListsOk, WaitersOk, Bucket;
    CreateChains(s, k);
    CreateLists(s, k);
    CreateWaiters(s, k);
    NoDupTail(s.free);
  }

  /** The futex is there or can be created; otherwise futex_get ends the process. */
  predicate CanObtain(s: State, k: Key)
    requires |s.chains| == HASH_SIZE
  {
    Find(s, k).Some? || s.free != []
  }

  /** futex_get with FUTEX_CREATE, when a futex can be had. */
  function Obtain(s: State, k: Key): (State, Fid)
    requires |s.chains| == HASH_SIZE && CanObtain(s, k)
  {
    match Find(s, k)
    case Some(f) => (s, f)
    case None => (Create(s, k), s.free[0])
  }

  lemma ObtainKeeps(s: State, k: Key)
    requires Inv(s) && CanObtain(s, k)
    ensures var (t, f) := Obtain(s, k);
            && Inv(t) && f in t.keys && t.keys[f] == Some(k) && t.memory == s.memory && t.busy == s.busy
            && (forall g :: Blocked(t.waiters, g) == Blocked(s.waiters, g))
  {
    hide ChainsOk, ListsOk, WaitersOk, Find;
    FindIsExact(s, k);
    if Find(s, k).None? {
      CreateKeeps(s, k);
    }
  }

  // ---------------------------------------------------------------------
  // Wait, wake, destroy
  // ---------------------------------------------------------------------

  /** Stuck: asleep for the table's lock. Killed: the process is ended with that lock still held. */
  datatype Outcome = Asleep | Again | Fault | Invalid | Woke(count: nat) | Done | Stuck | Killed

  /** sys_futex_wait without a timeout. */
  function Wait(s: State, t: Tid, k: Key, val: nat): (State, Outcome)
    requires |s.chains| == HASH_SIZE
  {
    if s.busy then (s, Stuck)
    else if k !in s.memory then (s, Fault)
    else if s.memory[k] != val then (s, Again)
    else if k.uaddr % 4 != 0 then (s, Invalid)
    else if !CanObtain(s, k) then (s.(busy := true), Killed)
    else
      var (u, f) := Obtain(s, k);
      (u.(waiters := u.waiters[f := Blocked(u.waiters, f) + [t]]), Asleep)
  }

  function Min(a: nat, b: nat): nat {
    if a < b then a else b
  }

  /** sys_futex_wake: the first n waiters run again. */
  function Wake(s: State, k: Key, n: nat): (State, Outcome)
    requires |s.chains| == HASH_SIZE
  {
    if k.uaddr == 0 then (s, Invalid)
    else if s.busy then (s, Stuck)
    else if k.uaddr % 4 != 0 then (s, Woke(0))
    else if !CanObtain(s, k) then (s.(busy := true), Killed)
    else
      var (u, f) := Obtain(s, k);
      var w := Blocked(u.waiters, f);
      var count := Min(n, |w|);
      (if count == 0 then u else u.(waiters := u.waiters[f := w[count..]]), Woke(count))
  }

  /** Whether a wait goes to sleep: the word still has the expected value, and there is a futex for it. */
  predicate Sleeps(s: State, k: Key, val: nat)
    requires |s.chains| == HASH_SIZE
  {
    !s.busy && k in s.memory && s.memory[k] == val && k.uaddr % 4 == 0 && CanObtain(s, k)
  }

  predicate Wakeable(k: Key) {
    k.uaddr != 0 && k.uaddr % 4 == 0
  }

  /** Whether a wake gets as far as the queue. */
  predicate Wakes(s: State, k: Key)
    requires |s.chains| == HASH_SIZE
  {
    !s.busy && Wakeable(k) && CanObtain(s, k)
  }

  /** sys_futex_destroy: the blocked list is not looked at. */
  function Destroy(s: State, k: Key): (State, Outcome)
    requires |s.chains| == HASH_SIZE
  {
    if s.busy then (s, Stuck)
    else if k.uaddr % 4 != 0 then (s, Invalid)
    else
    match Find(s, k)
    case None => (s, Invalid)
    case Some(f) =>
      (s.(chains := s.chains[Bucket(k) := Without(s.chains[Bucket(k)], f)],
          lists := s.lists[k.pid := Without(ListOf(s.lists, k.pid), f)],
          free := [f] + s.free,
          keys := s.keys[f := None]), Done)
  }

  /** A wait that does not sleep changes no queue; one that does queues the thread in the same step. */
  lemma WaitKeeps(s: State, t: Tid, k: Key, val: nat)
    requires Inv(s) && forall f :: t !in Blocked(s.waiters, f)
    ensures var (u, r) := Wait(s, t, k, val);
            && Inv(u)
            && (r.Asleep? <==> Sleeps(s, k, val))
            && (!r.Asleep? ==> u == s.(busy := u.busy))
            && (u.busy != s.busy <==> r.Killed?)
            && (forall f :: t in Blocked(u.waiters, f) <==> r.Asleep? && f in u.keys && u.keys[f] == Some(k))
  {
    hide ChainsOk, ListsOk, Obtain, FreeOk;
    var (u, r) := Wait(s, t, k, val);
    if r.Asleep? {
      ObtainKeeps(s, k);
      var (v, f) := Obtain(s, k);
      AddWaiter(v, f, t);
      assert u.keys == v.keys;
      assert forall g :: g in u.keys && u.keys[g] == Some(k) ==> g == f;
    }
  }

  /** The table has no futex for the address and none to spare. */
  ghost predicate OutOfFutexes(s: State, k: Key) {
    s.free == [] && forall f :: f in s.keys ==> s.keys[f] != Some(k)
  }

  lemma ObtainIff(s: State, k: Key)
    requires Inv(s)
    ensures CanObtain(s, k) <==> !OutOfFutexes(s, k)
  {
    hide ChainsOk, ListsOk, WaitersOk, FreeOk, Find;
    FindIsExact(s, k);
  }

  /**
    What a wait returns, by what is wrong first: the table is locked, the word cannot be read,
    it has another value, it is not aligned, or there is no futex to be had.
   */
  lemma WaitOutcome(s: State, t: Tid, k: Key, val: nat)
    requires Inv(s)
    ensures var r := Wait(s, t, k, val).1;
            && (r == Stuck <==> s.busy)
            && (r == Fault <==> !s.busy && k !in s.memory)
            && (r == Again <==> !s.busy && k in s.memory && s.memory[k] != val)
            && (r == Invalid <==> !s.busy && k in s.memory && s.memory[k] == val && k.uaddr % 4 != 0)
            && (r == Killed <==>
                  !s.busy && k in s.memory && s.memory[k] == val && k.uaddr % 4 == 0 && OutOfFutexes(s, k))
            && (r == Asleep <==>
                  !s.busy && k in s.memory && s.memory[k] == val && k.uaddr % 4 == 0 && !OutOfFutexes(s, k))
  {
    hide ChainsOk, ListsOk, WaitersOk, FreeOk, Obtain, CanObtain;
    ObtainIff(s, k);
  }

  /** And a wake: address zero is refused, a misaligned one wakes nobody. */
  lemma WakeOutcome(s: State, k: Key, n: nat)
    requires Inv(s)
    ensures var r := Wake(s, k, n).1;
            && (r == Invalid <==> k.uaddr == 0)
            && (r == Stuck <==> k.uaddr != 0 && s.busy)
            && (r == Killed <==> k.uaddr != 0 && !s.busy && k.uaddr % 4 == 0 && OutOfFutexes(s, k))
            && (k.uaddr != 0 && !s.busy && k.uaddr % 4 != 0 ==> r == Woke(0))
            && (k.uaddr != 0 && !s.busy && k.uaddr % 4 == 0 && !OutOfFutexes(s, k) ==>
                  r == Woke(Min(n, |QueueOf(s, k)|)))
  {
    hide ChainsOk, ListsOk, WaitersOk, FreeOk, Find;
    ObtainIff(s, k);
    FindIsExact(s, k);
    if s.free != [] {
      NewHasNoWaiters(s, s.free[0]);
    }
  }

  lemma AddWaiter(v: State, f: Fid, t: Tid)
    requires WaitersOk(v.waiters, v.keys) && f in v.keys && v.keys[f].Some? && forall g :: t !in Blocked(v.waiters, g)
    ensures var w := v.waiters[f := Blocked(v.waiters, f) + [t]];
            && WaitersOk(w, v.keys)
            && forall g :: Blocked(w, g) == if g == f then Blocked(v.waiters, f) + [t] else Blocked(v.waiters, g)
  {
    var w := v.waiters[f := Blocked(v.waiters, f) + [t]];
    assert forall g :: Blocked(w, g) == if g == f then Blocked(v.waiters, f) + [t] else Blocked(v.waiters, g);
    NoDupAppend(Blocked(v.waiters, f), t);
  }

  lemma DropWaiters(waiters: map<Fid, seq<Tid>>, keys: map<Fid, Option<Key>>, f: Fid, n: nat)
    requires WaitersOk(waiters, keys) && n <= |Blocked(waiters, f)|
    ensures var w := waiters[f := Blocked(waiters, f)[n..]];
            && WaitersOk(w, keys)
            && forall g :: Blocked(w, g) == if g == f then Blocked(waiters, f)[n..] else Blocked(waiters, g)
  {
    var w := waiters[f := Blocked(waiters, f)[n..]];
    assert forall g :: Blocked(w, g) == if g == f then Blocked(waiters, f)[n..] else Blocked(waiters, g);
    forall g
      ensures NoDup(Blocked(w, g)) && (Blocked(w, g) != [] ==> g in keys && keys[g].Some?)
    {
      assert NoDup(Blocked(waiters, g));
    }
  }

  /** A wake releases min(n, waiters) threads, from the front. */
  lemma WakeKeeps(s: State, k: Key, n: nat)
    requires Inv(s)
    ensures var (u, r) := Wake(s, k, n);
            && Inv(u)
            && (Wakes(s, k) ==>
                  var (v, f) := Obtain(s, k); var w := Blocked(s.waiters, f);
                  && r == Woke(Min(n, |w|))
                  && f in u.keys && u.keys[f] == Some(k)
                  && (forall g :: Blocked(u.waiters, g) == if g == f then w[Min(n, |w|)..] else Blocked(s.waiters, g)))
            && (!Wakes(s, k) ==> u == s.(busy := u.busy))
            && (u.busy != s.busy <==> r.Killed?)
  {
    hide ChainsOk, ListsOk, Obtain, FreeOk, WaitersOk;
    if Wakes(s, k) {
      ObtainKeeps(s, k);
      var (v, f) := Obtain(s, k);
      assert Blocked(v.waiters, f) == Blocked(s.waiters, f);
      DropWaiters(v.waiters, v.keys, f, Min(n, |Blocked(v.waiters, f)|));
    }
  }

  /** Destroying a futex is in order exactly when no thread waits on it. */
  lemma DestroyKeeps(s: State, k: Key)
    requires Inv(s)
    ensures var (u, r) := Destroy(s, k);
            && (Inv(u) <==> !r.Done? || Blocked(s.waiters, Find(s, k).value) == [])
            && (r == Stuck <==> s.busy)
            && (r == Done <==> !s.busy && k.uaddr % 4 == 0 && exists f :: f in s.keys && s.keys[f] == Some(k))
            && (r == Stuck || r == Done || r == Invalid) && (r != Done ==> u == s)
  {
    hide ChainsOk, ListsOk, Find, Bucket, NoDup;
    FindIsExact(s, k);
    if !s.busy && k.uaddr % 4 == 0 && Find(s, k).Some? {
      var f := Find(s, k).value;
      var u := Destroy(s, k).0;
      DestroyChains(s, k, f);
      DestroyLists(s, k, f);
      DestroyFree(s, f);
      assert Blocked(u.waiters, f) == Blocked(s.waiters, f);
      assert |u.chains| == HASH_SIZE;
    }
  }

  lemma DestroyFree(s: State, f: Fid)
    requires FreeOk(s.free, s.keys) && f in s.keys && s.keys[f].Some?
    ensures FreeOk([f] + s.free, s.keys[f := None])
  {
  }

  lemma DestroyChains(s: State, k: Key, f: Fid)
    requires ChainsOk(s.chains, s.keys) && f in s.keys && s.keys[f] == Some(k)
    ensures ChainsOk(s.chains[Bucket(k) := Without(s.chains[Bucket(k)], f)], s.keys[f := None])
  {
    hide NoDup;
    var after := s.chains[Bucket(k) := Without(s.chains[Bucket(k)], f)];
    forall h | 0 <= h < HASH_SIZE
      ensures ChainAt(after[h], h, s.keys[f := None])
    {
      assert ChainAt(s.chains[h], h, s.keys);
    }
  }

  lemma DestroyLists(s: State, k: Key, f: Fid)
    requires ListsOk(s.lists, s.keys) && f in s.keys && s.keys[f] == Some(k)
    ensures ListsOk(s.lists[k.pid := Without(ListOf(s.lists, k.pid), f)], s.keys[f := None])
  {
    hide NoDup;
    var after := s.lists[k.pid := Without(ListOf(s.lists, k.pid), f)];
    forall pid
      ensures ListAt(ListOf(after, pid), pid, s.keys[f := None])
    {
      assert ListAt(ListOf(s.lists, pid), pid, s.keys);
    }
  }

  // ---------------------------------------------------------------------
  // All runs
  // ---------------------------------------------------------------------

  /** The threads that wait at an address, first come first. */
  ghost function QueueOf(s: State, k: Key): seq<Tid>
    requires |s.chains| == HASH_SIZE
  {
    match Find(s, k)
    case None => []
    case Some(f) => Blocked(s.waiters, f)
  }

  datatype Action =
    | Store(key: Key, val: nat)
    | DoWait(t: Tid, key: Key, val: nat)
    | DoWake(key: Key, n: nat)
    | DoDestroy(key: Key)

  /** A thread waits in one place, and a futex with waiters is not destroyed. */
  ghost predicate Enabled(s: State, a: Action)
    requires |s.chains| == HASH_SIZE
  {
    match a
    case Store(_, _) => true
    case DoWait(t, k, _) => forall f :: t !in Blocked(s.waiters, f)
    case DoWake(k, _) => true
    case DoDestroy(k) => QueueOf(s, k) == []
  }

  ghost function Step(s: State, a: Action): State
    requires |s.chains| == HASH_SIZE && Enabled(s, a)
  {
    match a
    case Store(k, v) => s.(memory := s.memory[k := v])
    case DoWait(t, k, val) => Wait(s, t, k, val).0
    case DoWake(k, n) => Wake(s, k, n).0
    case DoDestroy(k) => Destroy(s, k).0
  }

  lemma StepKeeps(s: State, a: Action)
    requires Inv(s) && Enabled(s, a)
    ensures Inv(Step(s, a))
  {
    hide ChainsOk, ListsOk, WaitersOk, FreeOk, Wait, Wake, Destroy, Find;
    match a
    case Store(k, v) =>
    case DoWait(t, k, val) => WaitKeeps(s, t, k, val);
    case DoWake(k, n) => WakeKeeps(s, k, n);
    case DoDestroy(k) =>
      DestroyKeeps(s, k);
      DestroyOutcome(s, k);
  }

  lemma DestroyOutcome(s: State, k: Key)
    requires |s.chains| == HASH_SIZE
    ensures Destroy(s, k).1.Done? <==> !s.busy && k.uaddr % 4 == 0 && Find(s, k).Some?
  {
  }

  /** The queue at an address after a step. */
  ghost function NextQueue(q: seq<Tid>, s: State, a: Action, k: Key): seq<Tid>
    requires |s.chains| == HASH_SIZE
  {
    match a
    case DoWait(t, j, val) => if j == k && Sleeps(s, k, val) then q + [t] else q
    case DoWake(j, n) => if j == k && Wakes(s, k) then q[Min(n, |q|)..] else q
    case _ => q
  }

  lemma WaitQueue(s: State, t: Tid, j: Key, val: nat, k: Key)
    requires Inv(s) && forall f :: t !in Blocked(s.waiters, f)
    ensures var u := Wait(s, t, j, val).0;
            Inv(u) && QueueOf(u, k) == NextQueue(QueueOf(s, k), s, DoWait(t, j, val), k)
  {
    hide ChainsOk, ListsOk, WaitersOk, FreeOk, Obtain, Find;
    WaitKeeps(s, t, j, val);
    var (u, r) := Wait(s, t, j, val);
    if r.Asleep? {
      ObtainKeeps(s, j);
      var (v, f) := Obtain(s, j);
      ObtainQueue(s, j, k);
      assert u.keys == v.keys && u.chains == v.chains;
      FindIsExact(v, k);
      FindSame(v, u, k);
      FindIsExact(v, j);
    } else {
      FindSame(s, u, k);
    }
  }

  lemma FindSame(s: State, t: State, k: Key)
    requires |s.chains| == HASH_SIZE && s.chains == t.chains && s.keys == t.keys
    ensures Find(s, k) == Find(t, k)
  {
  }

  lemma ObtainQueue(s: State, j: Key, k: Key)
    requires Inv(s) && CanObtain(s, j)
    ensures var (v, f) := Obtain(s, j);
            && Inv(v) && f in v.keys && v.keys[f] == Some(j) && QueueOf(v, k) == QueueOf(s, k)
  {
    hide ChainsOk, ListsOk, WaitersOk, FreeOk, Find;
    ObtainKeeps(s, j);
    var (v, f) := Obtain(s, j);
    FindIsExact(s, k);
    FindIsExact(v, k);
    if Find(s, j).None? {
      assert v.keys == s.keys[f := Some(j)];
      NewHasNoWaiters(s, f);
    }
  }

  lemma NewHasNoWaiters(s: State, f: Fid)
    requires Inv(s) && f in s.free
    ensures Blocked(s.waiters, f) == [] && f in s.keys && s.keys[f].None?
  {
  }

  lemma WakeQueue(s: State, j: Key, n: nat, k: Key)
    requires Inv(s)
    ensures var u := Wake(s, j, n).0;
            Inv(u) && QueueOf(u, k) == NextQueue(QueueOf(s, k), s, DoWake(j, n), k)
  {
    hide ChainsOk, ListsOk, WaitersOk, FreeOk, Obtain, Find;
    WakeKeeps(s, j, n);
    var (u, r) := Wake(s, j, n);
    if Wakes(s, j) {
      var (v, f) := Obtain(s, j);
      ObtainKeeps(s, j);
      ObtainQueue(s, j, k);
      assert u.keys == v.keys && u.chains == v.chains;
      FindIsExact(v, k);
      FindSame(v, u, k);
      FindIsExact(v, j);
    } else {
      FindSame(s, u, k);
    }
  }

  lemma DestroyQueue(s: State, j: Key, k: Key)
    requires Inv(s) && QueueOf(s, j) == []
    ensures var u := Destroy(s, j).0; Inv(u) && QueueOf(u, k) == QueueOf(s, k)
  {
    hide ChainsOk, ListsOk, WaitersOk, FreeOk, Find;
    DestroyKeeps(s, j);
    var u := Destroy(s, j).0;
    FindIsExact(s, j);
    FindIsExact(s, k);
    FindIsExact(u, k);
  }

  /** Chains, buckets and reused futexes never show: each address has a plain first-in first-out queue. */
  lemma StepRefinesQueues(s: State, a: Action, k: Key)
    requires Inv(s) && Enabled(s, a)
    ensures Inv(Step(s, a)) && QueueOf(Step(s, a), k) == NextQueue(QueueOf(s, k), s, a, k)
  {
    hide ChainsOk, ListsOk, WaitersOk, FreeOk, Wait, Wake, Destroy, NextQueue;
    match a
    case Store(j, v) => StoreQueue(s, j, v, k);
    case DoWait(t, j, val) => WaitQueue(s, t, j, val, k);
    case DoWake(j, n) => WakeQueue(s, j, n, k);
    case DoDestroy(j) =>
      DestroyQueue(s, j, k);
      assert QueueOf(s, k) == NextQueue(QueueOf(s, k), s, a, k) by { IdleQueue(s, a, k); }
  }

  lemma IdleQueue(s: State, a: Action, k: Key)
    requires |s.chains| == HASH_SIZE && (a.DoDestroy? || a.Store?)
    ensures NextQueue(QueueOf(s, k), s, a, k) == QueueOf(s, k)
  {
  }

  lemma StoreQueue(s: State, j: Key, v: nat, k: Key)
    requires Inv(s)
    ensures var u := s.(memory := s.memory[j := v]);
            Inv(u) && QueueOf(u, k) == NextQueue(QueueOf(s, k), s, Store(j, v), k)
  {
    hide ChainsOk, ListsOk, WaitersOk, FreeOk, Find;
    FindSame(s, s.(memory := s.memory[j := v]), k);
  }

  ghost predicate IsRun(s: State, run: seq<Action>)
    decreases |run|
  {
    run != [] ==> Inv(s) && Enabled(s, run[0]) && IsRun(Step(s, run[0]), run[1..])
  }

  ghost function After(s: State, run: seq<Action>): State
    requires IsRun(s, run)
    decreases |run|
  {
    if run == [] then s else After(Step(s, run[0]), run[1..])
  }

  /** How many threads the wakes of a run ask for at an address, until a process dies with the table locked. */
  ghost function Asked(s: State, run: seq<Action>, k: Key): nat
    requires IsRun(s, run)
    decreases |run|
  {
    if run == [] then 0
    else (if run[0].DoWake? && run[0].key == k && !s.busy then run[0].n else 0) + Asked(Step(s, run[0]), run[1..], k)
  }

  /**
    No wakeup is lost, and none is jumped ahead of: a thread asleep with i threads before
    it runs again exactly when wakes at its address have asked for more than i threads.
   */
  lemma {:induction false} WokenExactly(s: State, run: seq<Action>, k: Key, t: Tid, i: nat)
    requires Inv(s) && IsRun(s, run) && Wakeable(k)
    requires i < |QueueOf(s, k)| && QueueOf(s, k)[i] == t
    requires forall a :: a in run && a.DoWait? ==> a.t != t
    ensures var u := After(s, run); var w := Asked(s, run, k);
            && |u.chains| == HASH_SIZE
            && (w > i ==> t !in QueueOf(u, k))
            && (w <= i ==> i - w < |QueueOf(u, k)| && QueueOf(u, k)[i - w] == t)
    decreases |run|
  {
    hide Inv, Enabled, Step, QueueOf, CanObtain;
    InvSize(s);
    if run != [] {
      var a := run[0];
      StepRefinesQueues(s, a, k);
      var u := Step(s, a);
      assert a in run && forall b :: b in run[1..] ==> b in run;
      QueueNoDup(s, k);
      WaitersMeanFutex(s, k);
      InvSize(u);
      var n := if a.DoWake? && a.key == k && !s.busy then a.n else 0;
      if n > i {
        GoneStaysGone(u, run[1..], k, t);
      } else {
        WokenExactly(u, run[1..], k, t, i - n);
      }
    }
  }

  /** Where threads wait there is a futex, so a wake there needs no new one. */
  lemma WaitersMeanFutex(s: State, k: Key)
    requires |s.chains| == HASH_SIZE && QueueOf(s, k) != []
    ensures CanObtain(s, k)
  {
  }

  /** A table that is not left locked after a run never was, and every wake of the run counted. */
  lemma {:induction false} FreeTableCountsAll(s: State, run: seq<Action>, k: Key)
    requires Inv(s) && IsRun(s, run) && !After(s, run).busy
    ensures !s.busy && Asked(s, run, k) == WakesIn(run, k)
    decreases |run|
  {
    hide Inv, Enabled;
    if run != [] {
      InvSize(s);
      StepKeeps(s, run[0]);
      if s.busy {
        BusyStays(s, run[0]);
      }
      FreeTableCountsAll(Step(s, run[0]), run[1..], k);
    }
  }

  lemma BusyStays(s: State, a: Action)
    requires Inv(s) && Enabled(s, a) && s.busy
    ensures Step(s, a).busy
  {
    hide ChainsOk, ListsOk, WaitersOk, FreeOk, Find;
  }

  function WakesIn(run: seq<Action>, k: Key): nat {
    if run == [] then 0
    else (if run[0].DoWake? && run[0].key == k then run[0].n else 0) + WakesIn(run[1..], k)
  }

  lemma InvSize(s: State)
    requires Inv(s)
    ensures |s.chains| == HASH_SIZE
  {
  }

  lemma QueueNoDup(s: State, k: Key)
    requires Inv(s)
    ensures NoDup(QueueOf(s, k))
  {
    hide ChainsOk, ListsOk, FreeOk, Find;
  }

  lemma {:induction false} GoneStaysGone(s: State, run: seq<Action>, k: Key, t: Tid)
    requires Inv(s) && IsRun(s, run) && |s.chains| == HASH_SIZE && t !in QueueOf(s, k)
    requires forall a :: a in run && a.DoWait? ==> a.t != t
    ensures |After(s, run).chains| == HASH_SIZE && t !in QueueOf(After(s, run), k)
    decreases |run|
  {
    hide Inv, Enabled, Step, QueueOf;
    if run != [] {
      StepRefinesQueues(s, run[0], k);
      assert run[0] in run && forall b :: b in run[1..] ==> b in run;
      InvSize(Step(s, run[0]));
      GoneStaysGone(Step(s, run[0]), run[1..], k, t);
    }
  }

  /** A table with one futex, free, and one readable word that holds zero. */
  function OneFutex(k: Key): State {
    State(map[Fid(0) := None], seq(HASH_SIZE, _ => []), map[], [Fid(0)], map[], map[k := 0], false)
  }

  lemma OneFutexOk(k: Key)
    ensures Inv(OneFutex(k)) && forall f :: Blocked(OneFutex(k).waiters, f) == []
  {
    var s := OneFutex(k);
    assert forall h :: 0 <= h < HASH_SIZE ==> s.chains[h] == [];
    assert forall pid :: ListOf(s.lists, pid) == [];
  }

  /** A futex destroyed under a waiting thread: the futex is free again with the thread still on its list. */
  lemma DestroyUnderWaiter()
    ensures var k := Key(1, 4096); var s := OneFutex(k);
            Inv(s)
            && var (u, r) := Wait(s, Tid(7), k, 0);
               r == Asleep && Inv(u)
               && var (v, q) := Destroy(u, k); q == Done && !Inv(v)
  {
    hide Inv, Wait, Destroy, Find;
    var k := Key(1, 4096);
    var s := OneFutex(k);
    OneFutexOk(k);
    InvSize(s);
    WaitKeeps(s, Tid(7), k, 0);
    var (u, r) := Wait(s, Tid(7), k, 0);
    WaitLeaves(s, Tid(7), k, 0);
    FindIsExact(u, k);
    DestroyKeeps(u, k);
  }

  /** A thread put to sleep is on the list of the futex found at its address. */
  lemma WaitLeaves(s: State, t: Tid, k: Key, val: nat)
    requires Inv(s) && (forall f :: t !in Blocked(s.waiters, f)) && Sleeps(s, k, val)
    ensures var u := Wait(s, t, k, val).0;
            && Inv(u) && |u.chains| == HASH_SIZE && !u.busy
            && Find(u, k).Some? && t in Blocked(u.waiters, Find(u, k).value)
  {
    hide ChainsOk, ListsOk, WaitersOk, FreeOk, Obtain, Find, CanObtain;
    WaitKeeps(s, t, k, val);
    ObtainKeeps(s, k);
    var u := Wait(s, t, k, val).0;
    FindIsExact(u, k);
    var (v, f) := Obtain(s, k);
    assert f in u.keys && u.keys[f] == Some(k);
  }

  // ---------------------------------------------------------------------
  // The code
  // ---------------------------------------------------------------------

  class FutexTable {
    var keys: map<Fid, Option<Key>>
    var chains: seq<seq<Fid>>
    var lists: map<nat, seq<Fid>>
    var free: seq<Fid>
    var waiters: map<Fid, seq<Tid>>
    var memory: map<Key, nat>
    var busy: bool

    ghost function View(): State
      reads this
    {
      State(keys, chains, lists, free, waiters, memory, busy)
    }

    /** The search of futex_get. */
    method FindFutex(k: Key) returns (r: Option<Fid>)
      requires Inv(View())
      ensures r == Find(View(), k)
      ensures r.Some? <==> exists f :: f in keys && keys[f] == Some(k)
    {
      hide ChainsOk, ListsOk, WaitersOk, FreeOk;
      FindIsExact(View(), k);
      var rest := chains[Bucket(k)];
      while rest != []
        invariant FindIn(rest, keys, k) == Find(View(), k)
      {
        if rest[0] in keys && keys[rest[0]] == Some(k) {
          return Some(rest[0]);
        }
        rest := rest[1..];
      }
      r := None;
    }

    /** futex_get with FUTEX_CREATE; None when the process has to be ended for want of a futex. */
    method FutexGet(k: Key) returns (r: Option<Fid>)
      requires Inv(View())
      modifies this
      ensures |old(chains)| == HASH_SIZE && Inv(View())
      ensures CanObtain(old(View()), k) ==> r.Some? && (View(), r.value) == Obtain(old(View()), k)
      ensures !CanObtain(old(View()), k) ==> r.None? && View() == old(View())
    {
      hide ChainsOk, ListsOk, WaitersOk, FreeOk, Find;
      if CanObtain(View(), k) {
        ObtainKeeps(View(), k);
      }
      var found := FindFutex(k);
      if found.Some? {
        return found;
      }
      if free == [] {
        return None;
      }
      var f := free[0];
      free := free[1..];
      lists := lists[k.pid := [f] + ListOf(lists, k.pid)];
      chains := chains[Bucket(k) := [f] + chains[Bucket(k)]];
      keys := keys[f := Some(k)];
      waiters := waiters[f := []];
      return Some(f);
    }

    method FutexWait(t: Tid, k: Key, val: nat) returns (r: Outcome)
      requires Inv(View()) && forall f :: t !in Blocked(waiters, f)
      modifies this
      ensures |old(chains)| == HASH_SIZE && (View(), r) == Wait(old(View()), t, k, val) && Inv(View())
    {
      hide Inv, Obtain, CanObtain;
      InvSize(View());
      WaitKeeps(View(), t, k, val);
      if busy {
        return Stuck;
      }
      busy := true;
      if k !in memory {
        busy := false;
        return Fault;
      }
      if memory[k] != val {
        busy := false;
        return Again;
      }
      if k.uaddr % 4 != 0 {
        busy := false;
        return Invalid;
      }
      BusyOnly(old(View()), k);
      var f := FutexGet(k);
      if f.None? {
        return Killed;
      }
      busy := false;
      waiters := waiters[f.value := Blocked(waiters, f.value) + [t]];
      return Asleep;
    }

    /** sys_futex_requeue with no second address: wake the head of the list until n are awake or none is left. */
    method FutexWake(k: Key, n: nat) returns (r: Outcome)
      requires Inv(View())
      modifies this
      ensures |old(chains)| == HASH_SIZE && (View(), r) == Wake(old(View()), k, n) && Inv(View())
    {
      hide Inv, Obtain, CanObtain;
      InvSize(View());
      WakeKeeps(View(), k, n);
      if k.uaddr == 0 {
        return Invalid;
      }
      if busy {
        return Stuck;
      }
      busy := true;
      if k.uaddr % 4 != 0 {
        busy := false;
        return Woke(0);
      }
      BusyOnly(old(View()), k);
      var o := FutexGet(k);
      if o.None? {
        return Killed;
      }
      var count := WakeLoop(o.value, n);
      busy := false;
      return Woke(count);
    }

    method WakeLoop(f: Fid, n: nat) returns (count: nat)
      modifies `waiters
      ensures var w := Blocked(old(waiters), f);
              && count == Min(n, |w|)
              && waiters == if count == 0 then old(waiters) else old(waiters)[f := w[count..]]
    {
      ghost var v := waiters;
      ghost var w := Blocked(waiters, f);
      count := 0;
      while Blocked(waiters, f) != [] && count < n
        invariant count <= n && count <= |w|
        invariant Blocked(waiters, f) == w[count..]
        invariant waiters == if count == 0 then v else v[f := w[count..]]
        decreases n - count
      {
        waiters := waiters[f := Blocked(waiters, f)[1..]];
        count := count + 1;
        assert waiters == v[f := w[count..]];
      }
    }
  }

  /** The table's lock has no part in what the lists say. */
  lemma BusyOnly(s: State, k: Key)
    requires Inv(s)
    ensures var t := s.(busy := true);
            && Inv(t) && CanObtain(t, k) == CanObtain(s, k)
            && (CanObtain(s, k) ==> Obtain(t, k) == (Obtain(s, k).0.(busy := true), Obtain(s, k).1))
  {
    hide ChainsOk, ListsOk, WaitersOk, FreeOk;
  }
}
