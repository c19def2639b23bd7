/**
  Message data moved across address spaces: sys_readmsg and sys_writemsg with the
  page-by-page copy below them (fs/msg.c:155-321 over vm/ipcopy.c).

  A message is the list of the virtual addresses of its bytes, part after part. A read
  gathers them into the server's buffer, a write scatters the buffer over them.
 */
module MsgTransfer {
  import opened Lists
  import opened MsgCopy

  /** One part of a message in its owner's address space. */
  datatype Iov = Iov(addr: nat, size: nat)

  function Bytes(v: Iov): (r: seq<nat>)
    ensures |r| == v.size && forall k :: 0 <= k < v.size ==> r[k] == v.addr + k
  {
    seq(v.size, k requires 0 <= k < v.size => v.addr + k)
  }

  /** The addresses of each part. */
  function Parts(iov: seq<Iov>): (r: seq<seq<nat>>)
    ensures |r| == |iov| && forall i :: 0 <= i < |iov| ==> r[i] == Bytes(iov[i])
  {
    seq(|iov|, i requires 0 <= i < |iov| => Bytes(iov[i]))
  }

  /** k addresses of the list, from the n-th on, follow each other. */
  ghost predicate Consecutive(addrs: seq<nat>, n: nat, va: nat, k: nat) {
    n + k <= |addrs| && forall j :: n <= j < n + k ==> addrs[j] == va + (j - n)
  }

  datatype Outcome = Invalid | Fault(done: nat) | Done(count: nat)

  // ---------------------------------------------------------------------
  // Reading: the parts of a message into one buffer
  // ---------------------------------------------------------------------

  /** The first n addresses are in the buffer at dv, byte by byte as memory held them at the start. */
  ghost predicate Gathered(before: Frames, after: Frames, src: Translation, dst: Translation, dv: nat,
                           from: seq<nat>, n: nat)
    requires n <= |from|
  {
    && after.Keys == before.Keys
    && (forall f :: f in before && f !in dst.Values ==> after[f] == before[f])
    && (forall a: nat :: Load(after, dst, a) == if dv <= a < dv + n then Load(before, src, from[a - dv])
        else Load(before, dst, a))
  }

  lemma GatherMore(m0: Frames, m1: Frames, m2: Frames, src: Translation, dst: Translation, dv: nat, from: seq<nat>,
                   n: nat, sv: nat, k: nat)
    requires Apart(src, dst) && n + k <= |from|
    requires Gathered(m0, m1, src, dst, dv, from, n) && Copied(m1, m2, src, dst, dv + n, sv, k)
    requires Consecutive(from, n, sv, k)
    ensures Gathered(m0, m2, src, dst, dv, from, n + k) && m2.Keys == m0.Keys
  {
    hide Load, Apart;
    forall a: nat
      ensures Load(m2, dst, a) == if dv <= a < dv + (n + k) then Load(m0, src, from[a - dv]) else Load(m0, dst, a)
    {
      if dv + n <= a < dv + n + k {
        SourceKept(m0, m1, src, dst, from[a - dv]);
      }
    }
  }

  /** The addresses read, and the buffer addresses written, are all mapped. */
  ghost predicate AllMapped(tr: Translation, addrs: seq<nat>, n: nat)
    requires n <= |addrs|
  {
    forall j :: 0 <= j < n ==> PageOf(addrs[j]) in tr
  }

  lemma MappedMore(tr: Translation, addrs: seq<nat>, n: nat, va: nat, k: nat)
    requires n + k <= |addrs| && AllMapped(tr, addrs, n) && Reached(tr, va, k)
    requires Consecutive(addrs, n, va, k)
    ensures AllMapped(tr, addrs, n + k)
  {
    hide PageOf;
    forall j | 0 <= j < n + k
      ensures PageOf(addrs[j]) in tr
    {
      assert j >= n ==> addrs[j] == va + (j - n);
    }
  }

  lemma ReachedMore(tr: Translation, va: nat, n: nat, k: nat)
    requires Reached(tr, va, n) && Reached(tr, va + n, k)
    ensures Reached(tr, va, n + k)
  {
    hide PageOf;
  }

  /** The piece of a part that lies at the message's position n, within the addresses from the offset on. */
  lemma Piece(iov: seq<Iov>, i: nat, at: nat, k: nat, offset: nat, n: nat)
    requires i < |iov| && at + k <= iov[i].size && Start(Parts(iov), i) + at == offset + n
    ensures offset + n + k <= |Flat(Parts(iov))|
    ensures Consecutive(Flat(Parts(iov))[offset..], n, iov[i].addr + at, k)
  {
    hide Flat;
    var all := Flat(Parts(iov));
    FlatAround(Parts(iov), i);
    forall j | n <= j < n + k
      ensures all[offset..][j] == iov[i].addr + at + (j - n)
    {
      assert all[offset..][j] == all[offset + j];
      assert all[offset + j] == Parts(iov)[i][at + (j - n)];
    }
  }

  /** n bytes delivered: as they were at the start, and every address on either side mapped. */
  ghost predicate Delivered(before: Frames, after: Frames, src: Translation, dst: Translation, addr: nat,
                            from: seq<nat>, n: nat) {
    && n <= |from|
    && Gathered(before, after, src, dst, addr, from, n)
    && AllMapped(src, from, n)
    && Reached(dst, addr, n)
  }

  /** Part i holds, or is empty at, this position of the message. */
  predicate HoldsAt(iov: seq<Iov>, i: nat, pos: nat) {
    i < |iov| && Start(Parts(iov), i) <= pos <= Start(Parts(iov), i) + iov[i].size
  }

  /** The piece of part i that is copied next, `left` bytes being wanted still, and the buffer it goes with. */
  predicate PieceHigh(iov: seq<Iov>, i: nat, pos: nat, left: nat, buffer: nat)
    requires HoldsAt(iov, i, pos)
  {
    var at := pos - Start(Parts(iov), i);
    var n := Min(iov[i].size - at, left);
    OutOfRange(iov[i].addr + at, n) || OutOfRange(buffer, n)
  }

  ghost predicate NextHigh(iov: seq<Iov>, pos: nat, left: nat, buffer: nat) {
    exists i :: HoldsAt(iov, i, pos) && PieceHigh(iov, i, pos, left, buffer)
  }

  /**
    Why a transfer of `want` bytes stops after `done`: the next byte is not mapped on one
    side, or the piece that begins there, or the buffer for it, is not in the user range.
   */
  ghost predicate Stopped(iov: seq<Iov>, theirs: Translation, ours: Translation, addr: nat, addrs: seq<nat>,
                          offset: nat, want: nat, done: nat)
  {
    && done <= want
    && (|| NextHigh(iov, offset + done, want - done, addr + done)
        || (done < want <= |addrs| && (PageOf(addrs[done]) !in theirs || PageOf(addr + done) !in ours)))
  }

  lemma DeliverMore(m0: Frames, m1: Frames, m2: Frames, src: Translation, dst: Translation, addr: nat,
                    from: seq<nat>, n: nat, sv: nat, k: nat)
    requires Apart(src, dst) && Consecutive(from, n, sv, k) && Delivered(m0, m1, src, dst, addr, from, n)
    requires Copied(m1, m2, src, dst, addr + n, sv, k) && Reached(src, sv, k) && Reached(dst, addr + n, k)
    ensures Delivered(m0, m2, src, dst, addr, from, n + k) && m2.Keys == m0.Keys
  {
    hide Gathered, AllMapped, Reached, Copied, Apart;
    GatherMore(m0, m1, m2, src, dst, addr, from, n, sv, k);
    MappedMore(src, from, n, sv, k);
    ReachedMore(dst, addr, n, k);
  }

  /**
    sys_readmsg for a message in another address space: on success the buffer holds
    min(buf_sz, total - offset) bytes of the message, from the offset on. A fault leaves
    the bytes before it delivered.
   */
  method ReadMsgAcross(m: PhysicalMemory, dst: Translation, src: Translation, addr: nat, siov: seq<Iov>, bufSize: nat,
                       offset: int, iovMax: nat)
    returns (r: Outcome)
    requires FramesOk(m.mem) && Backed(dst, m.mem) && Backed(src, m.mem) && Apart(src, dst)
    modifies m
    ensures FramesOk(m.mem)
    ensures var all := Flat(Parts(siov));
            && (r.Invalid? <==> |siov| == 0 || |siov| >= iovMax || offset < 0 || offset >= |all|)
            && (r.Invalid? ==> m.mem == old(m.mem))
            && (!r.Invalid? ==>
                  var from, want := all[offset..], Min(bufSize, |all| - offset);
                  && (r.Done? ==> r.count == want && Delivered(old(m.mem), m.mem, src, dst, addr, from, want))
                  && (r.Fault? ==> r.done <= want && Delivered(old(m.mem), m.mem, src, dst, addr, from, r.done)
                                   && Stopped(siov, src, dst, addr, from, offset, want, r.done)))
  {
    hide Flat, Delivered, Stopped, Reached, Copied, FramesOk, Apart, Load, PageOf, Consecutive;
    if |siov| == 0 || |siov| >= iovMax {
      return Invalid;
    }
    var parts := Parts(siov);
    var p := SeekIov(parts, offset);
    if p.Nowhere? {
      return Invalid;
    }
    ghost var from := Flat(parts)[offset..];
    ghost var want := Min(bufSize, |from|);
    StartEnds(parts);
    NothingDelivered(m.mem, src, dst, addr, from);
    var i, iovRemaining, iovOffset := p.part, p.remaining, p.offset;
    var count := 0;
    while i < |siov| && count < bufSize
      invariant 0 <= i <= |siov| && 0 <= count <= want && FramesOk(m.mem) && m.mem.Keys == old(m.mem).Keys
      invariant i < |siov| ==> 0 <= iovOffset && iovRemaining == siov[i].size - iovOffset && iovRemaining >= 0
      invariant i == |siov| ==> iovOffset == 0
      invariant Start(parts, i) + iovOffset == offset + count
      invariant Delivered(old(m.mem), m.mem, src, dst, addr, from, count)
      decreases |siov| - i, iovRemaining
    {
      var n := if bufSize - count < iovRemaining then bufSize - count else iovRemaining;
      FlatAround(parts, i);
      Piece(siov, i, iovOffset, n, offset, count);
      ghost var before := m.mem;
      var ok, done := m.IpCopy(dst, src, addr + count, siov[i].addr + iovOffset, n);
      Shorter(from, count, siov[i].addr + iovOffset, n, done);
      DeliverMore(old(m.mem), before, m.mem, src, dst, addr, from, count, siov[i].addr + iovOffset, done);
      if !ok {
        WhyStopped(siov, i, iovOffset, n, done, src, dst, addr, from, offset, want, count);
        return Fault(count + done);
      }
      count := count + n;
      iovRemaining := iovRemaining - n;
      iovOffset := iovOffset + n;
      if iovRemaining == 0 {
        i := i + 1;
        iovRemaining := if i < |siov| then siov[i].size else 0;
        iovOffset := 0;
      }
    }
    r := Done(count);
  }

  lemma NothingDelivered(mem: Frames, src: Translation, dst: Translation, addr: nat, from: seq<nat>)
    ensures Delivered(mem, mem, src, dst, addr, from, 0)
  {
  }

  lemma Shorter(addrs: seq<nat>, n: nat, va: nat, k: nat, done: nat)
    requires Consecutive(addrs, n, va, k) && done <= k
    ensures Consecutive(addrs, n, va, done) && n + k <= |addrs|
  {
  }

  /** What stops the copy of one piece stops the transfer. */
  lemma WhyStopped(iov: seq<Iov>, i: nat, at: nat, n: nat, done: nat, theirs: Translation, ours: Translation, addr: nat,
                   addrs: seq<nat>, offset: nat, want: nat, count: nat)
    requires i < |iov| && at + n <= iov[i].size && done <= n && count + n <= want <= |addrs|
    requires Start(Parts(iov), i) + at == offset + count && n == Min(iov[i].size - at, want - count)
    requires Consecutive(addrs, count, iov[i].addr + at, n)
    requires var sv, va := iov[i].addr + at, addr + count;
             || (done == 0 && (OutOfRange(va, n) || OutOfRange(sv, n)))
             || (done < n && (PageOf(sv + done) !in theirs || PageOf(va + done) !in ours))
    ensures Stopped(iov, theirs, ours, addr, addrs, offset, want, count + done)
  {
    hide PageOf, Start;
    assert done < n ==> addrs[count + done] == iov[i].addr + at + done;
    var pos, left, buffer := offset + (count + done), want - (count + done), addr + (count + done);
    if done == 0 && (OutOfRange(addr + count, n) || OutOfRange(iov[i].addr + at, n)) {
      assert HoldsAt(iov, i, pos) && PieceHigh(iov, i, pos, left, buffer);
      assert NextHigh(iov, pos, left, buffer);
    }
  }

  // ---------------------------------------------------------------------
  // Writing: one buffer into the parts of a reply
  // ---------------------------------------------------------------------

  /** Which of the first n bytes ends up at an address: the last one sent there, should parts overlap. */
  ghost function LastAt(to: seq<nat>, n: nat, a: nat): Option<nat>
    requires n <= |to|
  {
    if n == 0 then None else if to[n - 1] == a then Some(n - 1) else LastAt(to, n - 1, a)
  }

  lemma {:induction false} LastMore(to: seq<nat>, n: nat, va: nat, k: nat, a: nat)
    requires Consecutive(to, n, va, k)
    ensures LastAt(to, n + k, a) == if va <= a < va + k then Some(n + (a - va)) else LastAt(to, n, a)
  {
    if k > 0 {
      LastMore(to, n, va, k - 1, a);
    }
  }

  ghost predicate Scattered(before: Frames, after: Frames, src: Translation, dst: Translation, addr: nat,
                            to: seq<nat>, n: nat)
    requires n <= |to|
  {
    && after.Keys == before.Keys
    && (forall f :: f in before && f !in dst.Values ==> after[f] == before[f])
    && (forall a: nat :: Load(after, dst, a) == Sent(before, src, dst, addr, LastAt(to, n, a), a))
  }

  /** The byte that belongs at an address: one of the buffer, or what was there. */
  ghost function Sent(before: Frames, src: Translation, dst: Translation, addr: nat, j: Option<nat>,
                      a: nat): Option<Byte> {
    if j.Some? then Load(before, src, addr + j.value) else Load(before, dst, a)
  }

  lemma ScatterByte(m0: Frames, m1: Frames, m2: Frames, src: Translation, dst: Translation, addr: nat, to: seq<nat>,
                    n: nat, va: nat, k: nat, a: nat)
    requires Apart(src, dst) && Consecutive(to, n, va, k) && n + k <= |to|
    requires Scattered(m0, m1, src, dst, addr, to, n) && Copied(m1, m2, src, dst, va, addr + n, k)
    ensures Load(m2, dst, a) == Sent(m0, src, dst, addr, LastAt(to, n + k, a), a)
  {
    hide Load, Apart, LastAt, Consecutive;
    LastMore(to, n, va, k, a);
    assert Load(m2, dst, a) == if va <= a < va + k then Load(m1, src, addr + n + (a - va)) else Load(m1, dst, a);
    if va <= a < va + k {
      SourceKept(m0, m1, src, dst, addr + n + (a - va));
    }
  }

  lemma ScatterMore(m0: Frames, m1: Frames, m2: Frames, src: Translation, dst: Translation, addr: nat, to: seq<nat>,
                    n: nat, va: nat, k: nat)
    requires Apart(src, dst) && Consecutive(to, n, va, k) && n + k <= |to|
    requires Scattered(m0, m1, src, dst, addr, to, n) && Copied(m1, m2, src, dst, va, addr + n, k)
    ensures Scattered(m0, m2, src, dst, addr, to, n + k)
  {
    hide Load, Apart, LastAt, Consecutive;
    forall a: nat
      ensures Load(m2, dst, a) == Sent(m0, src, dst, addr, LastAt(to, n + k, a), a)
    {
      hide Scattered, Copied, Sent, Load;
      ScatterByte(m0, m1, m2, src, dst, addr, to, n, va, k, a);
    }
  }

  /** n bytes of the buffer placed: as they were at the start, and every address on either side mapped. */
  ghost predicate Placed(before: Frames, after: Frames, src: Translation, dst: Translation, addr: nat, to: seq<nat>,
                         n: nat) {
    && n <= |to|
    && Scattered(before, after, src, dst, addr, to, n)
    && AllMapped(dst, to, n)
    && Reached(src, addr, n)
  }

  lemma PlaceMore(m0: Frames, m1: Frames, m2: Frames, src: Translation, dst: Translation, addr: nat, to: seq<nat>,
                  n: nat, va: nat, k: nat)
    requires Apart(src, dst) && Consecutive(to, n, va, k) && Placed(m0, m1, src, dst, addr, to, n)
    requires Copied(m1, m2, src, dst, va, addr + n, k) && Reached(src, addr + n, k) && Reached(dst, va, k)
    ensures Placed(m0, m2, src, dst, addr, to, n + k) && m2.Keys == m0.Keys
  {
    hide AllMapped, Reached, Copied, Apart, LastAt;
    ScatterMore(m0, m1, m2, src, dst, addr, to, n, va, k);
    MappedMore(dst, to, n, va, k);
    ReachedMore(src, addr, n, k);
  }

  lemma NothingPlaced(mem: Frames, src: Translation, dst: Translation, addr: nat, to: seq<nat>)
    ensures Placed(mem, mem, src, dst, addr, to, 0)
  {
  }

  /** sys_writemsg into another address space: the same, from the buffer to the reply parts. */
  method WriteMsgAcross(m: PhysicalMemory, dst: Translation, src: Translation, addr: nat, riov: seq<Iov>, bufSize: nat,
                        offset: int, iovMax: nat)
    returns (r: Outcome)
    requires FramesOk(m.mem) && Backed(dst, m.mem) && Backed(src, m.mem) && Apart(src, dst)
    modifies m
    ensures FramesOk(m.mem)
    ensures var all := Flat(Parts(riov));
            && (r.Invalid? <==> |riov| == 0 || |riov| > iovMax || offset < 0 || offset >= |all|)
            && (r.Invalid? ==> m.mem == old(m.mem))
            && (!r.Invalid? ==>
                  var to, want := all[offset..], Min(bufSize, |all| - offset);
                  && (r.Done? ==> r.count == want && Placed(old(m.mem), m.mem, src, dst, addr, to, want))
                  && (r.Fault? ==> r.done <= want && Placed(old(m.mem), m.mem, src, dst, addr, to, r.done)
                                   && Stopped(riov, dst, src, addr, to, offset, want, r.done)))
  {
    hide Flat, Placed, Stopped, Reached, Copied, FramesOk, Apart, Load, PageOf, Consecutive;
    if |riov| == 0 || |riov| > iovMax {
      return Invalid;
    }
    var parts := Parts(riov);
    var p := SeekIov(parts, offset);
    if p.Nowhere? {
      return Invalid;
    }
    ghost var to := Flat(parts)[offset..];
    ghost var want := Min(bufSize, |to|);
    StartEnds(parts);
    NothingPlaced(m.mem, src, dst, addr, to);
    var i, iovRemaining, iovOffset := p.part, p.remaining, p.offset;
    var count := 0;
    while i < |riov| && count < bufSize
      invariant 0 <= i <= |riov| && 0 <= count <= want && FramesOk(m.mem) && m.mem.Keys == old(m.mem).Keys
      invariant i < |riov| ==> 0 <= iovOffset && iovRemaining == riov[i].size - iovOffset && iovRemaining >= 0
      invariant i == |riov| ==> iovOffset == 0
      invariant Start(parts, i) + iovOffset == offset + count
      invariant Placed(old(m.mem), m.mem, src, dst, addr, to, count)
      decreases |riov| - i, iovRemaining
    {
      var n := if iovRemaining < bufSize - count then iovRemaining else bufSize - count;
      FlatAround(parts, i);
      Piece(riov, i, iovOffset, n, offset, count);
      ghost var before := m.mem;
      var ok, done := m.IpCopy(dst, src, riov[i].addr + iovOffset, addr + count, n);
      Shorter(to, count, riov[i].addr + iovOffset, n, done);
      PlaceMore(old(m.mem), before, m.mem, src, dst, addr, to, count, riov[i].addr + iovOffset, done);
      if !ok {
        WhyStopped(riov, i, iovOffset, n, done, dst, src, addr, to, offset, want, count);
        return Fault(count + done);
      }
      count := count + n;
      iovRemaining := iovRemaining - n;
      iovOffset := iovOffset + n;
      if iovRemaining == 0 {
        i := i + 1;
        iovRemaining := if i < |riov| then riov[i].size else 0;
        iovOffset := 0;
      }
    }
    r := Done(count);
  }
}
