/**
  Moving message data: scatter/gather reads and writes of a message (fs/msg.c:155-321,
  883-915) and the page-by-page copy between address spaces (vm/ipcopy.c).

  A multi-part message is read as the concatenation of its parts. The copy loops that
  step through parts or pages are proved equal to one flat copy.
 */
module MsgCopy {
  import opened Lists

  type Byte = x: int | 0 <= x < 256

  // ---------------------------------------------------------------------
  // Multi-part messages
  // ---------------------------------------------------------------------

  /** The message as one buffer. */
  function Flat<T>(parts: seq<seq<T>>): seq<T> {
    if parts == [] then [] else parts[0] + Flat(parts[1..])
  }

  /** Where the i-th part begins in the message. */
  function Start<T>(parts: seq<seq<T>>, i: nat): nat
    requires i <= |parts|
  {
    |Flat(parts[..i])|
  }

  lemma {:induction false} FlatJoin<T>(x: seq<seq<T>>, y: seq<seq<T>>)
    ensures Flat(x + y) == Flat(x) + Flat(y)
  {
    if x == [] {
      assert x + y == y;
    } else {
      FlatJoin(x[1..], y);
      assert (x + y)[1..] == x[1..] + y;
    }
  }

  /** The message cut before and after its i-th part. */
  lemma FlatAround<T>(parts: seq<seq<T>>, i: nat)
    requires i < |parts|
    ensures Flat(parts) == Flat(parts[..i]) + parts[i] + Flat(parts[i + 1..])
    ensures Start(parts, i + 1) == Start(parts, i) + |parts[i]| <= |Flat(parts)|
  {
    hide Flat;
    assert parts == parts[..i] + ([parts[i]] + parts[i + 1..]);
    FlatJoin(parts[..i], [parts[i]] + parts[i + 1..]);
    FlatJoin([parts[i]], parts[i + 1..]);
    assert parts[..i + 1] == parts[..i] + [parts[i]];
    FlatJoin(parts[..i], [parts[i]]);
    FlatOne(parts[i]);
  }

  lemma FlatOne<T>(p: seq<T>)
    ensures Flat([p]) == p
  {
    assert [p][1..] == [];
  }

  lemma StartEnds<T>(parts: seq<seq<T>>)
    ensures Start(parts, 0) == 0 && Start(parts, |parts|) == |Flat(parts)|
  {
    assert parts[..|parts|] == parts;
  }

  datatype Position = Nowhere | At(part: nat, remaining: nat, offset: nat)

  /** seekiov: it finds the part that holds the offset, and fails exactly outside the message. */
  method SeekIov<T>(parts: seq<seq<T>>, offset: int) returns (r: Position)
    ensures r.Nowhere? <==> offset < 0 || offset >= |Flat(parts)|
    ensures r.At? ==>
              && r.part < |parts| && r.remaining > 0 && r.offset + r.remaining == |parts[r.part]|
              && Start(parts, r.part) + r.offset == offset
  {
    hide Flat;
    StartEnds(parts);
    if offset < 0 {
      return Nowhere;
    }
    var base := 0;
    for i := 0 to |parts|
      invariant base == Start(parts, i) <= offset
    {
      FlatAround(parts, i);
      if offset >= base && offset < base + |parts[i]| {
        return At(i, base + |parts[i]| - offset, offset - base);
      }
      base := base + |parts[i]|;
    }
    r := Nowhere;
  }

  function Min(a: nat, b: nat): nat {
    if a < b then a else b
  }

  datatype ReadResult = ReadFailed | Read(data: seq<Byte>)

  /**
    sys_readmsg: min(buf_sz, total - offset) bytes of the flat message, from the offset on,
    whatever the parts, empty ones included.
   */
  method ReadMsg(siov: seq<seq<Byte>>, bufSize: nat, offset: int, iovMax: nat) returns (r: ReadResult)
    ensures r.ReadFailed? <==> |siov| == 0 || |siov| >= iovMax || offset < 0 || offset >= |Flat(siov)|
    ensures r.Read? ==> r.data == Flat(siov)[offset..offset + Min(bufSize, |Flat(siov)| - offset)]
  {
    hide Flat;
    if |siov| == 0 || |siov| >= iovMax {
      return ReadFailed;
    }
    var p := SeekIov(siov, offset);
    if p.Nowhere? {
      return ReadFailed;
    }
    StartEnds(siov);
    var i, iovRemaining, iovOffset := p.part, p.remaining, p.offset;
    var data: seq<Byte> := [];
    var bufRemaining := bufSize;
    FlatAround(siov, i);
    while i < |siov| && |data| < bufSize && bufRemaining > 0
      invariant 0 <= i <= |siov| && bufRemaining == bufSize - |data| && bufRemaining >= 0
      invariant i < |siov| ==> 0 <= iovOffset && iovRemaining == |siov[i]| - iovOffset && iovRemaining >= 0
      invariant i == |siov| ==> iovOffset == 0
      invariant Start(siov, i) + iovOffset == offset + |data| <= |Flat(siov)|
      invariant data == Flat(siov)[offset..offset + |data|]
      decreases |siov| - i, iovRemaining
    {
      var n := if bufRemaining < iovRemaining then bufRemaining else iovRemaining;
      FlatAround(siov, i);
      assert Flat(siov)[offset..offset + |data|] + siov[i][iovOffset..iovOffset + n] ==
             Flat(siov)[offset..offset + |data| + n];
      data := data + siov[i][iovOffset..iovOffset + n];
      bufRemaining := bufSize - |data|;
      iovRemaining := iovRemaining - n;
      iovOffset := iovOffset + n;
      if iovRemaining == 0 {
        i := i + 1;
        iovRemaining := if i < |siov| then |siov[i]| else 0;
        iovOffset := 0;
      }
    }
    r := Read(data);
  }

  /** A buffer with some bytes replaced. */
  function Patch(b: seq<Byte>, at: nat, d: seq<Byte>): (r: seq<Byte>)
    requires at + |d| <= |b|
    ensures |r| == |b|
  {
    b[..at] + d + b[at + |d|..]
  }

  lemma PatchTwice(b: seq<Byte>, at: nat, d: seq<Byte>, e: seq<Byte>)
    requires at + |d| + |e| <= |b|
    ensures Patch(Patch(b, at, d), at + |d|, e) == Patch(b, at, d + e)
  {
  }

  /** Replacing bytes of one part replaces them in the message, and moves no part. */
  lemma PatchPart(parts: seq<seq<Byte>>, i: nat, at: nat, d: seq<Byte>)
    requires i < |parts| && at + |d| <= |parts[i]|
    ensures var after := parts[i := Patch(parts[i], at, d)];
            && |Flat(after)| == |Flat(parts)| && Start(parts, i) + at + |d| <= |Flat(parts)|
            && Flat(after) == Patch(Flat(parts), Start(parts, i) + at, d)
            && Start(after, i) == Start(parts, i)
  {
    hide Flat;
    var after := parts[i := Patch(parts[i], at, d)];
    FlatAround(parts, i);
    FlatAround(after, i);
    assert after[..i] == parts[..i] && after[i + 1..] == parts[i + 1..];
  }

  datatype WriteResult = WriteFailed | Written(count: nat, parts: seq<seq<Byte>>)

  /** sys_writemsg: the same, into the reply parts; every part keeps its size. */
  method WriteMsg(riov: seq<seq<Byte>>, buf: seq<Byte>, offset: int, iovMax: nat) returns (r: WriteResult)
    ensures r.WriteFailed? <==> |riov| == 0 || |riov| > iovMax || offset < 0 || offset >= |Flat(riov)|
    ensures r.Written? ==>
              && r.count == Min(|buf|, |Flat(riov)| - offset)
              && Flat(r.parts) == Patch(Flat(riov), offset, buf[..r.count])
              && |r.parts| == |riov| && forall k :: 0 <= k < |riov| ==> |r.parts[k]| == |riov[k]|
  {
    hide Flat, Patch;
    if |riov| == 0 || |riov| > iovMax {
      return WriteFailed;
    }
    var p := SeekIov(riov, offset);
    if p.Nowhere? {
      return WriteFailed;
    }
    var i, iovRemaining, iovOffset := p.part, p.remaining, p.offset;
    var parts := riov;
    var count := 0;
    StartEnds(riov);
    FlatAround(riov, i);
    PatchNothing(Flat(riov), offset);
    assert buf[..0] == [];
    while i < |riov| && count < |buf|
      invariant 0 <= i <= |riov| && 0 <= count <= |buf|
      invariant |parts| == |riov| && forall k :: 0 <= k < |riov| ==> |parts[k]| == |riov[k]|
      invariant |Flat(parts)| == |Flat(riov)|
      invariant i < |riov| ==> 0 <= iovOffset && iovRemaining == |riov[i]| - iovOffset && iovRemaining >= 0
      invariant i == |riov| ==> iovOffset == 0
      invariant Start(parts, i) + iovOffset == offset + count <= |Flat(riov)|
      invariant Flat(parts) == Patch(Flat(riov), offset, buf[..count])
      decreases |riov| - i, iovRemaining
    {
      var n := if iovRemaining < |buf| - count then iovRemaining else |buf| - count;
      var d := buf[count..count + n];
      PatchPart(parts, i, iovOffset, d);
      PatchTwice(Flat(riov), offset, buf[..count], d);
      assert buf[..count + n] == buf[..count] + d;
      parts := parts[i := Patch(parts[i], iovOffset, d)];
      count := count + n;
      iovRemaining := iovRemaining - n;
      iovOffset := iovOffset + n;
      FlatAround(parts, i);
      if iovRemaining == 0 {
        i := i + 1;
        iovRemaining := if i < |riov| then |riov[i]| else 0;
        iovOffset := 0;
      }
    }
    StartEnds(parts);
    r := Written(count, parts);
  }

  lemma PatchNothing(b: seq<Byte>, at: nat)
    requires at <= |b|
    ensures Patch(b, at, []) == b
  {
  }

  /** What has been written is what a read of the same place returns. */
  lemma PatchRead(b: seq<Byte>, at: nat, d: seq<Byte>)
    requires at + |d| <= |b|
    ensures Patch(b, at, d)[at..at + |d|] == d
    ensures Patch(b, at, d)[..at] == b[..at] && Patch(b, at, d)[at + |d|..] == b[at + |d|..]
  {
  }

  // ---------------------------------------------------------------------
  // ipcopy
  // ---------------------------------------------------------------------

  const PAGE_SIZE: nat := 4096
  const USER_CEILING: nat := 0x7F00_0000

  /** The range is not one of user addresses. */
  predicate OutOfRange(va: nat, n: nat) {
    va >= USER_CEILING || va + n > USER_CEILING
  }

  type Frames = map<nat, seq<Byte>>

  /** Pages of one address space that may be accessed, and the frames behind them. */
  type Translation = map<nat, nat>

  ghost predicate FramesOk(mem: Frames) {
    forall f :: f in mem ==> |mem[f]| == PAGE_SIZE
  }

  ghost predicate Backed(tr: Translation, mem: Frames) {
    forall p :: p in tr ==> tr[p] in mem
  }

  /** No two destination pages share a frame, and none shares one with a source page. */
  ghost predicate Apart(src: Translation, dst: Translation) {
    && (forall p, q :: p in dst && q in dst && dst[p] == dst[q] ==> p == q)
    && (forall p, q :: p in dst && q in src ==> dst[p] != src[q])
  }

  function PageOf(va: nat): nat {
    va / PAGE_SIZE
  }

  function OffsetOf(va: nat): (o: nat)
    ensures o < PAGE_SIZE
  {
    va % PAGE_SIZE
  }

  /** The byte at a virtual address. */
  function Load(mem: Frames, tr: Translation, va: nat): Option<Byte> {
    var p := PageOf(va);
    if p in tr && tr[p] in mem && OffsetOf(va) < |mem[tr[p]]| then Some(mem[tr[p]][OffsetOf(va)]) else None
  }

  /** The bytes of a virtual range copied one by one from what memory held at the start. */
  ghost predicate Copied(before: Frames, after: Frames, src: Translation, dst: Translation, dv: nat, sv: nat, n: nat) {
    && after.Keys == before.Keys
    && (forall f :: f in before && f !in dst.Values ==> after[f] == before[f])
    && (forall a: nat :: Load(after, dst, a) == if dv <= a < dv + n then Load(before, src, sv + (a - dv))
        else Load(before, dst, a))
  }

  class PhysicalMemory {
    var mem: Frames

    method Memcpy(toFrame: nat, toOffset: nat, fromFrame: nat, fromOffset: nat, n: nat)
      requires FramesOk(mem) && toFrame in mem && fromFrame in mem && toOffset + n <= PAGE_SIZE
               && fromOffset + n <= PAGE_SIZE
      modifies this
      ensures FramesOk(mem) && toFrame in old(mem) && fromFrame in old(mem)
      ensures |old(mem)[fromFrame]| == PAGE_SIZE == |old(mem)[toFrame]|
      ensures mem == old(mem)[toFrame := Patch(old(mem)[toFrame], toOffset,
                                               old(mem)[fromFrame][fromOffset..fromOffset + n])]
    {
      mem := mem[toFrame := Patch(mem[toFrame], toOffset, mem[fromFrame][fromOffset..fromOffset + n])];
    }

    /**
      ipcopy: the chunks that stop at page ends on either side add up to a byte-wise
      copy, for any pair of misalignments. It stops early only at a page that is not
      mapped, and `done` says how far it came.
     */
    method IpCopy(dst: Translation, src: Translation, dvaddr: nat, svaddr: nat, size: nat) returns (ok: bool, done: nat)
      requires FramesOk(mem) && Backed(dst, mem) && Backed(src, mem) && Apart(src, dst)
      modifies this
      ensures FramesOk(mem) && done <= size
      ensures Copied(old(mem), mem, src, dst, dvaddr, svaddr, done)
      ensures ok ==> done == size && !OutOfRange(dvaddr, size) && !OutOfRange(svaddr, size)
      ensures Reached(src, svaddr, done) && Reached(dst, dvaddr, done)
      ensures OutOfRange(dvaddr, size) || OutOfRange(svaddr, size) ==> !ok && done == 0
      ensures !ok ==> || OutOfRange(dvaddr, size) || OutOfRange(svaddr, size)
                      || (done < size && (PageOf(svaddr + done) !in src || PageOf(dvaddr + done) !in dst))
    {
      hide Copied, Load, Reached, PageOf, OffsetOf, Patch, FramesOk, Apart;
      CopiedNothing(mem, src, dst, dvaddr, svaddr);
      NothingReached(src, svaddr);
      NothingReached(dst, dvaddr);
      done := 0;
      if dvaddr >= USER_CEILING || USER_CEILING - dvaddr < size || svaddr >= USER_CEILING
        || USER_CEILING - svaddr < size {
        return false, 0;
      }
      var remaining := size;
      var dv, sv := dvaddr, svaddr;
      var srcLeft, dstLeft := 0, 0;
      var skFrame, skOffset, dkFrame, dkOffset := 0, 0, 0, 0;
      while remaining > 0
        invariant remaining >= 0 && done + remaining == size && dv == dvaddr + done && sv == svaddr + done
        invariant FramesOk(mem) && mem.Keys == old(mem).Keys
        invariant Reached(src, svaddr, done) && Reached(dst, dvaddr, done)
        invariant Copied(old(mem), mem, src, dst, dvaddr, svaddr, done)
        invariant srcLeft != 0 ==> PageOf(sv) in src && skFrame == src[PageOf(sv)] && skOffset == OffsetOf(sv)
        invariant dstLeft != 0 ==> PageOf(dv) in dst && dkFrame == dst[PageOf(dv)] && dkOffset == OffsetOf(dv)
        decreases remaining
      {
        if srcLeft == 0 {
          if PageOf(sv) !in src {
            return false, done;
          }
          skFrame, skOffset := src[PageOf(sv)], OffsetOf(sv);
        }
        if dstLeft == 0 {
          if PageOf(dv) !in dst {
            return false, done;
          }
          dkFrame, dkOffset := dst[PageOf(dv)], OffsetOf(dv);
        }
        srcLeft := PAGE_SIZE - OffsetOf(sv);
        dstLeft := PAGE_SIZE - OffsetOf(dv);
        var chunk := PAGE_SIZE;
        if remaining < chunk { chunk := remaining; }
        if srcLeft < chunk { chunk := srcLeft; }
        if dstLeft < chunk { chunk := dstLeft; }
        ghost var before := mem;
        Memcpy(dkFrame, dkOffset, skFrame, skOffset, chunk);
        CopyChunk(old(mem), before, mem, src, dst, dvaddr, svaddr, done, chunk);
        ReachChunk(src, svaddr, done, chunk);
        ReachChunk(dst, dvaddr, done, chunk);
        SamePage(sv, chunk);
        SamePage(dv, chunk);
        sv, dv := sv + chunk, dv + chunk;
        skOffset, dkOffset := skOffset + chunk, dkOffset + chunk;
        remaining, done := remaining - chunk, done + chunk;
        srcLeft, dstLeft := srcLeft - chunk, dstLeft - chunk;
      }
      ok := true;
    }
  }

  /** Every page of the first n bytes is mapped. */
  ghost predicate Reached(tr: Translation, va: nat, n: nat) {
    forall a: nat :: va <= a < va + n ==> PageOf(a) in tr
  }

  lemma NothingReached(tr: Translation, va: nat)
    ensures Reached(tr, va, 0)
  {
  }

  lemma ReachChunk(tr: Translation, va: nat, done: nat, chunk: nat)
    requires Reached(tr, va, done) && PageOf(va + done) in tr && OffsetOf(va + done) + chunk <= PAGE_SIZE
    ensures Reached(tr, va, done + chunk)
  {
    forall a: nat | va <= a < va + (done + chunk)
      ensures PageOf(a) in tr
    {
      if a >= va + done {
        SamePage(va + done, a - (va + done));
      }
    }
  }

  lemma CopiedNothing(mem: Frames, src: Translation, dst: Translation, dv: nat, sv: nat)
    ensures Copied(mem, mem, src, dst, dv, sv, 0)
  {
  }

  /** An address that stays below the end of its page stays in it. */
  lemma SamePage(va: nat, n: nat)
    ensures OffsetOf(va) + n < PAGE_SIZE ==> PageOf(va + n) == PageOf(va) && OffsetOf(va + n) == OffsetOf(va) + n
  {
  }

  lemma PageAndOffset(x: nat, y: nat)
    requires PageOf(y) == PageOf(x)
    ensures y - x == OffsetOf(y) - OffsetOf(x)
  {
  }

  /** One chunk within one page on either side extends the copy. */
  lemma CopyChunk(start: Frames, before: Frames, after: Frames, src: Translation, dst: Translation, dv: nat, sv: nat,
                  done: nat, chunk: nat)
    requires FramesOk(before) && Backed(dst, before) && Backed(src, before) && Apart(src, dst)
    requires Copied(start, before, src, dst, dv, sv, done)
    requires var s, d := sv + done, dv + done;
             && PageOf(s) in src && PageOf(d) in dst
             && OffsetOf(s) + chunk <= PAGE_SIZE && OffsetOf(d) + chunk <= PAGE_SIZE
             && var sf, df := src[PageOf(s)], dst[PageOf(d)];
                after == before[df := Patch(before[df], OffsetOf(d), before[sf][OffsetOf(s)..OffsetOf(s) + chunk])]
    ensures Copied(start, after, src, dst, dv, sv, done + chunk)
  {
    var s, d := sv + done, dv + done;
    var df := dst[PageOf(d)];
    assert PageOf(d) in dst.Keys && df in dst.Values;
    forall a: nat
      ensures Load(after, dst, a) == if dv <= a < dv + (done + chunk) then Load(start, src, sv + (a - dv))
              else Load(start, dst, a)
    {
      ChunkByte(before, after, src, dst, d, s, chunk, a);
      assert Load(before, dst, a) == if dv <= a < dv + done then Load(start, src, sv + (a - dv))
             else Load(start, dst, a);
      if d <= a < d + chunk {
        SourceKept(start, before, src, dst, sv + (a - dv));
      }
    }
  }

  lemma SourceKept(start: Frames, before: Frames, src: Translation, dst: Translation, a: nat)
    requires Apart(src, dst) && before.Keys == start.Keys
    requires forall f :: f in start && f !in dst.Values ==> before[f] == start[f]
    ensures Load(before, src, a) == Load(start, src, a)
  {
    if PageOf(a) in src {
      var f := src[PageOf(a)];
      assert f !in dst.Values;
    }
  }

  lemma ChunkByte(before: Frames, after: Frames, src: Translation, dst: Translation, d: nat, s: nat, chunk: nat, a: nat)
    requires FramesOk(before) && Backed(dst, before) && Backed(src, before) && Apart(src, dst)
    requires PageOf(s) in src && PageOf(d) in dst
    requires OffsetOf(s) + chunk <= PAGE_SIZE && OffsetOf(d) + chunk <= PAGE_SIZE
    requires var sf, df := src[PageOf(s)], dst[PageOf(d)];
             after == before[df := Patch(before[df], OffsetOf(d), before[sf][OffsetOf(s)..OffsetOf(s) + chunk])]
    ensures Load(after, dst, a) == if d <= a < d + chunk then Load(before, src, s + (a - d)) else Load(before, dst, a)
  {
    if d <= a < d + chunk {
      SamePage(d, a - d);
      SamePage(s, a - d);
    } else if PageOf(a) == PageOf(d) {
      PageAndOffset(d, a);
    }
  }
}
