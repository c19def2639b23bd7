/**
  Reading and writing regular files through the page cache: fs/file.c over bread,
  bread_zero and bwrite of fs/cache.c.

  The file server is honest: it stores a flat sequence of bytes and fills holes with
  zeros.  Pages may be evicted from the cache at any time between two uses.
 */
module FileIo {

  type Bytes = seq<bv8>

  const PAGE_SIZE: nat := 4096

  function Zeros(n: nat): (z: Bytes)
    ensures |z| == n
  {
    seq(n, _ => 0)
  }

  // ---------------------------------------------------------------------
  // The flat file
  // ---------------------------------------------------------------------

  function FlatRead(file: Bytes, offset: nat, n: nat): Bytes {
    if offset >= |file| then []
    else if offset + n <= |file| then file[offset..offset + n]
    else file[offset..]
  }

  /** The file with a hole up to `offset` filled with zeros. */
  function Extended(file: Bytes, offset: nat): (r: Bytes)
    ensures |r| == if offset > |file| then offset else |file|
  {
    if offset > |file| then file + Zeros(offset - |file|) else file
  }

  /** Writing nothing changes nothing; otherwise the bytes replace what was there, past any hole. */
  function FlatWrite(file: Bytes, offset: nat, data: Bytes): (r: Bytes)
    ensures data != [] ==> |r| == if offset + |data| > |file| then offset + |data| else |file|
  {
    if data == [] then file
    else
      var f := Extended(file, offset);
      if offset + |data| <= |f| then f[..offset] + data + f[offset + |data|..] else f[..offset] + data
  }

  function Byte(file: Bytes, i: nat): bv8 {
    if i < |file| then file[i] else 0
  }

  /** A write, byte by byte: its own range holds the data, every other byte is as before. */
  lemma FlatWriteAt(file: Bytes, offset: nat, data: Bytes, i: nat)
    ensures Byte(FlatWrite(file, offset, data), i) ==
            if offset <= i < offset + |data| then data[i - offset] else Byte(file, i)
  {
  }

  /** Files are determined by their length and bytes. */
  lemma SameFile(f: Bytes, g: Bytes)
    requires |f| == |g| && forall i: nat :: Byte(f, i) == Byte(g, i)
    ensures f == g
  {
    forall i | 0 <= i < |f|
      ensures f[i] == g[i]
    {
      assert Byte(f, i) == Byte(g, i);
    }
  }

  /** Two adjacent writes are one. */
  lemma FlatWriteJoin(file: Bytes, offset: nat, a: Bytes, b: Bytes)
    ensures FlatWrite(FlatWrite(file, offset, a), offset + |a|, b) == FlatWrite(file, offset, a + b)
  {
    if a == [] {
      assert a + b == b;
    } else if b == [] {
      assert a + b == a;
    } else {
      var x, y := FlatWrite(FlatWrite(file, offset, a), offset + |a|, b), FlatWrite(file, offset, a + b);
      forall i: nat
        ensures Byte(x, i) == Byte(y, i)
      {
        FlatWriteAt(file, offset, a, i);
        FlatWriteAt(FlatWrite(file, offset, a), offset + |a|, b, i);
        FlatWriteAt(file, offset, a + b, i);
      }
      SameFile(x, y);
    }
  }

  /** What is read back is what was written. */
  lemma ReadAfterWrite(file: Bytes, offset: nat, data: Bytes)
    ensures FlatRead(FlatWrite(file, offset, data), offset, |data|) == data
  {
    if data != [] {
      var f := FlatWrite(file, offset, data);
      forall i | 0 <= i < |data|
        ensures f[offset + i] == data[i]
      {
        FlatWriteAt(file, offset, data, offset + i);
      }
    }
  }

  // ---------------------------------------------------------------------
  // Pages
  // ---------------------------------------------------------------------

  /** Block b of a file, zero-filled past the end. */
  function Block(file: Bytes, b: nat): (r: Bytes)
    ensures |r| == PAGE_SIZE
    ensures forall i :: 0 <= i < PAGE_SIZE ==> r[i] == Byte(file, b * PAGE_SIZE + i)
  {
    seq(PAGE_SIZE, i requires 0 <= i < PAGE_SIZE => Byte(file, b * PAGE_SIZE + i))
  }

  /** A page with some bytes overwritten. */
  function Splice(page: Bytes, at: nat, data: Bytes): (r: Bytes)
    requires |page| == PAGE_SIZE && at + |data| <= PAGE_SIZE
    ensures |r| == PAGE_SIZE
    ensures forall i :: 0 <= i < PAGE_SIZE ==> r[i] == if at <= i < at + |data| then data[i - at] else page[i]
  {
    page[..at] + data + page[at + |data|..]
  }

  /** The core of write-through: sending the front of the spliced page is writing the chunk itself. */
  lemma PageWrite(file: Bytes, b: nat, at: nat, chunk: Bytes, n: nat)
    requires at + |chunk| <= PAGE_SIZE && chunk != []
    requires var size := if b * PAGE_SIZE + at + |chunk| > |file| then b * PAGE_SIZE + at + |chunk| else |file|;
             n == if size - b * PAGE_SIZE < PAGE_SIZE then size - b * PAGE_SIZE else PAGE_SIZE
    ensures FlatWrite(file, b * PAGE_SIZE, Splice(Block(file, b), at, chunk)[..n]) ==
            FlatWrite(file, b * PAGE_SIZE + at, chunk)
  {
    hide FlatWrite, Splice, Block, Byte;
    var base := b * PAGE_SIZE;
    var page := Splice(Block(file, b), at, chunk);
    var x, y := FlatWrite(file, base, page[..n]), FlatWrite(file, base + at, chunk);
    forall i: nat
      ensures Byte(x, i) == Byte(y, i)
    {
      PageWriteByte(file, b, base, at, chunk, n, i);
    }
    SameFile(x, y);
  }

  lemma PageWriteByte(file: Bytes, b: nat, base: nat, at: nat, chunk: Bytes, n: nat, i: nat)
    requires base == b * PAGE_SIZE && at + |chunk| <= PAGE_SIZE && n <= PAGE_SIZE && at + |chunk| <= n
    ensures Byte(FlatWrite(file, base, Splice(Block(file, b), at, chunk)[..n]), i) ==
            Byte(FlatWrite(file, base + at, chunk), i)
  {
    hide FlatWrite;
    var page := Splice(Block(file, b), at, chunk);
    FlatWriteAt(file, base, page[..n], i);
    FlatWriteAt(file, base + at, chunk, i);
    if base <= i < base + n {
      assert Block(file, b)[i - base] == Byte(file, b * PAGE_SIZE + (i - base));
    }
  }

  /** After a write, its own block is the spliced one and every other block is unchanged. */
  lemma BlockAfterWrite(file: Bytes, b: nat, at: nat, chunk: Bytes, c: nat)
    requires at + |chunk| <= PAGE_SIZE
    ensures Block(FlatWrite(file, b * PAGE_SIZE + at, chunk), c) ==
            if c == b then Splice(Block(file, b), at, chunk) else Block(file, c)
  {
    var f := FlatWrite(file, b * PAGE_SIZE + at, chunk);
    forall i | 0 <= i < PAGE_SIZE
      ensures Block(f, c)[i] == (if c == b then Splice(Block(file, b), at, chunk) else Block(file, c))[i]
    {
      FlatWriteAt(file, b * PAGE_SIZE + at, chunk, c * PAGE_SIZE + i);
      if c < b {
        assert c * PAGE_SIZE + i < b * PAGE_SIZE;
      } else if c > b {
        assert c * PAGE_SIZE >= b * PAGE_SIZE + PAGE_SIZE;
      }
    }
  }

  // ---------------------------------------------------------------------
  // fs/file.c over fs/cache.c
  // ---------------------------------------------------------------------

  /** One regular file: what its server stores, vnode->size, and the valid, non-busy pages cached for it. */
  class CachedFile {
    var server: Bytes
    var size: nat
    var cache: map<nat, Bytes>

    /** Write-through coherence: the cache repeats the server, zero-filled past the end of the file. */
    ghost predicate Coherent()
      reads this
    {
      size == |server| && forall b :: b in cache ==> b * PAGE_SIZE < size && cache[b] == Block(server, b)
    }

    constructor (content: Bytes)
      ensures Coherent() && server == content
    {
      server, size, cache := content, |content|, map[];
    }

    /** Other users of the cache may recycle any of the file's pages. */
    method Evict()
      requires Coherent()
      modifies this`cache
      ensures Coherent()
    {
      var victims: set<nat> :| victims <= cache.Keys;
      cache := cache - victims;
    }

    /** bread: a cached page, or the block as read from the server.  The page is busy until released,
        so it leaves the map meanwhile. */
    method Bread(b: nat) returns (page: Bytes)
      requires Coherent() && b * PAGE_SIZE < size
      modifies this`cache
      ensures Coherent() && page == Block(server, b) && b !in cache
    {
      Evict();
      if b in cache {
        page := cache[b];
      } else {
        page := VfsRead(b * PAGE_SIZE);
        if |page| < PAGE_SIZE {
          page := page + Zeros(PAGE_SIZE - |page|);
        }
        forall i | 0 <= i < PAGE_SIZE
          ensures page[i] == Block(server, b)[i]
        {
          assert Byte(server, b * PAGE_SIZE + i) == page[i];
        }
      }
      cache := cache - {b};
    }

    /** vfs_read of one page: as many bytes as the file still has. */
    method VfsRead(offset: nat) returns (data: Bytes)
      requires offset < |server|
      ensures data == FlatRead(server, offset, PAGE_SIZE) && 0 < |data| <= PAGE_SIZE
    {
      data := if offset + PAGE_SIZE <= |server| then server[offset..offset + PAGE_SIZE] else server[offset..];
    }

    /** bread_zero: a zeroed page for a block past the end of the file. */
    method BreadZero(b: nat) returns (page: Bytes)
      requires Coherent() && size <= b * PAGE_SIZE
      modifies this`cache
      ensures Coherent() && page == Block(server, b) && b !in cache
    {
      Evict();
      page := Zeros(PAGE_SIZE);
      cache := cache - {b};
      forall i | 0 <= i < PAGE_SIZE
        ensures page[i] == Block(server, b)[i]
      {
        assert Byte(server, b * PAGE_SIZE + i) == 0;
      }
    }

    /** brelse: the page is available, and evictable, again. */
    method Brelse(b: nat, page: Bytes)
      requires Coherent() && b * PAGE_SIZE < size && page == Block(server, b)
      modifies this`cache
      ensures Coherent()
    {
      cache := cache[b := page];
    }

    /** bwrite: send the part of the page that lies inside the file, then release it. */
    method Bwrite(b: nat, page: Bytes, ghost at: nat, ghost chunk: Bytes)
      requires b !in cache && |server| <= size && (forall c :: c in cache ==>
                                                   c * PAGE_SIZE < |server| && cache[c] == Block(server, c))
      requires at + |chunk| <= PAGE_SIZE && chunk != [] && page == Splice(Block(server, b), at, chunk)
      requires size == if b * PAGE_SIZE + at + |chunk| > |server| then b * PAGE_SIZE + at + |chunk| else |server|
      modifies this`server, this`cache
      ensures Coherent() && server == FlatWrite(old(server), b * PAGE_SIZE + at, chunk)
    {
      var n := if size - b * PAGE_SIZE < PAGE_SIZE then size % PAGE_SIZE else PAGE_SIZE;
      LastPage(size, b);
      PageWrite(server, b, at, chunk, n);
      server := FlatWrite(server, b * PAGE_SIZE, page[..n]);
      forall c | c in cache || c == b
        ensures c * PAGE_SIZE < size
        ensures Block(server, c) == if c == b then page else cache[c]
      {
        BlockAfterWrite(old(server), b, at, chunk, c);
      }
      Brelse(b, page);
    }

    /** read_from_file. */
    method ReadFromFile(offset0: nat, sz: nat) returns (data: Bytes, offset: nat)
      requires Coherent()
      modifies this`cache
      ensures Coherent()
      ensures data == FlatRead(server, offset0, sz) && offset == offset0 + |data|
    {
      hide Block;
      data, offset := [], offset0;
      if offset >= size {
        return;
      }
      var toRead := if size - offset < sz then size - offset else sz;
      while |data| < toRead
        invariant Coherent() && |data| <= toRead && offset == offset0 + |data|
        invariant data == server[offset0..offset]
        decreases toRead - |data|
      {
        var left, inPage := toRead - |data|, PAGE_SIZE - offset % PAGE_SIZE;
        var n := if left < inPage then left else inPage;
        var chunk := ReadChunk(offset, n);
        data := data + chunk;
        assert server[offset0..offset] + server[offset..offset + n] == server[offset0..offset + n];
        offset := offset + n;
      }
    }

    /** The body of read_from_file's loop: part of one page. */
    method ReadChunk(offset: nat, n: nat) returns (chunk: Bytes)
      requires Coherent() && 0 < n && offset + n <= |server| && offset % PAGE_SIZE + n <= PAGE_SIZE
      modifies this`cache
      ensures Coherent() && chunk == server[offset..offset + n]
    {
      hide Block;
      var b, at := offset / PAGE_SIZE, offset % PAGE_SIZE;
      var page := Bread(b);
      BlockSlice(server, offset, n);
      chunk := page[at..at + n];
      Brelse(b, page);
    }

    /** The body of write_to_file's loop: fetch the page, copy the bytes in, update the size, write through. */
    method WriteChunk(b: nat, at: nat, chunk: Bytes)
      requires Coherent() && at + |chunk| <= PAGE_SIZE && chunk != []
      modifies this
      ensures Coherent() && server == FlatWrite(old(server), b * PAGE_SIZE + at, chunk)
    {
      var page;
      if b * PAGE_SIZE < size {
        page := Bread(b);
      } else {
        page := BreadZero(b);
      }
      page := Splice(page, at, chunk);
      if b * PAGE_SIZE + at + |chunk| > size {
        size := b * PAGE_SIZE + at + |chunk|;
      }
      Bwrite(b, page, at, chunk);
    }

    /** write_to_file. */
    method WriteToFile(src: Bytes, offset0: nat) returns (written: nat, offset: nat)
      requires Coherent()
      modifies this
      ensures Coherent()
      ensures server == FlatWrite(old(server), offset0, src) && written == |src| && offset == offset0 + |src|
    {
      hide Coherent, FlatWrite;
      written, offset := 0, offset0;
      FlatWriteNothing(server, offset0);
      while written < |src|
        invariant Coherent() && written <= |src| && offset == offset0 + written
        invariant server == FlatWrite(old(server), offset0, src[..written])
        decreases |src| - written
      {
        var b, at := offset / PAGE_SIZE, offset % PAGE_SIZE;
        var left, inPage := |src| - written, PAGE_SIZE - at;
        var n := if left < inPage then left else inPage;
        var chunk := src[written..written + n];
        FlatWriteJoin(old(server), offset0, src[..written], chunk);
        assert src[..written] + chunk == src[..written + n];
        WriteChunk(b, at, chunk);
        offset, written := offset + n, written + n;
      }
      assert src[..|src|] == src;
    }
  }

  lemma FlatWriteNothing(file: Bytes, offset: nat)
    ensures FlatWrite(file, offset, []) == file
  {
  }

  lemma BlockSlice(file: Bytes, offset: nat, n: nat)
    requires offset + n <= |file| && offset % PAGE_SIZE + n <= PAGE_SIZE
    ensures Block(file, offset / PAGE_SIZE)[offset % PAGE_SIZE..offset % PAGE_SIZE + n] == file[offset..offset + n]
  {
    var b, at := offset / PAGE_SIZE, offset % PAGE_SIZE;
    assert b * PAGE_SIZE + at == offset;
    var x, y := Block(file, b)[at..at + n], file[offset..offset + n];
    forall i | 0 <= i < n
      ensures x[i] == y[i]
    {
      assert x[i] == Byte(file, b * PAGE_SIZE + (at + i));
    }
  }

  /** The byte count bwrite computes with `%` is the part of the page inside the file. */
  lemma LastPage(size: nat, b: nat)
    requires b * PAGE_SIZE < size
    ensures size - b * PAGE_SIZE < PAGE_SIZE ==> size % PAGE_SIZE == size - b * PAGE_SIZE
  {
  }
}
