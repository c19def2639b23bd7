/**
  Bob Jenkins' lookup3 hash: include/kernel/hash.h and utility/lookup3.c.
 */
module Lookup3 {

  const WORD: nat := 0x1_0000_0000

  /** A uint32_t. */
  type Word = x: int | 0 <= x < WORD

  /** The three mixing registers. */
  datatype Abc = Abc(a: Word, b: Word, c: Word)

  // ---------------------------------------------------------------------
  // 32-bit arithmetic
  // ---------------------------------------------------------------------

  function Add(x: Word, y: Word): Word { (x + y) % WORD }

  function Sub(x: Word, y: Word): Word { (x - y) % WORD }

  function Pow2(n: nat): (p: nat)
    ensures p > 0
  {
    if n == 0 then 1 else 2 * Pow2(n - 1)
  }

  /** Exclusive or, bit by bit. */
  function XorBits(x: nat, y: nat, n: nat): (r: nat)
    ensures r < Pow2(n)
  {
    if n == 0 then 0 else 2 * XorBits(x / 2, y / 2, n - 1) + (x + y) % 2
  }

  lemma Pow32()
    ensures Pow2(32) == WORD
  {
    assert Pow2(8) == 256 by {
      assert Pow2(4) == 16;
    }
    PowAdd(8, 8);
    PowAdd(16, 16);
  }

  lemma {:induction false} PowAdd(m: nat, n: nat)
    ensures Pow2(m + n) == Pow2(m) * Pow2(n)
  {
    if m > 0 {
      PowAdd(m - 1, n);
    }
  }

  function Xor(x: Word, y: Word): Word {
    Pow32();
    XorBits(x, y, 32)
  }

  /** The shift counts the macros use. */
  type Shift = k: nat | 0 < k < 32 witness 1

  /** rot(x, k): (x << k) | (x >> (32 - k)); the two halves have no bit in common. */
  function Rot(x: Word, k: Shift): Word {
    (x * Pow2(k) + x / Pow2(32 - k)) % WORD
  }

  /** x -= z;  x ^= rot(z, k);  z += y;  the line of which hash_mix has six. */
  function Line(x: Word, y: Word, z: Word, k: Shift): (Word, Word) {
    (Xor(Sub(x, z), Rot(z, k)), Add(z, y))
  }

  function UnLine(x: Word, y: Word, z: Word, k: Shift): (Word, Word) {
    (Add(Xor(x, Rot(Sub(z, y), k)), Sub(z, y)), Sub(z, y))
  }

  /** hash_mix. */
  function Mix(s: Abc): Abc {
    var (a, c) := Line(s.a, s.b, s.c, 4);
    var (b, a) := Line(s.b, c, a, 6);
    var (c, b) := Line(c, a, b, 8);
    var (a, c) := Line(a, b, c, 16);
    var (b, a) := Line(b, c, a, 19);
    var (c, b) := Line(c, a, b, 4);
    Abc(a, b, c)
  }

  /** The same six lines undone, last first. */
  function UnMix(s: Abc): Abc {
    var (c, b) := UnLine(s.c, s.a, s.b, 4);
    var (b, a) := UnLine(b, c, s.a, 19);
    var (a, c) := UnLine(a, b, c, 16);
    var (c, b) := UnLine(c, a, b, 8);
    var (b, a) := UnLine(b, c, a, 6);
    var (a, c) := UnLine(a, b, c, 4);
    Abc(a, b, c)
  }

  /** x ^= y;  x -= rot(y, k);  the line of which hash_final has seven. */
  function FinalLine(x: Word, y: Word, k: Shift): Word {
    Sub(Xor(x, y), Rot(y, k))
  }

  function UnFinalLine(x: Word, y: Word, k: Shift): Word {
    Xor(Add(x, Rot(y, k)), y)
  }

  /** hash_final. */
  function Final(s: Abc): Abc {
    var c := FinalLine(s.c, s.b, 14);
    var a := FinalLine(s.a, c, 11);
    var b := FinalLine(s.b, a, 25);
    var c := FinalLine(c, b, 16);
    var a := FinalLine(a, c, 4);
    var b := FinalLine(b, a, 14);
    var c := FinalLine(c, b, 24);
    Abc(a, b, c)
  }

  function UnFinal(s: Abc): Abc {
    var c := UnFinalLine(s.c, s.b, 24);
    var b := UnFinalLine(s.b, s.a, 14);
    var a := UnFinalLine(s.a, c, 4);
    var c := UnFinalLine(c, b, 16);
    var b := UnFinalLine(b, a, 25);
    var a := UnFinalLine(a, c, 11);
    var c := UnFinalLine(c, b, 14);
    Abc(a, b, c)
  }

  lemma LineUndone(x: Word, y: Word, z: Word, k: Shift)
    ensures var (x', z') := Line(x, y, z, k); UnLine(x', y, z', k) == (x, z)
    ensures var (x', z') := UnLine(x, y, z, k); Line(x', y, z', k) == (x, z)
  {
    hide Rot, Add, Sub, Xor;
    AddSub(z, y);
    XorTwice(Sub(x, z), Rot(z, k));
    SubAdd(x, z);
    AddSub(Xor(x, Rot(Sub(z, y), k)), Sub(z, y));
    XorTwice(x, Rot(Sub(z, y), k));
    SubAdd(z, y);
  }

  lemma XorTwice(x: Word, r: Word)
    ensures Xor(Xor(x, r), r) == x
  {
    Pow32();
    XorBitsTwice(x, r, 32);
  }

  lemma {:induction false} XorBitsTwice(x: nat, r: nat, n: nat)
    requires x < Pow2(n)
    ensures XorBits(XorBits(x, r, n), r, n) == x
  {
    if n > 0 {
      XorBitsTwice(x / 2, r / 2, n - 1);
      var h := XorBits(x / 2, r / 2, n - 1);
      var y := XorBits(x, r, n);
      Halves(h, (x + r) % 2);
      assert y == 2 * h + (x + r) % 2 && y / 2 == h;
      Parity(h, x, r);
      assert XorBits(y, r, n) == 2 * XorBits(h, r / 2, n - 1) + (y + r) % 2;
    }
  }

  lemma Halves(h: nat, e: nat)
    requires e < 2
    ensures (2 * h + e) / 2 == h && (2 * h + e) % 2 == e
  {
  }

  lemma Parity(h: nat, x: nat, r: nat)
    ensures (2 * h + (x + r) % 2 + r) % 2 == x % 2
  {
  }

  lemma AddSub(x: Word, y: Word)
    ensures Sub(Add(x, y), y) == x
  {
  }

  lemma SubAdd(x: Word, y: Word)
    ensures Add(Sub(x, y), y) == x
  {
  }

  /** hash_mix is reversible, in both directions: no information in (a, b, c) is lost. */
  lemma MixIsReversible(s: Abc)
    ensures UnMix(Mix(s)) == s
    ensures Mix(UnMix(s)) == s
  {
    MixUndone(s);
    UnMixUndone(s);
  }

  lemma MixUndone(s: Abc)
    ensures UnMix(Mix(s)) == s
  {
    hide Line, UnLine;
    var (a1, c1) := Line(s.a, s.b, s.c, 4);
    var (b2, a2) := Line(s.b, c1, a1, 6);
    var (c3, b3) := Line(c1, a2, b2, 8);
    var (a4, c4) := Line(a2, b3, c3, 16);
    var (b5, a5) := Line(b3, c4, a4, 19);
    var (c6, b6) := Line(c4, a5, b5, 4);
    LineUndone(c4, a5, b5, 4);
    LineUndone(b3, c4, a4, 19);
    LineUndone(a2, b3, c3, 16);
    LineUndone(c1, a2, b2, 8);
    LineUndone(s.b, c1, a1, 6);
    LineUndone(s.a, s.b, s.c, 4);
  }

  lemma UnMixUndone(s: Abc)
    ensures Mix(UnMix(s)) == s
  {
    hide Line, UnLine;
    var (c1, b1) := UnLine(s.c, s.a, s.b, 4);
    var (b2, a2) := UnLine(b1, c1, s.a, 19);
    var (a3, c3) := UnLine(a2, b2, c1, 16);
    var (c4, b4) := UnLine(c3, a3, b2, 8);
    var (b5, a5) := UnLine(b4, c4, a3, 6);
    var (a6, c6) := UnLine(a5, b5, c4, 4);
    LineUndone(a5, b5, c4, 4);
    LineUndone(b4, c4, a3, 6);
    LineUndone(c3, a3, b2, 8);
    LineUndone(a2, b2, c1, 16);
    LineUndone(b1, c1, s.a, 19);
    LineUndone(s.c, s.a, s.b, 4);
  }

  lemma FinalLineUndone(x: Word, y: Word, k: Shift)
    ensures UnFinalLine(FinalLine(x, y, k), y, k) == x
  {
    hide Rot, Add, Sub, Xor;
    SubAdd(Xor(x, y), Rot(y, k));
    XorTwice(x, y);
  }

  /** So is hash_final. */
  lemma FinalIsReversible(s: Abc)
    ensures UnFinal(Final(s)) == s
  {
    hide FinalLine, UnFinalLine;
    var c1 := FinalLine(s.c, s.b, 14);
    var a1 := FinalLine(s.a, c1, 11);
    var b1 := FinalLine(s.b, a1, 25);
    var c2 := FinalLine(c1, b1, 16);
    var a2 := FinalLine(a1, c2, 4);
    var b2 := FinalLine(b1, a2, 14);
    FinalLineUndone(c2, b2, 24);
    FinalLineUndone(b1, a2, 14);
    FinalLineUndone(a1, c2, 4);
    FinalLineUndone(c1, b1, 16);
    FinalLineUndone(s.b, a1, 25);
    FinalLineUndone(s.a, c1, 11);
    FinalLineUndone(s.c, s.b, 14);
  }

  // ---------------------------------------------------------------------
  // The macros as rounds over a table of shift counts
  // ---------------------------------------------------------------------

  /** One line of hash_mix, after which the registers change names: what was a is c, and so on round. */
  function MixTurn(s: Abc, k: Shift): Abc {
    var (x, z) := Line(s.a, s.b, s.c, k);
    Abc(s.b, z, x)
  }

  function MixTurns(s: Abc, ks: seq<Shift>): Abc
    decreases |ks|
  {
    if ks == [] then s else MixTurns(MixTurn(s, ks[0]), ks[1..])
  }

  function FinalTurn(s: Abc, k: Shift): Abc {
    Abc(s.b, FinalLine(s.c, s.b, k), s.a)
  }

  function FinalTurns(s: Abc, ks: seq<Shift>): Abc
    decreases |ks|
  {
    if ks == [] then s else FinalTurns(FinalTurn(s, ks[0]), ks[1..])
  }

  /** hash_mix is six equal turns with shifts by 4, 6, 8, 16, 19 and 4. */
  lemma MixIsTurns(s: Abc)
    ensures Mix(s) == MixTurns(s, [4, 6, 8, 16, 19, 4])
  {
    hide Line;
    var t1 := MixTurn(s, 4);
    var t2 := MixTurn(t1, 6);
    var t3 := MixTurn(t2, 8);
    var t4 := MixTurn(t3, 16);
    var t5 := MixTurn(t4, 19);
    assert MixTurns(t5, [4]) == MixTurn(t5, 4);
    assert [19, 4][1..] == [4] && MixTurns(t4, [19, 4]) == MixTurn(t5, 4);
    assert [16, 19, 4][1..] == [19, 4] && MixTurns(t3, [16, 19, 4]) == MixTurn(t5, 4);
    assert [8, 16, 19, 4][1..] == [16, 19, 4] && MixTurns(t2, [8, 16, 19, 4]) == MixTurn(t5, 4);
    assert [6, 8, 16, 19, 4][1..] == [8, 16, 19, 4] && MixTurns(t1, [6, 8, 16, 19, 4]) == MixTurn(t5, 4);
    assert [4, 6, 8, 16, 19, 4][1..] == [6, 8, 16, 19, 4];
  }

  /** hash_final is seven equal turns with shifts by 14, 11, 25, 16, 4, 14 and 24; names have moved on by one. */
  lemma FinalIsTurns(s: Abc)
    ensures var t := FinalTurns(s, [14, 11, 25, 16, 4, 14, 24]); Final(s) == Abc(t.c, t.a, t.b)
  {
    hide FinalLine;
    var t1 := FinalTurn(s, 14);
    var t2 := FinalTurn(t1, 11);
    var t3 := FinalTurn(t2, 25);
    var t4 := FinalTurn(t3, 16);
    var t5 := FinalTurn(t4, 4);
    var t6 := FinalTurn(t5, 14);
    var t7 := FinalTurn(t6, 24);
    assert FinalTurns(t6, [24]) == t7;
    assert [14, 24][1..] == [24] && FinalTurns(t5, [14, 24]) == t7;
    assert [4, 14, 24][1..] == [14, 24] && FinalTurns(t4, [4, 14, 24]) == t7;
    assert [16, 4, 14, 24][1..] == [4, 14, 24] && FinalTurns(t3, [16, 4, 14, 24]) == t7;
    assert [25, 16, 4, 14, 24][1..] == [16, 4, 14, 24] && FinalTurns(t2, [25, 16, 4, 14, 24]) == t7;
    assert [11, 25, 16, 4, 14, 24][1..] == [25, 16, 4, 14, 24] && FinalTurns(t1, [11, 25, 16, 4, 14, 24]) == t7;
    assert [14, 11, 25, 16, 4, 14, 24][1..] == [11, 25, 16, 4, 14, 24];
  }

  // ---------------------------------------------------------------------
  // The hash of a key, one byte at a time
  // ---------------------------------------------------------------------

  type Byte = x: int | 0 <= x < 256

  function At(k: seq<Byte>, i: nat): Byte {
    if i < |k| then k[i] else 0
  }

  /** The little-endian word at i, with zeros past the end of the key. */
  function Part(k: seq<Byte>, i: nat): Word {
    At(k, i) + 0x100 * At(k, i + 1) + 0x1_0000 * At(k, i + 2) + 0x100_0000 * At(k, i + 3)
  }

  /** The registers with three words added in. */
  function Absorb(s: Abc, x: Word, y: Word, z: Word): Abc {
    Abc(Add(s.a, x), Add(s.b, y), Add(s.c, z))
  }

  function AbsorbBlock(s: Abc, k: seq<Byte>): Abc {
    Absorb(s, Part(k, 0), Part(k, 4), Part(k, 8))
  }

  /** All blocks of the key: twelve bytes a time, the last one zero-padded and finished with hash_final. */
  function Blocks(s: Abc, k: seq<Byte>): Abc
    decreases |k|
  {
    if |k| > 12 then Blocks(Mix(AbsorbBlock(s, k)), k[12..])
    else if k == [] then s
    else Final(AbsorbBlock(s, k))
  }

  const GOLDEN: Word := 0xdead_beef

  function Seed(length: nat, initval: Word): Word {
    Add(Add(GOLDEN, length % WORD), initval)
  }

  function HashLittle(k: seq<Byte>, initval: Word): Word {
    var s := Seed(|k|, initval);
    Blocks(Abc(s, s, s), k).c
  }

  /** The primary and secondary hash from two seeds. */
  function HashLittle2(k: seq<Byte>, pc: Word, pb: Word): (Word, Word) {
    var s := Seed(|k|, pc);
    var r := Blocks(Abc(s, s, Add(s, pb)), k);
    (r.c, r.b)
  }

  /** With a zero second seed the two-seed form gives the one-seed hash. */
  lemma ZeroSecondSeed(k: seq<Byte>, initval: Word)
    ensures HashLittle2(k, initval, 0).0 == HashLittle(k, initval)
  {
    assert Add(Seed(|k|, initval), 0) == Seed(|k|, initval);
  }

  /** The answers of the test driver for the empty key: the constant, and the seeds added to it. */
  lemma EmptyKeyAnswers()
    ensures HashLittle([], 0) == 0xdeadbeef
    ensures HashLittle2([], 0, 0) == (0xdeadbeef, 0xdeadbeef)
    ensures HashLittle2([], 0, 0xdeadbeef) == (0xbd5b7dde, 0xdeadbeef)
    ensures HashLittle2([], 0xdeadbeef, 0xdeadbeef) == (0x9c093ccd, 0xbd5b7dde)
  {
  }

  // ---------------------------------------------------------------------
  // The three ways of reading the key
  // ---------------------------------------------------------------------

  function Load16(m: seq<Byte>, i: nat): Word
    requires i + 2 <= |m|
  {
    At(m, i) + 0x100 * At(m, i + 1)
  }

  function Load32(m: seq<Byte>, i: nat): Word
    requires i + 4 <= |m|
  {
    At(m, i) + 0x100 * At(m, i + 1) + 0x1_0000 * At(m, i + 2) + 0x100_0000 * At(m, i + 3)
  }

  /** Memory that can be read word by word up to the word holding the last key byte. */
  predicate Readable(m: seq<Byte>, start: nat, length: nat, width: nat)
    requires width > 0
  {
    start + (length + width - 1) / width * width <= |m|
  }

  lemma AddTwice(x: Word, y: int, z: int)
    requires 0 <= y && 0 <= z && y + z < WORD
    ensures Add(Add(x, y), z) == Add(x, y + z)
  {
  }

  /** Masking a loaded word leaves the bytes that belong to the key. */
  lemma MaskedLoad(m: seq<Byte>, start: nat, length: nat, i: nat)
    requires start + length <= |m| && i < length && start + i + 4 <= |m|
    ensures length - i == 1 ==> Load32(m, start + i) % 0x100 == Part(m[start..start + length], i)
    ensures length - i == 2 ==> Load32(m, start + i) % 0x1_0000 == Part(m[start..start + length], i)
    ensures length - i == 3 ==> Load32(m, start + i) % 0x100_0000 == Part(m[start..start + length], i)
    ensures length - i >= 4 ==> Load32(m, start + i) == Part(m[start..start + length], i)
  {
  }

  lemma NoBytes(k: seq<Byte>, i: nat)
    requires |k| <= i
    ensures Part(k, i) == 0
  {
  }

  /** A block in the middle of the key, and what is left after it. */
  lemma FullBlock(m: seq<Byte>, start: nat, length: nat)
    requires start + length <= |m| && length > 12
    ensures var k := m[start..start + length];
            && Part(k, 0) == Load32(m, start) && Part(k, 4) == Load32(m, start + 4)
               && Part(k, 8) == Load32(m, start + 8)
            && k[12..] == m[start + 12..start + length]
  {
    MaskedLoad(m, start, length, 0);
    MaskedLoad(m, start, length, 4);
    MaskedLoad(m, start, length, 8);
  }

  /** The 32-bit path of hashlittle: masked word reads that may touch bytes past the key. */
  method HashWords32(m: seq<Byte>, start: nat, len: nat, s: Abc) returns (r: Abc)
    requires start + len <= |m| && Readable(m, start, len, 4)
    ensures r == Blocks(s, m[start..start + len])
  {
    hide Mix, Final, Load32, Part;
    var a, b, c := s.a, s.b, s.c;
    var k, length := start, len;
    while length > 12
      invariant k + length == start + len && Readable(m, k, length, 4)
      invariant Blocks(Abc(a, b, c), m[k..k + length]) == Blocks(s, m[start..start + len])
    {
      FullBlock(m, k, length);
      a, b, c := Add(a, Load32(m, k)), Add(b, Load32(m, k + 4)), Add(c, Load32(m, k + 8));
      var x := Mix(Abc(a, b, c));
      a, b, c := x.a, x.b, x.c;
      length, k := length - 12, k + 12;
    }
    ghost var key, s1 := m[k..k + length], Abc(a, b, c);
    if length == 0 {
      return Abc(a, b, c);
    }
    TailLoads(m, k, length);
    if length == 12 {
      c, b, a := Add(c, Load32(m, k + 8)), Add(b, Load32(m, k + 4)), Add(a, Load32(m, k));
    } else if length == 11 {
      c, b, a := Add(c, Load32(m, k + 8) % 0x100_0000), Add(b, Load32(m, k + 4)), Add(a, Load32(m, k));
    } else if length == 10 {
      c, b, a := Add(c, Load32(m, k + 8) % 0x1_0000), Add(b, Load32(m, k + 4)), Add(a, Load32(m, k));
    } else if length == 9 {
      c, b, a := Add(c, Load32(m, k + 8) % 0x100), Add(b, Load32(m, k + 4)), Add(a, Load32(m, k));
    } else if length == 8 {
      b, a := Add(b, Load32(m, k + 4)), Add(a, Load32(m, k));
    } else if length == 7 {
      b, a := Add(b, Load32(m, k + 4) % 0x100_0000), Add(a, Load32(m, k));
    } else if length == 6 {
      b, a := Add(b, Load32(m, k + 4) % 0x1_0000), Add(a, Load32(m, k));
    } else if length == 5 {
      b, a := Add(b, Load32(m, k + 4) % 0x100), Add(a, Load32(m, k));
    } else if length == 4 {
      a := Add(a, Load32(m, k));
    } else if length == 3 {
      a := Add(a, Load32(m, k) % 0x100_0000);
    } else if length == 2 {
      a := Add(a, Load32(m, k) % 0x1_0000);
    } else {
      a := Add(a, Load32(m, k) % 0x100);
    }
    assert Abc(a, b, c) == AbsorbBlock(s1, key);
    r := Final(Abc(a, b, c));
  }

  lemma TailLoads(m: seq<Byte>, k: nat, length: nat)
    requires 0 < length <= 12 && k + length <= |m| && Readable(m, k, length, 4)
    ensures var key := m[k..k + length];
            && |key| == length
            && (length >= 4 ==> Part(key, 0) == Load32(m, k))
            && (length >= 8 ==> Part(key, 4) == Load32(m, k + 4))
            && (length == 12 ==> Part(key, 8) == Load32(m, k + 8))
            && (length <= 4 ==> Part(key, 4) == 0) && (length <= 8 ==> Part(key, 8) == 0)
            && (length == 1 ==> Part(key, 0) == Load32(m, k) % 0x100)
            && (length == 2 ==> Part(key, 0) == Load32(m, k) % 0x1_0000)
            && (length == 3 ==> Part(key, 0) == Load32(m, k) % 0x100_0000)
            && (length == 5 ==> Part(key, 4) == Load32(m, k + 4) % 0x100)
            && (length == 6 ==> Part(key, 4) == Load32(m, k + 4) % 0x1_0000)
            && (length == 7 ==> Part(key, 4) == Load32(m, k + 4) % 0x100_0000)
            && (length == 9 ==> Part(key, 8) == Load32(m, k + 8) % 0x100)
            && (length == 10 ==> Part(key, 8) == Load32(m, k + 8) % 0x1_0000)
            && (length == 11 ==> Part(key, 8) == Load32(m, k + 8) % 0x100_0000)
  {
    hide Part, Load32;
    var key := m[k..k + length];
    MaskedLoad(m, k, length, 0);
    if length > 4 { MaskedLoad(m, k, length, 4); } else { NoBytes(key, 4); }
    if length > 8 { MaskedLoad(m, k, length, 8); } else { NoBytes(key, 8); }
  }

  /** The half-word at i shifted into the upper half of a word. */
  function High16(m: seq<Byte>, i: nat): Word
    requires i + 2 <= |m|
  {
    0x1_0000 * Load16(m, i)
  }

  /** Two half-word reads make the word that one word read makes. */
  lemma HalvesMakeWord(m: seq<Byte>, i: nat)
    requires i + 4 <= |m|
    ensures Load16(m, i) + High16(m, i + 2) == Load32(m, i)
  {
  }

  /** The last bytes of the key, read as a half-word and a byte at most. */
  lemma HalfTail(m: seq<Byte>, start: nat, length: nat, i: nat)
    requires start + length <= |m| && i < length
    ensures length - i == 1 ==> At(m, start + i) == Part(m[start..start + length], i)
    ensures length - i == 2 ==> Load16(m, start + i) == Part(m[start..start + length], i)
    ensures length - i == 3 ==> 0x1_0000 * At(m, start + i + 2) + Load16(m, start + i) ==
                                Part(m[start..start + length], i)
    ensures length - i >= 4 ==> Load16(m, start + i) + High16(m, start + i + 2) == Part(m[start..start + length], i)
  {
  }

  /** The last block of the 16-bit path. */
  method LastHalves(m: seq<Byte>, k: nat, length: nat, s: Abc) returns (r: Abc)
    requires 0 < length <= 12 && k + length <= |m|
    ensures r == AbsorbBlock(s, m[k..k + length])
  {
    hide Load16, Part, High16;
    var a, b, c := s.a, s.b, s.c;
    ghost var key := m[k..k + length];
    HalfTail(m, k, length, 0);
    if length > 4 { HalfTail(m, k, length, 4); } else { NoBytes(key, 4); }
    if length > 8 { HalfTail(m, k, length, 8); } else { NoBytes(key, 8); }
    if length == 12 {
      c := Add(c, Load16(m, k + 8) + High16(m, k + 10));
      b := Add(b, Load16(m, k + 4) + High16(m, k + 6));
      a := Add(a, Load16(m, k) + High16(m, k + 2));
    } else if length >= 10 {
      if length == 11 {
        c := Add(c, 0x1_0000 * At(m, k + 10));
        AddTwice(s.c, 0x1_0000 * At(m, k + 10), Load16(m, k + 8));
      }
      c := Add(c, Load16(m, k + 8));
      b := Add(b, Load16(m, k + 4) + High16(m, k + 6));
      a := Add(a, Load16(m, k) + High16(m, k + 2));
    } else if length >= 8 {
      if length == 9 {
        c := Add(c, At(m, k + 8));
      }
      b := Add(b, Load16(m, k + 4) + High16(m, k + 6));
      a := Add(a, Load16(m, k) + High16(m, k + 2));
    } else if length >= 6 {
      if length == 7 {
        b := Add(b, 0x1_0000 * At(m, k + 6));
        AddTwice(s.b, 0x1_0000 * At(m, k + 6), Load16(m, k + 4));
      }
      b := Add(b, Load16(m, k + 4));
      a := Add(a, Load16(m, k) + High16(m, k + 2));
    } else if length >= 4 {
      if length == 5 {
        b := Add(b, At(m, k + 4));
      }
      a := Add(a, Load16(m, k) + High16(m, k + 2));
    } else if length >= 2 {
      if length == 3 {
        a := Add(a, 0x1_0000 * At(m, k + 2));
        AddTwice(s.a, 0x1_0000 * At(m, k + 2), Load16(m, k));
      }
      a := Add(a, Load16(m, k));
    } else {
      a := Add(a, At(m, k));
    }
    r := Abc(a, b, c);
  }

  /** The 16-bit path of hashlittle, which reads no byte past the key. */
  method HashHalves(m: seq<Byte>, start: nat, len: nat, s: Abc) returns (r: Abc)
    requires start + len <= |m|
    ensures r == Blocks(s, m[start..start + len])
  {
    hide Mix, Final, Load16, High16, Load32, Part;
    var a, b, c := s.a, s.b, s.c;
    var k, length := start, len;
    while length > 12
      invariant k + length == start + len
      invariant Blocks(Abc(a, b, c), m[k..k + length]) == Blocks(s, m[start..start + len])
    {
      FullBlock(m, k, length);
      HalvesMakeWord(m, k);
      HalvesMakeWord(m, k + 4);
      HalvesMakeWord(m, k + 8);
      a := Add(a, Load16(m, k) + High16(m, k + 2));
      b := Add(b, Load16(m, k + 4) + High16(m, k + 6));
      c := Add(c, Load16(m, k + 8) + High16(m, k + 10));
      var x := Mix(Abc(a, b, c));
      a, b, c := x.a, x.b, x.c;
      length, k := length - 12, k + 12;
    }
    if length == 0 {
      return Abc(a, b, c);
    }
    var x := LastHalves(m, k, length, Abc(a, b, c));
    r := Final(x);
  }

  /** Four bytes added one at a time, in either order, add the word they spell. */
  lemma BytesMakeWord(x: Word, m: seq<Byte>, i: nat)
    requires i + 4 <= |m|
    ensures Add(Add(Add(Add(x, m[i]), 0x100 * At(m, i + 1)), 0x1_0000 * At(m, i + 2)), 0x100_0000 * At(m, i + 3))
         == Add(x, Load32(m, i))
  {
    AddTwice(x, m[i], 0x100 * At(m, i + 1));
    AddTwice(x, m[i] + 0x100 * At(m, i + 1), 0x1_0000 * At(m, i + 2));
    AddTwice(x, m[i] + 0x100 * At(m, i + 1) + 0x1_0000 * At(m, i + 2), 0x100_0000 * At(m, i + 3));
  }

  /** The fall-through cases that add what the last block has for one register, highest byte first. */
  method LastBytes(x: Word, m: seq<Byte>, k: nat, length: nat, i: nat) returns (y: Word)
    requires k + length <= |m|
    ensures y == Add(x, Part(m[k..k + length], i))
  {
    ghost var key := m[k..k + length];
    y := x;
    if length >= i + 4 {
      y := Add(y, 0x100_0000 * At(m, k + i + 3));
    }
    ghost var sum := 0x100_0000 * At(key, i + 3);
    assert y == Add(x, sum);
    if length >= i + 3 {
      AddTwice(x, sum, 0x1_0000 * At(m, k + i + 2));
      y := Add(y, 0x1_0000 * At(m, k + i + 2));
    }
    sum := sum + 0x1_0000 * At(key, i + 2);
    assert y == Add(x, sum);
    if length >= i + 2 {
      AddTwice(x, sum, 0x100 * At(m, k + i + 1));
      y := Add(y, 0x100 * At(m, k + i + 1));
    }
    sum := sum + 0x100 * At(key, i + 1);
    assert y == Add(x, sum);
    if length >= i + 1 {
      AddTwice(x, sum, At(m, k + i));
      y := Add(y, m[k + i]);
    }
  }

  /** The path that reads the key a byte at a time. */
  method HashBytes(m: seq<Byte>, start: nat, len: nat, s: Abc) returns (r: Abc)
    requires start + len <= |m|
    ensures r == Blocks(s, m[start..start + len])
  {
    hide Mix, Final, Load32, Part;
    var a, b, c := s.a, s.b, s.c;
    var k, length := start, len;
    while length > 12
      invariant k + length == start + len
      invariant Blocks(Abc(a, b, c), m[k..k + length]) == Blocks(s, m[start..start + len])
    {
      FullBlock(m, k, length);
      BytesMakeWord(a, m, k);
      BytesMakeWord(b, m, k + 4);
      BytesMakeWord(c, m, k + 8);
      a := Add(Add(Add(Add(a, m[k]), 0x100 * At(m, k + 1)), 0x1_0000 * At(m, k + 2)), 0x100_0000 * At(m, k + 3));
      b := Add(Add(Add(Add(b, m[k + 4]), 0x100 * At(m, k + 5)), 0x1_0000 * At(m, k + 6)), 0x100_0000 * At(m, k + 7));
      c := Add(Add(Add(Add(c, m[k + 8]), 0x100 * At(m, k + 9)), 0x1_0000 * At(m, k + 10)), 0x100_0000 * At(m, k + 11));
      var x := Mix(Abc(a, b, c));
      a, b, c := x.a, x.b, x.c;
      length, k := length - 12, k + 12;
    }
    if length == 0 {
      return Abc(a, b, c);
    }
    c := LastBytes(c, m, k, length, 8);
    b := LastBytes(b, m, k, length, 4);
    a := LastBytes(a, m, k, length, 0);
    r := Final(Abc(a, b, c));
  }

  /** hashlittle: the alignment of the key picks the path and never shows in the result. */
  method Hashlittle(m: seq<Byte>, key: nat, length: nat, initval: Word) returns (h: Word)
    requires key + length <= |m| && |m| % 4 == 0
    ensures h == HashLittle(m[key..key + length], initval)
  {
    hide Blocks;
    var s := Seed(length, initval);
    var r := HashAligned(m, key, length, Abc(s, s, s));
    h := r.c;
  }

  method Hashlittle2(m: seq<Byte>, key: nat, length: nat, pc: Word, pb: Word) returns (c: Word, b: Word)
    requires key + length <= |m| && |m| % 4 == 0
    ensures (c, b) == HashLittle2(m[key..key + length], pc, pb)
  {
    hide Blocks;
    var s := Seed(length, pc);
    var r := HashAligned(m, key, length, Abc(s, s, Add(s, pb)));
    c, b := r.c, r.b;
  }

  /** The three-way choice that hashlittle and hashlittle2 share. */
  method HashAligned(m: seq<Byte>, key: nat, length: nat, s: Abc) returns (r: Abc)
    requires key + length <= |m| && |m| % 4 == 0
    ensures r == Blocks(s, m[key..key + length])
  {
    hide Blocks;
    if key % 4 == 0 {
      r := HashWords32(m, key, length, s);
    } else if key % 2 == 0 {
      r := HashHalves(m, key, length, s);
    } else {
      r := HashBytes(m, key, length, s);
    }
  }

  // ---------------------------------------------------------------------
  // hashword
  // ---------------------------------------------------------------------

  function WordBytes(w: Word): (b: seq<Byte>)
    ensures |b| == 4 && Load32(b, 0) == w
  {
    [w % 0x100, w / 0x100 % 0x100, w / 0x1_0000 % 0x100, w / 0x100_0000]
  }

  /** A word array as it lies in little-endian memory. */
  function Bytes(k: seq<Word>): (b: seq<Byte>)
    ensures |b| == 4 * |k|
  {
    if k == [] then [] else WordBytes(k[0]) + Bytes(k[1..])
  }

  lemma {:induction false} BytesAt(k: seq<Word>, j: nat)
    ensures Part(Bytes(k), 4 * j) == if j < |k| then k[j] else 0
  {
    hide WordBytes;
    if j >= |k| {
      NoBytes(Bytes(k), 4 * j);
    } else if j > 0 {
      BytesAt(k[1..], j - 1);
      SkipWord(WordBytes(k[0]), Bytes(k[1..]), 4 * (j - 1));
    }
  }

  lemma SkipWord(w: seq<Byte>, rest: seq<Byte>, i: nat)
    requires |w| == 4
    ensures Part(w + rest, i + 4) == Part(rest, i)
  {
  }

  lemma BytesDrop(k: seq<Word>)
    requires |k| >= 3
    ensures Bytes(k)[12..] == Bytes(k[3..])
  {
    hide Bytes;
    BytesTail(k);
    BytesTail(k[1..]);
    BytesTail(k[2..]);
    assert k[1..][1..] == k[2..] && k[2..][1..] == k[3..];
    assert Bytes(k)[12..] == Bytes(k)[4..][4..][4..];
  }

  lemma BytesTail(k: seq<Word>)
    requires k != []
    ensures Bytes(k)[4..] == Bytes(k[1..])
  {
    hide WordBytes;
  }

  lemma TimesFour(n: nat)
    ensures n % WORD * 4 % WORD == 4 * n % WORD
  {
    assert n == n / WORD * WORD + n % WORD;
    assert 4 * n == 4 * (n % WORD) + n / WORD * 4 * WORD;
  }

  /** The loop and the fall-through cases that hashword and hashword2 share. */
  method HashArray(k: seq<Word>, s: Abc) returns (r: Abc)
    ensures r == Blocks(s, Bytes(k))
  {
    hide Mix, Final, Part, Bytes;
    var a, b, c := s.a, s.b, s.c;
    var rest := k;
    while |rest| > 3
      invariant Blocks(Abc(a, b, c), Bytes(rest)) == Blocks(s, Bytes(k))
    {
      BytesAt(rest, 0);
      BytesAt(rest, 1);
      BytesAt(rest, 2);
      BytesDrop(rest);
      a, b, c := Add(a, rest[0]), Add(b, rest[1]), Add(c, rest[2]);
      var x := Mix(Abc(a, b, c));
      a, b, c := x.a, x.b, x.c;
      rest := rest[3..];
    }
    ghost var s1 := Abc(a, b, c);
    BytesAt(rest, 0);
    BytesAt(rest, 1);
    BytesAt(rest, 2);
    if |rest| > 0 {
      if |rest| >= 3 { c := Add(c, rest[2]); }
      if |rest| >= 2 { b := Add(b, rest[1]); }
      a := Add(a, rest[0]);
      assert Abc(a, b, c) == AbsorbBlock(s1, Bytes(rest));
      var x := Final(Abc(a, b, c));
      a, b, c := x.a, x.b, x.c;
    }
    r := Abc(a, b, c);
  }

  /** hashword hashes an array of words as hashlittle hashes its bytes. */
  method Hashword(k: seq<Word>, initval: Word) returns (h: Word)
    ensures h == HashLittle(Bytes(k), initval)
  {
    hide Blocks, Bytes;
    var s := Add(Add(GOLDEN, (|k| % WORD) * 4 % WORD), initval);
    TimesFour(|k|);
    var r := HashArray(k, Abc(s, s, s));
    h := r.c;
  }

  method Hashword2(k: seq<Word>, pc: Word, pb: Word) returns (c: Word, b: Word)
    ensures (c, b) == HashLittle2(Bytes(k), pc, pb)
  {
    hide Blocks, Bytes;
    var s := Add(Add(GOLDEN, (|k| * 4) % WORD), pc);
    var r := HashArray(k, Abc(s, s, Add(s, pb)));
    c, b := r.c, r.b;
  }

  // ---------------------------------------------------------------------
  // Nothing is lost on the way
  // ---------------------------------------------------------------------

  lemma AbsorbUndone(s: Abc, t: Abc, x: Word, y: Word, z: Word)
    requires Absorb(s, x, y, z) == Absorb(t, x, y, z)
    ensures s == t
  {
    AddSub(s.a, x);
    AddSub(t.a, x);
    AddSub(s.b, y);
    AddSub(t.b, y);
    AddSub(s.c, z);
    AddSub(t.c, z);
  }

  lemma MixInjective(s: Abc, t: Abc)
    requires Mix(s) == Mix(t)
    ensures s == t
  {
    hide Mix, UnMix;
    MixIsReversible(s);
    MixIsReversible(t);
  }

  lemma FinalInjective(s: Abc, t: Abc)
    requires Final(s) == Final(t)
    ensures s == t
  {
    hide Final, UnFinal;
    FinalIsReversible(s);
    FinalIsReversible(t);
  }

  /** For one key, different registers at the start are different registers at the end. */
  lemma {:induction false} HashKeepsSeeds(s: Abc, t: Abc, k: seq<Byte>)
    requires Blocks(s, k) == Blocks(t, k)
    ensures s == t
    decreases |k|
  {
    hide Mix, Final, Part, Absorb;
    if |k| > 12 {
      HashKeepsSeeds(Mix(AbsorbBlock(s, k)), Mix(AbsorbBlock(t, k)), k[12..]);
      MixInjective(AbsorbBlock(s, k), AbsorbBlock(t, k));
      AbsorbUndone(s, t, Part(k, 0), Part(k, 4), Part(k, 8));
    } else if k != [] {
      FinalInjective(AbsorbBlock(s, k), AbsorbBlock(t, k));
      AbsorbUndone(s, t, Part(k, 0), Part(k, 4), Part(k, 8));
    }
  }

  lemma DigitsUnique(w: int, x: int, y: Byte, z: Byte)
    requires y + 0x100 * w == z + 0x100 * x
    ensures y == z && w == x
  {
  }

  lemma PartsDetermineBytes(k: seq<Byte>, l: seq<Byte>, i: nat)
    requires Part(k, i) == Part(l, i)
    ensures At(k, i) == At(l, i) && At(k, i + 1) == At(l, i + 1) && At(k, i + 2) == At(l, i + 2)
            && At(k, i + 3) == At(l, i + 3)
  {
    hide At;
    DigitsUnique(At(k, i + 1) + 0x100 * At(k, i + 2) + 0x1_0000 * At(k, i + 3),
                 At(l, i + 1) + 0x100 * At(l, i + 2) + 0x1_0000 * At(l, i + 3), At(k, i), At(l, i));
    DigitsUnique(At(k, i + 2) + 0x100 * At(k, i + 3), At(l, i + 2) + 0x100 * At(l, i + 3), At(k, i + 1), At(l, i + 1));
  }

  lemma AbsorbDetermines(s: Abc, k: seq<Byte>, l: seq<Byte>)
    requires AbsorbBlock(s, k) == AbsorbBlock(s, l)
    ensures forall i {:trigger At(k, i)} :: 0 <= i < 12 ==> At(k, i) == At(l, i)
  {
    hide Part, At;
    AddSame(s.a, Part(k, 0), Part(l, 0));
    AddSame(s.b, Part(k, 4), Part(l, 4));
    AddSame(s.c, Part(k, 8), Part(l, 8));
    PartsDetermineBytes(k, l, 0);
    PartsDetermineBytes(k, l, 4);
    PartsDetermineBytes(k, l, 8);
  }

  lemma AddSame(x: Word, y: Word, z: Word)
    requires Add(x, y) == Add(x, z)
    ensures y == z
  {
    AddSub(y, x);
    AddSub(z, x);
  }

  /** Keys of one length that differ in a single twelve-byte block never leave the same registers. */
  lemma {:induction false} OneBlockShows(s: Abc, k: seq<Byte>, l: seq<Byte>, block: nat)
    requires |k| == |l|
    requires forall i :: 0 <= i < |k| && i / 12 != block ==> k[i] == l[i]
    requires Blocks(s, k) == Blocks(s, l)
    ensures k == l
    decreases |k|
  {
    hide Mix, Final, Part, AbsorbBlock;
    if |k| > 12 {
      if block == 0 {
        assert k[12..] == l[12..] by {
          assert forall i :: 12 <= i < |k| ==> i / 12 != 0;
        }
        HashKeepsSeeds(Mix(AbsorbBlock(s, k)), Mix(AbsorbBlock(s, l)), k[12..]);
        MixInjective(AbsorbBlock(s, k), AbsorbBlock(s, l));
        AbsorbDetermines(s, k, l);
        assert forall i :: 0 <= i < |k| ==> k[i] == if i < 12 then At(k, i) else k[12..][i - 12];
      } else {
        SameFirstBlock(s, k, l);
        forall i | 0 <= i < |k| - 12 && i / 12 != block - 1
          ensures k[12..][i] == l[12..][i]
        {
          assert (i + 12) / 12 == i / 12 + 1;
        }
        OneBlockShows(Mix(AbsorbBlock(s, k)), k[12..], l[12..], block - 1);
        assert k == k[..12] + k[12..] && l == l[..12] + l[12..];
      }
    } else if k != [] {
      FinalInjective(AbsorbBlock(s, k), AbsorbBlock(s, l));
      AbsorbDetermines(s, k, l);
      assert forall i :: 0 <= i < |k| ==> k[i] == At(k, i);
    }
  }

  lemma SameFirstBlock(s: Abc, k: seq<Byte>, l: seq<Byte>)
    requires |k| == |l| > 12
    requires forall i :: 0 <= i < 12 ==> k[i] == l[i]
    ensures AbsorbBlock(s, k) == AbsorbBlock(s, l) && k[..12] == l[..12]
  {
    assert forall i {:trigger At(k, i)} :: 0 <= i < 12 ==> At(k, i) == At(l, i);
    assert Part(k, 0) == Part(l, 0) && Part(k, 4) == Part(l, 4) && Part(k, 8) == Part(l, 8);
  }
}
