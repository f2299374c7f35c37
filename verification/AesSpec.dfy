/**
 What the two os_aes drivers compute, over an abstract 128-bit block cipher: the MAC of
 RFC 4493, electronic codebook and counter mode. Blocks are 16 bytes; a word view with
 the most significant byte first serves the driver that works on 32-bit words.
 */
module AesSpec {
  type Block = s: seq<bv8> | |s| == 16 witness [0, 0, 0, 0, 0, 0, 0, 0, 0, 0, 0, 0, 0, 0, 0, 0]
  type Cipher = Block -> Block

  function Zeros(n: nat): (r: seq<bv8>)
    ensures |r| == n && forall i :: 0 <= i < n ==> r[i] == 0
  {
    if n == 0 then [] else [0] + Zeros(n - 1)
  }

  const ZERO_BLOCK: Block := Zeros(16)

  function XorByte(x: bv8, y: bv8): bv8 {
    x ^ y
  }

  function Xor(a: seq<bv8>, b: seq<bv8>): (r: seq<bv8>)
    requires |a| == |b|
    ensures |r| == |a|
    ensures forall i :: 0 <= i < |a| ==> r[i] == XorByte(a[i], b[i])
  {
    seq(|a|, i requires 0 <= i < |a| => XorByte(a[i], b[i]))
  }

  // ---------------------------------------------------------------- doubling

  /** A byte one bit to the left, the top bit of the next byte shifted in. */
  function ShiftByte(x: bv8, next: bv8): bv8 {
    (x << 1) | (next >> 7)
  }

  /** The string one bit to the left, a zero shifted in. */
  function ShiftLeft(s: seq<bv8>): (r: seq<bv8>)
    ensures |r| == |s|
  {
    seq(|s|, i requires 0 <= i < |s| => ShiftByte(s[i], if i + 1 < |s| then s[i + 1] else 0))
  }

  /** The number a byte string stands for, most significant byte first. */
  function BigEndian(s: seq<bv8>): nat {
    if s == [] then 0 else s[0] as int * Power256(|s| - 1) + BigEndian(s[1..])
  }

  function Power256(n: nat): nat {
    if n == 0 then 1 else 256 * Power256(n - 1)
  }

  lemma ByteShift(x: bv8, y: bv8)
    ensures ShiftByte(x, y) as int
            == 2 * (x as int) - (if x as int >= 128 then 256 else 0) + (if y as int >= 128 then 1 else 0)
  {
  }

  lemma {:induction false} BigEndianBound(s: seq<bv8>)
    ensures BigEndian(s) < Power256(|s|)
  {
    if s != [] {
      BigEndianBound(s[1..]);
      assert (s[0] as int) * Power256(|s| - 1) <= 255 * Power256(|s| - 1);
    }
  }

  function Carry(s: seq<bv8>): nat {
    if s != [] && s[0] as int >= 128 then 1 else 0
  }

  lemma FirstByte(s: seq<bv8>)
    requires s != []
    ensures ShiftLeft(s)[0] as int == 2 * (s[0] as int) - 256 * Carry(s) + Carry(s[1..])
    ensures ShiftLeft(s)[1..] == ShiftLeft(s[1..])
  {
    hide ShiftByte;
    ByteShift(s[0], if |s| > 1 then s[1] else 0);
    assert ShiftLeft(s)[0] == ShiftByte(s[0], if |s| > 1 then s[1] else 0);
  }

  /** Shifting a byte string left doubles its number and drops the carry out of the top. */
  lemma {:induction false} ShiftLeftDoubles(s: seq<bv8>)
    ensures BigEndian(ShiftLeft(s)) == 2 * BigEndian(s) - Carry(s) * Power256(|s|)
  {
    if s != [] {
      hide ShiftLeft, Carry;
      ShiftLeftDoubles(s[1..]);
      FirstByte(s);
      Combine(s[0] as int, ShiftLeft(s)[0] as int, Carry(s[1..]), Carry(s), Power256(|s| - 1),
              BigEndian(s[1..]), BigEndian(ShiftLeft(s[1..])));
    }
  }

  lemma Combine(x: int, y: int, c: int, k: int, p: int, b: int, shifted: int)
    requires shifted == 2 * b - c * p && y == 2 * x - 256 * k + c
    ensures y * p + shifted == 2 * (x * p + b) - k * (256 * p)
  {
  }

  /** Section 2.3 of RFC 4493: doubling in the field of 2^128 elements. */
  function Double(b: Block): (r: Block) {
    if b[0] & 0x80 == 0 then ShiftLeft(b) else ShiftLeft(b)[15 := ShiftLeft(b)[15] ^ 0x87]
  }

  function K1(e: Cipher): Block {
    Double(e(ZERO_BLOCK))
  }

  function K2(e: Cipher): Block {
    Double(K1(e))
  }

  // ---------------------------------------------------------------- the MAC, section 2.4

  /** The number of blocks of a message. */
  function BlockCount(m: seq<bv8>): (n: nat)
    ensures n > 0 && 16 * (n - 1) <= |m| <= 16 * n && (m != [] ==> 16 * (n - 1) < |m|)
  {
    if m == [] then 1 else (|m| + 15) / 16
  }

  /** A bit one, then zeros, up to a whole block. */
  function Pad(m: seq<bv8>): (r: Block)
    requires |m| < 16
  {
    m + [0x80] + Zeros(15 - |m|)
  }

  /** The last block, whole or padded, with its subkey. */
  function LastBlock(e: Cipher, m: seq<bv8>): Block {
    var tail := m[16 * (BlockCount(m) - 1)..];
    if |tail| == 16 then Xor(tail, K1(e)) else Xor(Pad(tail), K2(e))
  }

  /** The chaining value after the first i blocks. */
  function Chain(e: Cipher, m: seq<bv8>, i: nat): Block
    requires 16 * i <= |m|
  {
    if i == 0 then ZERO_BLOCK else e(Xor(Chain(e, m, i - 1), m[16 * (i - 1)..16 * i]))
  }

  function Cmac(e: Cipher, m: seq<bv8>): Block {
    e(Xor(Chain(e, m, BlockCount(m) - 1), LastBlock(e, m)))
  }

  /** The first four bytes of a block as a number: what os_aes returns. */
  function MsbWord(b: Block): bv32 {
    Word(b[0], b[1], b[2], b[3])
  }

  // ---------------------------------------------------------------- codebook and counter mode

  function Ecb(e: Cipher, buf: seq<bv8>): (r: seq<bv8>)
    requires |buf| % 16 == 0
    ensures |r| == |buf|
  {
    if buf == [] then [] else e(buf[..16]) + Ecb(e, buf[16..])
  }

  /** Counter mode for a given way of stepping the counter block. */
  function Ctr(e: Cipher, next: Block -> Block, counter: Block, buf: seq<bv8>): (r: seq<bv8>)
    ensures |r| == |buf|
    decreases |buf|
  {
    if |buf| <= 16 then Xor(buf, e(counter)[..|buf|])
    else Xor(buf[..16], e(counter)) + Ctr(e, next, next(counter), buf[16..])
  }

  /** The counter is the last byte alone. */
  function NextByte(b: Block): Block {
    b[15 := b[15] + 1]
  }

  /** The counter is the last word. */
  function NextWord(b: Block): Block {
    var w := ToWords(b);
    FromWords(w.(a3 := w.a3 + 1))
  }

  // ---------------------------------------------------------------- words

  datatype Words = Words(a0: bv32, a1: bv32, a2: bv32, a3: bv32) {
    function At(q: nat): bv32 {
      if q == 0 then a0 else if q == 1 then a1 else if q == 2 then a2 else a3
    }
  }

  function Word(b0: bv8, b1: bv8, b2: bv8, b3: bv8): bv32 {
    ((b0 as bv32) << 24) | ((b1 as bv32) << 16) | ((b2 as bv32) << 8) | (b3 as bv32)
  }

  /** Byte r of a word, the most significant one first. */
  function ByteOf(w: bv32, r: nat): bv8 {
    if r == 0 then ((w >> 24) & 0xFF) as bv8
    else if r == 1 then ((w >> 16) & 0xFF) as bv8
    else if r == 2 then ((w >> 8) & 0xFF) as bv8
    else (w & 0xFF) as bv8
  }

  function ToWords(b: Block): Words {
    Words(Word(b[0], b[1], b[2], b[3]), Word(b[4], b[5], b[6], b[7]),
          Word(b[8], b[9], b[10], b[11]), Word(b[12], b[13], b[14], b[15]))
  }

  function FromWords(w: Words): Block {
    seq(16, i requires 0 <= i < 16 => ByteOf(w.At(i / 4), i % 4))
  }

  lemma WordBytes(b0: bv8, b1: bv8, b2: bv8, b3: bv8)
    ensures var w := Word(b0, b1, b2, b3);
            ByteOf(w, 0) == b0 && ByteOf(w, 1) == b1 && ByteOf(w, 2) == b2 && ByteOf(w, 3) == b3
  {
  }

  lemma BytesWord(w: bv32)
    ensures Word(ByteOf(w, 0), ByteOf(w, 1), ByteOf(w, 2), ByteOf(w, 3)) == w
  {
  }

  lemma ByteOfBlock(b: Block, q: nat, r: nat)
    requires q < 4 && r < 4
    ensures ByteOf(ToWords(b).At(q), r) == b[4 * q + r]
  {
    hide Word, ByteOf;
    if q == 0 {
      WordBytes(b[0], b[1], b[2], b[3]);
    } else if q == 1 {
      WordBytes(b[4], b[5], b[6], b[7]);
    } else if q == 2 {
      WordBytes(b[8], b[9], b[10], b[11]);
    } else {
      WordBytes(b[12], b[13], b[14], b[15]);
    }
  }

  lemma WordsOfBytes(b: Block)
    ensures FromWords(ToWords(b)) == b
  {
    hide ByteOf, ToWords, Words.At;
    forall i | 0 <= i < 16
      ensures FromWords(ToWords(b))[i] == b[i]
    {
      ByteOfBlock(b, i / 4, i % 4);
    }
  }

  lemma BytesOfWords(w: Words)
    ensures ToWords(FromWords(w)) == w
  {
    hide Word, ByteOf;
    BytesWord(w.a0);
    BytesWord(w.a1);
    BytesWord(w.a2);
    BytesWord(w.a3);
  }

  function XorWord(w: bv32, v: bv32): bv32 {
    w ^ v
  }

  function XorWords(w: Words, v: Words): Words {
    Words(XorWord(w.a0, v.a0), XorWord(w.a1, v.a1), XorWord(w.a2, v.a2), XorWord(w.a3, v.a3))
  }

  lemma XorByte0(w: bv32, v: bv32)
    ensures ByteOf(XorWord(w, v), 0) == XorByte(ByteOf(w, 0), ByteOf(v, 0))
  {
  }

  lemma XorByte1(w: bv32, v: bv32)
    ensures ByteOf(XorWord(w, v), 1) == XorByte(ByteOf(w, 1), ByteOf(v, 1))
  {
  }

  lemma XorByte2(w: bv32, v: bv32)
    ensures ByteOf(XorWord(w, v), 2) == XorByte(ByteOf(w, 2), ByteOf(v, 2))
  {
  }

  lemma XorByte3(w: bv32, v: bv32)
    ensures ByteOf(XorWord(w, v), 3) == XorByte(ByteOf(w, 3), ByteOf(v, 3))
  {
  }

  lemma XorByteIndex(w: bv32, v: bv32, r: nat)
    requires r < 4
    ensures ByteOf(XorWord(w, v), r) == XorByte(ByteOf(w, r), ByteOf(v, r))
  {
    hide ByteOf, XorWord, XorByte;
    XorByte0(w, v);
    XorByte1(w, v);
    XorByte2(w, v);
    XorByte3(w, v);
  }

  lemma XorByteAt(w: Words, v: Words, q: nat, r: nat)
    requires q < 4 && r < 4
    ensures ByteOf(XorWords(w, v).At(q), r) == XorByte(ByteOf(w.At(q), r), ByteOf(v.At(q), r))
  {
    hide ByteOf, XorWord, XorByte;
    XorByteIndex(w.a0, v.a0, r);
    XorByteIndex(w.a1, v.a1, r);
    XorByteIndex(w.a2, v.a2, r);
    XorByteIndex(w.a3, v.a3, r);
  }

  lemma XorOfWords(w: Words, v: Words)
    ensures FromWords(XorWords(w, v)) == Xor(FromWords(w), FromWords(v))
  {
    hide ByteOf, XorByte, XorWords, Words.At;
    forall i | 0 <= i < 16
      ensures FromWords(XorWords(w, v))[i] == XorByte(FromWords(w)[i], FromWords(v)[i])
    {
      XorByteAt(w, v, i / 4, i % 4);
    }
  }

  /** A word one bit to the left, the top bit of the next word shifted in. */
  function ShiftWord(w: bv32, next: bv32): bv32 {
    (w << 1) | (next >> 31)
  }

  function TopBit(w: bv32): bool {
    w >> 31 != 0
  }

  /** Doubling on four words, the carry handed from each to the one before it. */
  function DoubleWords(w: Words): Words {
    Words(ShiftWord(w.a0, w.a1), ShiftWord(w.a1, w.a2), ShiftWord(w.a2, w.a3),
          if TopBit(w.a0) then XorWord(ShiftWord(w.a3, 0), 0x87) else ShiftWord(w.a3, 0))
  }

  lemma ShiftWordBytes(w: bv32, next: bv32)
    ensures ByteOf(ShiftWord(w, next), 0) == ShiftByte(ByteOf(w, 0), ByteOf(w, 1))
    ensures ByteOf(ShiftWord(w, next), 1) == ShiftByte(ByteOf(w, 1), ByteOf(w, 2))
    ensures ByteOf(ShiftWord(w, next), 2) == ShiftByte(ByteOf(w, 2), ByteOf(w, 3))
    ensures ByteOf(ShiftWord(w, next), 3) == ShiftByte(ByteOf(w, 3), ByteOf(next, 0))
  {
  }

  lemma LastWordBytes(w: bv32, a0: bv32)
    ensures ByteOf(0, 0) == 0
    ensures TopBit(a0) <==> ByteOf(a0, 0) & 0x80 != 0
    ensures ByteOf(XorWord(w, 0x87), 0) == ByteOf(w, 0) && ByteOf(XorWord(w, 0x87), 1) == ByteOf(w, 1)
    ensures ByteOf(XorWord(w, 0x87), 2) == ByteOf(w, 2) && ByteOf(XorWord(w, 0x87), 3) == ByteOf(w, 3) ^ 0x87
  {
  }

  lemma DoubleByteAt(w: Words, q: nat, r: nat)
    requires q < 4 && r < 4
    ensures ByteOf(DoubleWords(w).At(q), r) ==
            var next := if r < 3 then ByteOf(w.At(q), r + 1) else if q < 3 then ByteOf(w.At(q + 1), 0) else 0;
            var shifted := ShiftByte(ByteOf(w.At(q), r), next);
            if q == 3 && r == 3 && ByteOf(w.a0, 0) & 0x80 != 0 then shifted ^ 0x87 else shifted
  {
    hide ByteOf, ShiftByte, ShiftWord, XorWord, TopBit;
    ShiftWordBytes(w.At(q), if q < 3 then w.At(q + 1) else 0);
    LastWordBytes(ShiftWord(w.a3, 0), w.a0);
  }

  lemma DoubleByte(b: Block, i: nat)
    requires i < 16
    ensures var shifted := ShiftByte(b[i], if i < 15 then b[i + 1] else 0);
            Double(b)[i] == if i == 15 && b[0] & 0x80 != 0 then shifted ^ 0x87 else shifted
  {
  }

  lemma TopByte(w: Words)
    ensures FromWords(w)[0] == ByteOf(w.a0, 0)
  {
  }

  lemma DoubleOfWords(w: Words)
    ensures FromWords(DoubleWords(w)) == Double(FromWords(w))
  {
    hide ByteOf, ShiftByte, DoubleWords, Double, Words.At;
    var b := FromWords(w);
    TopByte(w);
    forall i | 0 <= i < 16
      ensures FromWords(DoubleWords(w))[i] == Double(b)[i]
    {
      DoubleByteAt(w, i / 4, i % 4);
      DoubleByte(b, i);
      if i % 4 == 3 {
        assert i < 15 ==> b[i + 1] == ByteOf(w.At(i / 4 + 1), 0);
      } else {
        assert b[i + 1] == ByteOf(w.At(i / 4), i % 4 + 1);
      }
    }
  }
}
