/**
 How a register's bits lie in its bytes: the bit operations of reg_w_align32 and
 reg_r_align32, that reading undoes writing, and that only the register's own bits matter.
 Offsets and lengths are bit-vectors here.
 */
module RegisterBits {
  /** An arithmetic right shift of a signed byte. */
  function Asr8(x: bv8, n: bv8): bv8
    requires n <= 8
  {
    if x & 0x80 == 0 then x >> n else !(!x >> n)
  }

  function Asr32(x: bv32, n: bv32): bv32
    requires n <= 32
  {
    if x & 0x8000_0000 == 0 then x >> n else !(!x >> n)
  }

  function Shl32(x: bv32, n: bv32): bv32
    requires n <= 32
  {
    x << n
  }

  function Shr32(x: bv32, n: bv32): bv32
    requires n <= 32
  {
    x >> n
  }

  /** A byte as a 32-bit number, and a signed byte as one. */
  function Widen(x: bv8): bv32 {
    x as bv32
  }

  function WidenSigned(x: bv8): bv32 {
    if x & 0x80 == 0 then x as bv32 else (x as bv32) | 0xFFFF_FF00
  }

  function Low(v: bv32): bv8 {
    (v & 0xFF) as bv8
  }

  predicate Fits(offs: bv8, leng: bv8) {
    offs <= 7 && 1 <= leng <= 8 && offs + leng <= 8
  }

  /** buf[1], the mask of the register's bits; a whole byte when it has eight. */
  function Mask(offs: bv8, leng: bv8): bv8
    requires Fits(offs, leng)
  {
    if leng == 8 then 0xFF else (((1 as bv8) << leng) - 1) << offs
  }

  /** The byte written: the new bits among the old ones. */
  function PutField(old8: bv8, v: bv32, offs: bv8, leng: bv8): bv8
    requires Fits(offs, leng)
  {
    if leng == 8 && offs == 0 then Low(v)
    else (!Mask(offs, leng) & old8) | (Mask(offs, leng) & (Low(v) << offs))
  }

  function GetField(b: bv8, offs: bv8, leng: bv8, sign: bool): bv32
    requires Fits(offs, leng)
  {
    var left := b << (8 - leng - offs);
    if sign then WidenSigned(Asr8(left, 8 - leng)) else Widen(left >> (8 - leng))
  }

  /** The bits of the value above the register are zero, or copies of its sign. */
  predicate Representable(v: bv32, leng: bv32, sign: bool)
    requires 1 <= leng <= 32
  {
    if sign then Asr32(Shl32(v, 32 - leng), 32 - leng) == v else Shr32(Shl32(v, 32 - leng), 32 - leng) == v
  }

  lemma FieldReadBack(old8: bv8, v: bv32, offs: bv8, leng: bv8, sign: bool)
    requires Fits(offs, leng) && Representable(v, leng as bv32, sign)
    ensures GetField(PutField(old8, v, offs, leng), offs, leng, sign) == v
  {
    hide PutField, Representable, Asr8, Widen, WidenSigned, Low;
    ByteHolds(v, leng, sign);
    if sign {
      SignedBack(old8, v, offs, leng);
    } else {
      UnsignedBack(old8, v, offs, leng);
    }
  }

  /** A value of at most eight bits is told by its low byte. */
  lemma ByteHolds(v: bv32, leng: bv8, sign: bool)
    requires 1 <= leng <= 8 && Representable(v, leng as bv32, sign)
    ensures if sign then WidenSigned(Low(v)) == v && Asr8(Low(v) << (8 - leng), 8 - leng) == Low(v)
            else Widen(Low(v)) == v && (Low(v) << (8 - leng)) >> (8 - leng) == Low(v)
  {
  }

  lemma SignedBack(old8: bv8, v: bv32, offs: bv8, leng: bv8)
    requires Fits(offs, leng) && Asr8(Low(v) << (8 - leng), 8 - leng) == Low(v)
    ensures Asr8(PutField(old8, v, offs, leng) << (8 - leng - offs), 8 - leng) == Low(v)
  {
    hide Low;
  }

  lemma UnsignedBack(old8: bv8, v: bv32, offs: bv8, leng: bv8)
    requires Fits(offs, leng) && (Low(v) << (8 - leng)) >> (8 - leng) == Low(v)
    ensures (PutField(old8, v, offs, leng) << (8 - leng - offs)) >> (8 - leng) == Low(v)
  {
    hide Low;
  }

  lemma FieldKeepsOthers(old8: bv8, v: bv32, offs: bv8, leng: bv8)
    requires Fits(offs, leng)
    ensures (PutField(old8, v, offs, leng) ^ old8) & !Mask(offs, leng) == 0
  {
  }

  /** Two bytes that agree on a field's bits read as the same field. */
  lemma FieldOnly(a: bv8, b: bv8, offs: bv8, leng: bv8, sign: bool)
    requires Fits(offs, leng) && (a ^ b) & Mask(offs, leng) == 0
    ensures GetField(a, offs, leng, sign) == GetField(b, offs, leng, sign)
  {
  }

  lemma MasksApart(offs1: bv8, leng1: bv8, offs2: bv8, leng2: bv8)
    requires Fits(offs1, leng1) && Fits(offs2, leng2) && offs1 + leng1 <= offs2
    ensures Mask(offs1, leng1) & Mask(offs2, leng2) == 0
  {
  }

  // ---------------------------------------------------------------- registers of several bytes

  /** The bytes written, least significant first. */
  function Split(v: bv32, n: nat): (bytes: seq<bv8>)
    ensures |bytes| == n
  {
    if n == 0 then [] else [Low(v)] + Split(NextByte(v), n - 1)
  }

  function NextByte(v: bv32): bv32 {
    v >> 8
  }

  /** The bytes read, put together again. */
  function Join(bytes: seq<bv8>): bv32 {
    if bytes == [] then 0 else Push(Join(bytes[1..]), bytes[0])
  }

  function Push(u: bv32, b: bv8): bv32 {
    Widen(b) + (u << 8)
  }

  function GetWord(u: bv32, leng: bv32, sign: bool): bv32
    requires 1 <= leng <= 32
  {
    if sign then Asr32(Shl32(u, 32 - leng), 32 - leng) else u
  }

  /** The bytes a register of more than eight bits takes. */
  function Cut(v: bv32, n: nat): bv32 {
    if n == 2 then v & 0xFFFF else if n == 3 then v & 0xFF_FFFF else v
  }

  lemma JoinSplit(v: bv32, n: nat)
    requires 2 <= n <= 4
    ensures Join(Split(v, n)) == Cut(v, n)
  {
    hide Low, NextByte, Push, Cut, Join, Split;
    var v1 := NextByte(v);
    var v2 := NextByte(v1);
    var v3 := NextByte(v2);
    JoinStep(v, n);
    JoinStep(v1, n - 1);
    JoinNone(v2);
    if n == 2 {
      TwoBytes(v);
    } else if n == 3 {
      JoinStep(v2, 1);
      JoinNone(v3);
      ThreeBytes(v);
    } else {
      JoinStep(v2, 2);
      JoinStep(v3, 1);
      JoinNone(NextByte(v3));
      FourBytes(v);
    }
  }

  lemma JoinStep(v: bv32, n: nat)
    requires n > 0
    ensures Join(Split(v, n)) == Push(Join(Split(NextByte(v), n - 1)), Low(v))
  {
  }

  lemma JoinNone(v: bv32)
    ensures Join(Split(v, 0)) == 0
  {
  }

  lemma TwoBytes(v: bv32)
    ensures Push(Push(0, Low(NextByte(v))), Low(v)) == Cut(v, 2)
  {
  }

  lemma ThreeBytes(v: bv32)
    ensures Push(Push(Push(0, Low(NextByte(NextByte(v)))), Low(NextByte(v))), Low(v)) == Cut(v, 3)
  {
  }

  lemma FourBytes(v: bv32)
    ensures Push(Push(Push(Push(0, Low(NextByte(NextByte(NextByte(v))))), Low(NextByte(NextByte(v)))),
                      Low(NextByte(v))), Low(v)) == Cut(v, 4)
  {
  }

  lemma WordReadBack(v: bv32, n: nat, leng: bv32, sign: bool)
    requires 2 <= n <= 4 && 1 <= leng <= 32 && Representable(v, leng, sign)
    requires leng <= if n == 2 then 16 else if n == 3 then 24 else 32
    ensures GetWord(Cut(v, n), leng, sign) == v
  {
    hide Cut, GetWord, Representable;
    CutAsShifted(v, n, leng, sign);
    WordAsShifted(v, Cut(v, n), leng, sign);
  }

  /** Reading goes by the value shifted left, and unsigned by the value itself. */
  lemma WordAsShifted(v: bv32, u: bv32, leng: bv32, sign: bool)
    requires 1 <= leng <= 32 && Representable(v, leng, sign)
    requires Shl32(u, 32 - leng) == Shl32(v, 32 - leng) && (sign || u == v)
    ensures GetWord(u, leng, sign) == v
  {
    hide Asr32, Shl32, Shr32;
  }

  lemma CutAsShifted(v: bv32, n: nat, leng: bv32, sign: bool)
    requires 2 <= n <= 4 && 1 <= leng <= 32 && Representable(v, leng, sign)
    requires leng <= if n == 2 then 16 else if n == 3 then 24 else 32
    ensures Shl32(Cut(v, n), 32 - leng) == Shl32(v, 32 - leng) && (sign || Cut(v, n) == v)
  {
    hide Asr32, Shl32, Shr32;
    if n == 2 {
      ShiftCutsTwo(v, 32 - leng);
    } else if n == 3 {
      ShiftCutsThree(v, 32 - leng);
    }
  }

  /** What a left shift drops may be cut off before it; what shifting there and back keeps is not cut off. */
  lemma ShiftCutsTwo(v: bv32, k: bv32)
    requires 16 <= k <= 32
    ensures Shl32(v & 0xFFFF, k) == Shl32(v, k)
    ensures Shr32(Shl32(v, k), k) == v ==> v & 0xFFFF == v
  {
    SmallAfterShift(v, k);
  }

  lemma ShiftCutsThree(v: bv32, k: bv32)
    requires 8 <= k <= 32
    ensures Shl32(v & 0xFF_FFFF, k) == Shl32(v, k)
    ensures Shr32(Shl32(v, k), k) == v ==> v & 0xFF_FFFF == v
  {
    SmallAfterShift(v, k);
  }

  lemma SmallAfterShift(v: bv32, k: bv32)
    requires 8 <= k <= 32
    ensures Shr32(Shl32(v, k), k) == v ==> v < 0x100_0000
    ensures 16 <= k && Shr32(Shl32(v, k), k) == v ==> v < 0x1_0000
  {
  }
}
