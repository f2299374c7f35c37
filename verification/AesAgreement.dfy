/** When the two os_aes drivers can stand in for each other. */
module AesAgreement {
  import opened AesSpec
  import opened AesSteps
  import Lmic = AesLmic
  import Other = AesOther

  /** The counter block of the k-th block of data. */
  function CounterAt(next: Block -> Block, counter: Block, k: nat): Block
    decreases k
  {
    if k == 0 then counter else CounterAt(next, next(counter), k - 1)
  }

  /** Counter mode byte by byte: each byte meets its byte of its own key stream block. */
  lemma {:induction false} CtrAt(e: Cipher, next: Block -> Block, counter: Block, buf: seq<bv8>, i: nat)
    requires i < |buf|
    ensures Ctr(e, next, counter, buf)[i] == XorByte(buf[i], e(CounterAt(next, counter, i / 16))[i % 16])
    decreases i
  {
    hide XorByte;
    if i >= 16 {
      CtrAt(e, next, next(counter), buf[16..], i - 16);
    }
  }

  lemma {:induction false} CounterSplit(next: Block -> Block, counter: Block, k: nat)
    requires k > 0
    ensures CounterAt(next, counter, k) == next(CounterAt(next, counter, k - 1))
    decreases k
  {
    if k > 1 {
      CounterSplit(next, next(counter), k - 1);
    }
  }

  lemma NextBytes(b: Block)
    ensures b[15] != 255 ==> NextWord(b) == NextByte(b)
    ensures b[15] == 255 ==> NextWord(b)[14] == b[14] + 1 && NextByte(b)[14] == b[14]
  {
    hide NextWord;
    if b[15] == 255 {
      NextWordCarries(b);
    } else {
      forall i | 0 <= i < 16
        ensures NextWord(b)[i] == NextByte(b)[i]
      {
        NextWordAt(b, i);
      }
    }
  }

  lemma NextWordCarries(b: Block)
    requires b[15] == 255
    ensures NextWord(b)[14] == b[14] + 1
  {
  }

  lemma NextWordAt(b: Block, i: nat)
    requires b[15] != 255 && i < 16
    ensures NextWord(b)[i] == if i == 15 then b[15] + 1 else b[i]
  {
    hide Word, ByteOf;
    if i < 12 {
      WordsOfBytes(b);
      assert NextWord(b)[i] == FromWords(ToWords(b))[i];
    } else {
      NoCarry(b[12], b[13], b[14], b[15]);
    }
  }

  lemma NoCarry(b0: bv8, b1: bv8, b2: bv8, b3: bv8)
    requires b3 != 255
    ensures var w := Word(b0, b1, b2, b3) + 1;
            ByteOf(w, 0) == b0 && ByteOf(w, 1) == b1 && ByteOf(w, 2) == b2 && ByteOf(w, 3) == b3 + 1
  {
  }

  lemma Carry(b0: bv8, b1: bv8, b2: bv8)
    ensures ByteOf(Word(b0, b1, b2, 255) + 1, 2) == b2 + 1
  {
  }

  /** The last byte counts up while it does not overflow, and both ways of counting agree. */
  lemma {:induction false} SameCounter(c: Block, k: nat)
    requires c[15] as int + k < 256
    ensures CounterAt(NextWord, c, k) == CounterAt(NextByte, c, k)
    ensures CounterAt(NextByte, c, k)[15] as int == c[15] as int + k && CounterAt(NextByte, c, k)[14] == c[14]
  {
    hide NextWord;
    if k > 0 {
      SameCounter(c, k - 1);
      CounterSplit(NextWord, c, k);
      CounterSplit(NextByte, c, k);
      NextBytes(CounterAt(NextByte, c, k - 1));
    }
  }

  /** The block after the overflow is the first where the counters part. */
  lemma CountersPart(c: Block)
    ensures var k := 256 - c[15] as int;
            CounterAt(NextWord, c, k)[14] != CounterAt(NextByte, c, k)[14]
  {
    hide NextWord, NextByte;
    var k := 256 - c[15] as int;
    SameCounter(c, k - 1);
    CounterSplit(NextWord, c, k);
    CounterSplit(NextByte, c, k);
    NextBytes(CounterAt(NextByte, c, k - 1));
  }

  /** The number of counter blocks used beyond the first. */
  function Extra(buf: seq<bv8>): nat {
    if buf == [] then 0 else (|buf| - 1) / 16
  }

  lemma SameCtr(e: Cipher, c: Block, buf: seq<bv8>)
    requires c[15] as int + Extra(buf) < 256
    ensures Ctr(e, NextWord, c, buf) == Ctr(e, NextByte, c, buf)
  {
    hide Ctr, XorByte, NextWord, NextByte;
    forall i | 0 <= i < |buf|
      ensures Ctr(e, NextWord, c, buf)[i] == Ctr(e, NextByte, c, buf)[i]
    {
      CtrAt(e, NextWord, c, buf, i);
      CtrAt(e, NextByte, c, buf, i);
      SameCounter(c, i / 16);
    }
  }

  ghost predicate Inverse(e: Cipher, d: Cipher) {
    forall b: Block :: d(e(b)) == b && e(d(b)) == b
  }

  /** What a block cipher under a key is: every block is the image of exactly one. */
  ghost predicate Permutation(e: Cipher) {
    exists d: Cipher :: Inverse(e, d)
  }

  /** A permutation that shows byte 14 of the counter in the first byte of the key stream. */
  function Swap14(b: Block): Block {
    b[0 := b[14]][14 := b[0]]
  }

  lemma SwapsBack(b: Block)
    ensures Swap14(Swap14(b)) == b && Swap14(b)[0] == b[14]
  {
  }

  lemma SwapIsPermutation()
    ensures var e: Cipher := Swap14; Permutation(e) && forall b: Block :: e(b)[0] == b[14]
  {
    var e: Cipher := Swap14;
    forall b: Block
      ensures e(e(b)) == b && e(b)[0] == b[14]
    {
      SwapsBack(b);
    }
    assert Inverse(e, e);
  }

  lemma XorCancels(x: bv8, y: bv8, z: bv8)
    ensures XorByte(x, y) == XorByte(x, z) <==> y == z
  {
  }

  lemma BlockReached(buf: seq<bv8>, k: nat)
    requires 0 < k <= Extra(buf)
    ensures 16 * k < |buf| && 16 * k / 16 == k && 16 * k % 16 == 0
  {
  }

  /** The first byte of the block after the overflow differs. */
  lemma DifferentCtr(e: Cipher, c: Block, buf: seq<bv8>)
    requires forall b: Block :: e(b)[0] == b[14]
    requires c[15] as int + Extra(buf) >= 256
    ensures var i := 16 * (256 - c[15] as int);
            i < |buf| && Ctr(e, NextWord, c, buf)[i] != Ctr(e, NextByte, c, buf)[i]
  {
    hide Ctr, XorByte, NextWord, NextByte, Extra;
    var k := 256 - c[15] as int;
    var i := 16 * k;
    BlockReached(buf, k);
    CountersPart(c);
    CtrAt(e, NextWord, c, buf, i);
    CtrAt(e, NextByte, c, buf, i);
    XorCancels(buf[i], CounterAt(NextWord, c, k)[14], CounterAt(NextByte, c, k)[14]);
  }

  /**
   The drivers leave the same buffer in counter mode under every block cipher exactly when
   the last counter byte does not overflow on the way.
   */
  lemma CtrAgreesExactly(c: Block, buf: seq<bv8>)
    ensures (forall e: Cipher :: Permutation(e) ==> Ctr(e, NextWord, c, buf) == Ctr(e, NextByte, c, buf))
            <==> c[15] as int + Extra(buf) < 256
  {
    hide Ctr, NextWord, NextByte, Swap14, Permutation;
    if c[15] as int + Extra(buf) < 256 {
      forall e: Cipher
        ensures Ctr(e, NextWord, c, buf) == Ctr(e, NextByte, c, buf)
      {
        SameCtr(e, c, buf);
      }
    } else {
      SwapIsPermutation();
      var e: Cipher := Swap14;
      DifferentCtr(e, c, buf);
      assert Permutation(e) && Ctr(e, NextWord, c, buf) != Ctr(e, NextByte, c, buf);
    }
  }

  /** Both drivers on the same input: the same code comes back for every message they both serve. */
  method BothMics(e: Cipher, aux: Block, mode: bv8, buf: array<bv8>, len: nat) returns (x: bv32, y: bv32)
    requires mode == AES_MIC || mode == AES_MIC | AES_MICNOAUX
    requires 0 < len < 128 && len <= buf.Length
    modifies buf
    ensures x == y == MsbWord(Cmac(e, Message(aux, mode == AES_MIC, buf[..len])))
    ensures buf[..] == old(buf[..])
  {
    hide Cmac, MsbWord, FromWords, ToWords, Word, ByteOf;
    var lmic := new Lmic.Driver(e);
    LoadLmic(lmic, aux);
    x := lmic.OsAes(mode, buf, len);
    var other := new Other.Driver(e);
    LoadOther(other, aux);
    y := other.OsAes(mode, buf, len);
  }

  method LmicCtr(e: Cipher, aux: Block, data: seq<bv8>) returns (x: seq<bv8>)
    requires |data| < 128
    ensures x == Ctr(e, NextWord, aux, data)
  {
    hide Ctr, NextWord, FromWords, ToWords, Word, ByteOf, Lmic.Served;
    var a := new bv8[|data|](i requires 0 <= i < |data| => data[i]);
    assert a[..] == data;
    var lmic := new Lmic.Driver(e);
    LoadLmic(lmic, aux);
    AllServed(data);
    assert a[..Lmic.Served(|data|)] == data;
    var r := lmic.OsAes(AES_CTR, a, |data|);
    x := a[..];
    assert x == a[..|data|];
  }

  lemma AllServed(data: seq<bv8>)
    requires |data| < 128
    ensures Lmic.Served(|data|) == |data|
  {
  }

  method OtherCtr(e: Cipher, aux: Block, data: seq<bv8>) returns (x: seq<bv8>)
    ensures x == Ctr(e, NextByte, aux, data)
  {
    hide Ctr, NextByte;
    var a := new bv8[|data|](i requires 0 <= i < |data| => data[i]);
    assert a[..|data|] == data;
    var other := new Other.Driver(e);
    LoadOther(other, aux);
    var r := other.OsAes(AES_CTR, a, |data|);
    x := a[..];
    assert x == a[..|data|];
  }

  /** Both drivers in counter mode on copies of the same data, as LoRaWAN payloads use it. */
  method BothCtrs(e: Cipher, aux: Block, data: seq<bv8>) returns (x: seq<bv8>, y: seq<bv8>)
    requires |data| < 128 && aux[15] as int + Extra(data) < 256
    ensures x == y == Ctr(e, NextByte, aux, data)
  {
    hide Ctr, NextByte, NextWord;
    x := LmicCtr(e, aux, data);
    y := OtherCtr(e, aux, data);
    SameCtr(e, aux, data);
  }

  method LoadLmic(d: Lmic.Driver, aux: Block)
    requires d.Valid()
    modifies d.aux
    ensures d.Valid() && FromWords(d.Entry()) == aux
  {
    hide FromWords, ToWords, Word, ByteOf;
    var w := ToWords(aux);
    SwapTwice(w.a0);
    SwapTwice(w.a1);
    SwapTwice(w.a2);
    SwapTwice(w.a3);
    d.aux[0], d.aux[1], d.aux[2], d.aux[3] := Lmic.Swap(w.a0), Lmic.Swap(w.a1), Lmic.Swap(w.a2), Lmic.Swap(w.a3);
    assert d.Entry() == w;
    WordsOfBytes(aux);
  }

  lemma SwapTwice(w: bv32)
    ensures Lmic.Swap(Lmic.Swap(w)) == w
  {
  }

  method LoadOther(d: Other.Driver, aux: Block)
    requires d.Valid()
    modifies d.aux
    ensures d.Valid() && d.aux[..] == aux
  {
    forall i | 0 <= i < 16 { d.aux[i] := aux[i]; }
  }
}
