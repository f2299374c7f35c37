/**
 aes/other.c: the driver written from RFC 4493. The AUX block is updated byte by byte
 in place; the data buffer is encrypted in place.
 */
module AesOther {
  import opened AesSpec
  import opened AesSteps

  /** shift_left: a moving pointer, the length counted down to zero. */
  method ShiftLeftInPlace(buf: array<bv8>)
    modifies buf
    ensures buf[..] == ShiftLeft(old(buf[..]))
  {
    var p: nat, len: nat := 0, buf.Length;
    while len > 0
      invariant p + len == buf.Length
      invariant forall k :: 0 <= k < p ==> buf[k] == ShiftLeft(old(buf[..]))[k]
      invariant forall k :: p <= k < buf.Length ==> buf[k] == old(buf[k])
    {
      len := len - 1;
      var next := if len > 0 then buf[p + 1] else 0;
      var val := buf[p] << 1;
      if next & 0x80 != 0 {
        val := val | 1;
      }
      LowBit(buf[p], next);
      buf[p] := val;
      p := p + 1;
    }
  }

  lemma LowBit(x: bv8, next: bv8)
    ensures ShiftByte(x, next) == if next & 0x80 != 0 then (x << 1) | 1 else x << 1
  {
  }

  /** The bytes of the blocks that a length reaches into. */
  function WholeBlocks(len: nat): (whole: nat)
    ensures whole % 16 == 0 && len <= whole < len + 16
  {
    (len + 15) / 16 * 16
  }

  lemma WholeBlocksLeft(len: nat, i: nat)
    requires i % 16 == 0 && i <= WholeBlocks(len) && len <= 240
    ensures if i < len then i + 16 <= WholeBlocks(len) <= 240 && (i + 16) % 256 == i + 16 && (i + 16) % 16 == 0
            else i == WholeBlocks(len)
  {
    var blocks := (len + 15) / 16;
    assert i == 16 * (i / 16);
  }

  /** The index of the codebook loop after n turns. */
  function IndexAfter(n: nat): nat
    decreases n
  {
    if n == 0 then 0 else (IndexAfter(n - 1) + 16) % 256
  }

  lemma NextIndex(i: nat)
    requires i % 16 == 0 && i <= 240
    ensures var next := (i + 16) % 256;
            next % 16 == 0 && next <= 240 && (i < 240 ==> next == i + 16)
  {
    assert i == 16 * (i / 16);
  }

  /** The index counts up in blocks to 240, and never gets beyond. */
  lemma {:induction false} IndexWraps(n: nat)
    ensures IndexAfter(n) % 16 == 0 && IndexAfter(n) <= 240
    ensures n <= 15 ==> IndexAfter(n) == 16 * n
    decreases n
  {
    if n > 0 {
      IndexWraps(n - 1);
      NextIndex(IndexAfter(n - 1));
    }
  }

  /** The codebook loop never ends exactly if the length is above 240: its index comes round to 0 again. */
  lemma EcbEndlessExactly(len: nat)
    ensures (forall n :: IndexAfter(n) < len) <==> len > 240
  {
    hide IndexAfter;
    IndexWraps(15);
    forall n
      ensures IndexAfter(n) <= 240
    {
      IndexWraps(n);
    }
  }

  class Driver {
    /** AESaux */
    const aux: array<bv8>
    /** lmic_aes_encrypt under AESkey */
    const e: Cipher

    ghost predicate Valid() {
      aux.Length == 16
    }

    constructor (cipher: Cipher)
      ensures Valid() && fresh(aux) && aux[..] == ZERO_BLOCK && e == cipher
    {
      aux := new bv8[16](_ => 0);
      e := cipher;
    }

    /** lmic_aes_encrypt on 16 bytes of a buffer. */
    method Encrypt(data: array<bv8>, at: nat)
      requires at + 16 <= data.Length
      modifies data
      ensures data[..] == old(data[..at]) + e(old(data[at..at + 16])) + old(data[at + 16..])
      ensures data.Length == 16 ==> data[..] == e(old(data[..]))
    {
      var block: Block := data[at..at + 16];
      var out := e(block);
      for i := 0 to 16
        invariant forall k :: at <= k < at + i ==> data[k] == out[k - at]
        invariant forall k :: 0 <= k < data.Length && !(at <= k < at + i) ==> data[k] == old(data[k])
      {
        data[at + i] := out[i];
      }
      Assembled(data[..], old(data[..]), at, at + 16, out);
      assert data.Length == 16 ==> block == old(data[..]) && data[..] == out;
    }

    /** One pass of the inner loop of os_aes_cmac: a block, or what is left and the padding bit. */
    method Absorb(buf: array<bv8>, pos: nat, len: nat) returns (next: nat, needPadding: bool)
      requires Valid() && buf != aux && pos < len <= buf.Length
      modifies aux
      ensures needPadding == (len - pos < 16)
      ensures next == if needPadding then len else pos + 16
      ensures aux[..] == Xor(old(aux[..]), Padded(buf[pos..next]))
    {
      hide Pad, Xor, XorByte;
      next, needPadding := pos, false;
      for i := 0 to 16
        invariant next == pos + i <= len
        invariant forall k :: 0 <= k < i ==> aux[k] == XorByte(old(aux[k]), buf[pos + k])
        invariant forall k :: i <= k < 16 ==> aux[k] == old(aux[k])
      {
        if next == len {
          aux[i] := XorByte(aux[i], 0x80);
          needPadding := true;
          PaddingBit(old(aux[..]), buf[pos..len], aux[..]);
          return;
        }
        aux[i] := XorByte(aux[i], buf[next]);
        next := next + 1;
      }
      WholeBlock(old(aux[..]), buf[pos..next], aux[..]);
    }

    method DoubleInPlace(key: array<bv8>)
      requires key.Length == 16
      modifies key
      ensures key[..] == Double(old(key[..]))
    {
      hide ShiftLeft;
      var msb := key[0] & 0x80;
      ShiftLeftInPlace(key);
      if msb != 0 {
        key[15] := key[15] ^ 0x87;
      }
    }

    /** The subkey for the last block: K1, shifted once more when padding was needed. */
    method FinalKey(needPadding: bool) returns (key: array<bv8>)
      ensures fresh(key) && key.Length == 16 && key[..] == if needPadding then K2(e) else K1(e)
    {
      hide Double;
      key := new bv8[16](_ => 0);
      assert key[..] == ZERO_BLOCK;
      Encrypt(key, 0);
      assert key[..] == e(ZERO_BLOCK);
      DoubleInPlace(key);
      if needPadding {
        DoubleInPlace(key);
      }
    }

    /** aux ^= key */
    method XorInto(key: array<bv8>)
      requires Valid() && key.Length == 16 && key != aux
      modifies aux
      ensures aux[..] == Xor(old(aux[..]), key[..])
    {
      hide XorByte;
      for i := 0 to 16
        invariant forall k :: 0 <= k < i ==> aux[k] == XorByte(old(aux[k]), key[k])
        invariant forall k :: i <= k < 16 ==> aux[k] == old(aux[k])
      {
        aux[i] := XorByte(aux[i], key[i]);
      }
    }

    /** One block of os_aes_cmac, the last one with its subkey. */
    method MacBlock(buf: array<bv8>, pos: nat, len: nat) returns (next: nat)
      requires Valid() && buf != aux && pos < len <= buf.Length
      modifies aux
      ensures next == if len - pos < 16 then len else pos + 16
      ensures aux[..] == e(Absorbed(e, old(aux[..]), buf[pos..next], next == len))
    {
      hide K1, K2, Xor, Padded;
      var needPadding;
      next, needPadding := Absorb(buf, pos, len);
      if next == len {
        var key := FinalKey(needPadding);
        XorInto(key);
      }
      Encrypt(aux, 0);
    }

    /** os_aes_cmac. An empty buffer leaves the first chaining value, which is not a MAC. */
    method OsAesCmac(buf: array<bv8>, len: nat, prependAux: bool)
      requires Valid() && buf != aux && len <= buf.Length
      modifies aux
      ensures len > 0 ==> aux[..] == Cmac(e, Message(old(aux[..]), prependAux, buf[..len]))
      ensures len == 0 ==> aux[..] == (if prependAux then e(old(aux[..])) else ZERO_BLOCK)
    {
      hide Cmac, MacProgress, Message, Absorbed, Xor, Pad, Padded, Double, K1, K2, Chain;
      ghost var first: Block, data := aux[..], buf[..len];
      MacStart(e, first, prependAux, data);
      if prependAux {
        Encrypt(aux, 0);
      } else {
        forall i | 0 <= i < 16 { aux[i] := 0; }
        assert aux[..] == ZERO_BLOCK;
      }
      var pos := 0;
      while pos < len
        invariant pos <= len
        invariant MacProgress(e, first, prependAux, data, pos, aux[..])
      {
        MacExtend(e, first, prependAux, data, pos, aux[..]);
        var next := MacBlock(buf, pos, len);
        assert buf[pos..next] == data[pos..next];
        pos := next;
      }
      MacEnd(e, first, prependAux, data, aux[..]);
      assert |data| == len && buf[..len] == data && first == old(aux[..]);
    }

    /** os_aes_ctr: only the last byte of the counter block is stepped. */
    method OsAesCtr(buf: array<bv8>, len: nat)
      requires Valid() && buf != aux && len <= buf.Length
      modifies aux, buf
      ensures buf[..len] == Ctr(e, NextByte, old(aux[..]), old(buf[..len])) && buf[len..] == old(buf[len..])
      ensures aux[..] == CounterAfter(NextByte, old(aux[..]), len)
    {
      hide Ctr, CounterAfter, Xor, NextByte;
      ghost var all := buf[..];
      ghost var data := buf[..len];
      ghost var first: Block := aux[..];
      ghost var done := [];
      var pos := 0;
      CtrStart(e, NextByte, first, data);
      while pos < len
        invariant pos <= len && |done| == pos
        invariant buf[..] == done + all[pos..]
        invariant CtrProgress(e, NextByte, first, data, done, aux[..])
      {
        ghost var counter: Block := aux[..];
        Spliced(done, all, pos, if len - pos <= 16 then len else pos + 16);
        var next := CtrBlock(buf, pos, len);
        ghost var part := Xor(all[pos..next], e(counter)[..next - pos]);
        CtrExtend(e, NextByte, first, data, done, counter, part);
        done := done + part;
        pos := next;
      }
      CtrEnd(e, NextByte, first, data, done, aux[..]);
      assert done + all[len..] == buf[..];
    }

    /** One block of os_aes_ctr. */
    method CtrBlock(buf: array<bv8>, pos: nat, len: nat) returns (next: nat)
      requires Valid() && buf != aux && pos < len <= buf.Length
      modifies aux, buf
      ensures next == if len - pos <= 16 then len else pos + 16
      ensures buf[..] == old(buf[..pos]) + Xor(old(buf[pos..next]), e(old(aux[..]))[..next - pos]) + old(buf[next..])
      ensures aux[..] == NextByte(old(aux[..]))
    {
      hide Xor;
      var ctr := new bv8[16](i requires 0 <= i < 16 reads aux => aux[i]);
      assert ctr[..] == aux[..];
      Encrypt(ctr, 0);
      next := XorBlock(buf, pos, len, ctr);
      aux[15] := aux[15] + 1;
    }

    /** The payload loop of os_aes_ctr: up to sixteen bytes are combined with the key stream. */
    method XorBlock(buf: array<bv8>, pos: nat, len: nat, ctr: array<bv8>) returns (next: nat)
      requires pos < len <= buf.Length && ctr.Length == 16 && ctr != buf
      modifies buf
      ensures next == if len - pos <= 16 then len else pos + 16
      ensures buf[..] == old(buf[..pos]) + Xor(old(buf[pos..next]), ctr[..next - pos]) + old(buf[next..])
    {
      hide XorByte;
      next := pos;
      var i := 0;
      while i < 16 && next < len
        invariant 0 <= i <= 16 && next == pos + i <= len
        invariant forall k :: 0 <= k < i ==> buf[pos + k] == XorByte(old(buf[pos + k]), ctr[k])
        invariant forall k :: 0 <= k < buf.Length && !(pos <= k < next) ==> buf[k] == old(buf[k])
      {
        buf[next] := XorByte(buf[next], ctr[i]);
        i, next := i + 1, next + 1;
      }
      Assembled(buf[..], old(buf[..]), pos, next, Xor(old(buf[pos..next]), ctr[..next - pos]));
    }

    /**
     The codebook loop of os_aes, its index one byte wide. A partial last block is encrypted
     with the bytes behind it, past the length.
     */
    method OsAesEcb(buf: array<bv8>, len: nat)
      requires buf != aux && WholeBlocks(len) <= buf.Length && len <= 240
      modifies buf
      ensures var whole := WholeBlocks(len);
              buf[..whole] == Ecb(e, old(buf[..whole])) && buf[whole..] == old(buf[whole..])
    {
      hide Ecb, EcbProgress, WholeBlocks;
      ghost var all := buf[..];
      ghost var whole := WholeBlocks(len);
      ghost var data := buf[..whole];
      ghost var done := [];
      var i := 0;
      EcbStart(e, data);
      while i < len
        invariant i <= whole && i % 16 == 0 && |done| == i
        invariant buf[..] == done + all[i..]
        invariant EcbProgress(e, data, done)
      {
        WholeBlocksLeft(len, i);
        Spliced(done, all, i, i + 16);
        SliceOfPrefix(all, whole, i, i + 16);
        EcbExtend(e, data, done);
        Encrypt(buf, i);
        done := done + e(data[i..i + 16]);
        i := (i + 16) % 256;
      }
      WholeBlocksLeft(len, i);
      EcbEnd(e, data, done);
      assert done + all[whole..] == buf[..];
    }

    /**
     os_aes. In codebook mode the loop ends only for lengths up to 240, and a partial last
     block is encrypted past the length.
     */
    method OsAes(mode: bv8, buf: array<bv8>, len: nat) returns (r: bv32)
      requires Valid() && buf != aux && len <= buf.Length
      requires mode & !AES_MICNOAUX == AES_ENC ==> len <= 240 && WholeBlocks(len) <= buf.Length
      modifies aux, buf
      ensures mode & !AES_MICNOAUX == AES_MIC && len > 0 ==>
                r == MsbWord(Cmac(e, Message(old(aux[..]), mode & AES_MICNOAUX == 0, buf[..len])))
      ensures mode & !AES_MICNOAUX == AES_MIC ==> buf[..] == old(buf[..]) && r == MsbWord(aux[..])
      ensures mode & !AES_MICNOAUX == AES_CTR ==>
                r == 0 && buf[..len] == Ctr(e, NextByte, old(aux[..]), old(buf[..len])) && buf[len..] == old(buf[len..])
      ensures mode & !AES_MICNOAUX == AES_ENC ==>
                var whole := WholeBlocks(len);
                r == 0 && buf[..whole] == Ecb(e, old(buf[..whole])) && buf[whole..] == old(buf[whole..])
    {
      hide Cmac, Message, Ctr, Ecb, MsbWord;
      r := 0;
      var kind := mode & !AES_MICNOAUX;
      if kind == AES_MIC {
        OsAesCmac(buf, len, mode & AES_MICNOAUX == 0);
        r := MsbWord(aux[..]);
      } else if kind == AES_ENC {
        OsAesEcb(buf, len);
      } else if kind == AES_CTR {
        OsAesCtr(buf, len);
      }
    }
  }
}
