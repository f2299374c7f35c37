/**
 aes/lmic.c: the driver that works on four 32-bit words, one loop for all modes, driven by
 flag bits of the mode. The ten AES rounds of the loop body stand as one block cipher.
 */
module AesLmic {
  import opened AesSpec
  import opened AesSteps

  const AES_MICSUB: bv8 := 0x30

  /** swapmsbf on a little-endian host. */
  function Swap(w: bv32): bv32 {
    Word(ByteOf(w, 3), ByteOf(w, 2), ByteOf(w, 1), ByteOf(w, 0))
  }

  function EncryptWords(e: Cipher, w: Words): Words {
    ToWords(e(FromWords(w)))
  }

  /** One byte pushed into a word from the right. */
  function Push(w: bv32, b: bv8): bv32 {
    (w << 8) | (b as bv32)
  }

  function Top(w: bv32): bv8 {
    (w >> 24) as bv8
  }

  /** A word after r of its bytes have been shifted out. */
  function ShiftedOut(w: bv32, r: nat): bv32 {
    if r == 0 then w else ShiftByteOut(ShiftedOut(w, r - 1))
  }

  function ShiftByteOut(w: bv32): bv32 {
    w << 8
  }

  /** (signed char)len > 0 */
  predicate CharPositive(len: nat) {
    0 < len % 256 < 128
  }

  predicate IsMode(mode: bv8) {
    mode == 0 || mode == 8 || mode == 2 || mode == 10 || mode == 4 || mode == 12
  }

  function Smaller(a: nat, b: nat): nat {
    if a < b then a else b
  }

  /**
   The bytes the loop comes to before its test fails: all of them up to 127, none where the
   low byte of the length reads as zero or negative, and from 256 on only the blocks its low byte reaches into.
   */
  function Served(len: nat): (served: nat)
    ensures served <= len && (served == len || served % 16 == 0)
  {
    if !CharPositive(len) then 0 else if len < 256 then len else (len % 256 + 15) / 16 * 16
  }

  /** A length that has not gone below zero: its low byte decides. */
  lemma LowByte(q: int, r: int)
    requires 0 <= q < 256 && 0 <= r < 256
    ensures (256 * q + r) % 65536 == 256 * q + r && (256 * q + r) % 256 == r
  {
  }

  /** A length that has gone below zero comes round to the top of the range. */
  lemma BelowZero(d: int)
    requires -16 < d < 0
    ensures !CharPositive(d % 65536)
  {
    assert d % 65536 == 65536 + d;
    LowByte(255, 256 + d);
  }

  /** The loop goes on exactly while there are bytes to serve. */
  lemma LoopTest(len: nat, p: nat)
    requires len < 65536 && CharPositive(len) && p % 16 == 0 && p < Served(len) + 16
    ensures CharPositive((len - p) % 65536) <==> p < Served(len)
    ensures p < Served(len) ==> (len - p) % 65536 == len - p && Smaller(len - p, 16) == Smaller(Served(len) - p, 16)
  {
    var q, low := len / 256, len % 256;
    if p < low {
      LowByte(q, low - p);
    } else if p == low {
      LowByte(q, 0);
    } else if q == 0 {
      BelowZero(low - p);
    } else {
      LowByte(q - 1, 256 + low - p);
    }
    if len >= 256 {
      var blocks := (low + 15) / 16;
      assert low <= 16 * blocks < low + 16;
      assert p == 16 * (p / 16);
    }
  }

  /** The data with its last block filled up, as the codebook mode of this driver loads it. */
  function FilledUp(data: seq<bv8>): (r: seq<bv8>)
    ensures |r| % 16 == 0 && |data| <= |r| < |data| + 16
  {
    var whole := |data| / 16 * 16;
    if |data| == whole then data else data[..whole] + Pad(data[whole..])
  }

  lemma FilledBlock(data: seq<bv8>, p: nat)
    requires p % 16 == 0 && p < |data|
    ensures p + 16 <= |FilledUp(data)| && FilledUp(data)[p..p + 16] == Padded(data[p..p + Smaller(|data| - p, 16)])
  {
    hide Pad;
    var whole := |data| / 16 * 16;
    if p + 16 <= |data| {
      assert FilledUp(data)[p..p + 16] == data[p..p + 16];
    } else {
      assert p == whole && data[p..p + Smaller(|data| - p, 16)] == data[whole..];
    }
  }

  /** What one turn of the loop does to the buffer and to the AUX block. */
  ghost predicate Turned(e: Cipher, mode0: bv8, p: nat, len: nat, was: seq<bv8>, state0: Block,
                         mode: bv8, next: nat, left: nat, now: seq<bv8>, state: Block)
    requires IsMode(mode0) && 0 < len && p + len <= |was|
    requires mode0 & !AES_MICNOAUX == AES_ENC ==> p + 16 <= |was|
  {
    var n := Smaller(len, 16);
    && mode == mode0 | AES_MICNOAUX
    && (mode0 == AES_MIC ==> next == p && left == len && now == was && state == e(state0))
    && (mode0 != AES_MIC ==> next == p + 16 && left == (len - 16) % 65536)
    && (mode0 == AES_MIC | AES_MICNOAUX ==>
          now == was && state == e(Absorbed(e, state0, was[p..p + n], len <= 16)))
    && (mode0 & !AES_MICNOAUX == AES_CTR ==>
          && state == NextWord(state0)
          && now == was[..p] + Xor(was[p..p + n], e(state0)[..n]) + was[p + n..])
    && (mode0 & !AES_MICNOAUX == AES_ENC ==> now == was[..p] + e(Padded(was[p..p + n])) + was[p + 16..])
  }

  /** The state of the loop of os_aes: the mode bits say which of the three progresses applies. */
  ghost predicate Loop(e: Cipher, mode0: bv8, first: Block, data: seq<bv8>, all: seq<bv8>,
                       mode: bv8, p: nat, len: nat, now: seq<bv8>, state: Block)
  {
    var served := Served(|data|);
    var at := Smaller(p, served);
    var ecb := mode0 & !AES_MICNOAUX == AES_ENC;
    var end := if ecb then p else at;
    && IsMode(mode0) && |data| < 65536 && data <= all
    && (ecb ==> |FilledUp(data[..served])| <= |all|)
    && (mode == mode0 || mode == mode0 | AES_MICNOAUX)
    && p % 16 == 0 && p < served + 16 && len == (|data| - p) % 65536
    && |now| == |all| && end <= |all| && now[end..] == all[end..]
    && (if !CharPositive(|data|) then p == 0 && now == all && state == first
        else if mode0 & AES_MIC != 0 then
          && now == all
          && (mode == AES_MIC ==> p == 0 && state == first)
          && (mode == AES_MIC | AES_MICNOAUX ==> MacProgress(e, first, mode0 == AES_MIC, data, at, state))
        else if mode0 & AES_CTR != 0 then CtrProgress(e, NextWord, first, data[..served], now[..at], state)
        else EcbProgress(e, FilledUp(data[..served]), now[..p]))
  }

  lemma LoopStart(e: Cipher, mode0: bv8, first: Block, data: seq<bv8>, all: seq<bv8>)
    requires IsMode(mode0) && |data| < 65536 && data <= all
    requires mode0 & !AES_MICNOAUX == AES_ENC ==> |FilledUp(data[..Served(|data|)])| <= |all|
    requires mode0 == AES_MIC | AES_MICNOAUX ==> first == ZERO_BLOCK
    ensures Loop(e, mode0, first, data, all, mode0, 0, |data|, all, first)
  {
    hide Served;
  }

  lemma CanTurn(e: Cipher, mode0: bv8, first: Block, data: seq<bv8>, all: seq<bv8>,
                mode: bv8, p: nat, len: nat, now: seq<bv8>, state: Block)
    requires Loop(e, mode0, first, data, all, mode, p, len, now, state) && CharPositive(len)
    ensures CharPositive(|data|) && IsMode(mode) && p < Served(|data|) && |data| <= |all| == |now| && len == |data| - p
    ensures mode & !AES_MICNOAUX == AES_ENC ==> p + 16 <= |all|
  {
    hide MacProgress, CtrProgress, EcbProgress, Served, FilledUp;
    if CharPositive(|data|) {
      LoopTest(|data|, p);
    }
  }

  lemma LoopTurn(e: Cipher, mode0: bv8, first: Block, data: seq<bv8>, all: seq<bv8>,
                 mode: bv8, p: nat, len: nat, was: seq<bv8>, state0: Block,
                 mode': bv8, p': nat, len': nat, now: seq<bv8>, state: Block)
    requires Loop(e, mode0, first, data, all, mode, p, len, was, state0) && CharPositive(len)
    requires IsMode(mode) && p < Served(|data|) && len == |data| - p && CharPositive(|data|)
    requires mode & !AES_MICNOAUX == AES_ENC ==> p + 16 <= |all|
    requires Turned(e, mode, p, len, was, state0, mode', p', len', now, state)
    ensures Loop(e, mode0, first, data, all, mode', p', len', now, state)
    ensures mode' & AES_MICNOAUX != 0 && ((mode & AES_MICNOAUX == 0 && p' == p) || p' == p + 16)
  {
    hide MacProgress, CtrProgress, EcbProgress;
    if mode0 & AES_MIC != 0 {
      MicTurn(e, mode0, first, data, all, mode, p, len, was, state0, mode', p', len', now, state);
    } else if mode0 & AES_CTR != 0 {
      CtrTurn(e, mode0, first, data, all, mode, p, len, was, state0, mode', p', len', now, state);
    } else {
      EcbTurn(e, mode0, first, data, all, mode, p, len, was, state0, mode', p', len', now, state);
    }
  }

  lemma MicTurn(e: Cipher, mode0: bv8, first: Block, data: seq<bv8>, all: seq<bv8>,
                 mode: bv8, p: nat, len: nat, was: seq<bv8>, state0: Block,
                 mode': bv8, p': nat, len': nat, now: seq<bv8>, state: Block)
    requires Loop(e, mode0, first, data, all, mode, p, len, was, state0) && CharPositive(len)
    requires IsMode(mode) && p < Served(|data|) && len == |data| - p && CharPositive(|data|)
    requires mode0 & AES_MIC != 0
    requires Turned(e, mode, p, len, was, state0, mode', p', len', now, state)
    ensures Loop(e, mode0, first, data, all, mode', p', len', now, state)
  {
    hide MacProgress, CtrProgress, EcbProgress, Absorbed, Xor, NextWord, Served, FilledUp, CharPositive;
    var next := p + Smaller(len, 16);
    LoopTest(|data|, p);
    SameSlice(was, all, data, p, next);
    if mode == AES_MIC {
      MacStart(e, first, true, data);
    } else {
      MacExtend(e, first, mode0 == AES_MIC, data, p, state0);
    }
  }

  lemma CtrTurn(e: Cipher, mode0: bv8, first: Block, data: seq<bv8>, all: seq<bv8>,
                 mode: bv8, p: nat, len: nat, was: seq<bv8>, state0: Block,
                 mode': bv8, p': nat, len': nat, now: seq<bv8>, state: Block)
    requires Loop(e, mode0, first, data, all, mode, p, len, was, state0) && CharPositive(len)
    requires IsMode(mode) && p < Served(|data|) && len == |data| - p && CharPositive(|data|)
    requires mode0 & AES_CTR != 0
    requires Turned(e, mode, p, len, was, state0, mode', p', len', now, state)
    ensures Loop(e, mode0, first, data, all, mode', p', len', now, state)
  {
    hide MacProgress, CtrProgress, EcbProgress, Absorbed, Xor, NextWord, Served, FilledUp, CharPositive;
    var next := p + Smaller(len, 16);
    LoopTest(|data|, p);
    CtrBlock(e, first, data[..Served(|data|)], all, p, next, was, state0, now);
  }

  lemma CtrBlock(e: Cipher, first: Block, served: seq<bv8>, all: seq<bv8>, p: nat, next: nat,
                 was: seq<bv8>, state0: Block, now: seq<bv8>)
    requires served <= all && p < |served| <= |was| == |all| && was[p..] == all[p..]
    requires next == p + Smaller(|served| - p, 16)
    requires CtrProgress(e, NextWord, first, served, was[..p], state0)
    requires now == was[..p] + Xor(was[p..next], e(state0)[..next - p]) + was[next..]
    ensures |now| == |all| && now[next..] == all[next..]
    ensures CtrProgress(e, NextWord, first, served, now[..next], NextWord(state0))
  {
    hide CtrProgress, Xor, NextWord;
    SameSlice(was, all, served, p, next);
    var part := Xor(served[p..next], e(state0)[..next - p]);
    CtrExtend(e, NextWord, first, served, was[..p], state0, part);
    Respliced(all, was, p, part, now);
  }

  lemma EcbTurn(e: Cipher, mode0: bv8, first: Block, data: seq<bv8>, all: seq<bv8>,
                 mode: bv8, p: nat, len: nat, was: seq<bv8>, state0: Block,
                 mode': bv8, p': nat, len': nat, now: seq<bv8>, state: Block)
    requires Loop(e, mode0, first, data, all, mode, p, len, was, state0) && CharPositive(len)
    requires IsMode(mode) && p < Served(|data|) && len == |data| - p && CharPositive(|data|)
    requires mode0 & !AES_MICNOAUX == AES_ENC && p + 16 <= |all|
    requires Turned(e, mode, p, len, was, state0, mode', p', len', now, state)
    ensures Loop(e, mode0, first, data, all, mode', p', len', now, state)
  {
    hide MacProgress, CtrProgress, EcbProgress, Absorbed, Xor, NextWord, Served, FilledUp, CharPositive, Padded;
    var next := p + Smaller(len, 16);
    var served := data[..Served(|data|)];
    LoopTest(|data|, p);
    SameSlice(was, all, served, p, next);
    FilledBlock(served, p);
    EcbExtend(e, FilledUp(served), was[..p]);
    Respliced(all, was, p, e(Padded(was[p..next])), now);
  }

  lemma SameSlice(was: seq<bv8>, all: seq<bv8>, data: seq<bv8>, p: nat, next: nat)
    requires p <= next <= |data| <= |all| == |was| && data <= all && was[p..] == all[p..]
    ensures was[p..next] == data[p..next]
  {
  }

  lemma Respliced(all: seq<bv8>, was: seq<bv8>, p: nat, part: seq<bv8>, now: seq<bv8>)
    requires |all| == |was| && p + |part| <= |all| && was[p..] == all[p..]
    requires now == was[..p] + part + was[p + |part|..]
    ensures |now| == |all| && now[..p + |part|] == was[..p] + part && now[p + |part|..] == all[p + |part|..]
  {
  }

  lemma LoopEnd(e: Cipher, mode0: bv8, first: Block, data: seq<bv8>, all: seq<bv8>,
                mode: bv8, p: nat, len: nat, now: seq<bv8>, state: Block)
    requires Loop(e, mode0, first, data, all, mode, p, len, now, state) && !CharPositive(len)
    ensures data <= all
    ensures mode0 & AES_MIC != 0 ==> now == all
    ensures !CharPositive(|data|) ==> now == all && state == first
    ensures mode0 & AES_MIC != 0 && CharPositive(|data|) ==> MicEnd(e, first, mode0 == AES_MIC, data, state)
    ensures var served := Served(|data|);
            mode0 & AES_CTR != 0 ==>
              now[..served] == Ctr(e, NextWord, first, data[..served]) && now[served..] == all[served..]
    ensures var filled := FilledUp(data[..Served(|data|)]);
            mode0 & !AES_MICNOAUX == AES_ENC ==>
              |filled| <= |all| && now[..|filled|] == Ecb(e, filled) && now[|filled|..] == all[|filled|..]
  {
    hide MacProgress, CtrProgress, EcbProgress, Cmac, Ctr, Ecb, Message, NextWord, Served, FilledUp, MicEnd,
         CharPositive;
    if CharPositive(|data|) {
      var served := data[..Served(|data|)];
      LoopTest(|data|, p);
      if mode0 & AES_MIC != 0 {
        MicEnds(e, first, mode0 == AES_MIC, data, state);
      } else if mode0 & AES_CTR != 0 {
        CtrEnd(e, NextWord, first, served, now[..|served|], state);
      } else {
        FilledLength(served, p);
        EcbEnd(e, FilledUp(served), now[..p]);
      }
    } else {
      NothingServed(data);
    }
  }

  lemma FilledLength(data: seq<bv8>, p: nat)
    requires p % 16 == 0 && |data| <= p < |data| + 16
    ensures p == |FilledUp(data)|
  {
    hide FilledUp;
    assert p == 16 * (p / 16) && |FilledUp(data)| == 16 * (|FilledUp(data)| / 16);
  }

  lemma NothingServed(data: seq<bv8>)
    requires !CharPositive(|data|)
    ensures Served(|data|) == 0 && FilledUp(data[..0]) == []
  {
  }

  /**
   What the loop leaves in AUX for a MAC: the MAC up to 127 bytes, and from 256 on the
   chaining value over the blocks served, the last block never taken for the last.
   */
  ghost predicate MicEnd(e: Cipher, first: Block, prependAux: bool, data: seq<bv8>, state: Block)
    requires CharPositive(|data|)
  {
    var m := Message(first, prependAux, data);
    if |data| < 256 then state == Cmac(e, m)
    else
      var blocks := Served(|data|) / 16 + if prependAux then 1 else 0;
      16 * blocks <= |m| && state == Chain(e, m, blocks)
  }

  lemma MicEnds(e: Cipher, first: Block, prependAux: bool, data: seq<bv8>, state: Block)
    requires CharPositive(|data|) && MacProgress(e, first, prependAux, data, Served(|data|), state)
    ensures MicEnd(e, first, prependAux, data, state)
  {
    hide Cmac, Chain;
  }

  class Driver {
    /** AESAUX */
    const aux: array<bv32>
    /** the cipher under AESKEY, as a map on blocks */
    const e: Cipher

    ghost predicate Valid() {
      aux.Length == 4
    }

    function AuxWords(): Words
      requires Valid()
      reads aux
    {
      Words(aux[0], aux[1], aux[2], aux[3])
    }

    /** The AUX block as the caller wrote it, byte by byte. */
    ghost function Entry(): Words
      requires Valid()
      reads aux
    {
      Words(Swap(aux[0]), Swap(aux[1]), Swap(aux[2]), Swap(aux[3]))
    }

    constructor (cipher: Cipher)
      ensures Valid() && fresh(aux) && AuxWords() == Words(0, 0, 0, 0) && e == cipher
    {
      aux := new bv32[4](_ => 0);
      e := cipher;
    }

    method StoreAux(w: Words)
      requires Valid()
      modifies aux
      ensures AuxWords() == w
    {
      aux[0], aux[1], aux[2], aux[3] := w.a0, w.a1, w.a2, w.a3;
    }

    /** LOADDATA: sixteen bytes through a shift register of words, the padding bit after the last one. */
    method LoadData(buf: array<bv8>, p: nat, len: nat) returns (a: Words)
      requires 0 < len && p + len <= buf.Length
      ensures a == ToWords(Padded(buf[p..p + Smaller(len, 16)]))
    {
      hide Padded, Push, Loading;
      ghost var block := Padded(buf[p..p + Smaller(len, 16)]);
      a := Words(0, 0, 0, 0);
      var t1: bv32 := 0;
      LoadStart(block, t1, a);
      for t0 := 0 to 16
        invariant Loading(block, t0, t1, a)
      {
        var b := if t0 < len then buf[p + t0] else if t0 == len then 0x80 else 0x00;
        LoadedByte(buf[p..p + Smaller(len, 16)], t0);
        LoadStep(block, t0, t1, a);
        t1 := Push(t1, b);
        if t0 % 4 == 3 {
          a := Words(a.a1, a.a2, a.a3, t1);
        }
      }
      LoadEnd(block, t1, a);
    }

    /** The subkey: doubled once for K1, twice for K2. */
    method Subkey(a0: Words, times: bv8) returns (a: Words)
      requires times == 1 || times == 2
      ensures FromWords(a) == if times == 1 then Double(FromWords(a0)) else Double(Double(FromWords(a0)))
    {
      hide FromWords, Double;
      a := a0;
      var t1 := times;
      ghost var start := FromWords(a0);
      while t1 != 0
        invariant t1 <= times
        invariant FromWords(a) == if t1 == times then start
                                  else if t1 == 1 || times == 1 then Double(start)
                                  else Double(Double(start))
        decreases t1
      {
        a := DoubleRound(a);
        t1 := t1 - 1;
      }
    }

    method DoubleRound(w: Words) returns (a: Words)
      ensures FromWords(a) == Double(FromWords(w))
    {
      hide FromWords, Double, TopBit, ShiftWord, XorWord;
      a := w;
      var t0 := TopBit(a.a0);
      a := a.(a0 := ShiftWord(a.a0, a.a1));
      a := a.(a1 := ShiftWord(a.a1, a.a2));
      a := a.(a2 := ShiftWord(a.a2, a.a3));
      a := a.(a3 := ShiftWord(a.a3, 0));
      if t0 {
        a := a.(a3 := XorWord(a.a3, 0x87));
      }
      assert a == DoubleWords(w);
      DoubleOfWords(w);
    }

    /** The payload loop: up to sixteen bytes are combined with the words, high byte first. */
    method XorStream(buf: array<bv8>, p: nat, len: nat, w: Words)
      requires 0 < len && p + len <= buf.Length
      modifies buf
      ensures var n := Smaller(len, 16);
              buf[..] == old(buf[..p]) + Xor(old(buf[p..p + n]), FromWords(w)[..n]) + old(buf[p + n..])
    {
      hide XorByte, ShiftByteOut, Top, FromWords, Unloading;
      var a := w;
      ghost var stream := FromWords(w);
      UnloadStart(w);
      var t0 := if len > 16 then 16 else len;
      for t1 := 0 to t0
        invariant Unloading(w, t1, a)
        invariant forall k :: p <= k < p + t1 ==> buf[k] == XorByte(old(buf[k]), stream[k - p])
        invariant forall k :: 0 <= k < buf.Length && !(p <= k < p + t1) ==> buf[k] == old(buf[k])
      {
        UnloadStep(w, t1, a);
        buf[p + t1] := XorByte(buf[p + t1], Top(a.a0));
        a := a.(a0 := ShiftByteOut(a.a0));
        if t1 % 4 == 3 {
          a := a.(a0 := a.a1, a1 := a.a2, a2 := a.a3);
        }
      }
      Assembled(buf[..], old(buf[..]), p, p + t0, Xor(old(buf[p..p + t0]), stream[..t0]));
    }

    /** msbf4_write of the four words. */
    method WriteBlock(buf: array<bv8>, p: nat, w: Words)
      requires p + 16 <= buf.Length
      modifies buf
      ensures buf[..] == old(buf[..p]) + FromWords(w) + old(buf[p + 16..])
    {
      hide ByteOf;
      WriteWord(buf, p, w.a0);
      WriteWord(buf, p + 4, w.a1);
      WriteWord(buf, p + 8, w.a2);
      WriteWord(buf, p + 12, w.a3);
      Assembled(buf[..], old(buf[..]), p, p + 16, FromWords(w));
    }

    method WriteWord(buf: array<bv8>, p: nat, w: bv32)
      requires p + 4 <= buf.Length
      modifies buf
      ensures forall k :: 0 <= k < buf.Length ==> buf[k] == if p <= k < p + 4 then ByteOf(w, k - p) else old(buf[k])
    {
      buf[p], buf[p + 1], buf[p + 2], buf[p + 3] := ByteOf(w, 0), ByteOf(w, 1), ByteOf(w, 2), ByteOf(w, 3);
    }

    /** The subkey goes into AUX, then the last block is loaded, combined and encrypted. */
    method LastBlock(buf: array<bv8>, p: nat, len: nat, zeros: Words, t1: bv8) returns (a: Words)
      requires Valid() && 0 < len <= 16 && p + len <= buf.Length
      requires t1 == if len == 16 then 1 else 2
      requires FromWords(zeros) == e(ZERO_BLOCK)
      modifies aux
      ensures FromWords(a) == e(Absorbed(e, FromWords(old(AuxWords())), buf[p..p + len], true))
    {
      hide FromWords, ToWords, Double, Xor, Pad, Padded, XorWords, K1, K2, Absorbed;
      ghost var entry := AuxWords();
      var subkey := Subkey(zeros, t1);
      Subkeys(e, FromWords(subkey), t1);
      StoreAux(XorWords(AuxWords(), subkey));
      a := LoadData(buf, p, len);
      a := XorWords(a, AuxWords());
      LastTurn(e, entry, buf[p..p + len], subkey);
      EncryptedWords(e, a);
      a := EncryptWords(e, a);
    }

    /**
     One turn of the loop of os_aes. A MAC starts with a turn that only encrypts the AUX block;
     its last turn first encrypts zeros for the subkey and then goes back to load the data.
     */
    method Turn(mode0: bv8, buf: array<bv8>, p: nat, len: nat) returns (mode: bv8, next: nat, left: nat)
      requires Valid() && 0 < len && p + len <= buf.Length && IsMode(mode0)
      requires mode0 == AES_ENC || mode0 == AES_ENC | AES_MICNOAUX ==> p + 16 <= buf.Length
      modifies aux, buf
      ensures Turned(e, mode0, p, len, old(buf[..]), FromWords(old(AuxWords())), mode, next, left, buf[..],
                     FromWords(AuxWords()))
    {
      hide FromWords, ToWords, Double, Xor, Pad, Padded, XorWords, NextWord, K1, K2, Absorbed;
      mode, next, left := mode0, p, len;
      ghost var entry := AuxWords();
      var a: Words;
      if mode & AES_CTR != 0 || (mode & AES_MIC != 0 && mode & AES_MICNOAUX == 0) {
        a := AuxWords();
      } else if mode & AES_MIC != 0 && len <= 16 {
        a := Words(0, 0, 0, 0);
        mode := mode | ((if len == 16 then 1 else 2) << 4);
      } else {
        a := LoadData(buf, p, len);
        if mode & AES_MIC != 0 {
          InnerTurn(e, a, AuxWords(), buf[p..p + Smaller(len, 16)]);
          a := XorWords(a, AuxWords());
        } else {
          WordsOfBytes(Padded(buf[p..p + Smaller(len, 16)]));
        }
      }
      EncryptedWords(e, a);
      ghost var input := a;
      a := EncryptWords(e, a);
      if mode & AES_MIC != 0 {
        var t1 := (mode & AES_MICSUB) >> 4;
        if t1 != 0 {
          ZeroWords();
          a := LastBlock(buf, p, len, a, t1);
          mode := mode & !AES_MICSUB;
        }
        StoreAux(a);
      } else if mode & AES_CTR != 0 {
        XorStream(buf, p, len, a);
        StepCounter(entry);
        aux[3] := aux[3] + 1;
      } else {
        WriteBlock(buf, p, a);
      }
      if mode & AES_MIC == 0 || mode & AES_MICNOAUX != 0 {
        next, left := p + 16, (len - 16) % 65536;
      }
      mode := mode | AES_MICNOAUX;
    }

    /** The AUX block once the words have been put in order, or cleared. */
    ghost function Start(mode: bv8): Block
      requires Valid()
      reads aux
    {
      if mode & AES_MICNOAUX != 0 then ZERO_BLOCK else FromWords(Entry())
    }

    /**
     os_aes for every two-byte length. The loop test reads the length as a signed character:
     up to 127 bytes all are served, nothing at all happens for 128 to 255, and beyond that
     only the blocks that the low byte of the length reaches into are.
     */
    method OsAes(mode0: bv8, buf: array<bv8>, len0: nat) returns (r: bv32)
      requires Valid() && len0 <= buf.Length && len0 < 65536 && IsMode(mode0)
      requires mode0 & !AES_MICNOAUX == AES_ENC ==> |FilledUp(buf[..Served(len0)])| <= buf.Length
      modifies aux, buf
      ensures Valid() && r == aux[0]
      ensures mode0 & !AES_MICNOAUX == AES_MIC && 0 < len0 < 128 ==>
                r == MsbWord(Cmac(e, Message(old(Start(mode0)), mode0 & AES_MICNOAUX == 0, buf[..len0])))
      ensures mode0 & !AES_MICNOAUX == AES_MIC && CharPositive(len0) && len0 >= 256 ==>
                var m := Message(old(Start(mode0)), mode0 & AES_MICNOAUX == 0, buf[..len0]);
                var blocks := Served(len0) / 16 + if mode0 & AES_MICNOAUX == 0 then 1 else 0;
                16 * blocks <= |m| && r == MsbWord(Chain(e, m, blocks))
      ensures mode0 & !AES_MICNOAUX == AES_MIC ==> buf[..] == old(buf[..])
      ensures mode0 & !AES_MICNOAUX == AES_CTR ==>
                var n := Served(len0);
                buf[..n] == Ctr(e, NextWord, old(Start(mode0)), old(buf[..n])) && buf[n..] == old(buf[n..])
      ensures mode0 & !AES_MICNOAUX == AES_ENC ==>
                var filled := FilledUp(old(buf[..Served(len0)]));
                buf[..|filled|] == Ecb(e, filled) && buf[|filled|..] == old(buf[|filled|..])
      ensures !CharPositive(len0) ==> buf[..] == old(buf[..]) && FromWords(AuxWords()) == old(Start(mode0))
    {
      hide FromWords, ToWords, MsbWord, Swap, Turned, Loop, Cmac, Chain, Message, Ctr, Ecb, NextWord, FilledUp, Served;
      var mode, p, len := mode0, 0, len0;
      if mode & AES_MICNOAUX != 0 {
        StoreAux(Words(0, 0, 0, 0));
      } else {
        StoreAux(Words(Swap(aux[0]), Swap(aux[1]), Swap(aux[2]), Swap(aux[3])));
      }
      ghost var start := AuxWords();
      ghost var all, data := buf[..], buf[..len0];
      ghost var first := FromWords(AuxWords());
      assert data[..Served(len0)] == old(buf[..Served(len0)]);
      ZeroWords();
      assert first == old(Start(mode0));
      LoopStart(e, mode0, first, data, all);
      while CharPositive(len)
        invariant Loop(e, mode0, first, data, all, mode, p, len, buf[..], FromWords(AuxWords()))
        decreases len0 + 17 - p - if mode & AES_MICNOAUX != 0 then 1 else 0
      {
        ghost var was, state := buf[..], FromWords(AuxWords());
        ghost var mode1, p1, len1 := mode, p, len;
        CanTurn(e, mode0, first, data, all, mode, p, len, was, state);
        mode, p, len := Turn(mode, buf, p, len);
        LoopTurn(e, mode0, first, data, all, mode1, p1, len1, was, state, mode, p, len, buf[..], FromWords(AuxWords()));
      }
      LoopEnd(e, mode0, first, data, all, mode, p, len, buf[..], FromWords(AuxWords()));
      FirstWord(AuxWords());
      BytesOfWords(AuxWords());
      BytesOfWords(start);
      r := aux[0];
    }
  }

  function WordAt(block: Block, q: int): bv32
    requires 0 <= q < 4
  {
    Word(block[4 * q], block[4 * q + 1], block[4 * q + 2], block[4 * q + 3])
  }

  /** The shift registers once i bytes of the block are in; t holds the last four of them. */
  ghost predicate Loading(block: Block, i: nat, t: bv32, a: Words) {
    && i <= 16
    && (i % 4 == 1 ==> ByteOf(t, 3) == block[i - 1])
    && (i % 4 == 2 ==> ByteOf(t, 2) == block[i - 2] && ByteOf(t, 3) == block[i - 1])
    && (i % 4 == 3 ==> ByteOf(t, 1) == block[i - 3] && ByteOf(t, 2) == block[i - 2] && ByteOf(t, 3) == block[i - 1])
    && (i >= 4 ==> a.a3 == WordAt(block, i / 4 - 1))
    && (i >= 8 ==> a.a2 == WordAt(block, i / 4 - 2))
    && (i >= 12 ==> a.a1 == WordAt(block, i / 4 - 3))
    && (i >= 16 ==> a.a0 == WordAt(block, 0))
  }

  lemma LoadStart(block: Block, t: bv32, a: Words)
    ensures Loading(block, 0, t, a)
  {
  }

  lemma LoadStep(block: Block, i: nat, t: bv32, a: Words)
    requires i < 16 && Loading(block, i, t, a)
    ensures var t' := Push(t, block[i]);
            Loading(block, i + 1, t', if i % 4 == 3 then Words(a.a1, a.a2, a.a3, t') else a)
  {
    hide Push, ByteOf, Word;
    PushBytes(t, block[i]);
    BytesWord(Push(t, block[i]));
  }

  lemma LoadEnd(block: Block, t: bv32, a: Words)
    requires Loading(block, 16, t, a)
    ensures a == ToWords(block)
  {
  }

  lemma PushBytes(t: bv32, b: bv8)
    ensures ByteOf(Push(t, b), 0) == ByteOf(t, 1) && ByteOf(Push(t, b), 1) == ByteOf(t, 2)
    ensures ByteOf(Push(t, b), 2) == ByteOf(t, 3) && ByteOf(Push(t, b), 3) == b
  {
  }

  lemma LoadedByte(data: seq<bv8>, i: nat)
    requires |data| <= 16 && i < 16
    ensures Padded(data)[i] == if i < |data| then data[i] else if i == |data| then 0x80 else 0x00
  {
  }

  lemma TopByteOf(w: bv32, r: nat)
    requires r < 4
    ensures Top(ShiftedOut(w, r)) == ByteOf(w, r)
  {
    hide Top, ByteOf, ShiftByteOut;
    TopByte0(w);
    TopByte1(w);
    TopByte2(w);
    TopByte3(w);
  }

  /** The words once i of their bytes have been taken, high byte first. */
  ghost predicate Unloading(w: Words, i: nat, a: Words) {
    && (i < 16 ==> a.a0 == ShiftedOut(w.At(i / 4), i % 4))
    && (i < 12 ==> a.a1 == w.At(i / 4 + 1))
    && (i < 8 ==> a.a2 == w.At(i / 4 + 2))
    && (i < 4 ==> a.a3 == w.At(3))
  }

  lemma UnloadStart(w: Words)
    ensures Unloading(w, 0, w)
  {
  }

  lemma UnloadStep(w: Words, i: nat, a: Words)
    requires i < 16 && Unloading(w, i, a)
    ensures Top(a.a0) == FromWords(w)[i]
    ensures Unloading(w, i + 1, if i % 4 == 3 then Words(a.a1, a.a2, a.a3, a.a3) else a.(a0 := ShiftByteOut(a.a0)))
  {
    hide ShiftByteOut, Top, ByteOf, FromWords, Words.At;
    TopByteOf(w.At(i / 4), i % 4);
    StreamByte(w, i);
  }

  lemma StreamByte(w: Words, i: nat)
    requires i < 16
    ensures FromWords(w)[i] == ByteOf(w.At(i / 4), i % 4)
  {
  }

  lemma TopByte0(w: bv32)
    ensures Top(w) == ByteOf(w, 0)
  {
  }

  lemma TopByte1(w: bv32)
    ensures Top(ShiftByteOut(w)) == ByteOf(w, 1)
  {
  }

  lemma TopByte2(w: bv32)
    ensures Top(ShiftByteOut(ShiftByteOut(w))) == ByteOf(w, 2)
  {
  }

  lemma TopByte3(w: bv32)
    ensures Top(ShiftByteOut(ShiftByteOut(ShiftByteOut(w)))) == ByteOf(w, 3)
  {
  }

  lemma EncryptedWords(e: Cipher, w: Words)
    ensures FromWords(EncryptWords(e, w)) == e(FromWords(w))
  {
    hide FromWords, ToWords;
    WordsOfBytes(e(FromWords(w)));
  }

  lemma ZeroWords()
    ensures FromWords(Words(0, 0, 0, 0)) == ZERO_BLOCK
  {
  }

  lemma Subkeys(e: Cipher, subkey: Block, times: bv8)
    requires times == 1 || times == 2
    requires subkey == if times == 1 then Double(e(ZERO_BLOCK)) else Double(Double(e(ZERO_BLOCK)))
    ensures subkey == if times == 1 then K1(e) else K2(e)
  {
  }

  lemma StepCounter(w: Words)
    ensures FromWords(w.(a3 := w.a3 + 1)) == NextWord(FromWords(w))
  {
    hide FromWords, ToWords;
    BytesOfWords(w);
  }

  /** A block of the message that is not the last. */
  lemma InnerTurn(e: Cipher, data: Words, aux: Words, block: seq<bv8>)
    requires |block| <= 16 && data == ToWords(Padded(block))
    ensures FromWords(XorWords(data, aux)) == Absorbed(e, FromWords(aux), block, false)
  {
    hide FromWords, ToWords, XorWords, Xor, Padded;
    XorOfWords(data, aux);
    WordsOfBytes(Padded(block));
    XorCommutes(FromWords(aux), Padded(block));
  }

  /** The last block, which meets the AUX words after the subkey did. */
  lemma LastTurn(e: Cipher, aux: Words, block: seq<bv8>, subkey: Words)
    requires |block| <= 16 && FromWords(subkey) == if |block| < 16 then K2(e) else K1(e)
    ensures FromWords(XorWords(ToWords(Padded(block)), XorWords(aux, subkey)))
            == Absorbed(e, FromWords(aux), block, true)
  {
    hide FromWords, ToWords, XorWords, Xor, Padded, K1, K2;
    var b, a, k := Padded(block), FromWords(aux), FromWords(subkey);
    WordsOfBytes(b);
    XorOfWords(ToWords(b), XorWords(aux, subkey));
    XorOfWords(aux, subkey);
    XorAssociates(b, a, k);
    XorCommutes(a, b);
  }

  lemma XorCommutes(a: Block, b: Block)
    ensures Xor(a, b) == Xor(b, a)
  {
  }

  lemma FirstWord(w: Words)
    ensures MsbWord(FromWords(w)) == w.a0
  {
  }
}
