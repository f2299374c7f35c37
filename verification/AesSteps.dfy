/**
 How a driver may build the MAC, counter mode and codebook mode one block at a time:
 the loop states of both os_aes drivers, and that each step keeps them.
 */
module AesSteps {
  import opened AesSpec

  const AES_ENC: bv8 := 0x00
  const AES_MIC: bv8 := 0x02
  const AES_CTR: bv8 := 0x04
  const AES_MICNOAUX: bv8 := 0x08

  /** The counter block once len bytes have been run through counter mode. */
  function CounterAfter(next: Block -> Block, counter: Block, len: nat): Block
    decreases len
  {
    if len == 0 then counter else CounterAfter(next, next(counter), if len <= 16 then 0 else len - 16)
  }

  /** The message a MAC covers. */
  function Message(aux: seq<bv8>, prependAux: bool, data: seq<bv8>): seq<bv8> {
    (if prependAux then aux else []) + data
  }

  lemma XorAssociates(a: Block, b: Block, c: Block)
    ensures Xor(Xor(a, b), c) == Xor(a, Xor(b, c))
  {
  }

  /** What the last block adds before the subkey. */
  function Padded(tail: seq<bv8>): Block
    requires |tail| <= 16
  {
    if |tail| == 16 then tail else Pad(tail)
  }

  /** A chaining value with one more block of the message, and with the subkey if it is the last. */
  function Absorbed(e: Cipher, chain: Block, block: seq<bv8>, last: bool): Block
    requires |block| <= 16
  {
    if !last then Xor(chain, Padded(block))
    else Xor(Xor(chain, Padded(block)), if |block| < 16 then K2(e) else K1(e))
  }

  /** The AUX block once pos bytes of the data are in. */
  ghost predicate MacProgress(e: Cipher, aux: Block, prependAux: bool, data: seq<bv8>, pos: nat, state: Block) {
    var m := Message(aux, prependAux, data);
    var at := pos + |m| - |data|;
    && pos <= |data|
    && (pos == 0 && !prependAux ==> state == ZERO_BLOCK)
    && (pos == 0 && prependAux ==> state == e(aux))
    && (pos < |data| ==> at % 16 == 0 && state == Chain(e, m, at / 16))
    && (pos == |data| > 0 ==> state == Cmac(e, m))
  }

  // ---------------------------------------------------------------- unfolding steps

  lemma PaddingBit(before: Block, tail: seq<bv8>, after: Block)
    requires |tail| < 16
    requires forall k :: 0 <= k < |tail| ==> after[k] == XorByte(before[k], tail[k])
    requires after[|tail|] == XorByte(before[|tail|], 0x80)
    requires forall k :: |tail| < k < 16 ==> after[k] == before[k]
    ensures after == Xor(before, Pad(tail))
  {
  }

  lemma WholeBlock(before: Block, block: Block, after: Block)
    requires forall k :: 0 <= k < 16 ==> after[k] == XorByte(before[k], block[k])
    ensures after == Xor(before, Padded(block))
  {
  }

  lemma MacStart(e: Cipher, aux: Block, prependAux: bool, data: seq<bv8>)
    ensures MacProgress(e, aux, prependAux, data, 0, if prependAux then e(aux) else ZERO_BLOCK)
  {
    if prependAux {
      assert Message(aux, prependAux, data)[0..16] == aux;
      ZeroXor(aux);
      assert Chain(e, Message(aux, prependAux, data), 0) == ZERO_BLOCK;
    }
  }

  lemma ZeroXor(b: Block)
    ensures Xor(ZERO_BLOCK, b) == b
  {
  }

  lemma MessageSlice(aux: Block, prependAux: bool, data: seq<bv8>, pos: nat, next: nat)
    requires pos <= next <= |data|
    ensures var m := Message(aux, prependAux, data);
            |m| >= |data| && data[pos..next] == m[pos + |m| - |data|..next + |m| - |data|]
  {
  }

  lemma MacExtend(e: Cipher, aux: Block, prependAux: bool, data: seq<bv8>, pos: nat, state: Block)
    requires MacProgress(e, aux, prependAux, data, pos, state) && pos < |data|
    ensures var next := if |data| - pos < 16 then |data| else pos + 16;
            MacProgress(e, aux, prependAux, data, next, e(Absorbed(e, state, data[pos..next], next == |data|)))
  {
    hide Cmac, Chain, Absorbed, Message;
    var next := if |data| - pos < 16 then |data| else pos + 16;
    var m := Message(aux, prependAux, data);
    var at := pos + |m| - |data|;
    MessageSlice(aux, prependAux, data, pos, next);
    if next == |data| {
      LastPart(e, m, at, state);
    } else {
      InnerPart(e, m, at, state);
    }
  }

  lemma InnerPart(e: Cipher, m: seq<bv8>, at: nat, state: Block)
    requires at % 16 == 0 && at + 16 <= |m| && state == Chain(e, m, at / 16)
    ensures (at + 16) % 16 == 0
    ensures Chain(e, m, (at + 16) / 16) == e(Absorbed(e, state, m[at..at + 16], false))
  {
    hide Chain, Absorbed;
    BlockAt(at);
    NextChain(e, m, at / 16);
  }

  lemma LastPart(e: Cipher, m: seq<bv8>, at: nat, state: Block)
    requires at % 16 == 0 && at < |m| <= at + 16 && state == Chain(e, m, at / 16)
    ensures Cmac(e, m) == e(Absorbed(e, state, m[at..|m|], true))
  {
    hide Chain, Absorbed, Cmac;
    BlockAt(at);
    LastChain(e, m, at / 16);
    assert m[at..|m|] == m[at..];
  }

  lemma BlockAt(at: nat)
    requires at % 16 == 0
    ensures at == 16 * (at / 16) && (at + 16) % 16 == 0 && (at + 16) / 16 == at / 16 + 1
  {
  }

  lemma NextChain(e: Cipher, m: seq<bv8>, n: nat)
    requires 16 * (n + 1) <= |m|
    ensures Chain(e, m, n + 1) == e(Absorbed(e, Chain(e, m, n), m[16 * n..16 * (n + 1)], false))
  {
  }

  lemma LastChain(e: Cipher, m: seq<bv8>, n: nat)
    requires 16 * n < |m| <= 16 * (n + 1)
    ensures Cmac(e, m) == e(Absorbed(e, Chain(e, m, n), m[16 * n..], true))
  {
    hide Chain, Pad, K1, K2, Xor;
    assert n == BlockCount(m) - 1;
    XorAssociates(Chain(e, m, n), Padded(m[16 * n..]), if |m[16 * n..]| < 16 then K2(e) else K1(e));
  }

  lemma MacEnd(e: Cipher, aux: Block, prependAux: bool, data: seq<bv8>, state: Block)
    requires MacProgress(e, aux, prependAux, data, |data|, state)
    ensures data != [] ==> state == Cmac(e, Message(aux, prependAux, data))
    ensures data == [] ==> state == if prependAux then e(aux) else ZERO_BLOCK
  {
  }

  /** Done is the key stream applied to the front of the data; the counter has kept pace. */
  ghost predicate CtrProgress(e: Cipher, next: Block -> Block, first: Block, data: seq<bv8>, done: seq<bv8>,
                              counter: Block) {
    && |done| <= |data|
    && done + Ctr(e, next, counter, data[|done|..]) == Ctr(e, next, first, data)
    && CounterAfter(next, counter, |data| - |done|) == CounterAfter(next, first, |data|)
  }

  lemma CtrStart(e: Cipher, next: Block -> Block, first: Block, data: seq<bv8>)
    ensures CtrProgress(e, next, first, data, [], first)
  {
  }

  lemma CtrStep(e: Cipher, next: Block -> Block, counter: Block, data: seq<bv8>, n: nat)
    requires 0 < n == if |data| <= 16 then |data| else 16
    ensures Ctr(e, next, counter, data) == Xor(data[..n], e(counter)[..n]) + Ctr(e, next, next(counter), data[n..])
    ensures CounterAfter(next, counter, |data|) == CounterAfter(next, next(counter), |data| - n)
  {
    hide Xor;
    if |data| <= 16 {
      assert data[..n] == data;
      assert data[n..] == [];
    } else {
      assert e(counter)[..16] == e(counter);
    }
  }

  lemma CtrExtend(e: Cipher, next: Block -> Block, first: Block, data: seq<bv8>, done: seq<bv8>, counter: Block,
                  part: seq<bv8>)
    requires CtrProgress(e, next, first, data, done, counter) && |done| < |data|
    requires |part| == if |data| - |done| <= 16 then |data| - |done| else 16
    requires part == Xor(data[|done|..|done| + |part|], e(counter)[..|part|])
    ensures CtrProgress(e, next, first, data, done + part, next(counter))
  {
    hide Xor, Ctr, CounterAfter;
    var rest := data[|done|..];
    CtrStep(e, next, counter, rest, |part|);
    assert rest[..|part|] == data[|done|..|done| + |part|];
    assert rest[|part|..] == data[|done + part|..];
    var tail := Ctr(e, next, next(counter), rest[|part|..]);
    assert done + (part + tail) == (done + part) + tail;
  }

  lemma CtrEnd(e: Cipher, next: Block -> Block, first: Block, data: seq<bv8>, done: seq<bv8>, counter: Block)
    requires CtrProgress(e, next, first, data, done, counter) && |done| == |data|
    ensures done == Ctr(e, next, first, data) && counter == CounterAfter(next, first, |data|)
  {
  }

  ghost predicate EcbProgress(e: Cipher, data: seq<bv8>, done: seq<bv8>) {
    |data| % 16 == |done| % 16 == 0 && |done| <= |data| && done + Ecb(e, data[|done|..]) == Ecb(e, data)
  }

  lemma EcbStart(e: Cipher, data: seq<bv8>)
    requires |data| % 16 == 0
    ensures EcbProgress(e, data, [])
  {
  }

  lemma EcbExtend(e: Cipher, data: seq<bv8>, done: seq<bv8>)
    requires EcbProgress(e, data, done) && |done| < |data|
    ensures EcbProgress(e, data, done + e(data[|done|..|done| + 16]))
  {
    var rest := data[|done|..];
    var part := e(data[|done|..|done| + 16]);
    assert rest[..16] == data[|done|..|done| + 16] && rest[16..] == data[|done + part|..];
    assert done + (part + Ecb(e, rest[16..])) == (done + part) + Ecb(e, rest[16..]);
  }

  lemma EcbEnd(e: Cipher, data: seq<bv8>, done: seq<bv8>)
    requires EcbProgress(e, data, done) && |done| == |data|
    ensures done == Ecb(e, data)
  {
  }

  lemma SliceOfPrefix(all: seq<bv8>, len: nat, i: nat, j: nat)
    requires i <= j <= len <= |all|
    ensures all[..len][i..j] == all[i..j]
  {
  }

  lemma Assembled(now: seq<bv8>, was: seq<bv8>, pos: nat, next: nat, part: seq<bv8>)
    requires pos <= next <= |now| == |was| && |part| == next - pos
    requires forall k :: 0 <= k < |now| ==> now[k] == if pos <= k < next then part[k - pos] else was[k]
    ensures now == was[..pos] + part + was[next..]
  {
  }

  /** Slices of a buffer whose front has been replaced. */
  lemma Spliced(done: seq<bv8>, all: seq<bv8>, pos: nat, next: nat)
    requires |done| == pos <= next <= |all|
    ensures var now := done + all[pos..];
            now[..pos] == done && now[pos..next] == all[pos..next] && now[next..] == all[next..]
  {
  }
}
