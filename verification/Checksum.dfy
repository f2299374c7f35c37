/**
 checksum and checksum_icmpv6 of IPv6.c on a little-endian host: the sum over words in host
 order, folded, byte-swapped and complemented, is the Internet checksum of RFC 1071.
 */
module Checksum {
  type Byte = x: int | 0 <= x < 256
  type u2 = x: int | 0 <= x < 0x1_0000
  type u4 = x: int | 0 <= x < 0x1_0000_0000

  // ---------------------------------------------------------------- the Internet checksum

  /** The sum of the 16-bit words, most significant byte first; a last odd byte is the high one. */
  function BigSum(b: seq<Byte>): nat {
    if b == [] then 0 else if |b| == 1 then 256 * b[0] else 256 * b[0] + b[1] + BigSum(b[2..])
  }

  /** One's complement addition: carries out of sixteen bits are added at the bottom. */
  function Fold(sum: nat): (r: nat)
    ensures r < 0x1_0000
  {
    if sum < 0x1_0000 then sum else Fold(sum % 0x1_0000 + sum / 0x1_0000)
  }

  function Internet(b: seq<Byte>): u2 {
    0xFFFF - Fold(BigSum(b))
  }

  // ---------------------------------------------------------------- what the code sums

  /** The sum of the words as a little-endian host loads them. */
  function LittleSum(b: seq<Byte>): nat {
    if b == [] then 0 else if |b| == 1 then b[0] else b[0] + 256 * b[1] + LittleSum(b[2..])
  }

  function SwapBytes(x: u2): u2 {
    x % 256 * 256 + x / 256
  }

  lemma {:induction false} LittleBound(b: seq<Byte>)
    ensures LittleSum(b) <= 0xFFFF * ((|b| + 1) / 2)
  {
    if |b| >= 2 {
      LittleBound(b[2..]);
      assert (|b| + 1) / 2 == (|b[2..]| + 1) / 2 + 1;
    }
  }

  /** checksum. The sum fits 32 bits for up to 65537 words. */
  method InternetChecksum(addr: array<Byte>, len: nat) returns (answer: u2)
    requires len <= addr.Length && len <= 131074
    ensures answer == Internet(addr[..len])
  {
    hide BigSum, Fold, LittleSum;
    ghost var data := addr[..len];
    LittleBound(data);
    var count, p := len, 0;
    var sum: u4 := 0;
    SumStart(data);
    while count > 1
      invariant p + count == len && p % 2 == 0
      invariant sum + LittleSum(data[p..]) == LittleSum(data)
    {
      SumStep(data[p..]);
      assert data[p..][2..] == data[p + 2..];
      var low: int, high: int := addr[p], addr[p + 1];
      sum := sum + low + 256 * high;
      p, count := p + 2, count - 2;
    }
    SumEnd(data[p..]);
    if count > 0 {
      sum := sum + addr[p];
    }
    while sum / 0x1_0000 != 0
      invariant Fold(sum) == Fold(LittleSum(data))
      decreases sum
    {
      FoldStep(sum);
      sum := sum % 0x1_0000 + sum / 0x1_0000;
    }
    FoldEnd(sum);
    var first, second := sum / 256 % 256, sum % 256;
    sum := second * 256 + first;
    SwappedSums(data);
    answer := 0xFFFF - sum;
  }

  lemma SumStart(b: seq<Byte>)
    ensures LittleSum(b[0..]) == LittleSum(b)
  {
  }

  lemma SumStep(b: seq<Byte>)
    requires |b| > 1
    ensures LittleSum(b) == b[0] + 256 * b[1] + LittleSum(b[2..])
  {
  }

  lemma SumEnd(b: seq<Byte>)
    requires |b| <= 1
    ensures LittleSum(b) == if b == [] then 0 else b[0]
  {
  }

  lemma FoldStep(sum: nat)
    requires sum >= 0x1_0000
    ensures Fold(sum) == Fold(sum % 0x1_0000 + sum / 0x1_0000) && sum % 0x1_0000 + sum / 0x1_0000 < sum
  {
  }

  lemma FoldEnd(sum: nat)
    requires sum < 0x1_0000
    ensures Fold(sum) == sum
  {
  }

  // ---------------------------------------------------------------- byte order does not matter

  /** Folding keeps the remainder by 65535, and only zero folds to zero. */
  lemma {:induction false} FoldRemainder(sum: nat)
    ensures Fold(sum) % 0xFFFF == sum % 0xFFFF && (Fold(sum) == 0 <==> sum == 0)
  {
    if sum >= 0x1_0000 {
      FoldRemainder(sum % 0x1_0000 + sum / 0x1_0000);
      OneRound(sum);
    }
  }

  lemma OneRound(sum: nat)
    ensures (sum % 0x1_0000 + sum / 0x1_0000) % 0xFFFF == sum % 0xFFFF
  {
  }

  lemma AddMultiple(x: int, k: int)
    ensures (x + 0xFFFF * k) % 0xFFFF == x % 0xFFFF
  {
  }

  /** Swapping the bytes of every word multiplies the sum by 256, modulo 65535. */
  lemma {:induction false} SumsCongruent(b: seq<Byte>)
    ensures BigSum(b) % 0xFFFF == (256 * LittleSum(b)) % 0xFFFF
    ensures BigSum(b) == 0 <==> LittleSum(b) == 0
  {
    if |b| >= 2 {
      SumsCongruent(b[2..]);
      var big, little := BigSum(b[2..]), LittleSum(b[2..]);
      var first: int, second: int := b[0], b[1];
      assert 256 * LittleSum(b) == (256 * first + second + 256 * little) + 0xFFFF * second;
      AddMultiple(256 * first + second + 256 * little, second);
      AddSame(256 * first + second, big, 256 * little);
    }
  }

  lemma AddSame(x: int, y: int, z: int)
    requires y % 0xFFFF == z % 0xFFFF
    ensures (x + y) % 0xFFFF == (x + z) % 0xFFFF
  {
  }

  lemma SwapIsTimes256(x: u2)
    ensures SwapBytes(x) % 0xFFFF == (256 * x) % 0xFFFF && (SwapBytes(x) == 0 <==> x == 0)
  {
    assert 256 * x == SwapBytes(x) + 0xFFFF * (x / 256);
    AddMultiple(SwapBytes(x), x / 256);
  }

  lemma Times256(x: int, y: int)
    requires x % 0xFFFF == y % 0xFFFF
    ensures (256 * x) % 0xFFFF == (256 * y) % 0xFFFF
  {
    assert 256 * x == 256 * y + 0xFFFF * (256 * (x / 0xFFFF - y / 0xFFFF));
    AddMultiple(256 * y, 256 * (x / 0xFFFF - y / 0xFFFF));
  }

  /** Two sums of sixteen bits are equal if they have one remainder and agree on being zero. */
  lemma SameSum(x: u2, y: u2)
    requires x % 0xFFFF == y % 0xFFFF && (x == 0 <==> y == 0)
    ensures x == y
  {
  }

  /** Summing in host order and swapping at the end is summing in network order. */
  lemma SwappedSums(b: seq<Byte>)
    ensures SwapBytes(Fold(LittleSum(b))) == Fold(BigSum(b))
  {
    hide BigSum, LittleSum, Fold, SwapBytes;
    var little, big := LittleSum(b), BigSum(b);
    SumsCongruent(b);
    FoldRemainder(little);
    FoldRemainder(big);
    SwapIsTimes256(Fold(little));
    Times256(Fold(little), little);
    SameSum(SwapBytes(Fold(little)), Fold(big));
  }

  /** A receiver that sums the data and its checksum gets all ones. */
  lemma VerifiesToOnes(sum: nat)
    ensures Fold(sum + (0xFFFF - Fold(sum))) == 0xFFFF
  {
    hide Fold;
    var total := sum + (0xFFFF - Fold(sum));
    FoldRemainder(sum);
    FoldRemainder(total);
    AddSame(0xFFFF - Fold(sum), sum, Fold(sum));
    assert total > 0;
    SameSum(Fold(total), 0xFFFF);
  }

  // ---------------------------------------------------------------- ICMPv6

  const HEADER := 40
  const NEXT_ICMPV6: Byte := 58

  /** The pseudo-header of section 2.3 of RFC 4443: addresses, length, next header. */
  function PseudoHeader(packet: seq<Byte>): seq<Byte>
    requires |packet| >= HEADER
  {
    packet[8..40] + [0, 0] + packet[4..6] + [0, 0, 0, NEXT_ICMPV6]
  }

  /** What the checksum of an ICMPv6 packet covers; its own field counts as zero. */
  function Covered(packet: seq<Byte>): seq<Byte>
    requires |packet| >= 48
  {
    PseudoHeader(packet) + packet[40..42] + [0, 0] + packet[44..]
  }

  function Icmpv6(packet: seq<Byte>): u2
    requires |packet| >= 48
  {
    Internet(Covered(packet))
  }

  /** The bytes checksum_icmpv6 collects: the length cut to one byte, the zero field four bytes late. */
  function Collected(packet: seq<Byte>): seq<Byte>
    requires |packet| >= 48
  {
    packet[8..40] + [0, 0] + [0, packet[5]] + [0, 0, 0, NEXT_ICMPV6] + packet[40..42] + packet[44..48] + [0, 0]
      + packet[48..]
  }

  /** checksum_icmpv6. */
  method ChecksumIcmpv6(buffer: array<Byte>, length: nat) returns (answer: u2)
    requires 48 <= length <= 200 && length <= buffer.Length
    ensures answer == Internet(Collected(buffer[..length]))
    ensures answer == Icmpv6(buffer[..length]) <==> buffer[4] == 0
  {
    hide Internet, Icmpv6;
    ghost var packet := buffer[..length];
    var chksum := new Byte[200];
    var aux := buffer[5];
    var j := Copy(buffer, 8, 40, chksum, 0);
    ghost var front := chksum[..j];
    j := Fill(chksum, j, [0, 0]);
    j := Fill(chksum, j, [aux / 256, aux % 256]);
    j := Fill(chksum, j, [0, 0, 0, NEXT_ICMPV6]);
    j := Copy(buffer, 40, 42, chksum, j);
    j := Copy(buffer, 44, 48, chksum, j);
    j := Fill(chksum, j, [0, 0]);
    j := Copy(buffer, 48, length, chksum, j);
    SlicesOfPrefix(buffer[..], length);
    assert front == packet[8..40];
    assert chksum[..j] == Collected(packet);
    answer := InternetChecksum(chksum, j);
    CollectedExactly(packet);
  }

  lemma SlicesOfPrefix(b: seq<Byte>, length: nat)
    requires 48 <= length <= |b|
    ensures b[..length][8..40] == b[8..40] && b[..length][40..42] == b[40..42] && b[..length][44..48] == b[44..48]
    ensures b[..length][48..] == b[48..length]
  {
    SliceOfPrefix(b, length, 8, 40);
    SliceOfPrefix(b, length, 40, 42);
    SliceOfPrefix(b, length, 44, 48);
    SliceOfPrefix(b, length, 48, length);
  }

  lemma SliceOfPrefix(b: seq<Byte>, length: nat, i: nat, j: nat)
    requires i <= j <= length <= |b|
    ensures b[..length][i..j] == b[i..j]
  {
  }

  /** The copying loops. */
  method Copy(from: array<Byte>, i0: nat, i1: nat, to: array<Byte>, j0: nat) returns (j: nat)
    requires i0 <= i1 <= from.Length && j0 + i1 - i0 <= to.Length && from != to
    modifies to
    ensures j == j0 + i1 - i0 && to[..j] == old(to[..j0]) + from[i0..i1]
  {
    j := j0;
    for i := i0 to i1
      invariant j == j0 + i - i0
      invariant to[..j] == old(to[..j0]) + from[i0..i]
    {
      to[j] := from[i];
      j := j + 1;
    }
  }

  /** Given bytes, one after the other. */
  method Fill(to: array<Byte>, j0: nat, bytes: seq<Byte>) returns (j: nat)
    requires j0 + |bytes| <= to.Length
    modifies to
    ensures j == j0 + |bytes| && to[..j] == old(to[..j0]) + bytes
  {
    j := j0;
    for i := 0 to |bytes|
      invariant j == j0 + i
      invariant to[..j] == old(to[..j0]) + bytes[..i]
    {
      to[j] := bytes[i];
      j := j + 1;
    }
  }

  lemma {:induction false} SumOfParts(a: seq<Byte>, b: seq<Byte>)
    requires |a| % 2 == 0
    ensures BigSum(a + b) == BigSum(a) + BigSum(b)
  {
    if a == [] {
      assert a + b == b;
    } else {
      SumOfParts(a[2..], b);
      assert (a + b)[2..] == a[2..] + b;
    }
  }

  lemma PairSum(x: Byte, y: Byte)
    ensures BigSum([x, y]) == 256 * (x as int) + y
  {
  }

  /** The zero field and the word after it may change places; only the length's high byte matters. */
  lemma CollectedSum(packet: seq<Byte>)
    requires |packet| >= 48
    ensures BigSum(Covered(packet)) == BigSum(Collected(packet)) + 256 * (packet[4] as int)
    ensures BigSum(Collected(packet)) > 0
  {
    hide BigSum;
    var front, tail := packet[8..40] + [0, 0], packet[48..];
    var next: seq<Byte> := [0, 0, 0, NEXT_ICMPV6];
    var zero: seq<Byte>, kind, body := [0, 0], packet[40..42], packet[44..48];
    var length: seq<Byte> := packet[4..6];
    var cut: seq<Byte> := [0, packet[5]];
    assert Covered(packet) == front + (length + (next + (kind + (zero + (body + tail)))));
    assert Collected(packet) == front + (cut + (next + (kind + (body + (zero + tail)))));
    assert length == [packet[4], packet[5]];
    PairSum(packet[4], packet[5]);
    PairSum(0, packet[5]);
    SumOfParts(front, length + (next + (kind + (zero + (body + tail)))));
    SumOfParts(length, next + (kind + (zero + (body + tail))));
    SumOfParts(front, cut + (next + (kind + (body + (zero + tail)))));
    SumOfParts(cut, next + (kind + (body + (zero + tail))));
    SumOfParts(next, kind + (zero + (body + tail)));
    SumOfParts(next, kind + (body + (zero + tail)));
    SumOfParts(kind, zero + (body + tail));
    SumOfParts(kind, body + (zero + tail));
    SumOfParts(zero, body + tail);
    SumOfParts(body, zero + tail);
    SumOfParts(body, tail);
    SumOfParts(zero, tail);
    NextSum();
  }

  lemma NextSum()
    ensures BigSum([0, 0, 0, NEXT_ICMPV6]) == 58
  {
    assert [0, 0, 0, NEXT_ICMPV6][2..] == [0, NEXT_ICMPV6];
    PairSum(0, NEXT_ICMPV6);
  }

  /** The code computes the ICMPv6 checksum exactly for packets whose length field is below 256. */
  lemma CollectedExactly(packet: seq<Byte>)
    requires |packet| >= 48
    ensures Internet(Collected(packet)) == Icmpv6(packet) <==> packet[4] == 0
  {
    hide BigSum, Fold;
    CollectedSum(packet);
    var sum, high: int := BigSum(Collected(packet)), packet[4];
    FoldRemainder(sum);
    FoldRemainder(sum + 256 * high);
    if high != 0 {
      DifferentRemainder(sum, 256 * high);
    }
  }

  lemma DifferentRemainder(x: int, d: int)
    requires 0 < d < 0xFFFF
    ensures (x + d) % 0xFFFF != x % 0xFFFF
  {
  }

  /** The packet as sent: the checksum in its two bytes, high byte first. */
  function Emitted(packet: seq<Byte>): seq<Byte>
    requires |packet| >= 48
  {
    packet[..42] + [Icmpv6(packet) / 256, Icmpv6(packet) % 256] + packet[44..]
  }

  /** Whoever sums a packet as sent with its pseudo-header gets all ones. */
  lemma EmittedVerifies(packet: seq<Byte>)
    requires |packet| >= 48
    ensures Fold(BigSum(PseudoHeader(Emitted(packet)) + Emitted(packet)[40..])) == 0xFFFF
  {
    hide BigSum, Fold;
    var c := Icmpv6(packet);
    var field: seq<Byte> := [c / 256, c % 256];
    var zero: seq<Byte> := [0, 0];
    var front, tail := PseudoHeader(packet) + packet[40..42], packet[44..];
    assert PseudoHeader(Emitted(packet)) + Emitted(packet)[40..] == front + (field + tail);
    assert Covered(packet) == front + (zero + tail);
    SumOfParts(front, field + tail);
    SumOfParts(front, zero + tail);
    SumOfParts(field, tail);
    SumOfParts(zero, tail);
    PairSum(c / 256, c % 256);
    PairSum(0, 0);
    VerifiesToOnes(BigSum(Covered(packet)));
  }
}
