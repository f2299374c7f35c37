/**
 SCHC.c on values: what schc_compression sends of an ICMPv6 packet, what
 schc_decompression makes of it with its context, and when that gives the packet back.
 char is an unsigned byte.
 */
module Schc {
  import opened Common
  import opened Checksum

  const LINK_LOCAL: seq<Byte> := [0xfe, 0x80, 0, 0, 0, 0, 0, 0]
  const ECHO_REQUEST: Byte := 0x80
  const ECHO_REPLY: Byte := 0x81
  const ROUTER_SOLICITATION: Byte := 0x85
  const ROUTER_ADVERTISEMENT: Byte := 0x86
  const NEIGHBOR_SOLICITATION: Byte := 0x87
  const NEIGHBOR_ADVERTISEMENT: Byte := 0x88
  const REDIRECT: Byte := 0x89
  const MAX_SCHC := 64

  predicate IsLocal(address: seq<Byte>) {
    LINK_LOCAL <= address
  }

  /** The bytes of an address that are sent: the interface part alone when the rest is known. */
  function Short(address: seq<Byte>): seq<Byte>
    requires |address| == 16
  {
    if IsLocal(address) then address[8..] else address
  }

  // ---------------------------------------------------------------- compression

  /** The ICMPv6 type as three bits; a type that is not known gets those of an echo request. */
  function TypeIndex(kind: Byte): (i: int)
    ensures 0 <= i <= 6
  {
    if kind == ECHO_REPLY then 1 else if kind == ROUTER_SOLICITATION then 2 else if kind == ROUTER_ADVERTISEMENT then 3
    else if kind == NEIGHBOR_SOLICITATION then 4
    else if kind == NEIGHBOR_ADVERTISEMENT then 5
    else if kind == REDIRECT then 6
    else 0
  }

  /** The rule byte: no UDP, source not link-local, type, target not link-local. */
  function RuleId(local: bool, kind: Byte, targetLocal: bool): Byte {
    (if local then 0 else 64) + 4 * TypeIndex(kind) + (if targetLocal then 0 else 2)
  }

  predicate IsEcho(kind: Byte) {
    kind == ECHO_REQUEST || kind == ECHO_REPLY
  }

  /** A packet with the bytes that the branch for its type reads; an echo carries its own header. */
  predicate Readable(p: seq<Byte>) {
    && |p| >= 48
    && (IsEcho(p[40]) ==> p[5] >= 8 && |p| >= 40 + (p[5] as int))
    && (p[40] == NEIGHBOR_SOLICITATION || p[40] == NEIGHBOR_ADVERTISEMENT ==> |p| >= 64)
    && (p[44] == REDIRECT ==> |p| >= 88)
  }

  /** schc_compression; only ICMPv6 over IPv6 is compressed. */
  function Compress(p: seq<Byte>): Option<seq<Byte>>
    requires Readable(p)
  {
    if p[0] / 16 != 6 || p[6] != NEXT_ICMPV6 then None
    else
      var kind, src := p[40], p[8..24];
      var rule := RuleId(IsLocal(src), kind, true);
      if IsEcho(kind) then Some([rule] + p[44..48] + p[48..40 + (p[5] as int)])
      else if kind == ROUTER_SOLICITATION then Some([rule])
      else if kind == ROUTER_ADVERTISEMENT then Some([rule] + Short(src))
      else if kind == NEIGHBOR_SOLICITATION then
        Some([RuleId(IsLocal(src), kind, IsLocal(p[48..64]))] + Short(src) + Short(p[48..64]))
      else if kind == NEIGHBOR_ADVERTISEMENT then
        Some([RuleId(IsLocal(src), kind, IsLocal(p[48..64]))] + Short(p[48..64]))
      else if p[44] == REDIRECT then Some([rule] + p[48..64] + p[80..81] + p[82..88])
      else Some([rule])
  }

  // ---------------------------------------------------------------- decompression

  /** What the receiving side knows: addresses if it was told them, and the device's MAC. */
  datatype Context = Context(src: Option<seq<Byte>>, dst: Option<seq<Byte>>, mac: seq<Byte>)

  predicate Complete(c: Context) {
    (c.src.Some? ==> |c.src.value| == 16) && (c.dst.Some? ==> |c.dst.value| == 16) && |c.mac| == 6
  }

  function SrcLocal(s: seq<Byte>): bool
    requires s != []
  {
    s[0] / 64 % 2 == 0
  }

  function TargetLocal(s: seq<Byte>): bool
    requires s != []
  {
    s[0] / 2 % 2 == 0
  }

  function Index(s: seq<Byte>): int
    requires s != []
  {
    s[0] / 4 % 8
  }

  /** The bytes an address takes in compressed form. */
  function Size(local: bool): nat {
    if local then 8 else 16
  }

  /** A compressed echo, solicitation or advertisement that is long enough. */
  predicate Whole(s: seq<Byte>) {
    && 1 <= |s| <= MAX_SCHC && s[0] < 128
    && Index(s) in {0, 1, 4, 5}
    && (Index(s) <= 1 ==> |s| >= 5)
    && (Index(s) == 4 ==> |s| >= 1 + Size(SrcLocal(s)) + Size(TargetLocal(s)))
    && (Index(s) == 5 ==> |s| >= 1 + Size(TargetLocal(s)))
  }

  function Zeros(n: nat): (z: seq<Byte>)
    ensures |z| == n && forall i :: 0 <= i < n ==> z[i] == 0
  {
    if n == 0 then [] else [0] + Zeros(n - 1)
  }

  /** The source address before the compressed bytes are consulted. */
  function ContextSrc(s: seq<Byte>, c: Context): (a: seq<Byte>)
    requires s != [] && Complete(c)
    ensures |a| == 16
  {
    if c.src.Some? then c.src.value else if SrcLocal(s) then LINK_LOCAL + Zeros(8) else Zeros(16)
  }

  function ContextDst(c: Context): (a: seq<Byte>)
    requires Complete(c)
    ensures |a| == 16
  {
    if c.dst.Some? then c.dst.value else Zeros(16)
  }

  /** An address read back: sent in full, or only its interface part. */
  function Long(local: bool, bytes: seq<Byte>): (a: seq<Byte>)
    requires |bytes| >= Size(local)
    ensures |a| == 16
  {
    if local then LINK_LOCAL + bytes[..8] else bytes[..16]
  }

  function Kind(index: int): Byte {
    if index == 0 then ECHO_REQUEST else if index == 1 then ECHO_REPLY
    else if index == 4 then NEIGHBOR_SOLICITATION else NEIGHBOR_ADVERTISEMENT
  }

  /** The source address of the packet: a solicitation carries its interface part or all of it. */
  function Src(s: seq<Byte>, c: Context): (a: seq<Byte>)
    requires Whole(s) && Complete(c)
    ensures |a| == 16
  {
    if Index(s) != 4 then ContextSrc(s, c)
    else if SrcLocal(s) then ContextSrc(s, c)[..8] + s[1..9]
    else s[1..17]
  }

  /** The message after its checksum. */
  function Rest(s: seq<Byte>, c: Context): (b: seq<Byte>)
    requires Whole(s) && Complete(c)
    ensures 4 <= |b| <= 63
  {
    if Index(s) <= 1 then s[1..]
    else if Index(s) == 4 then Zeros(4) + Long(TargetLocal(s), s[1 + Size(SrcLocal(s))..]) + [1, 1] + c.mac
    else [0xC0, 0, 0, 0] + Long(TargetLocal(s), s[1..])
  }

  /** The packet with its checksum still zero. */
  function Unsummed(s: seq<Byte>, c: Context): (p: seq<Byte>)
    requires Whole(s) && Complete(c)
    ensures 48 <= |p| <= 107
  {
    [0x60, 0, 0, 0, 0, 4 + |Rest(s, c)|, NEXT_ICMPV6, 255] + Src(s, c) + ContextDst(c) + [Kind(Index(s)), 0, 0, 0]
      + Rest(s, c)
  }

  /** schc_decompression */
  function Decompress(s: seq<Byte>, c: Context): (p: seq<Byte>)
    requires Whole(s) && Complete(c)
  {
    var p := Unsummed(s, c);
    var sum := Internet(Collected(p));
    p[42 := sum / 256][43 := sum % 256]
  }

  // ---------------------------------------------------------------- when the packet comes back

  /** An echo, neighbor solicitation or neighbor advertisement whose compressed form fits. */
  predicate Supported(p: seq<Byte>) {
    && Readable(p) && p[0] / 16 == 6 && p[6] == NEXT_ICMPV6
    && (IsEcho(p[40]) || p[40] == NEIGHBOR_SOLICITATION || p[40] == NEIGHBOR_ADVERTISEMENT)
    && (IsEcho(p[40]) ==> p[5] <= 67)
  }

  /** The source address is what the context says, or for a solicitation what was sent completes. */
  predicate SrcKnown(p: seq<Byte>, c: Context)
    requires |p| >= 48 && Complete(c)
  {
    var src := p[8..24];
    if p[40] == NEIGHBOR_SOLICITATION then
      IsLocal(src) && c.src.Some? ==> c.src.value[..8] == LINK_LOCAL
    else if c.src.Some? then src == c.src.value
    else src == LINK_LOCAL + Zeros(8) || src == Zeros(16)
  }

  /** The fields that are not sent hold the values that decompression puts in. */
  predicate Elided(p: seq<Byte>, c: Context)
    requires Supported(p) && Complete(c)
  {
    && p[..5] == [0x60, 0, 0, 0, 0] && |p| == 40 + (p[5] as int) && p[7] == 255
    && SrcKnown(p, c) && p[24..40] == ContextDst(c)
    && p[41] == 0
    && p[42..44] == [Internet(Collected(p)) / 256, Internet(Collected(p)) % 256]
    && (p[40] == NEIGHBOR_SOLICITATION ==> p[44..48] == Zeros(4) && p[64..] == [1, 1] + c.mac)
    && (p[40] == NEIGHBOR_ADVERTISEMENT ==> p[44..48] == [0xC0, 0, 0, 0] && |p| == 64)
  }

  lemma RuleBits(local: bool, kind: Byte, targetLocal: bool, s: seq<Byte>)
    requires s != [] && s[0] == RuleId(local, kind, targetLocal)
    ensures s[0] < 128 && SrcLocal(s) == local && Index(s) == TypeIndex(kind) && TargetLocal(s) == targetLocal
  {
  }

  /** What compression makes of a supported packet, read bit by bit. */
  lemma CompressedParts(p: seq<Byte>)
    requires Supported(p)
    ensures Compress(p).Some?
    ensures var s := Compress(p).value;
            && Whole(s) && SrcLocal(s) == IsLocal(p[8..24]) && Kind(Index(s)) == p[40]
            && (IsEcho(p[40]) ==> s[1..] == p[44..40 + (p[5] as int)])
            && (!IsEcho(p[40]) ==> TargetLocal(s) == IsLocal(p[48..64]))
            && (p[40] == NEIGHBOR_SOLICITATION ==> Index(s) == 4 && s[1..] == Short(p[8..24]) + Short(p[48..64]))
            && (p[40] == NEIGHBOR_ADVERTISEMENT ==> Index(s) == 5 && s[1..] == Short(p[48..64]))
  {
    hide RuleId, SrcLocal, TargetLocal, Index, IsLocal, Short;
    var s := Compress(p).value;
    ShortSize(p[8..24]);
    if IsEcho(p[40]) {
      RuleBits(IsLocal(p[8..24]), p[40], true, s);
      assert s[1..] == p[44..48] + p[48..40 + (p[5] as int)];
    } else {
      ShortSize(p[48..64]);
      RuleBits(IsLocal(p[8..24]), p[40], IsLocal(p[48..64]), s);
    }
  }

  lemma ShortSize(a: seq<Byte>)
    requires |a| == 16
    ensures |Short(a)| == Size(IsLocal(a))
  {
  }

  /** Shortening an address and reading it back gives the address. */
  lemma LongShort(a: seq<Byte>, more: seq<Byte>)
    requires |a| == 16
    ensures |Short(a) + more| >= Size(IsLocal(a)) && Long(IsLocal(a), Short(a) + more) == a
  {
  }

  // ---------------------------------------------------------------- the round trip

  /** Equal but perhaps for the two bytes of the checksum. */
  predicate SameBut(p: seq<Byte>, q: seq<Byte>)
    requires |p| >= 48 && |q| >= 48
  {
    p[..42] == q[..42] && p[44..] == q[44..]
  }

  lemma CollectedSame(p: seq<Byte>, q: seq<Byte>)
    requires |p| >= 48 && |q| >= 48 && SameBut(p, q)
    ensures Collected(p) == Collected(q)
  {
  }

  lemma ChecksumPutIn(p: seq<Byte>, u: seq<Byte>, hi: Byte, lo: Byte)
    requires |p| >= 48 && |u| >= 48
    ensures u[42 := hi][43 := lo] == p <==> SameBut(p, u) && p[42..44] == [hi, lo]
  {
  }

  lemma UnsummedParts(s: seq<Byte>, c: Context)
    requires Whole(s) && Complete(c)
    ensures var u := Unsummed(s, c);
            && u[..5] == [0x60, 0, 0, 0, 0] && u[5] as int == 4 + |Rest(s, c)| && u[6] == NEXT_ICMPV6 && u[7] == 255
            && u[8..24] == Src(s, c) && u[24..40] == ContextDst(c) && u[40] == Kind(Index(s)) && u[41] == 0
            && u[44..] == Rest(s, c) && |u| == 44 + |Rest(s, c)|
  {
    hide Src, ContextDst, Kind, Index, Rest;
  }

  lemma SameByParts(p: seq<Byte>, u: seq<Byte>)
    requires |p| >= 48 && |u| >= 48
    ensures SameBut(p, u) <==>
            && |p| == |u| && p[..5] == u[..5] && p[5] == u[5] && p[6] == u[6] && p[7] == u[7]
            && p[8..24] == u[8..24] && p[24..40] == u[24..40] && p[40] == u[40] && p[41] == u[41] && p[44..] == u[44..]
  {
  }

  /** The source address comes back exactly if it is known. */
  lemma SrcBack(p: seq<Byte>, c: Context)
    requires Supported(p) && Complete(c)
    ensures Compress(p).Some? && Whole(Compress(p).value)
    ensures Src(Compress(p).value, c) == p[8..24] <==> SrcKnown(p, c)
  {
    CompressedParts(p);
    hide Compress, Supported;
    var s, src := Compress(p).value, p[8..24];
    if p[40] == NEIGHBOR_SOLICITATION {
      var target := Short(p[48..64]);
      if IsLocal(src) {
        assert s[1..9] == s[1..][..8] == src[8..];
        assert src == LINK_LOCAL + src[8..];
      } else {
        assert s[1..17] == s[1..][..16] == src;
      }
    } else {
      LocalOrNot(src);
    }
  }

  lemma LocalOrNot(src: seq<Byte>)
    requires |src| == 16
    ensures src == LINK_LOCAL + Zeros(8) ==> IsLocal(src)
    ensures src == Zeros(16) ==> !IsLocal(src)
  {
    if src == Zeros(16) {
      assert src[0] == 0;
    }
  }

  /** The rest of the message comes back exactly if its elided fields hold their values. */
  lemma RestBack(p: seq<Byte>, c: Context)
    requires Supported(p) && Complete(c)
    ensures Compress(p).Some? && Whole(Compress(p).value)
    ensures Rest(Compress(p).value, c) == p[44..] <==>
            && (IsEcho(p[40]) ==> |p| == 40 + (p[5] as int))
            && (p[40] == NEIGHBOR_SOLICITATION ==> p[44..48] == Zeros(4) && p[64..] == [1, 1] + c.mac)
            && (p[40] == NEIGHBOR_ADVERTISEMENT ==> p[44..48] == [0xC0, 0, 0, 0] && |p| == 64)
  {
    CompressedParts(p);
    hide Compress, Supported, Rest, Kind;
    if IsEcho(p[40]) {
      EchoBack(p, p[5] as int);
      EchoRest(Compress(p).value, c);
    } else if p[40] == NEIGHBOR_SOLICITATION {
      SolicitationRest(p, Compress(p).value, c);
    } else {
      AdvertisementRest(p, Compress(p).value, c);
    }
  }

  lemma EchoRest(s: seq<Byte>, c: Context)
    requires Whole(s) && Complete(c) && IsEcho(Kind(Index(s)))
    ensures Rest(s, c) == s[1..]
  {
  }

  lemma SolicitationRest(p: seq<Byte>, s: seq<Byte>, c: Context)
    requires |p| >= 64 && Whole(s) && Complete(c) && Index(s) == 4
    requires SrcLocal(s) == IsLocal(p[8..24]) && TargetLocal(s) == IsLocal(p[48..64])
    requires s[1..] == Short(p[8..24]) + Short(p[48..64])
    ensures Rest(s, c) == p[44..] <==> p[44..48] == Zeros(4) && p[64..] == [1, 1] + c.mac
  {
    hide Short, Long, IsLocal, Index, SrcLocal, TargetLocal;
    var target := p[48..64];
    ShortSize(p[8..24]);
    assert s[1 + Size(SrcLocal(s))..] == s[1..][Size(SrcLocal(s))..] == Short(target);
    assert Short(target) + [] == Short(target);
    LongShort(target, []);
    FourPartsEqual(Zeros(4), target, [1, 1] + c.mac, p);
    assert Rest(s, c) == Zeros(4) + target + ([1, 1] + c.mac);
  }

  lemma AdvertisementRest(p: seq<Byte>, s: seq<Byte>, c: Context)
    requires |p| >= 64 && Whole(s) && Complete(c) && Index(s) == 5
    requires TargetLocal(s) == IsLocal(p[48..64]) && s[1..] == Short(p[48..64])
    ensures Rest(s, c) == p[44..] <==> p[44..48] == [0xC0, 0, 0, 0] && |p| == 64
  {
  }

  lemma EchoBack(p: seq<Byte>, length: int)
    requires 8 <= length && |p| >= 40 + length
    ensures p[44..40 + length] == p[44..] <==> |p| == 40 + length
  {
  }

  lemma FourPartsEqual(head: seq<Byte>, target: seq<Byte>, tail: seq<Byte>, p: seq<Byte>)
    requires |p| >= 64 && |head| == 4 && target == p[48..64]
    ensures head + target + tail == p[44..] <==> p[44..48] == head && p[64..] == tail
  {
  }

  /**
   Decompressing a compressed echo, neighbor solicitation or neighbor advertisement gives
   every byte back exactly if the elided fields hold the values that decompression puts in
   and the checksum is the one it computes.
   */
  lemma RoundTripExactly(p: seq<Byte>, c: Context)
    requires Supported(p) && Complete(c)
    ensures Compress(p).Some? && Whole(Compress(p).value)
    ensures Decompress(Compress(p).value, c) == p <==> Elided(p, c)
  {
    CompressedParts(p);
    SrcBack(p, c);
    RestBack(p, c);
    var s := Compress(p).value;
    var u := Unsummed(s, c);
    UnsummedParts(s, c);
    SameByParts(p, u);
    hide Compress, Unsummed, Src, Rest, SrcKnown, Kind, Index, ContextDst, Internet, Collected, Readable;
    var sum := Internet(Collected(u));
    ChecksumPutIn(p, u, sum / 256, sum % 256);
    if SameBut(p, u) {
      CollectedSame(p, u);
    }
    hide SameBut;
  }

  /** For packets so short the checksum asked for is the ICMPv6 checksum. */
  lemma ElidedChecksum(p: seq<Byte>, c: Context)
    requires Supported(p) && Complete(c) && Elided(p, c)
    ensures p[42..44] == [Icmpv6(p) / 256, Icmpv6(p) % 256]
  {
    hide Internet, Collected, Icmpv6, SrcKnown;
    assert p[4] == p[..5][4] == 0;
    CollectedExactly(p);
  }
}
