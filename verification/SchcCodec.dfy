/**
 schc_compression and schc_decompression on buffers: bytes copied to running offsets, the
 rule byte completed as the target is reached, the checksum put in last.
 */
module SchcCodec {
  import opened Common
  import opened Checksum
  import opened Schc

  /** SCHC_data */
  class SchcData {
    const buffer: array<Byte>
    var length: nat

    constructor ()
      ensures fresh(buffer) && buffer.Length == MAX_SCHC && length == 0
    {
      buffer := new Byte[64](_ => 0);
      length := 0;
    }
  }

  /** Whether the eight bytes at a place are the link-local prefix. */
  method StartsLocal(buffer: array<Byte>, at: nat) returns (local: bool)
    requires at + 16 <= buffer.Length
    ensures local == IsLocal(buffer[at..at + 16])
  {
    local := buffer[at..at + 8] == LINK_LOCAL;
    assert buffer[at..at + 16][..8] == buffer[at..at + 8];
  }

  /** An address copied, without its prefix when that is the link-local one. */
  method SendAddress(buffer: array<Byte>, at: nat, out: array<Byte>, offset: nat) returns (next: nat, local: bool)
    requires at + 16 <= buffer.Length && offset + 16 <= out.Length && buffer != out
    modifies out
    ensures local == IsLocal(buffer[at..at + 16])
    ensures next == offset + Size(local) && out[..next] == old(out[..offset]) + Short(buffer[at..at + 16])
  {
    local := StartsLocal(buffer, at);
    ghost var address := buffer[at..at + 16];
    if local {
      next := Copy(buffer, at + 8, at + 16, out, offset);
      assert address[8..] == buffer[at + 8..at + 16];
    } else {
      next := Copy(buffer, at, at + 16, out, offset);
    }
  }

  /** schc_compression. The compressed packet is left in schc; out is the caller's scratch buffer. */
  method Compression(buffer: array<Byte>, out: array<Byte>, schc: SchcData) returns (ok: bool)
    requires Readable(buffer[..]) && buffer != out && buffer != schc.buffer && out != schc.buffer
    requires out.Length >= 300 && schc.buffer.Length == MAX_SCHC
    requires Compress(buffer[..]).Some? ==> |Compress(buffer[..]).value| <= MAX_SCHC
    modifies out, schc, schc.buffer
    ensures ok == Compress(buffer[..]).Some?
    ensures ok ==> schc.length <= MAX_SCHC && schc.buffer[..schc.length] == Compress(buffer[..]).value
  {
    hide IsLocal, Short, RuleId;
    schc.length := 0;
    if buffer[0] / 16 != 6 || buffer[6] != NEXT_ICMPV6 {
      return false;
    }
    var kind := buffer[40];
    ghost var p := buffer[..];
    var offset := CompressMessage(buffer, kind, out);
    for ix := 0 to offset
      invariant schc.buffer[..ix] == out[..ix]
      invariant offset <= MAX_SCHC && out[..offset] == Compress(p).value
      modifies schc.buffer
    {
      schc.buffer[ix] := out[ix];
    }
    schc.length := offset;
    ok := true;
  }

  /** The rule byte and what follows it, by type. */
  method CompressMessage(buffer: array<Byte>, kind: Byte, out: array<Byte>) returns (offset: nat)
    requires Readable(buffer[..]) && buffer != out && out.Length >= 300
    requires buffer[0] / 16 == 6 && buffer[6] == NEXT_ICMPV6 && kind == buffer[40]
    modifies out
    ensures offset <= out.Length && Some(out[..offset]) == Compress(buffer[..])
  {
    hide IsLocal, Short, RuleId;
    ghost var p := buffer[..];
    var local := StartsLocal(buffer, 8);
    var rule := RuleId(local, kind, true);
    RuleCompleted(local, kind);
    offset := Fill(out, 0, [rule]);
    assert out[..offset] == [rule];
    assert p[8..24] == buffer[8..24] && p[44..48] == buffer[44..48];
    if IsEcho(kind) {
      assert p[48..40 + (p[5] as int)] == buffer[48..40 + (buffer[5] as int)];
      offset := Copy(buffer, 44, 48, out, offset);
      offset := Copy(buffer, 48, 40 + buffer[5] as int, out, offset);
    } else if kind == ROUTER_SOLICITATION {
    } else if kind == ROUTER_ADVERTISEMENT {
      var srcLocal;
      offset, srcLocal := SendAddress(buffer, 8, out, offset);
    } else if kind == NEIGHBOR_SOLICITATION {
      assert p[48..64] == buffer[48..64];
      var srcLocal;
      offset, srcLocal := SendAddress(buffer, 8, out, offset);
      offset := SendTarget(buffer, out, offset, local, kind, Short(p[8..24]));
    } else if kind == NEIGHBOR_ADVERTISEMENT {
      assert p[48..64] == buffer[48..64];
      offset := SendTarget(buffer, out, offset, local, kind, []);
      ghost var front := [RuleId(local, kind, IsLocal(p[48..64]))];
      assert front + [] == front;
    } else if buffer[44] == REDIRECT {
      assert p[48..64] == buffer[48..64] && p[80..81] == buffer[80..81] && p[82..88] == buffer[82..88];
      offset := Copy(buffer, 48, 64, out, offset);
      offset := Copy(buffer, 80, 81, out, offset);
      offset := Copy(buffer, 82, 88, out, offset);
    }
  }

  /** The target address, and its bit in the rule byte at the front. */
  method SendTarget(buffer: array<Byte>, out: array<Byte>, offset: nat, local: bool, kind: Byte, ghost sent: seq<Byte>)
    returns (next: nat)
    requires buffer.Length >= 64 && buffer != out && offset + 16 <= out.Length && offset > 0
    requires out[..offset] == [RuleId(local, kind, true)] + sent
    modifies out
    ensures offset <= next <= offset + 16
    ensures out[..next] == [RuleId(local, kind, IsLocal(buffer[48..64]))] + sent + Short(buffer[48..64])
  {
    hide IsLocal, Short, RuleId;
    var targetLocal;
    next, targetLocal := SendAddress(buffer, 48, out, offset);
    ghost var target := Short(buffer[48..64]);
    assert out[..next] == [RuleId(local, kind, true)] + (sent + target);
    ghost var tail := out[1..next];
    assert out[0] == out[..next][0] && tail == out[..next][1..] == sent + target;
    if !targetLocal {
      RuleCompleted(local, kind);
      out[0] := RuleId(local, kind, false);
    }
    assert out[..next] == [out[0]] + tail;
  }

  /** Setting the target bit later gives the rule byte with it. */
  lemma RuleCompleted(local: bool, kind: Byte)
    ensures RuleId(local, kind, true) as int + 2 == RuleId(local, kind, false) as int
  {
  }

  // ---------------------------------------------------------------- decompression

  /** A packet by its parts; x and y are the length and checksum bytes. */
  function Frame(x: seq<Byte>, src: seq<Byte>, dst: seq<Byte>, kind: Byte, y: seq<Byte>, rest: seq<Byte>): seq<Byte> {
    [0x60, 0, 0, 0] + x + [NEXT_ICMPV6, 255] + src + dst + [kind, 0] + y + rest
  }

  predicate Parts(x: seq<Byte>, src: seq<Byte>, dst: seq<Byte>, y: seq<Byte>) {
    |x| == 2 && |src| == 16 && |dst| == 16 && |y| == 2
  }

  lemma FrameLength(x: seq<Byte>, src: seq<Byte>, dst: seq<Byte>, kind: Byte, y: seq<Byte>, rest: seq<Byte>,
                    x': seq<Byte>)
    requires Parts(x, src, dst, y) && |x'| == 2
    ensures |Frame(x, src, dst, kind, y, rest)| == 44 + |rest|
    ensures Frame(x, src, dst, kind, y, rest)[4 := x'[0]][5 := x'[1]] == Frame(x', src, dst, kind, y, rest)
  {
  }

  lemma FrameChecksum(x: seq<Byte>, src: seq<Byte>, dst: seq<Byte>, kind: Byte, y: seq<Byte>, rest: seq<Byte>,
                      y': seq<Byte>)
    requires Parts(x, src, dst, y) && |y'| == 2
    ensures |Frame(x, src, dst, kind, y, rest)| == 44 + |rest|
    ensures Frame(x, src, dst, kind, y, rest)[42 := y'[0]][43 := y'[1]] == Frame(x, src, dst, kind, y', rest)
  {
  }

  lemma FrameSource(x: seq<Byte>, src: seq<Byte>, dst: seq<Byte>, kind: Byte, y: seq<Byte>, at: nat, bytes: seq<Byte>)
    requires Parts(x, src, dst, y) && at + |bytes| == 16
    ensures var f := Frame(x, src, dst, kind, y, []);
            f[..8 + at] + bytes + f[24..] == Frame(x, src[..at] + bytes, dst, kind, y, [])
  {
  }

  /** The fixed part of the header and the addresses of the context; the length is not known yet. */
  method PutHeader(local: bool, buffer: array<Byte>, c: Context, ghost t: seq<Byte>)
    returns (offset: nat, ghost x: seq<Byte>)
    requires Complete(c) && buffer.Length >= 200 && t != [] && local == SrcLocal(t)
    modifies buffer
    ensures offset == 40 && |x| == 2
    ensures buffer[..40] == [0x60, 0, 0, 0] + x + [NEXT_ICMPV6, 255] + ContextSrc(t, c) + ContextDst(c)
  {
    offset := Fill(buffer, 0, [0x60, 0, 0, 0]);
    x := buffer[4..6];
    assert buffer[..6] == [0x60, 0, 0, 0] + x;
    offset := Fill(buffer, 6, [NEXT_ICMPV6, 255]);
    if c.src.Some? {
      offset := Fill(buffer, offset, c.src.value);
    } else if local {
      offset := Fill(buffer, offset, LINK_LOCAL);
      offset := Fill(buffer, offset, Zeros(8));
      assert LINK_LOCAL + Zeros(8) == ContextSrc(t, c);
    } else {
      offset := Fill(buffer, offset, Zeros(16));
    }
    offset := Fill(buffer, offset, if c.dst.Some? then c.dst.value else Zeros(16));
  }

  /** The target address of a message, with the prefix put back when it was left out. */
  method PutTarget(s: array<Byte>, at: nat, size: nat, local: bool, buffer: array<Byte>, offset: nat)
    returns (next: nat)
    requires at + Size(local) <= size <= s.Length && offset + 16 <= buffer.Length && s != buffer
    modifies buffer
    ensures next == offset + 16 && buffer[..next] == old(buffer[..offset]) + Long(local, s[at..size])
  {
    if local {
      next := Fill(buffer, offset, LINK_LOCAL);
      next := Copy(s, at, at + 8, buffer, next);
      assert s[at..size][..8] == s[at..at + 8];
    } else {
      next := Copy(s, at, at + 16, buffer, offset);
      assert s[at..size][..16] == s[at..at + 16];
    }
  }

  /** The interface part of the source, or all of it, over what the context gave. */
  method PutSource(s: array<Byte>, size: nat, buffer: array<Byte>, c: Context, ghost x: seq<Byte>, kind: Byte,
                   ghost y: seq<Byte>)
    requires 1 <= size <= s.Length && Whole(s[..size]) && Index(s[..size]) == 4 && Complete(c) && s != buffer
             && buffer.Length >= 200
    requires |x| == 2 && |y| == 2
    requires buffer[..44] == Frame(x, ContextSrc(s[..size], c), ContextDst(c), kind, y, [])
    modifies buffer
    ensures buffer[..44] == Frame(x, Src(s[..size], c), ContextDst(c), kind, y, [])
  {
    hide ContextSrc, ContextDst, Frame, Index;
    ghost var t := s[..size];
    ghost var src := ContextSrc(t, c);
    ghost var tail := buffer[24..44];
    assert buffer[..44][24..] == tail;
    if s[0] / 64 % 2 == 0 {
      assert buffer[..44][..16] == buffer[..16] && t[1..9] == s[1..9];
      FrameSource(x, src, ContextDst(c), kind, y, 8, s[1..9]);
      CopyOver(s, 1, 9, buffer, 16);
    } else {
      assert buffer[..44][..8] == buffer[..8] && t[1..17] == s[1..17];
      FrameSource(x, src, ContextDst(c), kind, y, 0, s[1..17]);
      assert src[..0] + s[1..17] == s[1..17];
      CopyOver(s, 1, 17, buffer, 8);
    }
  }

  /** A copy into the middle of the first 44 bytes that ends at the destination address. */
  method CopyOver(from: array<Byte>, i0: nat, i1: nat, to: array<Byte>, j0: nat)
    requires i0 <= i1 <= from.Length && j0 + i1 - i0 == 24 && to.Length >= 44 && from != to
    modifies to
    ensures to[..44] == old(to[..j0]) + from[i0..i1] + old(to[24..44])
  {
    for i := i0 to i1
      invariant forall k :: 0 <= k < 44 ==> to[k] == if j0 <= k < j0 + i - i0 then from[i0 + k - j0] else old(to[k])
    {
      to[j0 + i - i0] := from[i];
    }
  }

  /** Identifier, sequence number and payload of an echo. */
  method PutEcho(s: array<Byte>, size: nat, buffer: array<Byte>, c: Context) returns (n: nat)
    requires 1 <= size <= s.Length && Whole(s[..size]) && Complete(c) && s != buffer && buffer.Length >= 200
    requires Index(s[..size]) <= 1
    modifies buffer
    ensures n == 44 + |Rest(s[..size], c)| && buffer[..n] == old(buffer[..44]) + Rest(s[..size], c)
  {
    var offset := Copy(s, 1, 3, buffer, 44);
    offset := Copy(s, 3, 5, buffer, offset);
    n := Copy(s, 5, size, buffer, offset);
    assert s[..size][1..] == s[1..3] + s[3..5] + s[5..size];
  }

  /** Reserved bytes, target and option of a neighbor solicitation. */
  method PutSolicitation(s: array<Byte>, size: nat, buffer: array<Byte>, c: Context) returns (n: nat)
    requires 1 <= size <= s.Length && Whole(s[..size]) && Complete(c) && s != buffer && buffer.Length >= 200
    requires Index(s[..size]) == 4
    modifies buffer
    ensures n == 44 + |Rest(s[..size], c)| && buffer[..n] == old(buffer[..44]) + Rest(s[..size], c)
  {
    hide Long;
    var offset := Fill(buffer, 44, [0, 0, 0, 0]);
    FourZeros();
    var at := if s[0] / 64 % 2 == 0 then 9 else 17;
    assert s[..size][at..] == s[at..size];
    offset := PutTarget(s, at, size, s[0] / 2 % 2 == 0, buffer, offset);
    offset := Fill(buffer, offset, [1, 1]);
    n := Fill(buffer, offset, c.mac);
  }

  /** Flags and target of a neighbor advertisement. */
  method PutAdvertisement(s: array<Byte>, size: nat, buffer: array<Byte>, c: Context) returns (n: nat)
    requires 1 <= size <= s.Length && Whole(s[..size]) && Complete(c) && s != buffer && buffer.Length >= 200
    requires Index(s[..size]) == 5
    modifies buffer
    ensures n == 44 + |Rest(s[..size], c)| && buffer[..n] == old(buffer[..44]) + Rest(s[..size], c)
  {
    hide Long;
    var offset := Fill(buffer, 44, [0xC0, 0, 0, 0]);
    assert s[..size][1..] == s[1..size];
    n := PutTarget(s, 1, size, s[0] / 2 % 2 == 0, buffer, offset);
  }

  /** icmp_decompression up to the length: the message, and for a solicitation the source. */
  method PutMessage(s: array<Byte>, size: nat, buffer: array<Byte>, c: Context, ghost x: seq<Byte>)
    returns (n: nat, ghost y: seq<Byte>)
    requires 1 <= size <= s.Length && Whole(s[..size]) && Complete(c) && s != buffer && buffer.Length >= 200
    requires |x| == 2
    requires buffer[..40] == [0x60, 0, 0, 0] + x + [NEXT_ICMPV6, 255] + ContextSrc(s[..size], c) + ContextDst(c)
    modifies buffer
    ensures |y| == 2 && n == 44 + |Rest(s[..size], c)|
    ensures buffer[..n] == Frame(x, Src(s[..size], c), ContextDst(c), Kind(Index(s[..size])), y, Rest(s[..size], c))
  {
    hide ContextSrc, ContextDst, Rest;
    ghost var t := s[..size];
    var icmp := s[0] / 4 % 8;
    var kind := Kind(icmp);
    var offset := Fill(buffer, 40, [kind, 0]);
    y := buffer[42..44];
    assert buffer[..44] == buffer[..42] + y;
    assert buffer[..44] == Frame(x, ContextSrc(t, c), ContextDst(c), kind, y, []);
    if icmp <= 1 {
      n := PutEcho(s, size, buffer, c);
    } else if icmp == 4 {
      PutSource(s, size, buffer, c, x, kind, y);
      n := PutSolicitation(s, size, buffer, c);
    } else {
      n := PutAdvertisement(s, size, buffer, c);
    }
    FrameWhole(x, Src(t, c), ContextDst(c), kind, y, Rest(t, c));
  }

  lemma FourZeros()
    ensures [0, 0, 0, 0] == Schc.Zeros(4)
  {
  }

  lemma FrameWhole(x: seq<Byte>, src: seq<Byte>, dst: seq<Byte>, kind: Byte, y: seq<Byte>, rest: seq<Byte>)
    ensures Frame(x, src, dst, kind, y, []) + rest == Frame(x, src, dst, kind, y, rest)
  {
  }

  /** The payload length and then the checksum, each high byte first. */
  method Finish(buffer: array<Byte>, n: nat, ghost s: seq<Byte>, ghost c: Context, ghost x: seq<Byte>,
                ghost y: seq<Byte>)
    requires Whole(s) && Complete(c) && |x| == 2 && |y| == 2 && buffer.Length >= 200
    requires n == 44 + |Rest(s, c)| && buffer[..n] == Frame(x, Src(s, c), ContextDst(c), Kind(Index(s)), y, Rest(s, c))
    modifies buffer
    ensures buffer[..n] == Decompress(s, c)
  {
    hide Src, ContextDst, Rest, Kind, Index, Internet, Collected, Frame;
    ghost var src, dst, kind, rest := Src(s, c), ContextDst(c), Kind(Index(s)), Rest(s, c);
    var length := n - 40;
    ghost var size: seq<Byte> := [length / 256, length % 256];
    FrameLength(x, src, dst, kind, y, rest, size);
    buffer[4], buffer[5] := length / 256, length % 256;
    assert buffer[..n] == Frame(size, src, dst, kind, y, rest);
    var checksum := ChecksumIcmpv6(buffer, n);
    ghost var sum: seq<Byte> := [checksum / 256, checksum % 256];
    buffer[42], buffer[43] := checksum / 256, checksum % 256;
    FrameChecksum(size, src, dst, kind, y, rest, sum);
    assert buffer[..n] == Frame(size, src, dst, kind, sum, rest);
    Unframed(s, c, size, y, sum);
  }

  /** The checksum does not see its own field, so the frame finished is the packet decompressed. */
  lemma Unframed(s: seq<Byte>, c: Context, size: seq<Byte>, y: seq<Byte>, sum: seq<Byte>)
    requires Whole(s) && Complete(c) && |y| == 2
    requires size == [(4 + |Rest(s, c)|) / 256, (4 + |Rest(s, c)|) % 256]
    requires var before := Frame(size, Src(s, c), ContextDst(c), Kind(Index(s)), y, Rest(s, c));
             |before| >= 48 && sum == [Internet(Collected(before)) / 256, Internet(Collected(before)) % 256]
    ensures Frame(size, Src(s, c), ContextDst(c), Kind(Index(s)), sum, Rest(s, c)) == Decompress(s, c)
  {
    hide Src, ContextDst, Rest, Kind, Index, Internet, Collected, Frame;
    ghost var src, dst, kind, rest := Src(s, c), ContextDst(c), Kind(Index(s)), Rest(s, c);
    var before, u := Frame(size, src, dst, kind, y, rest), Unsummed(s, c);
    UnsummedFrame(s, c, size);
    SameFrames(size, src, dst, kind, y, [0, 0], rest);
    CollectedSame(before, u);
    FrameChecksum(size, src, dst, kind, [0, 0], rest, sum);
  }

  lemma UnsummedFrame(s: seq<Byte>, c: Context, size: seq<Byte>)
    requires Whole(s) && Complete(c) && size == [(4 + |Rest(s, c)|) / 256, (4 + |Rest(s, c)|) % 256]
    ensures Unsummed(s, c) == Frame(size, Src(s, c), ContextDst(c), Kind(Index(s)), [0, 0], Rest(s, c))
  {
    hide Src, ContextDst, Rest, Kind, Index;
  }

  lemma SameFrames(x: seq<Byte>, src: seq<Byte>, dst: seq<Byte>, kind: Byte, y: seq<Byte>, y': seq<Byte>,
                   rest: seq<Byte>)
    requires Parts(x, src, dst, y) && |y'| == 2 && |rest| >= 4
    ensures var f, g := Frame(x, src, dst, kind, y, rest), Frame(x, src, dst, kind, y', rest);
            |f| >= 48 && |g| >= 48 && SameBut(f, g)
  {
  }

  /** schc_decompression with icmp_decompression; n is the length of the packet left in buffer. */
  method Decompression(s: array<Byte>, size: nat, buffer: array<Byte>, c: Context) returns (n: nat)
    requires 1 <= size <= s.Length && Whole(s[..size]) && Complete(c) && buffer.Length >= 200 && buffer != s
    modifies buffer
    ensures n <= 107 && buffer[..n] == Decompress(s[..size], c)
  {
    hide Src, ContextSrc, ContextDst, Rest, Kind, Frame, Decompress;
    ghost var t := s[..size];
    var offset: nat;
    ghost var x, y;
    offset, x := PutHeader(s[0] / 64 % 2 == 0, buffer, c, t);
    n, y := PutMessage(s, size, buffer, c, x);
    Finish(buffer, n, t, c, x, y);
  }

  /** A packet sent through both sides comes back, under the conditions of RoundTripExactly. */
  method ThereAndBack(packet: seq<Byte>, c: Context) returns (back: seq<Byte>)
    requires Supported(packet) && Complete(c)
    ensures back == packet <==> Elided(packet, c)
  {
    hide Compress, Decompress, Elided, Supported, Whole, Readable;
    RoundTripExactly(packet, c);
    SupportedParts(packet);
    WholeSize(Compress(packet).value);
    var buffer := new Byte[|packet|](i requires 0 <= i < |packet| => packet[i]);
    assert buffer[..] == packet;
    var out := new Byte[300](_ => 0);
    var schc := new SchcData();
    var ok := Compression(buffer, out, schc);
    var result := new Byte[200](_ => 0);
    var n := Decompression(schc.buffer, schc.length, result, c);
    back := result[..n];
  }

  lemma SupportedParts(p: seq<Byte>)
    requires Supported(p)
    ensures Readable(p)
  {
  }

  lemma WholeSize(s: seq<Byte>)
    requires Whole(s)
    ensures 1 <= |s| <= MAX_SCHC
  {
  }
}
