/**
 The machine words of the LMIC structure and what they stand for: 32-bit times for unbounded
 ones, the bits of opmode for a set of flags, channel maps and frequencies for a plan, and
 what the engine does to the radio, the timer and the application for what the machine puts out.
 */
module MacWords {
  import opened Common
  import opened Ticks
  import opened Channels
  import opened Airtime
  import opened MacMachine

  type u2 = x: int | 0 <= x < 0x1_0000
  type u4 = x: int | 0 <= x < FULL
  type s1 = x: int | -128 <= x < 128

  // ---------------------------------------------------------------- times

  /** The word holds the time, modulo 2^32. */
  predicate Same(a: u4, t: int) {
    (t - a) % FULL == 0
  }

  function Low32(t: int): (a: u4)
    ensures Same(a, t)
  {
    t % FULL
  }

  /** The signed difference of two words is that of the times they hold. */
  lemma SameDiff(a: u4, t: int, b: u4, u: int)
    requires Same(a, t) && Same(b, u)
    ensures S32(a - b) == S32(t - u)
  {
    var j, k := (t - a) / FULL, (u - b) / FULL;
    assert t - u == (a - b) + (j - k) * FULL;
    S32Shift(a - b, j - k);
  }

  lemma SameSum(a: u4, t: int, d: int)
    requires Same(a, t)
    ensures Same(Low32(a + d), t + d)
  {
    var k := (t - a) / FULL;
    assert t + d - Low32(a + d) == (a + d - Low32(a + d)) + k * FULL;
    Multiple(a + d - Low32(a + d), k);
  }

  lemma SameLow(a: u4, t: int)
    requires Same(a, t)
    ensures Low32(t) == a && Same(Low32(t), t)
  {
    assert t == a + (t - a) / FULL * FULL;
    Multiple(a, (t - a) / FULL);
  }

  // ---------------------------------------------------------------- opmode

  /** The bit of opmode for a flag. */
  function Code(op: Op): bv16 {
    match op
    case JOINING => 0x0004
    case TXDATA => 0x0008
    case POLL => 0x0010
    case REJOIN => 0x0020
    case SHUTDOWN => 0x0040
    case TXRXPEND => 0x0080
    case RNDTX => 0x0100
    case NEXTCHNL => 0x0800
    case LINKDEAD => 0x1000
  }

  predicate AnyOf(w: bv16, mask: bv16) {
    w & mask != 0
  }

  function Or(w: bv16, mask: bv16): bv16 {
    w | mask
  }

  function AndNot(w: bv16, mask: bv16): bv16 {
    w & !mask
  }

  lemma OtherBitsSet(w: bv16, a: bv16, b: bv16)
    requires !AnyOf(a, b)
    ensures AnyOf(Or(w, a), b) <==> AnyOf(w, b)
  {
  }

  lemma OtherBitsCleared(w: bv16, a: bv16, b: bv16)
    requires !AnyOf(a, b)
    ensures AnyOf(AndNot(w, a), b) <==> AnyOf(w, b)
  {
  }

  lemma OwnBits(w: bv16, a: bv16)
    requires AnyOf(a, a)
    ensures AnyOf(Or(w, a), a) && !AnyOf(AndNot(w, a), a)
  {
  }

  predicate Has(w: bv16, op: Op) {
    AnyOf(w, Code(op))
  }

  ghost function Flags(w: bv16): set<Op> {
    set op: Op | Has(w, op)
  }

  /** opmode |= OP_... */
  function With(w: bv16, op: Op): bv16 {
    Or(w, Code(op))
  }

  /** opmode &= ~OP_... */
  function Without(w: bv16, op: Op): bv16 {
    AndNot(w, Code(op))
  }

  lemma CodesApart(op: Op, other: Op)
    ensures AnyOf(Code(op), Code(other)) <==> op == other
  {
  }

  lemma Bit(w: bv16, op: Op, other: Op)
    ensures Has(With(w, op), other) <==> Has(w, other) || other == op
    ensures Has(Without(w, op), other) <==> Has(w, other) && other != op
  {
    hide Code, AnyOf, Or, AndNot;
    CodesApart(op, other);
    if op == other {
      OwnBits(w, Code(op));
    } else {
      OtherBitsSet(w, Code(op), Code(other));
      OtherBitsCleared(w, Code(op), Code(other));
    }
  }

  lemma SetFlag(w: bv16, op: Op)
    ensures Flags(With(w, op)) == Flags(w) + {op}
  {
    hide Has, With, Without;
    forall other
      ensures Has(With(w, op), other) <==> Has(w, other) || other == op
    {
      Bit(w, op, other);
    }
  }

  lemma ClearFlag(w: bv16, op: Op)
    ensures Flags(Without(w, op)) == Flags(w) - {op}
  {
    hide Has, With, Without;
    forall other
      ensures Has(Without(w, op), other) <==> Has(w, other) && other != op
    {
      Bit(w, op, other);
    }
  }

  lemma NoFlags()
    ensures Flags(0) == {}
  {
  }

  // ---------------------------------------------------------------- channels and bands

  /** Bit i of a map. */
  function BitAt(w: u2, i: nat): bool {
    w / Pow2(i) % 2 == 1
  }

  function Bits(w: u2): set<nat> {
    set i: nat | i < 16 && BitAt(w, i)
  }

  /** channelFreq with the band in its two lowest bits, channelDrMap and channelMap. */
  datatype Table = Table(freq: seq<u4>, drMap: seq<u2>, enabled: u2)

  predicate Sized(table: Table) {
    |table.freq| == |table.drMap| == MAX_CHANNELS
  }

  function PlanOf(table: Table): Plan
    requires Sized(table)
  {
    Plan(seq(16, i requires 0 <= i < 16 => table.freq[i] % 4),
         seq(16, i requires 0 <= i < 16 => Bits(table.drMap[i])), Bits(table.enabled))
  }

  lemma UsableBits(table: Table, dr: nat, band: nat, c: nat)
    requires Sized(table) && c < 16
    ensures Usable(PlanOf(table), dr, band, c) <==>
            BitAt(table.enabled, c) && BitAt(table.drMap[c], dr % 16) && table.freq[c] % 4 == band
  {
    hide BitAt;
  }

  const EU868_F1: u4 := 868_100_000
  const EU868_F2: u4 := 868_300_000
  const EU868_F3: u4 := 868_500_000

  /** What initDefaultChannels writes. */
  function DefaultTable(join: bool): Table {
    var b := if join then BAND_MILLI else BAND_CENTI;
    Table([EU868_F1 + b, EU868_F2 + b, EU868_F3 + b] + Zeros(13), [0x3F, 0x3F, 0x3F] + Zeros(13), 7)
  }

  lemma SmallBits()
    ensures Bits(0) == {} && Bits(7) == {0, 1, 2} && Bits(0x3F) == RateSet()
  {
    Powers();
    LargeBits(0, 0);
    LargeBits(7, 3);
    LargeBits(0x3F, 6);
    assert forall i: nat :: i < 3 ==> BitAt(7, i);
    assert forall i: nat :: i < 6 ==> BitAt(0x3F, i);
  }

  /** A map below 2^n has no bit from n on. */
  lemma LargeBits(w: u2, n: nat)
    requires w < Pow2(n)
    ensures forall i :: n <= i ==> !BitAt(w, i)
  {
    forall i | n <= i
      ensures !BitAt(w, i)
    {
      PowerGrows(n, i);
      NoQuotient(w, Pow2(i));
    }
  }

  lemma NoQuotient(w: nat, p: nat)
    requires w < p
    ensures w / p == 0
  {
  }

  lemma {:induction false} PowerGrows(n: nat, i: nat)
    requires n <= i
    ensures Pow2(n) <= Pow2(i)
    decreases i
  {
    if n < i {
      PowerGrows(n, i - 1);
    }
  }

  lemma DefaultIsPlan(join: bool)
    ensures Sized(DefaultTable(join)) && PlanOf(DefaultTable(join)) == DefaultPlan(join)
  {
    hide Bits;
    SmallBits();
    var p, q := PlanOf(DefaultTable(join)), DefaultPlan(join);
    assert p.band == q.band;
    assert p.drMap == q.drMap;
  }

  datatype Band32 = Band32(txcap: u2, lastchnl: u1, avail: u4)

  predicate SameBands(bands: seq<Band32>, m: seq<Band>) {
    && |bands| == |m| == 4
    && forall b :: 0 <= b < 4 ==>
         bands[b].txcap == m[b].txcap && bands[b].lastchnl == m[b].lastchnl && Same(bands[b].avail, m[b].avail)
  }

  // ---------------------------------------------------------------- what is done

  /**
   A frame handed to the radio, on a frequency of some band; the bands set up afresh; the timer
   set; an event for the application; the job that resets.
   */
  datatype Act =
    | Radio(at: u4, band: nat, rps: Modem, len: u1)
    | SetBands
    | SetTimer(at: u4)
    | Event(ev: Ev, flags: set<Flag>)
    | ResetJob

  function ActOf(out: Out): seq<Act> {
    match out
    case Sent(tx) => [Radio(Low32(tx.at), tx.band, tx.rps, tx.flen)]
    case Restarted => [SetBands]
    case Wake(at) => [SetTimer(Low32(at))]
    case Report(ev, flags) => [Event(ev, flags)]
    case Resets => [ResetJob]
    case _ => []
  }

  function ActsOf(outs: seq<Out>): seq<Act> {
    if outs == [] then [] else ActsOf(outs[..|outs| - 1]) + ActOf(outs[|outs| - 1])
  }

  lemma {:induction false} ActsTwo(outs: seq<Out>, more: seq<Out>)
    ensures ActsOf(outs + more) == ActsOf(outs) + ActsOf(more)
    decreases |more|
  {
    hide ActOf;
    if more == [] {
      assert outs + more == outs;
    } else {
      ActsTwo(outs, more[..|more| - 1]);
      assert (outs + more)[..|outs + more| - 1] == outs + more[..|more| - 1];
    }
  }

  lemma ActsOne(out: Out)
    ensures ActsOf([out]) == ActOf(out) && ActsOf([]) == []
  {
    assert [out][..0] == [];
  }
}
