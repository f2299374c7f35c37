/**
 calcAirTime: the time a frame is on the air, in ticks of 16 microseconds and in 32-bit
 integer arithmetic, against the LoRa formula over real numbers and the gateway's count.
 */
module Airtime {
  type s4 = x: int | -0x8000_0000 <= x < 0x8000_0000
  type u1 = x: int | 0 <= x < 256

  const OSTICKS_PER_SEC: s4 := 62500

  /** Radio parameters: sf 7..12, bw 0..2 for 125, 250 and 500 kHz, cr 0..3 for 4/5 to 4/8. */
  datatype Rps = Fsk | Lora(sf: u1, bw: u1, cr: u1, implicitHeader: bool, noCrc: bool)

  predicate Legal(rps: Rps) {
    rps.Lora? ==> 7 <= rps.sf <= 12 && rps.bw <= 2 && rps.cr <= 3
  }

  function Pow2(n: nat): (r: nat)
    ensures r > 0
  {
    if n == 0 then 1 else 2 * Pow2(n - 1)
  }

  // ---------------------------------------------------------------- the formula

  function Ceil(x: real): int {
    -((-x).Floor)
  }

  /** Bits of the payload beyond those the first eight symbols carry. */
  function PayloadBits(rps: Rps, plen: u1): int
    requires rps.Lora?
  {
    8 * plen - 4 * rps.sf + 28 + (if rps.noCrc then 0 else 16) - (if rps.implicitHeader then 20 else 0)
  }

  /** Bits per block of cr + 5 symbols; two fewer per symbol with low data rate optimisation. */
  function BlockBits(rps: Rps): int
    requires rps.Lora?
  {
    4 * (rps.sf - if rps.sf >= 11 then 2 else 0)
  }

  /** The number of payload symbols, by the formula of the radio's data sheet. */
  function PayloadSymbols(rps: Rps, plen: u1): int
    requires rps.Lora? && Legal(rps)
  {
    var blocks := Ceil(PayloadBits(rps, plen) as real / BlockBits(rps) as real);
    8 + (if blocks > 0 then blocks * (rps.cr + 5) else 0)
  }

  /** Time on air in ticks: 12.25 preamble symbols and the payload, each of 2^sf / bandwidth seconds. */
  function TrueTicks(rps: Rps, plen: u1): real
    requires Legal(rps)
  {
    match rps
    case Fsk => ((plen + 5 + 3 + 1 + 2) * 8) as real / 50000.0 * OSTICKS_PER_SEC as real
    case Lora(sf, bw, _, _, _) =>
      (12.25 + PayloadSymbols(rps, plen) as real) * Pow2(sf) as real
      / (125000 * Pow2(bw)) as real * OSTICKS_PER_SEC as real
  }

  /** payloadSymbNb of the gateway's lgw_time_on_air; its code rate is 1..4 and the CRC is always on. */
  function GatewaySymbols(sf: u1, coderate: u1, size: u1, noHeader: bool): int
    requires 7 <= sf <= 12
  {
    var h := if noHeader then 1 else 0;
    var de := if sf >= 11 then 1 else 0;
    8 + Ceil((8 * size - 4 * sf + 28 + 16 - 20 * h) as real / (4 * (sf - 2 * de)) as real) * (coderate + 4)
  }

  // ---------------------------------------------------------------- the code

  /** The quarter symbols counted by the code. */
  function Quarters(rps: Rps, plen: u1): int
    requires rps.Lora? && Legal(rps)
  {
    var bits := PayloadBits(rps, plen);
    4 * (if bits > 0 then (bits + BlockBits(rps) - 1) / BlockBits(rps) * (rps.cr + 5) + 8 else 8) + 49
  }

  /** The divisor 15625, shortened when the shift was. */
  function Divisor(sfx: int): (div: int)
    requires 0 <= sfx <= 7
    ensures div == if sfx <= 4 then 15625 else if sfx == 5 then 7812 else if sfx == 6 then 3906 else 1953
  {
    if sfx > 4 then assert Pow2(3) == 8; 15625 / Pow2(sfx - 4) else 15625
  }

  function Shift(sfx: int): int {
    if sfx > 4 then 4 else sfx
  }

  function ComputedTicks(rps: Rps, plen: u1): int
    requires Legal(rps)
  {
    match rps
    case Fsk => (plen + 11) * 8 * 62500 / 50000
    case Lora(sf, bw, _, _, _) =>
      var sfx := sf - 5 - bw;
      (Quarters(rps, plen) * Pow2(Shift(sfx)) * 62500 + Divisor(sfx) / 2) / Divisor(sfx)
  }

  /** calcAirTime. The types of the locals are those of the code: every step fits its width. */
  method CalcAirTime(rps: Rps, plen: u1) returns (ticks: s4)
    requires Legal(rps)
    ensures ticks == ComputedTicks(rps, plen)
  {
    if rps.Fsk? {
      var bits: s4 := (plen + 5 + 3 + 1 + 2) * 8;
      var scaled: s4 := bits * OSTICKS_PER_SEC;
      ticks := scaled / 50000;
    } else {
      var tmp := CountQuarters(rps, plen);
      ticks := Scale(rps.sf, rps.bw, tmp);
    }
  }

  /** Symbols in quarters, preamble included. */
  method CountQuarters(rps: Rps, plen: u1) returns (tmp: s4)
    requires rps.Lora? && Legal(rps)
    ensures tmp == Quarters(rps, plen) && 0 < tmp <= QuartersLimit(rps.sf)
  {
    QuartersBound(rps, plen);
    var sfx: u1 := 4 * rps.sf;
    var q: u1 := sfx - if rps.sf >= 11 then 8 else 0;
    tmp := 8 * plen - sfx + 28 + (if rps.noCrc then 0 else 16) - (if rps.implicitHeader then 20 else 0);
    if tmp > 0 {
      tmp := (tmp + q - 1) / q;
      tmp := tmp * (rps.cr + 5);
      tmp := tmp + 8;
    } else {
      tmp := 8;
    }
    tmp := tmp * 4 + 49;
  }

  /** Quarter symbols to ticks; the shift is cut to four and the divisor with it. */
  method Scale(sf: u1, bw: u1, tmp: s4) returns (ticks: s4)
    requires 7 <= sf <= 12 && bw <= 2 && 0 < tmp <= QuartersLimit(sf)
    ensures ticks == (tmp * Pow2(Shift(sf - 5 - bw)) * 62500 + Divisor(sf - 5 - bw) / 2) / Divisor(sf - 5 - bw)
  {
    ScaledBound(tmp, sf, bw);
    var sfx: u1 := sf - (3 + 2) - bw;
    var div: s4 := 15625;
    if sfx > 4 {
      div := div / Pow2(sfx - 4);
      sfx := 4;
    }
    assert div == Divisor(sf - 5 - bw) && sfx == Shift(sf - 5 - bw);
    var shifted: s4 := tmp * Pow2(sfx);
    var product: s4 := shifted * OSTICKS_PER_SEC;
    var sum: s4 := product + div / 2;
    ticks := sum / div;
  }

  // ---------------------------------------------------------------- exactness

  function QuartersLimit(sf: int): int {
    if sf == 7 then 2449 else if sf == 8 then 2161 else 1905
  }

  /** ceil(a / b) of positive whole numbers, as the code and as the formula take it. */
  lemma CeilOfQuotient(a: int, b: int)
    requires b > 0
    ensures Ceil(a as real / b as real) == (a + b - 1) / b
  {
    var q, x := (a + b - 1) / b, a as real / b as real;
    assert b * (q - 1) < a <= b * q by {
      assert a + b - 1 == b * q + (a + b - 1) % b;
    }
    assert x * b as real == a as real;
    QuotientBounds(x, b, q);
  }

  lemma QuotientBounds(x: real, b: int, q: int)
    requires b > 0 && (b * (q - 1)) as real < x * b as real <= (b * q) as real
    ensures Ceil(x) == q
  {
    assert (b * q) as real == q as real * b as real;
    assert (b * (q - 1)) as real == (q - 1) as real * b as real;
    RealOrder(x, q as real, b as real);
    RealOrder(x, (q - 1) as real, b as real);
    FloorUnique(-x, -q);
  }

  lemma FloorUnique(y: real, n: int)
    requires n as real <= y < n as real + 1.0
    ensures y.Floor == n
  {
  }

  lemma RealOrder(x: real, y: real, b: real)
    requires b > 0.0
    ensures x <= y <==> x * b <= y * b
  {
  }

  lemma BlocksAgree(rps: Rps, plen: u1)
    requires rps.Lora? && Legal(rps)
    ensures Quarters(rps, plen) == 4 * PayloadSymbols(rps, plen) + 49
  {
    CeilOfQuotient(PayloadBits(rps, plen), BlockBits(rps));
    CeilSign(PayloadBits(rps, plen), BlockBits(rps));
  }

  lemma CeilSign(a: int, b: int)
    requires b > 0
    ensures (a + b - 1) / b > 0 <==> a > 0
  {
  }

  lemma QuartersBound(rps: Rps, plen: u1)
    requires rps.Lora? && Legal(rps)
    ensures 81 <= Quarters(rps, plen) <= QuartersLimit(rps.sf)
  {
    var bits, block := PayloadBits(rps, plen), BlockBits(rps);
    if bits > 0 {
      var limit := if rps.sf == 7 then 74 else if rps.sf == 8 then 65 else 57;
      BlocksLimit(bits, block, limit);
      assert (bits + block - 1) / block * (rps.cr + 5) <= limit * 8;
    }
  }

  lemma BlocksLimit(bits: int, block: int, limit: int)
    requires 0 < bits <= limit * block && block > 0
    ensures 0 < (bits + block - 1) / block <= limit
  {
    var q := (bits + block - 1) / block;
    assert bits + block - 1 == block * q + (bits + block - 1) % block;
    Ordered(block, limit, q - 1);
    Ordered(block, q, 0);
  }

  lemma Ordered(b: int, x: int, y: int)
    requires b > 0
    ensures x <= y ==> b * x <= b * y
  {
  }

  lemma ScaledBound(tmp: int, sf: u1, bw: u1)
    requires 7 <= sf <= 12 && bw <= 2 && 0 < tmp <= QuartersLimit(sf)
    ensures 0 < tmp * Pow2(Shift(sf - 5 - bw)) <= 34359
  {
    Powers();
    assert Pow2(Shift(sf - 5 - bw)) <= if sf == 7 then 4 else if sf == 8 then 8 else 16;
    assert tmp * Pow2(Shift(sf - 5 - bw)) <= QuartersLimit(sf) * Pow2(Shift(sf - 5 - bw));
  }

  lemma Powers()
    ensures Pow2(0) == 1 && Pow2(1) == 2 && Pow2(2) == 4 && Pow2(3) == 8 && Pow2(4) == 16
    ensures Pow2(7) == 128 && Pow2(8) == 256 && Pow2(9) == 512 && Pow2(10) == 1024 && Pow2(11) == 2048
            && Pow2(12) == 4096
  {
  }

  lemma TrueTicksScaled(rps: Rps, plen: u1)
    requires rps.Lora? && Legal(rps)
    ensures var sfx := rps.sf - 5 - rps.bw;
            TrueTicks(rps, plen) == (Quarters(rps, plen) * 4 * Pow2(sfx)) as real
  {
    BlocksAgree(rps, plen);
    Powers();
  }

  /** The computed time is exact while the shift is at most four, and for FSK. */
  lemma ExactWhenSmall(rps: Rps, plen: u1)
    requires Legal(rps) && (rps.Lora? ==> rps.sf - 5 - rps.bw <= 4)
    ensures ComputedTicks(rps, plen) as real == TrueTicks(rps, plen)
  {
    if rps.Lora? {
      LoraExact(rps, plen);
    } else {
      FskExact(plen);
    }
  }

  lemma LoraExact(rps: Rps, plen: u1)
    requires rps.Lora? && Legal(rps) && rps.sf - 5 - rps.bw <= 4
    ensures ComputedTicks(rps, plen) as real == TrueTicks(rps, plen)
  {
    hide Quarters, Pow2, TrueTicks;
    TrueTicksScaled(rps, plen);
    WholeQuotient(Quarters(rps, plen) * Pow2(rps.sf - 5 - rps.bw));
  }

  lemma FskExact(plen: u1)
    ensures ComputedTicks(Fsk, plen) as real == TrueTicks(Fsk, plen)
  {
  }

  lemma WholeQuotient(x: int)
    ensures (x * 62500 + 15625 / 2) / 15625 == x * 4
  {
  }

  /** The shortened divisor makes the quotient too large by one part in 15624, rounded to the nearest. */
  lemma Rounded(sfx: int, tmp: nat)
    requires 5 <= sfx <= 7
    ensures var c := (tmp * 16 * 62500 + Divisor(sfx) / 2) / Divisor(sfx);
            var t := tmp * 4 * Pow2(sfx);
            t <= c && c * 15624 <= t * 15625 + 15624 && (tmp >= 81 ==> t < c)
  {
    Powers();
    if sfx == 5 {
      assert Pow2(sfx) == 32;
    } else if sfx == 6 {
      assert Pow2(sfx) == 64;
    } else {
      assert Pow2(sfx) == 128;
    }
  }

  /** Never too short, and too long by at most one part in 15624 and a tick. */
  lemma NeverTooShort(rps: Rps, plen: u1)
    requires Legal(rps)
    ensures TrueTicks(rps, plen) <= ComputedTicks(rps, plen) as real
    ensures ComputedTicks(rps, plen) as real <= TrueTicks(rps, plen) * 15625.0 / 15624.0 + 1.0
  {
    hide TrueTicks, Quarters;
    if rps.Lora? && rps.sf - 5 - rps.bw > 4 {
      var sfx := rps.sf - 5 - rps.bw;
      TrueTicksScaled(rps, plen);
      QuartersBound(rps, plen);
      Powers();
      Rounded(sfx, Quarters(rps, plen));
      RealBound(ComputedTicks(rps, plen), Quarters(rps, plen) * 4 * Pow2(sfx), TrueTicks(rps, plen));
    } else {
      ExactWhenSmall(rps, plen);
      AirtimePositive(rps, plen);
    }
  }

  lemma RealBound(c: int, t: int, x: real)
    requires t <= c && c * 15624 <= t * 15625 + 15624 && x == t as real
    ensures x <= c as real <= x * 15625.0 / 15624.0 + 1.0
  {
  }

  lemma AirtimePositive(rps: Rps, plen: u1)
    requires Legal(rps)
    ensures TrueTicks(rps, plen) >= 0.0
  {
    hide TrueTicks, Quarters;
    if rps.Lora? {
      TrueTicksScaled(rps, plen);
      QuartersBound(rps, plen);
      ProductPositive(Quarters(rps, plen), Pow2(rps.sf - 5 - rps.bw));
    } else {
      ExactWhenSmall(rps, plen);
    }
  }

  lemma ProductPositive(x: int, y: int)
    requires x > 0 && y > 0
    ensures x * 4 * y > 0
  {
  }

  /** The computed time is exact precisely when the shift is at most four, and for FSK. */
  lemma ExactPrecisely(rps: Rps, plen: u1)
    requires Legal(rps)
    ensures ComputedTicks(rps, plen) as real == TrueTicks(rps, plen) <==> rps.Fsk? || rps.sf - 5 - rps.bw <= 4
  {
    hide TrueTicks, Quarters;
    if rps.Fsk? || rps.sf - 5 - rps.bw <= 4 {
      ExactWhenSmall(rps, plen);
    } else {
      TrueTicksScaled(rps, plen);
      QuartersBound(rps, plen);
      Rounded(rps.sf - 5 - rps.bw, Quarters(rps, plen));
    }
  }

  /** With the CRC on, the gateway counts the same payload symbols; its code rate is one more. */
  lemma SameSymbols(rps: Rps, plen: u1)
    requires rps.Lora? && Legal(rps) && !rps.noCrc
    ensures GatewaySymbols(rps.sf, rps.cr + 1, plen, rps.implicitHeader) == PayloadSymbols(rps, plen)
    ensures Quarters(rps, plen) == 4 * GatewaySymbols(rps.sf, rps.cr + 1, plen, rps.implicitHeader) + 49
  {
    BlocksAgree(rps, plen);
    GatewayBlocks(rps, plen);
    PayloadBlocks(rps, plen);
    hide GatewaySymbols, PayloadSymbols, Quarters;
  }

  lemma GatewayBlocks(rps: Rps, plen: u1)
    requires rps.Lora? && Legal(rps) && !rps.noCrc
    ensures GatewaySymbols(rps.sf, rps.cr + 1, plen, rps.implicitHeader) ==
            8 + Ceil(PayloadBits(rps, plen) as real / BlockBits(rps) as real) * (rps.cr + 5)
  {
  }

  /** With the CRC on, the bits are never a whole block below zero, so no block count is negative. */
  lemma PayloadBlocks(rps: Rps, plen: u1)
    requires rps.Lora? && Legal(rps) && !rps.noCrc
    ensures PayloadSymbols(rps, plen)
            == 8 + Ceil(PayloadBits(rps, plen) as real / BlockBits(rps) as real) * (rps.cr + 5)
  {
    hide Ceil;
    CeilOfQuotient(PayloadBits(rps, plen), BlockBits(rps));
    NotNegative(PayloadBits(rps, plen), BlockBits(rps));
  }

  lemma NotNegative(a: int, b: int)
    requires b > 0 && a > -b
    ensures (a + b - 1) / b >= 0
  {
  }
}
