/**
 hal_ticks: a 32-bit tick count of 16 microseconds rebuilt from a microsecond counter that
 wraps every 2^32 microseconds. True time is a 64-bit number of microseconds.
 */
module HalTicks {
  /** What micros() shows at true time t. */
  function Micros(t: bv64): bv32 {
    (t & 0xFFFF_FFFF) as bv32
  }

  /** What the caller should get: true time in ticks, modulo 2^32. */
  function TrueTicks(t: bv64): bv32 {
    ((t >> 4) & 0xFFFF_FFFF) as bv32
  }

  /** What the overflow area should hold: five bits of the time from bit 31 up, times eight. */
  function Extension(t: bv64): bv8 {
    (((t >> 31) & 31) as bv8) << 3
  }

  /** The overflow area after a call, given what it held and what micros() shows. */
  function NextOverflow(overflow: bv8, micros: bv32): bv8 {
    var msb := ((micros >> 4) >> 24) as bv8;
    overflow + ((msb ^ overflow) & 8)
  }

  /** The value returned, given the updated overflow area. */
  function Result(overflow: bv8, micros: bv32): bv32 {
    (micros >> 4) | ((overflow as bv32) << 24)
  }

  /** The number of half periods of micros() begun between two times, modulo 32. */
  function HalvesBetween(last: bv64, t: bv64): bv64 {
    ((t >> 31) - (last >> 31)) & 31
  }

  lemma ResultRight(t: bv64)
    ensures Result(Extension(t), Micros(t)) == TrueTicks(t)
  {
  }

  /** One call brings the overflow area up to date if at most one half period was begun since. */
  lemma OverflowUpdated(last: bv64, t: bv64)
    ensures NextOverflow(Extension(last), Micros(t)) == Extension(t) <==> HalvesBetween(last, t) <= 1
  {
  }

  /** The value returned shows every bit of the extension, so it is right only if the area is. */
  lemma ResultTells(overflow: bv8, last: bv64, t: bv64)
    requires overflow == NextOverflow(Extension(last), Micros(t))
    ensures Result(overflow, Micros(t)) == TrueTicks(t) ==> overflow == Extension(t)
  {
  }

  /** The next reading comes before 2^31 microseconds have passed. */
  predicate Soon(last: bv64, t: bv64) {
    last <= t && t - last < 0x8000_0000
  }

  lemma HalvesWithinGap(last: bv64, t: bv64)
    requires Soon(last, t)
    ensures HalvesBetween(last, t) <= 1
  {
  }

  /**
   A call returns the true ticks exactly if, modulo 32, at most one half period of the
   microsecond counter was begun since the last call.
   */
  lemma CallRightExactly(last: bv64, t: bv64)
    ensures Result(NextOverflow(Extension(last), Micros(t)), Micros(t)) == TrueTicks(t) <==> HalvesBetween(last, t) <= 1
  {
    hide Result, TrueTicks, Extension, Micros, NextOverflow, HalvesBetween;
    var overflow := NextOverflow(Extension(last), Micros(t));
    OverflowUpdated(last, t);
    ResultTells(overflow, last, t);
    ResultRight(t);
  }

  lemma OneCall(last: bv64, t: bv64)
    requires Soon(last, t)
    ensures NextOverflow(Extension(last), Micros(t)) == Extension(t)
    ensures Result(Extension(t), Micros(t)) == TrueTicks(t)
  {
    hide Result, TrueTicks, Extension, Micros, NextOverflow, HalvesBetween;
    HalvesWithinGap(last, t);
    OverflowUpdated(last, t);
    ResultRight(t);
  }

  /** Calls at the given times in turn: the overflow area afterwards and all values returned. */
  function Calls(times: seq<bv64>): (bv8, seq<bv32>) {
    if times == [] then (0, [])
    else
      var (overflow, results) := Calls(times[..|times| - 1]);
      var micros := Micros(times[|times| - 1]);
      var next := NextOverflow(overflow, micros);
      (next, results + [Result(next, micros)])
  }

  function TimeBefore(times: seq<bv64>, i: nat): bv64
    requires i <= |times|
  {
    if i == 0 then 0 else times[i - 1]
  }

  /** The clock starts at zero and is read again before 2^31 microseconds have passed. */
  ghost predicate Steady(times: seq<bv64>) {
    forall i :: 0 <= i < |times| ==> Soon(TimeBefore(times, i), times[i])
  }

  /** Over every steady run each value returned is the true tick count. */
  lemma {:induction false} RunRight(times: seq<bv64>)
    requires Steady(times)
    ensures Calls(times).0 == Extension(TimeBefore(times, |times|))
    ensures |Calls(times).1| == |times| && forall i :: 0 <= i < |times| ==> Calls(times).1[i] == TrueTicks(times[i])
  {
    if times == [] {
      ExtensionOfZero();
    } else {
      hide Result, TrueTicks, Extension, Micros, NextOverflow, Soon, TimeBefore, Steady;
      SteadyPrefix(times);
      RunRight(times[..|times| - 1]);
      OneCall(TimeBefore(times, |times| - 1), times[|times| - 1]);
    }
  }

  lemma SteadyPrefix(times: seq<bv64>)
    requires Steady(times) && times != []
    ensures var n := |times| - 1;
            && Steady(times[..n]) && Soon(TimeBefore(times, n), times[n])
            && TimeBefore(times[..n], n) == TimeBefore(times, n) && TimeBefore(times, n + 1) == times[n]
  {
  }

  lemma ExtensionOfZero()
    ensures Extension(0) == 0
  {
  }

  /** A clock not read for a whole period of micros() is wrong afterwards. */
  lemma GapTooLong()
    ensures Calls([0x1_0000_0000]).1 != [TrueTicks(0x1_0000_0000)]
  {
    assert Calls([0x1_0000_0000][..0]) == (0, []);
    assert Calls([0x1_0000_0000]).1 == [Result(NextOverflow(0, Micros(0x1_0000_0000)), Micros(0x1_0000_0000))];
  }

  class Hal {
    var overflow: bv8
    /** The true time of the last call. */
    ghost var last: bv64

    ghost predicate Valid()
      reads this
    {
      overflow == Extension(last)
    }

    constructor ()
      ensures Valid() && last == 0
    {
      overflow, last := 0, 0;
      new;
      ExtensionOfZero();
    }

    /** hal_ticks at true time t; the bit operations are those of NextOverflow and Result. */
    method Ticks(micros: bv32, ghost t: bv64) returns (r: bv32)
      requires Valid() && micros == Micros(t)
      requires Soon(last, t)
      modifies this
      ensures Valid() && last == t && r == TrueTicks(t)
    {
      hide TrueTicks, Extension, Micros, Soon, NextOverflow, Result;
      OneCall(last, t);
      overflow := NextOverflow(overflow, micros);
      last := t;
      r := Result(overflow, micros);
    }
  }
}
