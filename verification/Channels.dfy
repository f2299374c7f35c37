/**
 nextTx: which channel a frame goes out on and from when. Times are unbounded tick counts;
 the code's 32-bit comparisons are the signed differences S32. Bit maps are sets of bits.
 */
module Channels {
  import opened Common
  import opened Ticks

  const MAX_CHANNELS := 16
  const EIGHT_HOURS := 28800 * 62500

  /** A frequency band: one transmission blocks it for txcap times its airtime. */
  datatype Band = Band(txcap: nat, lastchnl: nat, avail: int)

  /** Per channel the band its frequency is in and its data rates; the channels enabled. */
  datatype Plan = Plan(band: seq<nat>, drMap: seq<set<nat>>, enabled: set<nat>)

  predicate WellFormed(bands: seq<Band>, plan: Plan) {
    && |bands| == 4 && |plan.band| == |plan.drMap| == MAX_CHANNELS
    && (forall b :: 0 <= b < 4 ==> bands[b].lastchnl < MAX_CHANNELS)
    && (forall c :: 0 <= c < MAX_CHANNELS ==> plan.band[c] < 4)
  }

  predicate Usable(plan: Plan, dr: nat, band: nat, c: nat) {
    && c < |plan.band| && c < |plan.drMap|
    && c in plan.enabled && dr % 16 in plan.drMap[c] && plan.band[c] == band
  }

  ghost predicate Feasible(plan: Plan, dr: nat, band: nat) {
    exists c :: 0 <= c < MAX_CHANNELS && Usable(plan, dr, band, c)
  }

  // ---------------------------------------------------------------- the selection as functions

  /** The band loop from index bi on, with the best time and band so far. */
  function Select(bands: seq<Band>, bmap: set<nat>, bi: nat, mintime: int, band: nat): (int, nat)
    requires |bands| == 4 && bi <= 4
    decreases 4 - bi
  {
    if bi == 4 then (mintime, band)
    else if bi in bmap && S32(mintime - bands[bi].avail) > 0 then Select(bands, bmap, bi + 1, bands[bi].avail, bi)
    else Select(bands, bmap, bi + 1, mintime, band)
  }

  function NextChannel(c: nat): nat {
    if c + 1 >= MAX_CHANNELS then c + 1 - MAX_CHANNELS else c + 1
  }

  /** The channel loop: the first usable channel among the next n after c, cyclically. */
  function Pick(plan: Plan, dr: nat, band: nat, c: nat, n: nat): Option<nat>
    decreases n
  {
    if n == 0 then None
    else if Usable(plan, dr, band, NextChannel(c)) then Some(NextChannel(c))
    else Pick(plan, dr, band, NextChannel(c), n - 1)
  }

  /** A stall is a loop that never ends. */
  datatype Choice = Found(time: int, band: nat, channel: nat) | NoChannel(time: int) | Stall

  /** nextTx with the bands in bmap still to be tried. */
  function Choose(bands: seq<Band>, plan: Plan, dr: nat, now: int, bmap: set<nat>): Choice
    requires |bands| == 4
    decreases |bmap|
  {
    var (time, band) := Select(bands, bmap, 0, now + EIGHT_HOURS, 0);
    SelectRange(bands, bmap, 0, now + EIGHT_HOURS, 0);
    var channel := Pick(plan, dr, band, bands[band].lastchnl, MAX_CHANNELS);
    if channel.Some? then Found(time, band, channel.value)
    else if bmap - {band} == {} then NoChannel(time)
    else if band !in bmap then Stall
    else Choose(bands, plan, dr, now, bmap - {band})
  }

  const ALL_BANDS: set<nat> := {0, 1, 2, 3}

  function NextTx(bands: seq<Band>, plan: Plan, dr: nat, now: int): Choice
    requires |bands| == 4
  {
    Choose(bands, plan, dr, now, ALL_BANDS)
  }

  lemma SelectRange(bands: seq<Band>, bmap: set<nat>, bi: nat, mintime: int, band: nat)
    requires |bands| == 4 && bi <= 4 && band < 4
    ensures Select(bands, bmap, bi, mintime, band).1 < 4
    decreases 4 - bi
  {
  }

  // ---------------------------------------------------------------- the channel loop

  /** The channel k steps after c, cyclically, for k up to the number of channels. */
  function Later(c: nat, k: nat): nat {
    if c + k >= MAX_CHANNELS then c + k - MAX_CHANNELS else c + k
  }

  /** The first usable channel after c, and only if there is one. */
  lemma {:induction false} PickIsFirst(plan: Plan, dr: nat, band: nat, c: nat, n: nat)
    requires c < MAX_CHANNELS && n <= MAX_CHANNELS
    ensures Pick(plan, dr, band, c, n).None? ==> forall k :: 1 <= k <= n ==> !Usable(plan, dr, band, Later(c, k))
    ensures Pick(plan, dr, band, c, n).Some? ==>
              exists k :: 1 <= k <= n && First(plan, dr, band, c, k) && Pick(plan, dr, band, c, n).value == Later(c, k)
    decreases n
  {
    if n > 0 {
      assert NextChannel(c) == Later(c, 1);
      if Usable(plan, dr, band, NextChannel(c)) {
        assert First(plan, dr, band, c, 1);
      } else {
        PickIsFirst(plan, dr, band, NextChannel(c), n - 1);
        assert forall k: nat :: 1 <= k <= n ==> Later(c, k) == Later(NextChannel(c), k - 1);
        if Pick(plan, dr, band, c, n).Some? {
          var k :| 1 <= k <= n - 1 && First(plan, dr, band, NextChannel(c), k)
            && Pick(plan, dr, band, c, n).value == Later(NextChannel(c), k);
          assert First(plan, dr, band, c, k + 1);
        }
      }
    }
  }

  /** Channel k steps after c is usable, and none before it is. */
  predicate First(plan: Plan, dr: nat, band: nat, c: nat, k: nat) {
    Usable(plan, dr, band, Later(c, k)) && forall j :: 1 <= j < k ==> !Usable(plan, dr, band, Later(c, j))
  }

  /** How many channels are passed over from c before target is reached. */
  function Distance(c: nat, target: nat): nat {
    if target > c then target - c - 1 else if target + MAX_CHANNELS > c then target + MAX_CHANNELS - c - 1 else 0
  }

  lemma LaterDistance(c: nat, target: nat)
    requires c < MAX_CHANNELS && target < MAX_CHANNELS
    ensures Later(c, Distance(c, target) + 1) == target && Distance(c, target) < MAX_CHANNELS
  {
  }

  lemma DistanceAfter(c: nat, k: nat, target: nat)
    requires c < MAX_CHANNELS && target < MAX_CHANNELS && k <= Distance(c, target)
    ensures Distance(Later(c, k), target) == Distance(c, target) - k && Later(c, k) < MAX_CHANNELS
  {
  }

  lemma PickFindsFeasible(plan: Plan, dr: nat, band: nat, c: nat)
    requires c < MAX_CHANNELS
    ensures Pick(plan, dr, band, c, MAX_CHANNELS).Some? <==> Feasible(plan, dr, band)
    ensures Pick(plan, dr, band, c, MAX_CHANNELS).Some? ==>
              var pick := Pick(plan, dr, band, c, MAX_CHANNELS).value;
              pick < MAX_CHANNELS && Usable(plan, dr, band, pick)
  {
    hide Usable, Pick, Later, Distance;
    PickIsFirst(plan, dr, band, c, MAX_CHANNELS);
    if Feasible(plan, dr, band) {
      var t :| 0 <= t < MAX_CHANNELS && Usable(plan, dr, band, t);
      LaterDistance(c, t);
    }
    if Pick(plan, dr, band, c, MAX_CHANNELS).Some? {
      var k :| 1 <= k <= MAX_CHANNELS && First(plan, dr, band, c, k)
        && Pick(plan, dr, band, c, MAX_CHANNELS).value == Later(c, k);
      LaterRange(c, k);
    }
  }

  lemma LaterRange(c: nat, k: nat)
    requires c < MAX_CHANNELS && k <= MAX_CHANNELS
    ensures Later(c, k) < MAX_CHANNELS
  {
  }

  /** Every pick that is not the target brings the search closer to it. */
  lemma PickApproaches(plan: Plan, dr: nat, band: nat, c: nat, target: nat)
    requires c < MAX_CHANNELS && target < MAX_CHANNELS && Usable(plan, dr, band, target)
    ensures var pick := Pick(plan, dr, band, c, MAX_CHANNELS);
            pick.Some? && pick.value < MAX_CHANNELS
              && (pick.value == target || Distance(pick.value, target) < Distance(c, target))
  {
    hide Usable, Pick, Later, Distance;
    PickIsFirst(plan, dr, band, c, MAX_CHANNELS);
    var d := Distance(c, target) + 1;
    LaterDistance(c, target);
    var pick := Pick(plan, dr, band, c, MAX_CHANNELS);
    if pick.Some? {
      var k :| 1 <= k <= MAX_CHANNELS && First(plan, dr, band, c, k) && pick.value == Later(c, k);
      if k < d {
        DistanceAfter(c, k, target);
      }
    }
  }

  /** The channel after n picks of a band, from the last one used. */
  function Picks(plan: Plan, dr: nat, band: nat, c: nat, n: nat): nat
    decreases n
  {
    if n == 0 then c
    else
      var pick := Pick(plan, dr, band, c, MAX_CHANNELS);
      Picks(plan, dr, band, if pick.Some? then pick.value else c, n - 1)
  }

  /** Every usable channel of a band comes up again within sixteen picks. */
  lemma {:induction false} EveryChannelComes(plan: Plan, dr: nat, band: nat, c: nat, target: nat)
    requires c < MAX_CHANNELS && target < MAX_CHANNELS && Usable(plan, dr, band, target)
    ensures exists n :: 1 <= n <= MAX_CHANNELS && Picks(plan, dr, band, c, n) == target
    decreases Distance(c, target)
  {
    var n := ComesAfter(plan, dr, band, c, target);
  }

  lemma {:induction false} ComesAfter(plan: Plan, dr: nat, band: nat, c: nat, target: nat) returns (n: nat)
    requires c < MAX_CHANNELS && target < MAX_CHANNELS && Usable(plan, dr, band, target)
    ensures 1 <= n <= Distance(c, target) + 1 && Picks(plan, dr, band, c, n) == target
    decreases Distance(c, target)
  {
    hide Usable, Pick;
    PickApproaches(plan, dr, band, c, target);
    var pick := Pick(plan, dr, band, c, MAX_CHANNELS).value;
    if pick == target {
      n := 1;
      assert Picks(plan, dr, band, c, 1) == Picks(plan, dr, band, pick, 0);
    } else {
      n := ComesAfter(plan, dr, band, pick, target);
      n := n + 1;
    }
  }

  // ---------------------------------------------------------------- the band loop

  /** The band's time is before the horizon of eight hours, by signed difference. */
  predicate Passing(bands: seq<Band>, now: int, b: nat)
    requires |bands| == 4 && b < 4
  {
    S32(now + EIGHT_HOURS - bands[b].avail) > 0
  }

  /** Band b takes the place of band a in the band loop. */
  predicate Beats(bands: seq<Band>, b: nat, a: nat)
    requires |bands| == 4 && a < 4 && b < 4
  {
    S32(bands[a].avail - bands[b].avail) > 0
  }

  /** The loop can come to the band: from the horizon, or from an earlier band that it can come to. */
  predicate Reached(bands: seq<Band>, now: int, b: nat)
    requires |bands| == 4 && b < 4
    decreases b
  {
    Passing(bands, now, b) || exists a: nat | a < b :: Reached(bands, now, a) && Beats(bands, b, a)
  }

  /** No band left to be tried would have taken the place of a band given up before it. */
  ghost predicate Closed(bands: seq<Band>, now: int, bmap: set<nat>)
    requires |bands| == 4
  {
    forall a: nat, b: nat :: a < b < 4 && a !in bmap && b in bmap && Reached(bands, now, a) ==> !Beats(bands, b, a)
  }

  /** Whether some band left to be tried, below index bi, is before the horizon. */
  predicate SomePassing(bands: seq<Band>, bmap: set<nat>, now: int, bi: nat)
    requires |bands| == 4 && bi <= 4
  {
    exists b: nat | b < bi :: b in bmap && Passing(bands, now, b)
  }

  /** What the band loop has found below index bi: a band that none behind it has replaced. */
  ghost predicate Champion(bands: seq<Band>, bmap: set<nat>, now: int, bi: nat, mintime: int, band: nat)
    requires |bands| == 4 && bi <= 4
  {
    if !SomePassing(bands, bmap, now, bi) then mintime == now + EIGHT_HOURS && band == 0
    else
      && band < bi && band in bmap && mintime == bands[band].avail && Reached(bands, now, band)
      && forall b: nat :: band < b < bi && b in bmap ==> !Beats(bands, b, band)
  }

  lemma ChampionNext(bands: seq<Band>, bmap: set<nat>, now: int, bi: nat, mintime: int, band: nat)
    requires |bands| == 4 && bi < 4 && Champion(bands, bmap, now, bi, mintime, band)
    ensures if bi in bmap && S32(mintime - bands[bi].avail) > 0
            then Champion(bands, bmap, now, bi + 1, bands[bi].avail, bi)
            else Champion(bands, bmap, now, bi + 1, mintime, band)
  {
    hide S32;
    if SomePassing(bands, bmap, now, bi) {
      var b: nat :| b < bi && b in bmap && Passing(bands, now, b);
      assert SomePassing(bands, bmap, now, bi + 1);
    } else if bi in bmap && Passing(bands, now, bi) {
      assert SomePassing(bands, bmap, now, bi + 1);
    } else {
      assert !SomePassing(bands, bmap, now, bi + 1);
    }
  }

  lemma {:induction false} SelectFrom(bands: seq<Band>, bmap: set<nat>, now: int, bi: nat, mintime: int, band: nat)
    requires |bands| == 4 && bi <= 4 && Champion(bands, bmap, now, bi, mintime, band)
    ensures var (time, b) := Select(bands, bmap, bi, mintime, band); Champion(bands, bmap, now, 4, time, b)
    decreases 4 - bi
  {
    hide S32, Champion;
    if bi < 4 {
      ChampionNext(bands, bmap, now, bi, mintime, band);
      if bi in bmap && S32(mintime - bands[bi].avail) > 0 {
        SelectFrom(bands, bmap, now, bi + 1, bands[bi].avail, bi);
      } else {
        SelectFrom(bands, bmap, now, bi + 1, mintime, band);
      }
    }
  }

  /** The band loop ends on a band it can come to, or, with none before the horizon, on band 0 and the horizon. */
  lemma SelectAll(bands: seq<Band>, bmap: set<nat>, now: int)
    requires |bands| == 4
    ensures var (time, band) := Select(bands, bmap, 0, now + EIGHT_HOURS, 0);
            band < 4 && Champion(bands, bmap, now, 4, time, band)
  {
    SelectFrom(bands, bmap, now, 0, now + EIGHT_HOURS, 0);
    SelectRange(bands, bmap, 0, now + EIGHT_HOURS, 0);
  }

  // ---------------------------------------------------------------- the whole selection

  /** With no band before the horizon left, no band left can be come to. */
  lemma {:induction false} NonePassing(bands: seq<Band>, now: int, bmap: set<nat>, b: nat)
    requires |bands| == 4 && b < 4 && b in bmap && Closed(bands, now, bmap) && !SomePassing(bands, bmap, now, 4)
    ensures !Reached(bands, now, b)
    decreases b
  {
    hide S32, Passing, Beats;
    forall a: nat | a < b && Reached(bands, now, a)
      ensures !Beats(bands, b, a)
    {
      if a in bmap {
        NonePassing(bands, now, bmap, a);
      }
    }
  }

  lemma FirstReached(bands: seq<Band>, now: int)
    requires |bands| == 4
    ensures Reached(bands, now, 0) <==> Passing(bands, now, 0)
  {
  }

  /** Giving up the band the loop ended on keeps the rest closed. */
  lemma ClosedWithout(bands: seq<Band>, now: int, bmap: set<nat>, time: int, band: nat)
    requires |bands| == 4 && band < 4 && Closed(bands, now, bmap) && Champion(bands, bmap, now, 4, time, band)
    ensures Closed(bands, now, bmap - {band})
  {
    hide Passing, Beats, Reached;
    forall a: nat, b: nat | a < b < 4 && a !in bmap - {band} && b in bmap - {band} && Reached(bands, now, a)
      ensures !Beats(bands, b, a)
    {
      if a == band && !SomePassing(bands, bmap, now, 4) {
        FirstReached(bands, now);
      }
    }
  }

  /** A band the loop can come to has a channel to use. */
  ghost predicate Served(bands: seq<Band>, plan: Plan, dr: nat, now: int, bmap: set<nat>)
    requires |bands| == 4
  {
    exists b: nat :: b < 4 && b in bmap && Reached(bands, now, b) && Feasible(plan, dr, b)
  }

  /** A band other than 0 the loop cannot come to. */
  ghost predicate Unreached(bands: seq<Band>, now: int, bmap: set<nat>)
    requires |bands| == 4
  {
    exists b: nat :: 1 <= b < 4 && b in bmap && !Reached(bands, now, b)
  }

  /** A channel found is the first usable one cyclically behind the last used of its band. */
  ghost predicate Sound(bands: seq<Band>, plan: Plan, dr: nat, choice: Choice)
    requires |bands| == 4
  {
    && choice.Found? && choice.band < 4 && choice.channel < MAX_CHANNELS
    && Usable(plan, dr, choice.band, choice.channel)
    && Pick(plan, dr, choice.band, bands[choice.band].lastchnl, MAX_CHANNELS) == Some(choice.channel)
  }

  /** What comes of the search, told from the bands and channels beforehand. */
  ghost predicate Outcome(bands: seq<Band>, plan: Plan, dr: nat, now: int, bmap: set<nat>, choice: Choice)
    requires |bands| == 4
  {
    if Served(bands, plan, dr, now, bmap) then
      Sound(bands, plan, dr, choice) && Reached(bands, now, choice.band) && choice.time == bands[choice.band].avail
    else if Feasible(plan, dr, 0) then
      Sound(bands, plan, dr, choice) && choice.band == 0 && choice.time == now + EIGHT_HOURS
    else if Unreached(bands, now, bmap) then choice == Stall
    else choice.NoChannel?
  }

  /** The bands given up so far have no channel. */
  ghost predicate GivenUp(plan: Plan, dr: nat, bmap: set<nat>) {
    bmap <= ALL_BANDS && forall b: nat :: b < 4 && b !in bmap ==> !Feasible(plan, dr, b)
  }

  /** The band the loop ended on has a channel. */
  lemma ChosenRight(bands: seq<Band>, plan: Plan, dr: nat, now: int, bmap: set<nat>, time: int, band: nat)
    requires WellFormed(bands, plan) && GivenUp(plan, dr, bmap) && Closed(bands, now, bmap)
    requires band < 4 && Champion(bands, bmap, now, 4, time, band) && Feasible(plan, dr, band)
    ensures var channel := Pick(plan, dr, band, bands[band].lastchnl, MAX_CHANNELS);
            channel.Some? && Outcome(bands, plan, dr, now, bmap, Found(time, band, channel.value))
  {
    hide Passing, Beats, Reached, Usable, Pick, Feasible, Closed;
    PickFindsFeasible(plan, dr, band, bands[band].lastchnl);
    if SomePassing(bands, bmap, now, 4) {
      assert Served(bands, plan, dr, now, bmap);
    } else {
      NoneServed(bands, plan, dr, now, bmap);
    }
  }

  lemma NoneServed(bands: seq<Band>, plan: Plan, dr: nat, now: int, bmap: set<nat>)
    requires |bands| == 4 && Closed(bands, now, bmap) && !SomePassing(bands, bmap, now, 4)
    ensures !Served(bands, plan, dr, now, bmap)
  {
    hide *;
    forall b: nat | b < 4 && b in bmap
      ensures !Reached(bands, now, b)
    {
      NonePassing(bands, now, bmap, b);
    }
    NotServed(bands, plan, dr, now, bmap);
  }

  lemma NotServed(bands: seq<Band>, plan: Plan, dr: nat, now: int, bmap: set<nat>)
    requires |bands| == 4 && forall b: nat :: b < 4 && b in bmap ==> !Reached(bands, now, b)
    ensures !Served(bands, plan, dr, now, bmap)
  {
    hide Reached, Feasible;
  }

  /** No band is left after the one the loop ended on, which has no channel. */
  lemma ExhaustedRight(bands: seq<Band>, plan: Plan, dr: nat, now: int, bmap: set<nat>, time: int, band: nat)
    requires WellFormed(bands, plan) && GivenUp(plan, dr, bmap) && bmap == {band}
    requires band < 4 && Champion(bands, bmap, now, 4, time, band) && !Feasible(plan, dr, band)
    ensures Outcome(bands, plan, dr, now, bmap, NoChannel(time))
  {
    hide Passing, Beats, Reached, Feasible;
  }

  /** The loop ended on band 0 for want of another, and band 0 had been given up: it will do so for ever. */
  lemma StallRight(bands: seq<Band>, plan: Plan, dr: nat, now: int, bmap: set<nat>, time: int, band: nat)
    requires WellFormed(bands, plan) && GivenUp(plan, dr, bmap) && Closed(bands, now, bmap) && bmap != {}
    requires band < 4 && Champion(bands, bmap, now, 4, time, band) && !Feasible(plan, dr, band) && band !in bmap
    ensures Outcome(bands, plan, dr, now, bmap, Stall)
  {
    hide Passing, Beats, Reached, Feasible, Closed;
    NoneServed(bands, plan, dr, now, bmap);
    var b: nat :| b in bmap;
    NonePassing(bands, now, bmap, b);
  }

  /** Giving up a band without a channel changes nothing about the outcome. */
  lemma OutcomeWithout(bands: seq<Band>, plan: Plan, dr: nat, now: int, bmap: set<nat>, time: int, band: nat,
                       choice: Choice)
    requires WellFormed(bands, plan) && GivenUp(plan, dr, bmap)
    requires band < 4 && Champion(bands, bmap, now, 4, time, band) && !Feasible(plan, dr, band)
    requires Outcome(bands, plan, dr, now, bmap - {band}, choice)
    ensures Outcome(bands, plan, dr, now, bmap, choice)
  {
    hide Passing, Beats, Reached, Feasible, Sound;
  }

  lemma {:induction false} ChooseRight(bands: seq<Band>, plan: Plan, dr: nat, now: int, bmap: set<nat>)
    requires WellFormed(bands, plan) && GivenUp(plan, dr, bmap) && Closed(bands, now, bmap) && bmap != {}
    ensures Outcome(bands, plan, dr, now, bmap, Choose(bands, plan, dr, now, bmap))
    decreases |bmap|
  {
    hide Outcome, Closed, Champion, Pick, Feasible, Select, Usable;
    var (time, band) := Select(bands, bmap, 0, now + EIGHT_HOURS, 0);
    SelectAll(bands, bmap, now);
    PickFindsFeasible(plan, dr, band, bands[band].lastchnl);
    if Feasible(plan, dr, band) {
      ChosenRight(bands, plan, dr, now, bmap, time, band);
    } else if bmap - {band} == {} {
      assert bmap == {band};
      ExhaustedRight(bands, plan, dr, now, bmap, time, band);
    } else if band !in bmap {
      StallRight(bands, plan, dr, now, bmap, time, band);
    } else {
      ClosedWithout(bands, now, bmap, time, band);
      ChooseRight(bands, plan, dr, now, bmap - {band});
      OutcomeWithout(bands, plan, dr, now, bmap, time, band, Choose(bands, plan, dr, now, bmap - {band}));
    }
  }

  /**
   The search finds a channel in a band it can come to and that has one, at that band's time;
   failing that one in band 0, eight hours from now; failing that it never ends if a band other
   than 0 cannot be come to, and otherwise finds nothing. A channel found is the first usable
   one cyclically behind the last used of its band.
   */
  lemma NextTxRight(bands: seq<Band>, plan: Plan, dr: nat, now: int)
    requires WellFormed(bands, plan)
    ensures Outcome(bands, plan, dr, now, ALL_BANDS, NextTx(bands, plan, dr, now))
  {
    hide Choose, Outcome;
    ChooseRight(bands, plan, dr, now, ALL_BANDS);
  }

  /**
   The search never ends exactly if band 0 has no channel, no band the loop can come to has
   one, and it cannot come to some band other than 0.
   */
  lemma StallsExactly(bands: seq<Band>, plan: Plan, dr: nat, now: int)
    requires WellFormed(bands, plan)
    ensures NextTx(bands, plan, dr, now) == Stall <==>
            && !Feasible(plan, dr, 0)
            && (forall b: nat :: b < 4 && Reached(bands, now, b) ==> !Feasible(plan, dr, b))
            && exists b: nat :: 1 <= b < 4 && !Reached(bands, now, b)
  {
    hide NextTx, Reached, Feasible, Usable, Pick, Served, Unreached;
    NextTxRight(bands, plan, dr, now);
    AllBands(bands, plan, dr, now);
  }

  lemma AllBands(bands: seq<Band>, plan: Plan, dr: nat, now: int)
    requires |bands| == 4
    ensures Served(bands, plan, dr, now, ALL_BANDS) <==>
              exists b: nat :: b < 4 && Reached(bands, now, b) && Feasible(plan, dr, b)
    ensures Unreached(bands, now, ALL_BANDS) <==> exists b: nat :: 1 <= b < 4 && !Reached(bands, now, b)
  {
    hide Reached, Feasible;
    BandsAll();
    if b: nat :| 1 <= b < 4 && !Reached(bands, now, b) {
      UnreachedBy(bands, now, ALL_BANDS, b);
    }
  }

  lemma UnreachedBy(bands: seq<Band>, now: int, bmap: set<nat>, b: nat)
    requires |bands| == 4 && 1 <= b < 4 && b in bmap && !Reached(bands, now, b)
    ensures Unreached(bands, now, bmap)
  {
    hide Reached;
  }

  lemma BandsAll()
    ensures forall b: nat :: b < 4 ==> b in ALL_BANDS
  {
  }

  /** Some band before the horizon has a channel to use. */
  ghost predicate Ready(bands: seq<Band>, plan: Plan, dr: nat, now: int)
    requires |bands| == 4
  {
    exists b: nat :: b < 4 && Passing(bands, now, b) && Feasible(plan, dr, b)
  }

  /** A ready band rules a stall out, whatever the other bands' times are. */
  lemma ReadyIsFound(bands: seq<Band>, plan: Plan, dr: nat, now: int)
    requires WellFormed(bands, plan) && Ready(bands, plan, dr, now)
    ensures var choice := NextTx(bands, plan, dr, now);
            && choice.Found? && choice.band < 4 && choice.time == bands[choice.band].avail
            && Usable(plan, dr, choice.band, choice.channel)
  {
    hide NextTx, Passing, Feasible, Beats, Usable, Pick;
    NextTxRight(bands, plan, dr, now);
    BandsAll();
    var b: nat :| b < 4 && Passing(bands, now, b) && Feasible(plan, dr, b);
    assert Served(bands, plan, dr, now, ALL_BANDS);
  }

  /** Only band 0 has a channel and it is not before the horizon: the frame waits for eight hours. */
  lemma EightHoursWait(bands: seq<Band>, plan: Plan, dr: nat, now: int)
    requires WellFormed(bands, plan) && Feasible(plan, dr, 0)
    requires forall b: nat :: b < 4 && Reached(bands, now, b) ==> !Feasible(plan, dr, b)
    ensures var choice := NextTx(bands, plan, dr, now);
            choice.Found? && choice.band == 0 && choice.time == now + EIGHT_HOURS
  {
    hide NextTx, Reached, Feasible, Sound;
    NextTxRight(bands, plan, dr, now);
    assert !Served(bands, plan, dr, now, ALL_BANDS);
    FoundIs(bands, plan, dr, NextTx(bands, plan, dr, now));
  }

  lemma FoundIs(bands: seq<Band>, plan: Plan, dr: nat, choice: Choice)
    requires |bands| == 4
    ensures Sound(bands, plan, dr, choice) ==> choice.Found?
  {
  }

  // ---------------------------------------------------------------- the earliest band

  /** The bands' times, modulo 2^32, lie in one half of the circle, which begins at w. */
  predicate InHalf(bands: seq<Band>, w: int)
    requires |bands| == 4
  {
    forall b :: 0 <= b < 4 ==> (bands[b].avail - w) % FULL < HALF
  }

  /** There the signed difference is the difference of the distances from w. */
  lemma Ranked(a: int, b: int, w: int)
    requires (a - w) % FULL < HALF && (b - w) % FULL < HALF
    ensures S32(a - b) == (a - w) % FULL - (b - w) % FULL
  {
    var x, y := (a - w) % FULL, (b - w) % FULL;
    var k := (a - w) / FULL - (b - w) / FULL;
    assert a - b == x - y + k * FULL;
    ShiftedBy(x - y, k);
  }

  lemma ShiftedBy(d: int, k: int)
    requires -HALF < d < HALF
    ensures S32(d + k * FULL) == d
  {
    var e := d + k * FULL;
    var r := S32(e);
    assert (r - e) % FULL == 0;
    var j := (r - e) / FULL;
    assert r - e == j * FULL;
    assert r - d == (j + k) * FULL;
  }

  /** Nothing before the horizon found so far compares as earlier than what is held. */
  ghost predicate Earliest(bands: seq<Band>, bmap: set<nat>, now: int, bi: nat, mintime: int)
    requires |bands| == 4 && bi <= 4
  {
    forall b :: 0 <= b < bi && b in bmap && Passing(bands, now, b) ==> S32(mintime - bands[b].avail) <= 0
  }

  lemma EarliestNext(bands: seq<Band>, bmap: set<nat>, now: int, w: int, bi: nat, mintime: int, band: nat)
    requires |bands| == 4 && bi < 4 && InHalf(bands, w)
    requires Champion(bands, bmap, now, bi, mintime, band) && Earliest(bands, bmap, now, bi, mintime)
    ensures Earliest(bands, bmap, now, bi + 1,
                     if bi in bmap && S32(mintime - bands[bi].avail) > 0 then bands[bi].avail else mintime)
  {
    hide S32, Reached, Beats;
    forall b | 0 <= b <= bi && SomePassing(bands, bmap, now, bi)
      ensures S32(bands[bi].avail - bands[b].avail) == (bands[bi].avail - w) % FULL - (bands[b].avail - w) % FULL
      ensures S32(mintime - bands[b].avail) == (mintime - w) % FULL - (bands[b].avail - w) % FULL
    {
      Ranked(bands[bi].avail, bands[b].avail, w);
      Ranked(mintime, bands[b].avail, w);
    }
    Ranked(bands[bi].avail, bands[bi].avail, w);
    if !SomePassing(bands, bmap, now, bi) {
      assert forall b :: 0 <= b < bi && b in bmap ==> !Passing(bands, now, b);
    }
  }

  lemma {:induction false} SelectEarliestFrom(bands: seq<Band>, bmap: set<nat>, now: int, w: int, bi: nat,
                                              mintime: int, band: nat)
    requires |bands| == 4 && bi <= 4 && InHalf(bands, w)
    requires Champion(bands, bmap, now, bi, mintime, band) && Earliest(bands, bmap, now, bi, mintime)
    ensures Earliest(bands, bmap, now, 4, Select(bands, bmap, bi, mintime, band).0)
    decreases 4 - bi
  {
    hide S32, Champion, Earliest;
    if bi < 4 {
      ChampionNext(bands, bmap, now, bi, mintime, band);
      EarliestNext(bands, bmap, now, w, bi, mintime, band);
      if bi in bmap && S32(mintime - bands[bi].avail) > 0 {
        SelectEarliestFrom(bands, bmap, now, w, bi + 1, bands[bi].avail, bi);
      } else {
        SelectEarliestFrom(bands, bmap, now, w, bi + 1, mintime, band);
      }
    }
  }

  lemma {:induction false} ChooseEarliest(bands: seq<Band>, plan: Plan, dr: nat, now: int, w: int, bmap: set<nat>,
                                          b: nat)
    requires WellFormed(bands, plan) && InHalf(bands, w) && bmap <= ALL_BANDS
    requires b < 4 && b in bmap && Passing(bands, now, b) && Feasible(plan, dr, b)
    ensures var choice := Choose(bands, plan, dr, now, bmap);
            choice.Found? && S32(choice.time - bands[b].avail) <= 0
    decreases |bmap|
  {
    hide S32, Passing, Feasible, Pick, Select, Reached;
    var (time, band) := Select(bands, bmap, 0, now + EIGHT_HOURS, 0);
    SelectEarliestFrom(bands, bmap, now, w, 0, now + EIGHT_HOURS, 0);
    SelectAll(bands, bmap, now);
    PickFindsFeasible(plan, dr, band, bands[band].lastchnl);
    assert SomePassing(bands, bmap, now, 4);
    if !Feasible(plan, dr, band) {
      assert b in bmap - {band};
      ChooseEarliest(bands, plan, dr, now, w, bmap - {band}, b);
    }
  }

  /** With all times in one half of the circle, no ready band compares as earlier than the one found. */
  lemma EarliestFound(bands: seq<Band>, plan: Plan, dr: nat, now: int, w: int, b: nat)
    requires WellFormed(bands, plan) && InHalf(bands, w)
    requires b < 4 && Passing(bands, now, b) && Feasible(plan, dr, b)
    ensures var choice := NextTx(bands, plan, dr, now);
            choice.Found? && S32(choice.time - bands[b].avail) <= 0
  {
    hide Choose, InHalf, Passing, Feasible;
    ChooseEarliest(bands, plan, dr, now, w, ALL_BANDS, b);
  }

  /** Every band truly before the horizon by less than half the range. */
  ghost predicate AllNear(bands: seq<Band>, now: int)
    requires |bands| == 4
  {
    forall b :: 0 <= b < 4 ==> 0 < now + EIGHT_HOURS - bands[b].avail < HALF
  }

  lemma NearPasses(bands: seq<Band>, now: int, b: nat)
    requires |bands| == 4 && AllNear(bands, now) && b < 4
    ensures Passing(bands, now, b) && InHalf(bands, now + EIGHT_HOURS - HALF)
  {
    OrderInWindow(now + EIGHT_HOURS, bands[b].avail);
  }

  /** With all bands near, the search ends, with the earliest feasible band or for want of one. */
  lemma NearEnds(bands: seq<Band>, plan: Plan, dr: nat, now: int)
    requires WellFormed(bands, plan) && AllNear(bands, now)
    ensures var choice := NextTx(bands, plan, dr, now);
            && choice != Stall
            && (choice.Found? <==> exists b :: 0 <= b < 4 && Feasible(plan, dr, b))
            && (choice.Found? ==>
                  && choice.band < 4 && choice.time == bands[choice.band].avail
                  && forall b :: 0 <= b < 4 && Feasible(plan, dr, b) ==> choice.time <= bands[b].avail)
  {
    hide NextTx, Feasible, Usable, Pick, Passing, Beats, S32;
    NextTxRight(bands, plan, dr, now);
    BandsAll();
    forall b: nat | b < 4
      ensures Reached(bands, now, b)
    {
      NearPasses(bands, now, b);
    }
    var choice := NextTx(bands, plan, dr, now);
    forall b: nat | b < 4 && Feasible(plan, dr, b)
      ensures choice.Found? && choice.time <= bands[b].avail
    {
      assert Served(bands, plan, dr, now, ALL_BANDS);
      NearPasses(bands, now, b);
      EarliestFound(bands, plan, dr, now, now + EIGHT_HOURS - HALF, b);
      OrderInWindow(choice.time, bands[b].avail);
    }
    if choice.Found? {
      UsableIsFeasible(plan, dr, choice.band, choice.channel);
    }
  }

  /** With all bands near, the band loop finds the earliest of those left. */
  lemma SelectEarliest(bands: seq<Band>, bmap: set<nat>, now: int)
    requires |bands| == 4 && AllNear(bands, now) && bmap <= ALL_BANDS && bmap != {}
    ensures var (time, band) := Select(bands, bmap, 0, now + EIGHT_HOURS, 0);
            band in bmap && time == bands[band].avail && forall b :: b in bmap ==> time <= bands[b].avail
  {
    hide Select, S32, Reached, Beats, Passing;
    SelectAll(bands, bmap, now);
    SelectEarliestFrom(bands, bmap, now, now + EIGHT_HOURS - HALF, 0, now + EIGHT_HOURS, 0);
    var some: nat :| some in bmap;
    NearPasses(bands, now, some);
    assert SomePassing(bands, bmap, now, 4);
    var (time, band) := Select(bands, bmap, 0, now + EIGHT_HOURS, 0);
    forall b | b in bmap
      ensures time <= bands[b].avail
    {
      NearPasses(bands, now, b);
      OrderInWindow(time, bands[b].avail);
    }
  }

  /** A search in vain ends with the latest band, so no band's time has been forgotten. */
  lemma {:induction false} NoChannelLatest(bands: seq<Band>, plan: Plan, dr: nat, now: int, bmap: set<nat>)
    requires |bands| == 4 && AllNear(bands, now) && bmap <= ALL_BANDS && bmap != {}
    requires forall given, b :: 0 <= given < 4 && given !in bmap && b in bmap ==> bands[given].avail <= bands[b].avail
    ensures var choice := Choose(bands, plan, dr, now, bmap);
            choice.NoChannel? ==>
              && (exists b :: 0 <= b < 4 && choice.time == bands[b].avail)
              && forall b :: 0 <= b < 4 ==> bands[b].avail <= choice.time
    decreases |bmap|
  {
    hide Select, Pick, AllNear;
    var (time, band) := Select(bands, bmap, 0, now + EIGHT_HOURS, 0);
    SelectEarliest(bands, bmap, now);
    if bmap - {band} == {} {
      assert bmap <= (bmap - {band}) + {band};
    } else {
      NoChannelLatest(bands, plan, dr, now, bmap - {band});
    }
  }

  lemma UsableIsFeasible(plan: Plan, dr: nat, band: nat, c: nat)
    requires c < MAX_CHANNELS && Usable(plan, dr, band, c)
    ensures Feasible(plan, dr, band)
  {
  }

  /** A device with the default channels, idle for 1.6 hours: the band no channel uses hangs the search. */
  lemma IdleDeviceStalls()
    ensures var band := Band(100, 0, 0);
            var rates: set<nat> := {0, 1, 2, 3, 4, 5};
            var plan := Plan([1, 1, 1, 0, 0, 0, 0, 0, 0, 0, 0, 0, 0, 0, 0, 0],
                             [rates, rates, rates, {}, {}, {}, {}, {}, {}, {}, {}, {}, {}, {}, {}, {}], {0, 1, 2});
            NextTx([band, band, band, band], plan, 5, 360_000_000) == Stall
  {
    var band := Band(100, 0, 0);
    var rates: set<nat> := {0, 1, 2, 3, 4, 5};
    var plan := Plan([1, 1, 1, 0, 0, 0, 0, 0, 0, 0, 0, 0, 0, 0, 0, 0],
                     [rates, rates, rates, {}, {}, {}, {}, {}, {}, {}, {}, {}, {}, {}, {}, {}], {0, 1, 2});
    IdleStalls([band, band, band, band], plan);
  }

  /** A device whose three channels lie in band 0, as for joining, idle for 1.6 hours: it waits for eight more. */
  lemma IdleDeviceWaits()
    ensures var bands := [Band(1000, 0, 0), Band(100, 0, 0), Band(10, 0, 0), Band(0, 0, 0)];
            var rates: set<nat> := {0, 1, 2, 3, 4, 5};
            var plan := Plan([0, 0, 0, 0, 0, 0, 0, 0, 0, 0, 0, 0, 0, 0, 0, 0],
                             [rates, rates, rates, {}, {}, {}, {}, {}, {}, {}, {}, {}, {}, {}, {}, {}], {0, 1, 2});
            NextTx(bands, plan, 5, 360_000_000) == Found(360_000_000 + EIGHT_HOURS, 0, 1)
  {
    var bands := [Band(1000, 0, 0), Band(100, 0, 0), Band(10, 0, 0), Band(0, 0, 0)];
    var rates: set<nat> := {0, 1, 2, 3, 4, 5};
    var plan := Plan([0, 0, 0, 0, 0, 0, 0, 0, 0, 0, 0, 0, 0, 0, 0, 0],
                     [rates, rates, rates, {}, {}, {}, {}, {}, {}, {}, {}, {}, {}, {}, {}, {}], {0, 1, 2});
    IdleWaits(bands, plan);
  }

  lemma IdleWaits(bands: seq<Band>, plan: Plan)
    requires WellFormed(bands, plan) && bands[0].lastchnl == 0 && forall k :: 0 <= k < 4 ==> bands[k].avail == 0
    requires Usable(plan, 5, 0, 1)
    ensures NextTx(bands, plan, 5, 360_000_000) == Found(360_000_000 + EIGHT_HOURS, 0, 1)
  {
    hide NextTx, Reached, Usable;
    forall b: nat | b < 4
      ensures !Reached(bands, 360_000_000, b)
    {
      IdleUnreached(bands, b);
    }
    UsableIsFeasible(plan, 5, 0, 1);
    EightHoursWait(bands, plan, 5, 360_000_000);
    NextTxRight(bands, plan, 5, 360_000_000);
    assert Pick(plan, 5, 0, 0, MAX_CHANNELS) == Some(NextChannel(0)) == Some(1);
  }

  lemma IdleStalls(bands: seq<Band>, plan: Plan)
    requires WellFormed(bands, plan) && forall k :: 0 <= k < 4 ==> bands[k].avail == 0
    requires plan.enabled == {0, 1, 2} && plan.band[0] == 1 && plan.band[1] == 1 && plan.band[2] == 1
    ensures NextTx(bands, plan, 5, 360_000_000) == Stall
  {
    hide NextTx, Reached, Feasible;
    DefaultBandZero(plan);
    forall b: nat | b < 4
      ensures !Reached(bands, 360_000_000, b)
    {
      IdleUnreached(bands, b);
    }
    assert 1 <= 1 < 4 && !Reached(bands, 360_000_000, 1);
    StallsExactly(bands, plan, 5, 360_000_000);
  }

  lemma DefaultBandZero(plan: Plan)
    requires |plan.band| == MAX_CHANNELS && plan.enabled == {0, 1, 2}
    requires plan.band[0] == 1 && plan.band[1] == 1 && plan.band[2] == 1
    ensures !Feasible(plan, 5, 0)
  {
    forall c | 0 <= c < MAX_CHANNELS
      ensures !Usable(plan, 5, 0, c)
    {
      assert c in plan.enabled ==> c == 0 || c == 1 || c == 2;
    }
  }

  lemma {:induction false} IdleUnreached(bands: seq<Band>, b: nat)
    requires |bands| == 4 && b < 4 && forall k :: 0 <= k < 4 ==> bands[k].avail == 0
    ensures !Reached(bands, 360_000_000, b)
    decreases b
  {
    forall a: nat | a < b
      ensures !Reached(bands, 360_000_000, a)
    {
      IdleUnreached(bands, a);
    }
  }
}
