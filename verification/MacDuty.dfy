/**
 Duty cycle over whole runs: between two set-ups of the bands, successive transmissions in
 a band are as far apart as the band's duty cycle asks, less the radio's ramp-up.
 */
module MacDuty {
  import opened Common
  import opened Ticks
  import opened Channels
  import opened Airtime
  import opened MacMachine

  // ---------------------------------------------------------------- what is assumed and what is shown

  /** In a window of half the range, where signed differences are true ones. */
  predicate Within(x: int, w: int) {
    w <= x < w + HALF
  }

  /** In one such window. */
  predicate Together(a: int, b: int) {
    -HALF < a - b < HALF
  }

  /**
   Where sending is weighed, now and the times compared lie in the window. Where a channel must
   be looked for, there is one in a band available within eight hours, or all bands are.
   */
  ghost predicate InWindow(m: Mac, now: int, w: int)
    requires Proper(m)
  {
    && Within(now, w)
    && (NEXTCHNL in m.opmode ==>
          || (Ready(m.bands, m.plan, m.datarate, now)
              && forall b :: 0 <= b < 4 && Feasible(m.plan, m.datarate, b) ==> Within(m.bands[b].avail, w))
          || (AllNear(m.bands, now) && forall b :: 0 <= b < 4 ==> Within(m.bands[b].avail, w)))
    && (NEXTCHNL !in m.opmode ==> Within(m.txend, w))
    && (m.globalDutyRate != 0 || RNDTX in m.opmode ==> Within(m.globalDutyAvail, w))
  }

  /** There is such a window, wherever it lies. */
  ghost predicate InReach(m: Mac, now: int)
    requires Proper(m)
  {
    exists w :: InWindow(m, now, w)
  }

  ghost predicate Timely(outs: seq<Out>) {
    forall i :: 0 <= i < |outs| ==>
      && (outs[i].Weighs? ==> Proper(outs[i].m) && InReach(outs[i].m, outs[i].now))
      && (outs[i].BacksOff? ==> Together(outs[i].avail, outs[i].now))
  }

  /** The transmissions since the bands were last set up. */
  function Log(log: seq<Tx>, outs: seq<Out>): seq<Tx> {
    if outs == [] then log
    else LogStep(Log(log, outs[..|outs| - 1]), outs[|outs| - 1])
  }

  function LogStep(log: seq<Tx>, out: Out): seq<Tx> {
    if out.Sent? then log + [out.tx] else if out.Restarted? then [] else log
  }

  /** The band is not used between positions i and j of the log. */
  ghost predicate Successive(log: seq<Tx>, i: nat, j: nat) {
    i < j < |log| && log[i].band == log[j].band && forall k :: i < k < j ==> log[k].band != log[i].band
  }

  /** Successive transmissions of a band start farther apart than the first blocks it, less the ramp-up. */
  ghost predicate Spaced(log: seq<Tx>) {
    forall i: nat, j: nat :: Successive(log, i, j) ==> log[j].at + TX_RAMPUP > log[i].at + Block(log[i])
  }

  /** The last transmission of a band holds its time of availability. */
  ghost predicate Held(log: seq<Tx>, bands: seq<Band>)
    requires |bands| == 4
  {
    forall i :: 0 <= i < |log| && (forall k :: i < k < |log| ==> log[k].band != log[i].band) ==>
      log[i].band < 4 && bands[log[i].band].avail == log[i].at + Block(log[i])
  }

  /** txcap: by how much a band's idle time exceeds its airtime, 0.1%, 1% and 10% being allowed. */
  function Cap(band: nat): nat {
    if band == BAND_MILLI then 1000 else if band == BAND_CENTI then 100 else if band == 2 then 10 else 0
  }

  predicate Capped(bands: seq<Band>) {
    |bands| == 4 && forall b :: 0 <= b < 4 ==> bands[b].txcap == Cap(b)
  }

  /** Each transmission is charged to its band at the band's duty cycle. */
  predicate Regular(log: seq<Tx>) {
    forall i :: 0 <= i < |log| ==> log[i].band < 4 && log[i].txcap == Cap(log[i].band)
  }

  // ---------------------------------------------------------------- the invariant

  ghost predicate Inv(m: Mac, log: seq<Tx>) {
    && Proper(m)
    && (TXRXPEND in m.opmode ==> NEXTCHNL in m.opmode)
    && (TXRXPEND in m.opmode && m.job == AwaitsData ==> JOINING !in m.opmode)
    && (JOINING in m.opmode ==> !m.joined && m.plan == DefaultPlan(true) && m.txChnl < 3)
    && (NEXTCHNL !in m.opmode && (m.joined || JOINING in m.opmode) ==> m.txend >= m.bands[m.plan.band[m.txChnl]].avail)
    && (m.joined || JOINING in m.opmode ==> Capped(m.bands))
    && Spaced(log) && Held(log, m.bands) && Regular(log)
  }

  // ---------------------------------------------------------------- sending keeps it

  lemma LogOne(log: seq<Tx>, outs: seq<Out>, last: Out)
    ensures Log(log, outs + [last]) == LogStep(Log(log, outs), last)
  {
  }

  lemma {:induction false} LogTwo(log: seq<Tx>, outs: seq<Out>, more: seq<Out>)
    ensures Log(log, outs + more) == Log(Log(log, outs), more)
    decreases |more|
  {
    if more == [] {
      assert outs + more == outs;
    } else {
      var init := more[..|more| - 1];
      LogTwo(log, outs, init);
      assert outs + more == (outs + init) + [more[|more| - 1]];
      LogOne(log, outs + init, more[|more| - 1]);
    }
  }

  /** A transmission at or after the time its band is available, less the ramp-up, keeps the log spaced. */
  lemma SentSpaced(log: seq<Tx>, bands: seq<Band>, tx: Tx)
    requires |bands| == 4 && Spaced(log) && Held(log, bands) && tx.band < 4
    requires tx.at + TX_RAMPUP > bands[tx.band].avail
    ensures Spaced(log + [tx])
    ensures Held(log + [tx], bands[tx.band := bands[tx.band].(avail := tx.at + Block(tx))])
  {
    var longer := log + [tx];
    forall i: nat, j: nat | Successive(longer, i, j)
      ensures longer[j].at + TX_RAMPUP > longer[i].at + Block(longer[i])
    {
      if j < |log| {
        assert Successive(log, i, j) by {
          assert forall k :: i < k < j ==> longer[k] == log[k];
        }
      } else {
        forall k | i < k < |log|
          ensures log[k].band != log[i].band
        {
          assert longer[k] == log[k];
        }
      }
    }
    var after := bands[tx.band := bands[tx.band].(avail := tx.at + Block(tx))];
    forall i | 0 <= i < |longer| && forall k :: i < k < |longer| ==> longer[k].band != longer[i].band
      ensures longer[i].band < 4 && after[longer[i].band].avail == longer[i].at + Block(longer[i])
    {
      if i < |log| {
        assert longer[|log|].band != longer[i].band;
        forall k | i < k < |log|
          ensures log[k].band != log[i].band
        {
          assert longer[k] == log[k];
        }
      }
    }
  }

  /** A frame blocks its band for at least the band's capacity times its true time on air. */
  lemma BlockedLongEnough(tx: Tx)
    ensures TrueTicks(tx.rps, tx.flen) * tx.txcap as real <= Block(tx) as real
  {
    hide TrueTicks, ComputedTicks;
    NeverTooShort(tx.rps, tx.flen);
    Scaled(TrueTicks(tx.rps, tx.flen), ComputedTicks(tx.rps, tx.flen), tx.txcap);
  }

  lemma Scaled(x: real, y: int, cap: nat)
    requires x <= y as real
    ensures x * cap as real <= (y * cap) as real
  {
  }

  /** Everything but the pending flags and the choice of channel being up to date. */
  ghost predicate Settled(m: Mac, log: seq<Tx>) {
    && Proper(m)
    && (JOINING in m.opmode ==> !m.joined && m.plan == DefaultPlan(true) && m.txChnl < 3)
    && Capped(m.bands) && Spaced(log) && Held(log, m.bands) && Regular(log)
  }

  /** A frame goes out: the band of its channel was available but for the ramp-up. */
  lemma SendKeeps(m: Mac, log: seq<Tx>, now: int, dr: Dr, flen: u1, joining: bool, confirmed: bool, payload: bool)
    requires Settled(m, log) && now + TX_RAMPUP > m.bands[m.plan.band[m.txChnl]].avail
    requires m.job == AwaitsData ==> JOINING !in m.opmode
    ensures var (m1, outs) := SendFrame(m, now, dr, flen, joining, confirmed, payload);
            |outs| == 1 && outs[0].Sent? && Inv(m1, log + [outs[0].tx])
  {
    hide Spaced, Held, ComputedTicks, UpRps, DefaultPlan;
    var (m1, outs) := SendFrame(m, now, dr, flen, joining, confirmed, payload);
    SentSpaced(log, m.bands, outs[0].tx);
  }

  lemma TransmitKeeps(m: Mac, log: seq<Tx>, now: int)
    requires Inv(m, log) && TXRXPEND !in m.opmode && NEXTCHNL !in m.opmode && (m.joined || JOINING in m.opmode)
    requires now + TX_RAMPUP > m.bands[m.plan.band[m.txChnl]].avail
    ensures var (m1, outs) := Transmit(m, now);
            && Inv(m1, Log(log, outs)) && |outs| == 1 && (outs[0].Sent? || outs[0].Resets?)
  {
    hide Spaced, Held, SendFrame, DefaultPlan, LowerDr;
    var (m1, outs) := Transmit(m, now);
    if JOINING in m.opmode || REJOIN in m.opmode {
      var dr := if REJOIN in m.opmode then LowerDr(m.datarate, m.rejoinCnt) else m.datarate;
      SendKeeps(m.(job := AwaitsJoin), log, now, dr, LEN_JR, true, false, false);
    } else if !(m.seqnoDn >= 0xFFFF_FF80 || (m.txCnt == 0 && m.seqnoUp == 0xFFFF_FFFF)) {
      var (m2, flen, confirmed) := BuildDataFrame(m);
      SendKeeps(m2.(job := AwaitsData), log, now, m.datarate, flen, false, confirmed, CarriesPayload(m));
    }
    LogSingle(log, outs[0]);
  }

  lemma LogSingle(log: seq<Tx>, out: Out)
    ensures Log(log, [out]) == LogStep(log, out)
  {
  }

  /** The search ends, on a channel at its band's time or, in vain, at a time no band is later than. */
  lemma ChoiceInTime(m: Mac, now: int, w: int)
    requires Proper(m) && NEXTCHNL in m.opmode && InWindow(m, now, w)
    ensures var choice := NextTx(m.bands, m.plan, m.datarate, now);
            && !choice.Stall? && Within(choice.time, w)
            && (choice.Found? ==> choice.band < 4 && choice.time == m.bands[choice.band].avail
                                  && Usable(m.plan, m.datarate, choice.band, choice.channel))
            && (choice.NoChannel? ==> forall b :: 0 <= b < 4 ==> m.bands[b].avail <= choice.time)
  {
    hide Usable, Choose, Pick;
    var choice := NextTx(m.bands, m.plan, m.datarate, now);
    if Ready(m.bands, m.plan, m.datarate, now) &&
       forall b :: 0 <= b < 4 && Feasible(m.plan, m.datarate, b) ==> Within(m.bands[b].avail, w) {
      ReadyIsFound(m.bands, m.plan, m.datarate, now);
      FoundIsFeasible(m, now);
    } else {
      NearEnds(m.bands, m.plan, m.datarate, now);
      NextTxRight(m.bands, m.plan, m.datarate, now);
      NoChannelLatest(m.bands, m.plan, m.datarate, now, ALL_BANDS);
    }
  }

  lemma FoundIsFeasible(m: Mac, now: int)
    requires Proper(m) && NextTx(m.bands, m.plan, m.datarate, now).Found?
    ensures Feasible(m.plan, m.datarate, NextTx(m.bands, m.plan, m.datarate, now).band)
  {
    hide NextTx, Pick;
    NextTxRight(m.bands, m.plan, m.datarate, now);
    var choice := NextTx(m.bands, m.plan, m.datarate, now);
    UsableIsFeasible(m.plan, m.datarate, choice.band, choice.channel);
  }

  lemma HeldFor(bands: seq<Band>, after: seq<Band>, log: seq<Tx>)
    requires |bands| == |after| == 4 && Held(log, bands) && forall b :: 0 <= b < 4 ==> after[b].avail == bands[b].avail
    ensures Held(log, after)
  {
  }

  /** The channel's time has been taken over, for a channel kept or a channel found. */
  lemma PlaceKeeps(m: Mac, log: seq<Tx>, now: int, w: int)
    requires Inv(m, log) && (m.joined || JOINING in m.opmode) && TXRXPEND !in m.opmode && InWindow(m, now, w)
    ensures PlaceFrame(m, now).Some?
    ensures var m1 := PlaceFrame(m, now).value;
            && Inv(m1, log) && NEXTCHNL !in m1.opmode && Within(m1.txend, w)
            && m1.opmode == m.opmode - {NEXTCHNL} && m1.joined == m.joined
            && m1.globalDutyAvail == m.globalDutyAvail && m1.globalDutyRate == m.globalDutyRate
  {
    hide Spaced, Held, Regular, Ready, Feasible, NextTx, Within, AllNear;
    if NEXTCHNL in m.opmode {
      var choice := NextTx(m.bands, m.plan, m.datarate, now);
      ChoiceInTime(m, now, w);
      if choice.Found? && m.plan == DefaultPlan(true) {
        assert choice.channel in m.plan.enabled;
      }
      HeldFor(m.bands, PlaceFrame(m, now).value.bands, log);
    }
  }

  lemma StartKept(m: Mac, now: int, w: int)
    requires Within(now, w) && Within(m.txend, w)
    requires m.globalDutyRate != 0 || RNDTX in m.opmode ==> Within(m.globalDutyAvail, w)
    ensures StartTime(m) >= m.txend
    ensures S32(StartTime(m) - (now + TX_RAMPUP)) < 0 ==> StartTime(m) < now + TX_RAMPUP
  {
  }

  lemma UpdateKeeps(m: Mac, log: seq<Tx>, now: int, luck: Luck)
    requires Inv(m, log) && Timely(EngineUpdate(m, now, luck).1)
    ensures var (m1, outs) := EngineUpdate(m, now, luck);
            Inv(m1, Log(log, outs))
  {
    hide Transmit, PlaceFrame, StartTime, InWindow, S32, Within, Inv;
    InvParts(m, log);
    var (m', outs) := EngineUpdate(m, now, luck);
    if TXRXPEND in m.opmode || SHUTDOWN in m.opmode {
    } else if !m.joined && JOINING !in m.opmode {
      JoiningKeeps(m, log, now, luck);
    } else if m.opmode * {JOINING, REJOIN, TXDATA, POLL} == {} {
    } else {
      assert outs[0] == Weighs(m, now);
      var w :| InWindow(m, now, w);
      PlaceKeeps(m, log, now, w);
      var m1 := PlaceFrame(m, now).value;
      WindowParts(m, now, w);
      StartKept(m1, now, w);
      InvParts(m1, log);
      LogSingle(log, Weighs(m, now));
      if S32(StartTime(m1) - (now + TX_RAMPUP)) < 0 {
        TransmitKeeps(m1, log, now);
        LogTwo(log, [Weighs(m, now)], Transmit(m1, now).1);
      } else {
        LogOne(log, [Weighs(m, now)], Wake(StartTime(m1) - TX_RAMPUP));
      }
    }
  }

  lemma InvParts(m: Mac, log: seq<Tx>)
    requires Inv(m, log)
    ensures Proper(m) && Log(log, []) == log
    ensures NEXTCHNL !in m.opmode && (m.joined || JOINING in m.opmode) ==>
              m.txend >= m.bands[m.plan.band[m.txChnl]].avail
  {
  }

  lemma WindowParts(m: Mac, now: int, w: int)
    requires Proper(m) && InWindow(m, now, w)
    ensures Within(now, w) && (m.globalDutyRate != 0 || RNDTX in m.opmode ==> Within(m.globalDutyAvail, w))
  {
  }

  lemma JoiningKeeps(m: Mac, log: seq<Tx>, now: int, luck: Luck)
    requires Proper(m) && TXRXPEND !in m.opmode && !m.joined
    ensures var (m1, outs) := StartJoining(m, now, luck);
            Inv(m1, Log(log, outs)) && Log(log, outs) == []
  {
    hide RndDelay;
    LogSingle(log, Restarted);
    LogOne(log, [Restarted], Wake(now));
    assert [Restarted] + [Wake(now)] == [Restarted, Wake(now)];
  }

  // ---------------------------------------------------------------- every event keeps it

  lemma TimelyParts(a: seq<Out>, b: seq<Out>)
    requires Timely(a + b)
    ensures Timely(a) && Timely(b)
  {
    forall i | 0 <= i < |a|
      ensures a[i] == (a + b)[i]
    {
    }
    forall i | 0 <= i < |b|
      ensures b[i] == (a + b)[|a| + i]
    {
    }
  }

  lemma ReportKeeps(m: Mac, log: seq<Tx>, ev: Ev, flags: set<Flag>, now: int, luck: Luck)
    requires Inv(m, log) && Timely(ReportEvent(m, ev, flags, now, luck).1)
    ensures var (m1, outs) := ReportEvent(m, ev, flags, now, luck);
            Inv(m1, Log(log, outs))
  {
    InvParts(m, log);
    hide Inv, Timely, EngineUpdate;
    var (m1, outs) := EngineUpdate(m, now, luck);
    TimelyParts([Report(ev, flags)], outs);
    UpdateKeeps(m, log, now, luck);
    LogTwo(log, [Report(ev, flags)], outs);
    LogSingle(log, Report(ev, flags));
  }

  lemma CompleteKeeps(m: Mac, log: seq<Tx>, flags: set<Flag>, now: int, luck: Luck)
    requires Inv(m, log) && Timely(TxComplete(m, flags, now, luck).1)
    ensures var (m', outs) := TxComplete(m, flags, now, luck);
            Inv(m', Log(log, outs))
  {
    var m1 := m.(opmode := m.opmode - {TXDATA, TXRXPEND}, job := Idle);
    FewerFlags(m, m1, log);
    FewerFlags(m1, m1.(opmode := m1.opmode - {LINKDEAD}), log);
    hide ReportEvent, CheckLink, Timely, Inv;
    var alive := flags * {DNW1, DNW2} != {} && LINKDEAD in m1.opmode;
    var (m2, outs2) := if alive
                       then ReportEvent(m1.(opmode := m1.opmode - {LINKDEAD}), EV_LINK_ALIVE, flags, now, luck)
                       else (m1, []);
    var (m3, outs3) := ReportEvent(m2, EV_TXCOMPLETE, flags, now, luck);
    var (m4, outs4) := CheckLink(m3, flags, now, luck);
    TimelyParts(outs2 + outs3, outs4);
    TimelyParts(outs2, outs3);
    LogTwo(log, outs2 + outs3, outs4);
    LogTwo(log, outs2, outs3);
    if alive {
      ReportKeeps(m1.(opmode := m1.opmode - {LINKDEAD}), log, EV_LINK_ALIVE, flags, now, luck);
    } else {
      LogNone(log);
    }
    ReportKeeps(m2, Log(log, outs2), EV_TXCOMPLETE, flags, now, luck);
    LinkKeeps(m3, Log(Log(log, outs2), outs3), flags, now, luck);
  }

  lemma LinkKeeps(m: Mac, log: seq<Tx>, flags: set<Flag>, now: int, luck: Luck)
    requires Inv(m, log) && Timely(CheckLink(m, flags, now, luck).1)
    ensures var (m', outs) := CheckLink(m, flags, now, luck);
            Inv(m', Log(log, outs))
  {
    if m.adrAckReq > LINK_CHECK_DEAD {
      var m1 := SetDr(m, DecDr(m.datarate)).(adrAckReq := LINK_CHECK_CONT);
      SlowerKeeps(m, log);
      ReportKeeps(m1.(opmode := m1.opmode + {REJOIN, LINKDEAD}), log, EV_LINK_DEAD, flags, now, luck);
      hide ReportEvent, Inv, Log;
    } else {
      LogNone(log);
    }
  }

  lemma LogNone(log: seq<Tx>)
    ensures Log(log, []) == log
  {
  }

  /** Dropping flags other than NEXTCHNL and JOINING, with the rest as it was. */
  lemma FewerFlags(m: Mac, m1: Mac, log: seq<Tx>)
    requires Inv(m, log) && m1 == m.(opmode := m1.opmode, job := m1.job)
    requires m1.opmode <= m.opmode && (NEXTCHNL in m.opmode ==> NEXTCHNL in m1.opmode)
    requires m1.job == m.job || TXRXPEND !in m1.opmode
    ensures Inv(m1, log)
  {
  }

  lemma SlowerKeeps(m: Mac, log: seq<Tx>)
    requires Inv(m, log)
    ensures var m1 := SetDr(m, DecDr(m.datarate)).(adrAckReq := LINK_CHECK_CONT);
            Inv(m1.(opmode := m1.opmode + {REJOIN, LINKDEAD}), log)
  {
    hide Spaced, Held, DefaultPlan;
  }

  lemma DnDataKeeps(m: Mac, log: seq<Tx>, f: Reception, rxtime: int, now: int, luck: Luck)
    requires Inv(m, log) && TXRXPEND in m.opmode && m.job == AwaitsData && Received(f)
    requires Timely(ProcessDnData(m, f, rxtime, now, luck).1)
    ensures var (m', outs) := ProcessDnData(m, f, rxtime, now, luck);
            Inv(m', Log(log, outs))
  {
    InvParts(m, log);
    hide TxComplete, EngineUpdate, Accept, Retried, Lonelier, Inv, Timely, Log;
    if f.Frame? {
      var (m1, flags) := Accept(m, f, now);
      AcceptKeeps(m, log, f, now);
      CompleteKeeps(m1, log, flags, now, luck);
    } else if 0 < m.txCnt < TXCONF_ATTEMPTS {
      UnheardKeeps(m, log, rxtime, luck.r);
      UpdateKeeps(Retried(m, rxtime, luck.r), log, now, luck);
    } else {
      UnheardKeeps(m, log, rxtime, luck.r);
      CompleteKeeps(Lonelier(m), log, if m.txCnt != 0 then {NACK, NOPORT} else {NOPORT}, now, luck);
    }
  }

  lemma UnheardKeeps(m: Mac, log: seq<Tx>, rxtime: int, r: nat)
    requires Inv(m, log) && TXRXPEND in m.opmode && m.job == AwaitsData
    ensures Inv(Retried(m, rxtime, r), log) && Inv(Lonelier(m), log)
  {
    hide Spaced, Held, RndDelay, S32, LowerDr, DefaultPlan;
  }

  lemma AcceptKeeps(m: Mac, log: seq<Tx>, f: Reception, now: int)
    requires Inv(m, log) && TXRXPEND in m.opmode && m.job == AwaitsData && f.Frame? && Received(f)
    ensures Inv(Accept(m, f, now).0, log)
  {
    hide Spaced, Held;
  }

  lemma JoinOverKeeps(m: Mac, log: seq<Tx>, answer: JoinAnswer, now: int, luck: Luck)
    requires Inv(m, log) && TXRXPEND in m.opmode && (answer.Accepted? ==> AddsToDefault(answer.plan))
    requires Timely(ProcessJoinAccept(m, answer, now, luck).1)
    ensures var (m', outs) := ProcessJoinAccept(m, answer, now, luck);
            Inv(m', Log(log, outs))
  {
    hide ReportEvent, Spaced, Held, RndDelay, LowerDr, NextJoinState, Log, DefaultBands;
    match answer
    case Unanswered =>
      if JOINING !in m.opmode {
        var m1 := m.(opmode := m.opmode - {REJOIN, TXRXPEND}, job := Idle,
                     rejoinCnt := if m.rejoinCnt < 10 then m.rejoinCnt + 1 else m.rejoinCnt);
        ReportKeeps(m1, log, EV_REJOIN_FAILED, {}, now, luck);
      } else {
        var out := BacksOff(m.bands[BAND_MILLI].avail, now);
        assert ProcessJoinAccept(m, answer, now, luck).1[0] == out;
        NextJoinKeeps(m, log, now, luck.r);
        LogSingle(log, out);
        LogOne(log, [out], Wake(now));
        assert [out] + [Wake(now)] == [out, Wake(now)];
      }
    case Accepted(plan) =>
      var m1 := Joined(m, plan, now, luck);
      EmptyLog(m1.bands);
      DefaultCapped(luck, now);
      var outs := ReportEvent(m1, EV_JOINED, {}, now, luck).1;
      TimelyParts([Restarted], outs);
      ReportKeeps(m1, [], EV_JOINED, {}, now, luck);
      LogTwo(log, [Restarted], outs);
      LogSingle(log, Restarted);
  }

  lemma EmptyLog(bands: seq<Band>)
    requires |bands| == 4
    ensures Spaced([]) && Held([], bands) && Regular([])
  {
  }

  lemma DefaultCapped(luck: Luck, now: int)
    ensures Capped(DefaultBands(luck, now))
  {
  }

  lemma NextJoinKeeps(m: Mac, log: seq<Tx>, now: int, r: nat)
    requires Inv(m, log) && JOINING in m.opmode && Together(m.bands[BAND_MILLI].avail, now)
    ensures Inv(NextJoinState(m.(opmode := m.opmode - {TXRXPEND}, job := Idle), now, r), log)
  {
    hide Spaced, Held, RndDelay;
    OrderInWindow(now, m.bands[BAND_MILLI].avail);
  }

  /** Every event keeps the invariant. */
  lemma StepKeeps(m: Mac, log: seq<Tx>, e: Event)
    requires Inv(m, log) && Possible(m, e) && Timely(Step(m, e).1)
    ensures var (m', outs) := Step(m, e);
            Inv(m', Log(log, outs))
  {
    hide EngineUpdate, ReportEvent, ProcessDnData, ProcessJoinAccept, StartJoining, Spaced, Held, Timely, Log,
         DefaultPlan;
    match e
    case Timer(now, luck) => UpdateKeeps(m, log, now, luck);
    case SetTxData(len, confirmed, now, luck) =>
      UpdateKeeps(m.(pendTxLen := len, pendTxConf := confirmed, opmode := m.opmode + {TXDATA},
                     txCnt := if JOINING in m.opmode then m.txCnt else 0), log, now, luck);
    case SendAlive(now, luck) => UpdateKeeps(m.(opmode := m.opmode + {POLL}), log, now, luck);
    case TryRejoin(now, luck) => UpdateKeeps(m.(opmode := m.opmode + {REJOIN}), log, now, luck);
    case ChangeRate(dr) => LogNone(log);
    case ClearTxData(now, luck) =>
      var m1 := m.(opmode := m.opmode - {TXDATA, TXRXPEND, POLL}, pendTxLen := 0);
      LogNone(log);
      if JOINING !in m.opmode {
        UpdateKeeps(m1.(job := Idle), log, now, luck);
      }
    case WindowsOver(f, rxtime, now, luck) => DnDataKeeps(m, log, f, rxtime, now, luck);
    case JoinOver(answer, now, luck) => JoinOverKeeps(m, log, answer, now, luck);
    case RunReset(now, luck) =>
      var (m1, outs) := StartJoining(Fresh(), now, luck);
      var (m2, more) := ReportEvent(m1, EV_RESET, {}, now, luck);
      TimelyParts(outs, more);
      JoiningKeeps(Fresh(), log, now, luck);
      ReportKeeps(m1, [], EV_RESET, {}, now, luck);
      LogTwo(log, outs, more);
  }

  // ---------------------------------------------------------------- runs

  /** The states an engine goes through, event by event; each event is possible where it happens. */
  ghost predicate IsRun(states: seq<Mac>, events: seq<Event>) {
    && |states| == |events| + 1
    && (forall i :: 0 <= i <= |events| ==> Proper(states[i]))
    && (forall i :: 0 <= i < |events| ==>
        Possible(states[i], events[i]) && states[i + 1] == Step(states[i], events[i]).0)
  }

  /** All that was put out during the first n events. */
  ghost function Outputs(states: seq<Mac>, events: seq<Event>, n: nat): seq<Out>
    requires IsRun(states, events) && n <= |events|
  {
    if n == 0 then [] else Outputs(states, events, n - 1) + Step(states[n - 1], events[n - 1]).1
  }

  lemma {:induction false} RunKeeps(states: seq<Mac>, events: seq<Event>, n: nat)
    requires IsRun(states, events) && n <= |events| && states[0] == Fresh() && Timely(Outputs(states, events, n))
    ensures Inv(states[n], Log([], Outputs(states, events, n)))
  {
    hide Step, Inv, Timely, Possible;
    if n == 0 {
      FreshKeeps();
    } else {
      var before, outs := Outputs(states, events, n - 1), Step(states[n - 1], events[n - 1]).1;
      TimelyParts(before, outs);
      RunKeeps(states, events, n - 1);
      StepKeeps(states[n - 1], Log([], before), events[n - 1]);
      LogTwo([], before, outs);
    }
  }

  lemma FreshKeeps()
    ensures Inv(Fresh(), Log([], []))
  {
  }

  /**
   From reset on, whatever the application, the network and chance do: as long as the times
   compared are in reach of each other, successive transmissions in a band, between two
   set-ups of the bands, start more than the band's capacity times the true time on air of the
   first apart, less the ramp-up; the capacity is 1000, 100 or 10 by the band.
   */
  lemma DutyCycleKept(states: seq<Mac>, events: seq<Event>)
    requires IsRun(states, events) && states[0] == Fresh() && Timely(Outputs(states, events, |events|))
    ensures SpacedInTime(Log([], Outputs(states, events, |events|)))
    ensures Regular(Log([], Outputs(states, events, |events|)))
  {
    hide Inv, Timely, Step, Possible, SpacedInTime, Regular, Outputs, Log;
    RunKeeps(states, events, |events|);
    KeptInTime(states[|events|], Log([], Outputs(states, events, |events|)));
  }

  ghost predicate SpacedInTime(log: seq<Tx>) {
    forall i: nat, j: nat :: Successive(log, i, j) ==>
      (log[j].at + TX_RAMPUP) as real > log[i].at as real + TrueTicks(log[i].rps, log[i].flen) * log[i].txcap as real
  }

  lemma KeptInTime(m: Mac, log: seq<Tx>)
    requires Inv(m, log)
    ensures SpacedInTime(log) && Regular(log)
  {
    hide TrueTicks, Block, Held, Proper;
    forall i: nat, j: nat | Successive(log, i, j)
      ensures (log[j].at + TX_RAMPUP) as real > log[i].at as real
              + TrueTicks(log[i].rps, log[i].flen) * log[i].txcap as real
    {
      PairInTime(log[i], log[j]);
    }
  }

  lemma PairInTime(x: Tx, y: Tx)
    requires y.at + TX_RAMPUP > x.at + Block(x)
    ensures (y.at + TX_RAMPUP) as real > x.at as real + TrueTicks(x.rps, x.flen) * x.txcap as real
  {
    hide TrueTicks, Block;
    BlockedLongEnough(x);
  }
}
