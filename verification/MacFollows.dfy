/**
 Whole runs of the 32-bit engine: what happens to it, one thing after the other, takes the
 unbounded machine through a run of its own, and radio, timer and application see exactly
 what that run puts out. What is proved of the machine's runs holds of the engine's.
 */
module MacFollows {
  import opened Common
  import opened Ticks
  import opened Airtime
  import opened Channels
  import opened MacMachine
  import opened MacDuty
  import opened MacWords
  import opened MacEngine

  /** What drives the engine; now is the true time, of which the engine sees 32 bits. */
  datatype Happening =
    | Clock(now: int, luck: Luck)
    | Data(len: u1, confirmed: bool, now: int, luck: Luck)
    | AskAlive(now: int, luck: Luck)
    | AskRejoin(now: int, luck: Luck)
    | SetRate(dr: Dr)
    | DropData(now: int, luck: Luck)
    | Windows(h: Heard, rxtime: int, now: int, luck: Luck)
    | JoinEnds(answer: Option<Assigned>, now: int, luck: Luck)
    | ResetJobRuns(now: int, luck: Luck)

  predicate Shaped(h: Happening) {
    match h
    case Data(len, _, _, _) => len <= MAX_LEN_PAYLOAD
    case Windows(heard, _, _, _) => Sensible(heard)
    case JoinEnds(answer, _, _) => answer.Some? ==> Sized(answer.value.table) && answer.value.addr != 0
    case _ => true
  }

  function EventOf(h: Happening): Event
    requires Shaped(h)
  {
    match h
    case Clock(now, luck) => Timer(now, luck)
    case Data(len, confirmed, now, luck) => SetTxData(len, confirmed, now, luck)
    case AskAlive(now, luck) => SendAlive(now, luck)
    case AskRejoin(now, luck) => TryRejoin(now, luck)
    case SetRate(dr) => ChangeRate(dr)
    case DropData(now, luck) => ClearTxData(now, luck)
    case Windows(heard, rxtime, now, luck) => WindowsOver(Meaning(heard), rxtime, now, luck)
    case JoinEnds(answer, now, luck) => JoinOver(Answered(answer), now, luck)
    case ResetJobRuns(now, luck) => RunReset(now, luck)
  }

  // ---------------------------------------------------------------- what every step keeps

  /** No data transaction is pending while joining, and the link check has not run out. */
  predicate Steady(m: Mac) {
    Proper(m) && (TXRXPEND in m.opmode && m.job == AwaitsData ==> JOINING !in m.opmode)
      && m.adrAckReq <= LINK_CHECK_DEAD
  }

  lemma UpdateSteady(m: Mac, now: int, luck: Luck)
    requires Proper(m) && (TXRXPEND in m.opmode && m.job == AwaitsData ==> JOINING !in m.opmode)
    ensures var m1 := EngineUpdate(m, now, luck).0;
            && (TXRXPEND in m1.opmode && m1.job == AwaitsData ==> JOINING !in m1.opmode)
            && (m.adrAckReq <= LINK_CHECK_DEAD ==> m1.adrAckReq <= LINK_CHECK_DEAD)
            && (m.adrAckReq > LINK_CHECK_DEAD ==> m1.adrAckReq == m.adrAckReq)
  {
    hide ComputedTicks, UpRps, LowerDr, WellFormed, DefaultBands, DefaultPlan, RndDelay, S32, StartTime, PlaceFrame;
    PlacedProper(m, now);
    if PlaceFrame(m, now).Some? {
      PlacedShape(m, now);
    }
  }

  lemma PlacedShape(m: Mac, now: int)
    requires Proper(m) && PlaceFrame(m, now).Some?
    ensures var m1 := PlaceFrame(m, now).value;
            m1 == m.(opmode := m.opmode - {NEXTCHNL}, txend := m1.txend, txChnl := m1.txChnl, bands := m1.bands)
  {
    hide NextTx;
  }

  lemma CompleteSteady(m: Mac, flags: set<Flag>, now: int, luck: Luck)
    requires Proper(m)
    ensures Steady(TxComplete(m, flags, now, luck).0)
  {
    hide EngineUpdate, WellFormed;
    var m1 := m.(opmode := m.opmode - {TXDATA, TXRXPEND}, job := Idle);
    var m1' := m1.(opmode := m1.opmode - {LINKDEAD});
    var alive := flags * {DNW1, DNW2} != {} && LINKDEAD in m1.opmode;
    UpdateSteady(m1', now, luck);
    var m2 := if alive then EngineUpdate(m1', now, luck).0 else m1;
    UpdateSteady(m2, now, luck);
    var m3 := EngineUpdate(m2, now, luck).0;
    var m4 := SetDr(m3, DecDr(m3.datarate)).(adrAckReq := LINK_CHECK_CONT);
    UpdateSteady(m4.(opmode := m4.opmode + {REJOIN, LINKDEAD}), now, luck);
  }

  lemma StepSteady(m: Mac, e: Event)
    requires Steady(m) && Possible(m, e)
    ensures Steady(Step(m, e).0)
  {
    match e
    case Timer(now, luck) => UpdateSteady(m, now, luck);
    case SetTxData(len, confirmed, now, luck) =>
      UpdateSteady(m.(pendTxLen := len, pendTxConf := confirmed, opmode := m.opmode + {TXDATA},
                      txCnt := if JOINING in m.opmode then m.txCnt else 0), now, luck);
    case SendAlive(now, luck) => UpdateSteady(m.(opmode := m.opmode + {POLL}), now, luck);
    case TryRejoin(now, luck) => UpdateSteady(m.(opmode := m.opmode + {REJOIN}), now, luck);
    case ChangeRate(dr) =>
    case ClearTxData(now, luck) =>
      UpdateSteady(m.(opmode := m.opmode - {TXDATA, TXRXPEND, POLL}, pendTxLen := 0, job := Idle), now, luck);
    case WindowsOver(f, rxtime, now, luck) => WindowsSteady(m, f, rxtime, now, luck);
    case JoinOver(answer, now, luck) => JoinSteady(m, answer, now, luck);
    case RunReset(now, luck) => ResetSteady(now, luck);
    hide EngineUpdate, ProcessDnData, ProcessJoinAccept, ReportEvent, StartJoining, WellFormed, Fresh;
  }

  lemma WindowsSteady(m: Mac, f: Reception, rxtime: int, now: int, luck: Luck)
    requires Steady(m) && Received(f) && TXRXPEND in m.opmode && m.job == AwaitsData
    ensures Steady(ProcessDnData(m, f, rxtime, now, luck).0)
  {
    hide TxComplete, EngineUpdate, Accept, Retried, WellFormed;
    if f.Frame? {
      var (m1, flags) := Accept(m, f, now);
      CompleteSteady(m1, flags, now, luck);
    } else if 0 < m.txCnt < TXCONF_ATTEMPTS {
      RetriedSteady(m, rxtime, luck.r);
      UpdateSteady(Retried(m, rxtime, luck.r), now, luck);
    } else {
      CompleteSteady(Lonelier(m), if m.txCnt != 0 then {NACK, NOPORT} else {NOPORT}, now, luck);
    }
  }

  lemma RetriedSteady(m: Mac, rxtime: int, r: nat)
    requires Proper(m)
    ensures var m1 := Retried(m, rxtime, r); Proper(m1) && TXRXPEND !in m1.opmode && m1.adrAckReq == m.adrAckReq
  {
    hide RndDelay, S32, LowerDr;
  }

  lemma JoinSteady(m: Mac, answer: JoinAnswer, now: int, luck: Luck)
    requires Steady(m) && (answer.Accepted? ==> AddsToDefault(answer.plan)) && (JOINING in m.opmode ==> m.txChnl < 3)
    ensures Steady(ProcessJoinAccept(m, answer, now, luck).0)
  {
    hide EngineUpdate, DefaultBands, RndDelay, LowerDr, Pow2, S32, WellFormed;
    match answer
    case Unanswered =>
      if JOINING !in m.opmode {
        UpdateSteady(m.(opmode := m.opmode - {REJOIN, TXRXPEND}, job := Idle,
                        rejoinCnt := if m.rejoinCnt < 10 then m.rejoinCnt + 1 else m.rejoinCnt), now, luck);
      }
    case Accepted(plan) => UpdateSteady(Joined(m, plan, now, luck), now, luck);
  }

  lemma ResetSteady(now: int, luck: Luck)
    ensures Proper(Fresh()) && Steady(ReportEvent(StartJoining(Fresh(), now, luck).0, EV_RESET, {}, now, luck).0)
  {
    hide EngineUpdate, DefaultBands, DefaultPlan, RndDelay;
    UpdateSteady(StartJoining(Fresh(), now, luck).0, now, luck);
  }

  // ---------------------------------------------------------------- one happening

  method Handle(e: Lmic, h: Happening) returns (acts: seq<Act>)
    requires e.Valid() && Shaped(h) && Steady(e.mac) && Possible(e.mac, EventOf(h))
             && Hangs !in Step(e.mac, EventOf(h)).1
    modifies e
    ensures e.Valid() && e.mac == Step(old(e.mac), EventOf(h)).0 && Steady(e.mac)
    ensures acts == ActsOf(Step(old(e.mac), EventOf(h)).1)
  {
    StepSteady(e.mac, EventOf(h));
    ActsOne(Hangs);
    hide EngineUpdate, ProcessDnData, ProcessJoinAccept, WellFormed, ActsOf, Meaning, Answered, ReportEvent,
         StartJoining, Fresh;
    match h
    case Clock(now, luck) => acts := e.Update(Low32(now), now, luck);
    case Data(len, confirmed, now, luck) =>
      var ok;
      ok, acts := e.SetTxData2(len, confirmed, Low32(now), now, luck);
    case AskAlive(now, luck) => acts := e.Alive(Low32(now), now, luck);
    case AskRejoin(now, luck) => acts := e.Rejoin(Low32(now), now, luck);
    case SetRate(dr) =>
      e.SetDrTxpow(dr);
      acts := [];
    case DropData(now, luck) => acts := e.ClrTxData(Low32(now), now, luck);
    case Windows(heard, rxtime, now, luck) => acts := e.ProcessDn(heard, Low32(rxtime), rxtime, Low32(now), now, luck);
    case JoinEnds(answer, now, luck) => acts := e.ProcessJoin(answer, Low32(now), now, luck);
    case ResetJobRuns(now, luck) => acts := e.RunReset(Low32(now), now, luck);
  }

  // ---------------------------------------------------------------- whole runs

  /** Each happening can happen when its turn comes, and no channel search is endless. */
  ghost predicate GoesOn(m: Mac, hs: seq<Happening>)
    decreases |hs|
  {
    hs != [] ==>
      && Proper(m) && Shaped(hs[0]) && Possible(m, EventOf(hs[0])) && Hangs !in Step(m, EventOf(hs[0])).1
      && GoesOn(Step(m, EventOf(hs[0])).0, hs[1..])
  }

  /** What the machine puts out at each happening. */
  ghost function Shown(m: Mac, hs: seq<Happening>): (outs: seq<seq<Out>>)
    requires GoesOn(m, hs)
    ensures |outs| == |hs|
    decreases |hs|
  {
    if hs == [] then [] else [Step(m, EventOf(hs[0])).1] + Shown(Step(m, EventOf(hs[0])).0, hs[1..])
  }

  /** The machine's run on these happenings, and its outputs as they show at each. */
  ghost predicate Follows(hs: seq<Happening>, acts: seq<seq<Act>>, states: seq<Mac>, events: seq<Event>) {
    && IsRun(states, events) && |events| == |acts| == |hs|
    && forall i :: 0 <= i < |hs| ==>
         Shaped(hs[i]) && events[i] == EventOf(hs[i]) && acts[i] == ActsOf(Step(states[i], events[i]).1)
  }

  lemma FollowsOn(hs: seq<Happening>, acts: seq<seq<Act>>, states: seq<Mac>, events: seq<Event>,
                  h: Happening, more: seq<Act>)
    requires Follows(hs, acts, states, events) && Shaped(h) && Possible(states[|hs|], EventOf(h))
    requires more == ActsOf(Step(states[|hs|], EventOf(h)).1)
    ensures Follows(hs + [h], acts + [more], states + [Step(states[|hs|], EventOf(h)).0], events + [EventOf(h)])
  {
    hide Step, Possible, ActsOf, EventOf, Shaped;
  }

  /** What is done at each happening, and the machine's run that it shows. */
  method Run(e: Lmic, hs: seq<Happening>)
    returns (acts: seq<seq<Act>>, ghost states: seq<Mac>, ghost events: seq<Event>)
    requires e.Valid() && Steady(e.mac) && GoesOn(e.mac, hs)
    modifies e
    ensures e.Valid() && Follows(hs, acts, states, events) && states[0] == old(e.mac) && states[|hs|] == e.mac
  {
    hide Step, ActsOf, Possible, EventOf, Shaped;
    acts, states, events := [], [e.mac], [];
    assert hs[0..] == hs;
    for i := 0 to |hs|
      invariant e.Valid() && Steady(e.mac) && GoesOn(e.mac, hs[i..])
      invariant Follows(hs[..i], acts, states, events) && states[0] == old(e.mac) && states[i] == e.mac
    {
      assert hs[i..][1..] == hs[i + 1..];
      var more := Handle(e, hs[i]);
      FollowsOn(hs[..i], acts, states, events, hs[i], more);
      acts, states, events := acts + [more], states + [e.mac], events + [EventOf(hs[i])];
      assert hs[..i] + [hs[i]] == hs[..i + 1];
    }
    assert hs[..|hs|] == hs;
  }

  // ---------------------------------------------------------------- what is on the air

  /** A frame on the air, at its true time. */
  datatype Burst = Burst(at: int, band: nat, rps: Modem, len: u1)

  function AirStep(log: seq<Burst>, act: Act, at: int): seq<Burst> {
    match act
    case Radio(_, band, rps, len) => log + [Burst(at, band, rps, len)]
    case SetBands => []
    case _ => log
  }

  /** The frames handed to the radio at one time, after those before, since the bands were last set up. */
  function Aired(log: seq<Burst>, acts: seq<Act>, at: int): seq<Burst> {
    if acts == [] then log else AirStep(Aired(log, acts[..|acts| - 1], at), acts[|acts| - 1], at)
  }

  function TimeOf(h: Happening): int {
    if h.SetRate? then 0 else h.now
  }

  /** The frames of a whole run, each at the time of its happening. */
  function OnAir(hs: seq<Happening>, acts: seq<seq<Act>>): seq<Burst>
    requires |acts| == |hs|
  {
    if hs == [] then []
    else
      var n := |hs| - 1;
      Aired(OnAir(hs[..n], acts[..n]), acts[n], TimeOf(hs[n]))
  }

  /** No frame between the two is in their band. */
  ghost predicate NextInBand(log: seq<Burst>, i: nat, j: nat) {
    i < j < |log| && log[i].band == log[j].band && forall k :: i < k < j ==> log[k].band != log[i].band
  }

  /** The second starts farther behind the first than the duty cycle of its band asks, less the ramp-up. */
  predicate Apart(x: Burst, y: Burst) {
    x.band < 4 && (y.at + TX_RAMPUP) as real > x.at as real + TrueTicks(x.rps, x.len) * Cap(x.band) as real
  }

  ghost predicate DutyKept(log: seq<Burst>) {
    forall i: nat, j: nat :: NextInBand(log, i, j) ==> Apart(log[i], log[j])
  }

  function BurstOf(tx: Tx): Burst {
    Burst(tx.at, tx.band, tx.rps, tx.flen)
  }

  function Bursts(log: seq<Tx>): (r: seq<Burst>)
    ensures |r| == |log|
  {
    seq(|log|, i requires 0 <= i < |log| => BurstOf(log[i]))
  }

  /** Whatever is sent is sent at that time. */
  ghost predicate AllAt(outs: seq<Out>, at: int) {
    forall i :: 0 <= i < |outs| && outs[i].Sent? ==> outs[i].tx.at == at
  }

  lemma AiredOne(log: seq<Burst>, acts: seq<Act>, act: Act, at: int)
    ensures Aired(log, acts + [act], at) == AirStep(Aired(log, acts, at), act, at)
    ensures Aired(log, acts + [], at) == Aired(log, acts, at)
  {
    assert (acts + [act])[..|acts|] == acts;
    assert acts + [] == acts;
  }

  /** The acts show the machine's log, entry by entry. */
  lemma {:induction false} AiredIsLog(log: seq<Tx>, outs: seq<Out>, at: int)
    requires AllAt(outs, at)
    ensures Aired(Bursts(log), ActsOf(outs), at) == Bursts(Log(log, outs))
    decreases |outs|
  {
    if outs != [] {
      var init, out := outs[..|outs| - 1], outs[|outs| - 1];
      AiredIsLog(log, init, at);
      hide Aired, Log, ActsOf;
      LogOne(log, init, out);
      assert outs == init + [out];
      ActsTwo(init, [out]);
      ActsOne(out);
      if ActOf(out) == [] {
        AiredOne(Bursts(log), ActsOf(init), SetBands, at);
      } else {
        AiredOne(Bursts(log), ActsOf(init), ActOf(out)[0], at);
        assert ActOf(out) == [ActOf(out)[0]];
      }
      BurstsStep(Log(log, init), out, at);
    }
  }

  lemma BurstsStep(log: seq<Tx>, out: Out, at: int)
    requires out.Sent? ==> out.tx.at == at
    ensures Bursts(LogStep(log, out)) ==
            if ActOf(out) == [] then Bursts(log) else AirStep(Bursts(log), ActOf(out)[0], at)
  {
  }

  lemma {:induction false} OnAirIsLog(hs: seq<Happening>, acts: seq<seq<Act>>, states: seq<Mac>, events: seq<Event>)
    requires Follows(hs, acts, states, events)
    ensures OnAir(hs, acts) == Bursts(Log([], Outputs(states, events, |hs|)))
    decreases |hs|
  {
    hide Step, Possible, ActsOf, EventOf, Shaped, Log, Bursts, Aired;
    if hs == [] {
      NoBursts();
    } else {
      var n := |hs| - 1;
      FollowsBefore(hs, acts, states, events);
      OnAirIsLog(hs[..n], acts[..n], states[..n + 1], events[..n]);
      SameOutputs(states[..n + 1], events[..n], states, events, n);
      var outs := Step(states[n], events[n]).1;
      EventTime(hs[n]);
      StepAt(states[n], events[n], TimeOf(hs[n]));
      AiredIsLog(Log([], Outputs(states, events, n)), outs, TimeOf(hs[n]));
      LogTwo([], Outputs(states, events, n), outs);
    }
  }

  lemma NoBursts()
    ensures Bursts(Log([], [])) == []
  {
  }

  lemma FollowsBefore(hs: seq<Happening>, acts: seq<seq<Act>>, states: seq<Mac>, events: seq<Event>)
    requires Follows(hs, acts, states, events) && hs != []
    ensures var n := |hs| - 1; Follows(hs[..n], acts[..n], states[..n + 1], events[..n])
  {
    hide Step, Possible, ActsOf, EventOf, Shaped;
  }

  lemma EventTime(h: Happening)
    requires Shaped(h)
    ensures !EventOf(h).ChangeRate? ==> EventOf(h).now == TimeOf(h)
  {
  }

  lemma {:induction false} SameOutputs(states: seq<Mac>, events: seq<Event>, states': seq<Mac>, events': seq<Event>,
                                       n: nat)
    requires IsRun(states, events) && IsRun(states', events') && events <= events' && states <= states' && n <= |events|
    ensures Outputs(states', events', n) == Outputs(states, events, n)
  {
    hide Step, Possible;
    if n > 0 {
      SameOutputs(states, events, states', events', n - 1);
    }
  }

  // ---------------------------------------------------------------- everything is sent at once

  lemma UpdateAt(m: Mac, now: int, luck: Luck)
    requires Proper(m)
    ensures AllAt(EngineUpdate(m, now, luck).1, now)
  {
    hide ComputedTicks, UpRps, LowerDr, BuildDataFrame, UpdateTx, S32, StartTime, PlaceFrame, WellFormed, DefaultBands,
         DefaultPlan, RndDelay;
    PlacedProper(m, now);
  }

  lemma ReportAt(m: Mac, ev: Ev, flags: set<Flag>, now: int, luck: Luck)
    requires Proper(m)
    ensures AllAt(ReportEvent(m, ev, flags, now, luck).1, now)
  {
    UpdateAt(m, now, luck);
    hide EngineUpdate;
  }

  lemma CompleteAt(m: Mac, flags: set<Flag>, now: int, luck: Luck)
    requires Proper(m)
    ensures AllAt(TxComplete(m, flags, now, luck).1, now)
  {
    hide ReportEvent, WellFormed;
    var m1 := m.(opmode := m.opmode - {TXDATA, TXRXPEND}, job := Idle);
    var m1' := m1.(opmode := m1.opmode - {LINKDEAD});
    var alive := flags * {DNW1, DNW2} != {} && LINKDEAD in m1.opmode;
    ReportAt(m1', EV_LINK_ALIVE, flags, now, luck);
    var m2 := if alive then ReportEvent(m1', EV_LINK_ALIVE, flags, now, luck).0 else m1;
    ReportAt(m2, EV_TXCOMPLETE, flags, now, luck);
    var m3 := ReportEvent(m2, EV_TXCOMPLETE, flags, now, luck).0;
    var m4 := SetDr(m3, DecDr(m3.datarate)).(adrAckReq := LINK_CHECK_CONT);
    ReportAt(m4.(opmode := m4.opmode + {REJOIN, LINKDEAD}), EV_LINK_DEAD, flags, now, luck);
  }

  lemma StepAt(m: Mac, e: Event, at: int)
    requires Proper(m) && Possible(m, e) && (!e.ChangeRate? ==> e.now == at)
    ensures AllAt(Step(m, e).1, at)
  {
    match e
    case Timer(now, luck) => UpdateAt(m, now, luck);
    case SetTxData(len, confirmed, now, luck) =>
      UpdateAt(m.(pendTxLen := len, pendTxConf := confirmed, opmode := m.opmode + {TXDATA},
                  txCnt := if JOINING in m.opmode then m.txCnt else 0), now, luck);
    case SendAlive(now, luck) => UpdateAt(m.(opmode := m.opmode + {POLL}), now, luck);
    case TryRejoin(now, luck) => UpdateAt(m.(opmode := m.opmode + {REJOIN}), now, luck);
    case ChangeRate(dr) =>
    case ClearTxData(now, luck) =>
      UpdateAt(m.(opmode := m.opmode - {TXDATA, TXRXPEND, POLL}, pendTxLen := 0, job := Idle), now, luck);
    case WindowsOver(f, rxtime, now, luck) => WindowsAt(m, f, rxtime, now, luck);
    case JoinOver(answer, now, luck) => JoinAt(m, answer, now, luck);
    case RunReset(now, luck) => ResetAt(now, luck);
    hide EngineUpdate, ProcessDnData, ProcessJoinAccept, ReportEvent, StartJoining, WellFormed, Fresh;
  }

  lemma WindowsAt(m: Mac, f: Reception, rxtime: int, now: int, luck: Luck)
    requires Proper(m) && Received(f)
    ensures AllAt(ProcessDnData(m, f, rxtime, now, luck).1, now)
  {
    hide TxComplete, EngineUpdate, Accept, Retried, Lonelier, WellFormed;
    if f.Frame? {
      var (m1, flags) := Accept(m, f, now);
      CompleteAt(m1, flags, now, luck);
    } else if 0 < m.txCnt < TXCONF_ATTEMPTS {
      UpdateAt(Retried(m, rxtime, luck.r), now, luck);
    } else {
      CompleteAt(Lonelier(m), if m.txCnt != 0 then {NACK, NOPORT} else {NOPORT}, now, luck);
    }
  }

  lemma JoinAt(m: Mac, answer: JoinAnswer, now: int, luck: Luck)
    requires Proper(m) && (answer.Accepted? ==> AddsToDefault(answer.plan)) && (JOINING in m.opmode ==> m.txChnl < 3)
    ensures AllAt(ProcessJoinAccept(m, answer, now, luck).1, now)
  {
    hide ReportEvent, NextJoinState, Joined, WellFormed;
    match answer
    case Unanswered =>
      ReportAt(m.(opmode := m.opmode - {REJOIN, TXRXPEND}, job := Idle,
                  rejoinCnt := if m.rejoinCnt < 10 then m.rejoinCnt + 1 else m.rejoinCnt),
               EV_REJOIN_FAILED, {}, now, luck);
    case Accepted(plan) => ReportAt(Joined(m, plan, now, luck), EV_JOINED, {}, now, luck);
  }

  lemma ResetAt(now: int, luck: Luck)
    ensures Proper(Fresh())
    ensures var (m1, outs) := StartJoining(Fresh(), now, luck);
            AllAt(outs + ReportEvent(m1, EV_RESET, {}, now, luck).1, now)
  {
    hide ReportEvent, DefaultBands, DefaultPlan, RndDelay;
    ReportAt(StartJoining(Fresh(), now, luck).0, EV_RESET, {}, now, luck);
  }

  // ---------------------------------------------------------------- the duty cycle of the device

  /** A run shows what the machine puts out from its first state on. */
  lemma {:induction false} ShownIs(hs: seq<Happening>, acts: seq<seq<Act>>, states: seq<Mac>, events: seq<Event>)
    requires Follows(hs, acts, states, events) && GoesOn(states[0], hs)
    ensures forall i :: 0 <= i < |hs| ==>
              Shown(states[0], hs)[i] == Step(states[i], events[i]).1 && acts[i] == ActsOf(Shown(states[0], hs)[i])
    decreases |hs|
  {
    hide Step, Possible, ActsOf, EventOf, Shaped;
    if hs != [] {
      FollowsRest(hs, acts, states, events);
      ShownIs(hs[1..], acts[1..], states[1..], events[1..]);
      forall i | 0 <= i < |hs|
        ensures Shown(states[0], hs)[i] == Step(states[i], events[i]).1
      {
        if i > 0 {
          assert Shown(states[0], hs)[i] == Shown(states[1], hs[1..])[i - 1];
          assert states[1..][i - 1] == states[i] && events[1..][i - 1] == events[i];
        }
      }
    }
  }

  lemma FollowsRest(hs: seq<Happening>, acts: seq<seq<Act>>, states: seq<Mac>, events: seq<Event>)
    requires Follows(hs, acts, states, events) && hs != []
    ensures Follows(hs[1..], acts[1..], states[1..], events[1..])
  {
    hide Step, Possible, ActsOf, EventOf, Shaped;
  }

  lemma {:induction false} TimelyAll(states: seq<Mac>, events: seq<Event>, n: nat)
    requires IsRun(states, events) && n <= |events|
    requires forall i :: 0 <= i < n ==> Timely(Step(states[i], events[i]).1)
    ensures Timely(Outputs(states, events, n))
  {
    hide Step, Possible, InReach, Together;
    if n > 0 {
      TimelyAll(states, events, n - 1);
    }
  }

  /**
   A device from reset on: as long as the times it compares are in reach of each other, the
   frames it hands to the radio keep the duty cycle of their bands, in true time on air.
   */
  method DutyCycleOnAir(hs: seq<Happening>) returns (acts: seq<seq<Act>>)
    requires GoesOn(Fresh(), hs)
    ensures |acts| == |hs| && forall i :: 0 <= i < |hs| ==> acts[i] == ActsOf(Shown(Fresh(), hs)[i])
    ensures (forall i :: 0 <= i < |hs| ==> Timely(Shown(Fresh(), hs)[i])) ==> DutyKept(OnAir(hs, acts))
  {
    hide Step, ActsOf, Possible, EventOf, Shaped, Timely, SpacedInTime, Regular, Log, Bursts, OnAir, DutyKept;
    var e := new Lmic();
    FreshSteady();
    hide Fresh;
    ghost var states, events;
    acts, states, events := Run(e, hs);
    ShownIs(hs, acts, states, events);
    if forall i :: 0 <= i < |hs| ==> Timely(Shown(Fresh(), hs)[i]) {
      TimelyAll(states, events, |hs|);
      DutyCycleKept(states, events);
      OnAirIsLog(hs, acts, states, events);
      BurstsKeep(Log([], Outputs(states, events, |hs|)));
    }
  }

  lemma BurstsKeep(log: seq<Tx>)
    requires SpacedInTime(log) && Regular(log)
    ensures DutyKept(Bursts(log))
  {
    hide TrueTicks, Cap, Bursts, Successive;
    forall i: nat, j: nat | NextInBand(Bursts(log), i, j)
      ensures Apart(Bursts(log)[i], Bursts(log)[j])
    {
      NextIsSuccessive(log, i, j);
    }
  }

  lemma NextIsSuccessive(log: seq<Tx>, i: nat, j: nat)
    requires NextInBand(Bursts(log), i, j)
    ensures Successive(log, i, j) && Bursts(log)[i] == BurstOf(log[i]) && Bursts(log)[j] == BurstOf(log[j])
  {
    forall k | i < k < j
      ensures log[k].band != log[i].band
    {
      assert Bursts(log)[k].band != Bursts(log)[i].band;
    }
  }

  lemma FreshSteady()
    ensures Steady(Fresh())
  {
  }
}
