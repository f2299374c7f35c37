/**
 A confirmed uplink from the moment its data is handed over: how often and how it is sent,
 how it ends, and when it is reported as complete just once. After the hand-over nothing
 happens but timers and receive windows.
 */
module MacConfirmed {
  import opened Common
  import opened Ticks
  import opened Channels
  import opened Airtime
  import opened MacMachine
  import opened MacDuty

  /** Only the timer and the receive windows drive the engine. */
  predicate Undisturbed(e: Event) {
    e.Timer? || e.WindowsOver?
  }

  /** No join or rejoin is under way, and no counter is about to roll over. */
  predicate Calm(m: Mac) {
    && Proper(m) && m.joined && JOINING !in m.opmode && REJOIN !in m.opmode && SHUTDOWN !in m.opmode
    && m.seqnoDn < 0xFFFF_FF80 && m.seqnoUp < 0xFFFF_FFFF
  }

  /** A payload of this length fits its frame beside the options. */
  predicate Fits(m: Mac, len: nat) {
    OFF_DAT_OPTS + m.pendOpts + 5 + len <= MAX_LEN_FRAME
  }

  /** Confirmed data that fits its frame is to be sent. */
  predicate Working(m: Mac) {
    && Proper(m) && m.joined && JOINING !in m.opmode && REJOIN !in m.opmode && SHUTDOWN !in m.opmode
    && TXDATA in m.opmode && m.pendTxConf && m.seqnoDn < 0xFFFF_FF80 && Fits(m, m.pendTxLen)
  }

  /** LMIC_setTxData2 with confirmed data that fits its frame, while no transaction is pending. */
  predicate HandsOver(m: Mac, e: Event) {
    e.SetTxData? && e.confirmed && Calm(m) && TXRXPEND !in m.opmode && Fits(m, e.len)
  }

  /** What the call stores before it asks the engine to send. */
  function Stored(m: Mac, len: nat, confirmed: bool): Mac {
    m.(pendTxLen := len, pendTxConf := confirmed, opmode := m.opmode + {TXDATA},
       txCnt := if JOINING in m.opmode then m.txCnt else 0)
  }

  /** The data rate of the n-th try. */
  function RateAt(d0: Dr, n: nat): Dr
    decreases n
  {
    if n <= 1 then d0 else LowerDr(RateAt(d0, n - 1), DrAdjust(n))
  }

  /**
   What has been sent before the application heard anything, whether it has heard anything,
   and the flags of every completion it heard of.
   */
  datatype Story = Story(sends: seq<Tx>, heard: bool, done: seq<set<Flag>>)

  const NOTHING_YET: Story := Story([], false, [])

  function Tell(s: Story, out: Out): Story {
    match out
    case Sent(tx) => if s.heard then s else s.(sends := s.sends + [tx])
    case Report(ev, flags) => s.(heard := true, done := if ev == EV_TXCOMPLETE then s.done + [flags] else s.done)
    case _ => s
  }

  function TellAll(s: Story, outs: seq<Out>): Story {
    if outs == [] then s else Tell(TellAll(s, outs[..|outs| - 1]), outs[|outs| - 1])
  }

  /** Every try so far: the same number, confirmed with its payload, at the rate for that try. */
  predicate TriesRight(sends: seq<Tx>, u: nat, d0: Dr) {
    forall k :: 0 <= k < |sends| ==>
      sends[k].seqno == u && sends[k].confirmed && sends[k].payload && !sends[k].joining
        && sends[k].dr == RateAt(d0, k + 1)
  }

  /** Between tries and during one: the retry count tells how many tries there were. */
  predicate Trying(m: Mac, s: Story, u: nat, d0: Dr) {
    && Working(m) && u < 0xFFFF_FFFF && TriesRight(s.sends, u, d0) && !s.heard && s.done == []
    && (TXRXPEND in m.opmode ==>
          m.job == AwaitsData && m.txCnt == |s.sends| && 1 <= m.txCnt <= TXCONF_ATTEMPTS)
    && (TXRXPEND !in m.opmode ==>
          if s.sends == [] then m.txCnt == 0 else m.txCnt == |s.sends| + 1 && m.txCnt <= TXCONF_ATTEMPTS)
    && (s.sends != [] ==> POLL !in m.opmode)
    && m.seqnoUp == (if s.sends == [] then u else u + 1)
    && m.datarate == RateAt(d0, m.txCnt)
  }

  predicate Ended(s: Story, u: nat, d0: Dr) {
    && s.heard && TriesRight(s.sends, u, d0) && 1 <= |s.sends| <= TXCONF_ATTEMPTS
    && s.done != [] && (ACK in s.done[0] <==> NACK !in s.done[0])
  }

  predicate Phase(m: Mac, s: Story, u: nat, d0: Dr) {
    if s.heard then Ended(s, u, d0) else Trying(m, s, u, d0)
  }

  lemma TellOne(s: Story, out: Out)
    ensures TellAll(s, []) == s && TellAll(s, [out]) == Tell(s, out)
  {
  }

  lemma {:induction false} TellTwo(s: Story, outs: seq<Out>, more: seq<Out>)
    ensures TellAll(s, outs + more) == TellAll(TellAll(s, outs), more)
    decreases |more|
  {
    if more == [] {
      assert outs + more == outs;
    } else {
      TellTwo(s, outs, more[..|more| - 1]);
      assert (outs + more)[..|outs + more| - 1] == outs + more[..|more| - 1];
    }
  }

  /** Once the application has heard something no more tries are told, and no completion is taken back. */
  lemma {:induction false} ToldEnough(s: Story, outs: seq<Out>)
    requires s.heard
    ensures var told := TellAll(s, outs); told.heard && told.sends == s.sends && s.done <= told.done
    decreases |outs|
  {
    if outs != [] {
      ToldEnough(s, outs[..|outs| - 1]);
    }
  }

  /** Without a report there is nothing new to hear. */
  lemma {:induction false} NothingNew(s: Story, outs: seq<Out>)
    requires s.heard && forall i :: 0 <= i < |outs| ==> !outs[i].Report?
    ensures TellAll(s, outs) == s
    decreases |outs|
  {
    if outs != [] {
      NothingNew(s, outs[..|outs| - 1]);
    }
  }

  // ---------------------------------------------------------------- one update

  /** One try goes out. */
  lemma TransmitSends(m: Mac, now: int)
    requires Working(m) && (m.txCnt == 0 ==> m.seqnoUp < 0xFFFF_FFFF)
    ensures var (m1, outs) := Transmit(m, now);
            && |outs| == 1 && outs[0].Sent? && Working(m1) && TXRXPEND in m1.opmode && m1.job == AwaitsData
            && m1.txCnt == (if m.txCnt == 0 then 1 else m.txCnt) && m1.datarate == m.datarate
            && m1.seqnoUp == (if m.txCnt == 0 then m.seqnoUp + 1 else m.seqnoUp)
            && outs[0].tx.seqno == m1.seqnoUp - 1 && outs[0].tx.confirmed && outs[0].tx.payload && !outs[0].tx.joining
            && outs[0].tx.dr == m.datarate && POLL !in m1.opmode
  {
    hide ComputedTicks, UpRps;
    assert CarriesPayload(m);
  }

  lemma OneMoreTry(sends: seq<Tx>, tx: Tx, u: nat, d0: Dr)
    requires TriesRight(sends, u, d0)
    requires tx.seqno == u && tx.confirmed && tx.payload && !tx.joining && tx.dr == RateAt(d0, |sends| + 1)
    ensures TriesRight(sends + [tx], u, d0)
  {
  }

  lemma TransmitTries(m: Mac, s: Story, u: nat, d0: Dr, now: int)
    requires Trying(m, s, u, d0) && TXRXPEND !in m.opmode
    ensures var (m1, outs) := Transmit(m, now);
            && |outs| == 1 && Trying(m1, Tell(s, outs[0]), u, d0)
            && m1.txCnt == (if m.txCnt == 0 then 1 else m.txCnt)
  {
    TransmitSends(m, now);
    hide Transmit, TriesRight, RateAt;
    var tx := Transmit(m, now).1[0].tx;
    FirstRates(d0);
    OneMoreTry(s.sends, tx, u, d0);
  }

  lemma FirstRates(d0: Dr)
    ensures RateAt(d0, 0) == d0 && RateAt(d0, 1) == d0
  {
  }

  lemma PlaceTries(m: Mac, s: Story, u: nat, d0: Dr, now: int)
    requires Trying(m, s, u, d0) && TXRXPEND !in m.opmode && PlaceFrame(m, now).Some?
    ensures var m1 := PlaceFrame(m, now).value;
            Trying(m1, s, u, d0) && TXRXPEND !in m1.opmode && m1.txCnt == m.txCnt
  {
    hide NextTx, TriesRight;
    PlacedProper(m, now);
  }

  lemma UpdateCases(m: Mac, now: int, luck: Luck)
    requires Working(m) && TXRXPEND !in m.opmode
    ensures var (m', outs) := EngineUpdate(m, now, luck);
            var placed := PlaceFrame(m, now);
            && (placed.None? ==> m' == m && outs == [Weighs(m, now)] + [Hangs])
            && (placed.Some? ==>
                  && Proper(placed.value)
                  && (S32(StartTime(placed.value) - (now + TX_RAMPUP)) < 0 ==>
                        && m' == Transmit(placed.value, now).0
                        && outs == [Weighs(m, now)] + Transmit(placed.value, now).1)
                  && (S32(StartTime(placed.value) - (now + TX_RAMPUP)) >= 0 ==>
                        && m' == placed.value
                        && outs == [Weighs(m, now)] + [Wake(StartTime(placed.value) - TX_RAMPUP)]))
  {
    hide Transmit, PlaceFrame, StartTime, S32;
    PlacedProper(m, now);
    assert TXDATA in m.opmode * {JOINING, REJOIN, TXDATA, POLL};
  }

  lemma TellPair(s: Story, a: Out, b: Out)
    requires a.Weighs?
    ensures TellAll(s, [a] + [b]) == Tell(s, b)
  {
    TellTwo(s, [a], [b]);
    TellOne(s, a);
    TellOne(s, b);
  }

  lemma UpdateTries(m: Mac, s: Story, u: nat, d0: Dr, now: int, luck: Luck)
    requires Trying(m, s, u, d0)
    ensures var (m1, outs) := EngineUpdate(m, now, luck);
            && Trying(m1, TellAll(s, outs), u, d0)
            && (m1.txCnt == m.txCnt || (m.txCnt == 0 && m1.txCnt == 1))
  {
    WorkingParts(m, s, u, d0);
    hide Trying, Transmit, PlaceFrame, StartTime, S32, TellAll;
    if TXRXPEND !in m.opmode {
      UpdateCases(m, now, luck);
      PlacedTries(m, s, u, d0, now);
      hide EngineUpdate, Tell;
    }
  }

  lemma PlacedTries(m: Mac, s: Story, u: nat, d0: Dr, now: int)
    requires Proper(m) && Trying(m, s, u, d0) && TXRXPEND !in m.opmode
    ensures PlaceFrame(m, now).None? ==> TellAll(s, [Weighs(m, now)] + [Hangs]) == s
    ensures PlaceFrame(m, now).Some? ==>
              var m1 := PlaceFrame(m, now).value;
              && Proper(m1) && Trying(m1, s, u, d0)
              && TellAll(s, [Weighs(m, now)] + [Wake(StartTime(m1) - TX_RAMPUP)]) == s
              && var (m2, outs) := Transmit(m1, now);
                 var s2 := TellAll(s, [Weighs(m, now)] + outs);
                 && Trying(m2, s2, u, d0)
                 && m1.txCnt == m.txCnt && (m2.txCnt == m.txCnt || (m.txCnt == 0 && m2.txCnt == 1))
  {
    PlacedProper(m, now);
    hide Working, Transmit, PlaceFrame, StartTime, TellAll;
    TellPair(s, Weighs(m, now), Hangs);
    if PlaceFrame(m, now).Some? {
      PlaceTries(m, s, u, d0, now);
      var m1 := PlaceFrame(m, now).value;
      TellPair(s, Weighs(m, now), Wake(StartTime(m1) - TX_RAMPUP));
      TransmitTries(m1, s, u, d0, now);
      var outs := Transmit(m1, now).1;
      assert outs == [outs[0]];
      TellPair(s, Weighs(m, now), outs[0]);
    }
  }

  lemma WorkingParts(m: Mac, s: Story, u: nat, d0: Dr)
    requires Trying(m, s, u, d0)
    ensures Working(m) && Proper(m) && TellAll(s, []) == s
  {
  }

  // ---------------------------------------------------------------- the windows are over

  lemma NeverReports(m: Mac, now: int, luck: Luck)
    requires Proper(m)
    ensures forall i :: 0 <= i < |EngineUpdate(m, now, luck).1| ==> !EngineUpdate(m, now, luck).1[i].Report?
  {
    hide ComputedTicks, UpRps, LowerDr, BuildDataFrame, UpdateTx, NextTx, S32, StartTime, PlaceFrame, DefaultBands,
         DefaultPlan, RndDelay;
    PlacedProper(m, now);
  }

  /** An event reported: the completion is added, if it is one, and nothing else. */
  lemma ReportTold(m: Mac, s: Story, ev: Ev, flags: set<Flag>, now: int, luck: Luck)
    requires Proper(m)
    ensures TellAll(s, ReportEvent(m, ev, flags, now, luck).1) == Tell(s, Report(ev, flags))
  {
    var outs := EngineUpdate(m, now, luck).1;
    NeverReports(m, now, luck);
    hide EngineUpdate, TellAll;
    TellTwo(s, [Report(ev, flags)], outs);
    TellOne(s, Report(ev, flags));
    NothingNew(Tell(s, Report(ev, flags)), outs);
  }

  lemma LinkTold(m: Mac, s: Story, flags: set<Flag>, now: int, luck: Luck)
    requires Proper(m) && s.heard
    ensures TellAll(s, CheckLink(m, flags, now, luck).1) == s
  {
    hide ReportEvent, TellAll;
    TellOne(s, Hangs);
    if m.adrAckReq > LINK_CHECK_DEAD {
      var m1 := SetDr(m, DecDr(m.datarate)).(adrAckReq := LINK_CHECK_CONT);
      ReportTold(m1.(opmode := m1.opmode + {REJOIN, LINKDEAD}), s, EV_LINK_DEAD, flags, now, luck);
    }
  }

  /** The end of a transaction is one completion, whatever else is reported with it. */
  lemma CompletionTold(m: Mac, s: Story, flags: set<Flag>, now: int, luck: Luck)
    requires Proper(m)
    ensures TellAll(s, TxComplete(m, flags, now, luck).1) == s.(heard := true, done := s.done + [flags])
  {
    hide ReportEvent, TellAll, CheckLink;
    var m1 := m.(opmode := m.opmode - {TXDATA, TXRXPEND}, job := Idle);
    var alive := flags * {DNW1, DNW2} != {} && LINKDEAD in m1.opmode;
    var m1' := m1.(opmode := m1.opmode - {LINKDEAD});
    var (m2, outs2) := if alive then ReportEvent(m1', EV_LINK_ALIVE, flags, now, luck) else (m1, []);
    var (m3, outs3) := ReportEvent(m2, EV_TXCOMPLETE, flags, now, luck);
    var outs4 := CheckLink(m3, flags, now, luck).1;
    TellTwo(s, outs2 + outs3, outs4);
    TellTwo(s, outs2, outs3);
    TellOne(s, Hangs);
    if alive {
      ReportTold(m1', s, EV_LINK_ALIVE, flags, now, luck);
    }
    ReportTold(m2, TellAll(s, outs2), EV_TXCOMPLETE, flags, now, luck);
    LinkTold(m3, s.(heard := true, done := s.done + [flags]), flags, now, luck);
  }

  lemma RetryTries(m: Mac, s: Story, u: nat, d0: Dr, rxtime: int, r: nat)
    requires Trying(m, s, u, d0) && TXRXPEND in m.opmode && m.txCnt < TXCONF_ATTEMPTS
    ensures Trying(Retried(m, rxtime, r), s, u, d0) && TXRXPEND !in Retried(m, rxtime, r).opmode
    ensures Retried(m, rxtime, r).txCnt == m.txCnt + 1
  {
    hide TriesRight, RndDelay, S32, LowerDr, DrAdjust;
    assert RateAt(d0, m.txCnt + 1) == LowerDr(RateAt(d0, m.txCnt), DrAdjust(m.txCnt + 1));
  }

  lemma AcceptFlags(m: Mac, f: Reception, now: int)
    requires Proper(m) && f.Frame? && Received(f) && m.txCnt != 0
    ensures var flags := Accept(m, f, now).1; (ACK in flags <==> f.ack) && (NACK in flags <==> !f.ack)
  {
    hide Obey;
  }

  /** An accepted frame ends the uplink, whether or not it acknowledges it. */
  lemma FrameEnds(m: Mac, s: Story, u: nat, d0: Dr, f: Reception, rxtime: int, now: int, luck: Luck)
    requires Trying(m, s, u, d0) && TXRXPEND in m.opmode && f.Frame? && Received(f)
    ensures var told := TellAll(s, ProcessDnData(m, f, rxtime, now, luck).1);
            told.sends == s.sends && Ended(told, u, d0) && told.done == [Accept(m, f, now).1]
              && (ACK in told.done[0] <==> f.ack)
  {
    hide TxComplete, TellAll, Accept, TriesRight, Working;
    WorkingProper(m);
    var (m1, flags) := Accept(m, f, now);
    AcceptFlags(m, f, now);
    CompletionTold(m1, s, flags, now, luck);
  }

  /** Nothing received and tries left: the uplink goes on. */
  lemma TriesAgain(m: Mac, s: Story, u: nat, d0: Dr, rxtime: int, now: int, luck: Luck)
    requires Trying(m, s, u, d0) && TXRXPEND in m.opmode && m.txCnt < TXCONF_ATTEMPTS
    ensures var (m1, outs) := ProcessDnData(m, Nothing, rxtime, now, luck);
            Trying(m1, TellAll(s, outs), u, d0) && m1.txCnt == m.txCnt + 1
  {
    WorkingParts(m, s, u, d0);
    RetryTries(m, s, u, d0, rxtime, luck.r);
    UpdateTries(Retried(m, rxtime, luck.r), s, u, d0, now, luck);
    hide EngineUpdate, TellAll, TxDelay, SetDr, TriesRight, Working, RateAt, LowerDr;
  }

  /** Nothing received after the last try: the uplink has failed. */
  lemma GivesUp(m: Mac, s: Story, u: nat, d0: Dr, rxtime: int, now: int, luck: Luck)
    requires Trying(m, s, u, d0) && TXRXPEND in m.opmode && m.txCnt == TXCONF_ATTEMPTS
    ensures var told := TellAll(s, ProcessDnData(m, Nothing, rxtime, now, luck).1);
            told == Story(s.sends, true, [{NACK, NOPORT}]) && |s.sends| == TXCONF_ATTEMPTS && Ended(told, u, d0)
  {
    hide TxComplete, TellAll, TriesRight, Working;
    WorkingProper(m);
    CompletionTold(Lonelier(m), s, {NACK, NOPORT}, now, luck);
  }

  lemma WorkingProper(m: Mac)
    requires Working(m)
    ensures Proper(m)
  {
  }

  // ---------------------------------------------------------------- the whole uplink

  /** Data is handed over, and from then on there are only timers and receive windows. */
  ghost predicate Uplink(states: seq<Mac>, events: seq<Event>) {
    && IsRun(states, events) && events != [] && HandsOver(states[0], events[0])
    && forall i :: 1 <= i < |events| ==> Undisturbed(events[i])
  }

  /** How many of the first n events closed the receive windows. */
  function WindowsClosed(events: seq<Event>, n: nat): nat
    requires n <= |events|
  {
    if n == 0 then 0 else WindowsClosed(events, n - 1) + if events[n - 1].WindowsOver? then 1 else 0
  }

  ghost function StoryOf(states: seq<Mac>, events: seq<Event>, n: nat): Story
    requires IsRun(states, events) && n <= |events|
  {
    TellAll(NOTHING_YET, Outputs(states, events, n))
  }

  lemma StepTries(m: Mac, s: Story, u: nat, d0: Dr, e: Event)
    requires Phase(m, s, u, d0) && Proper(m) && Possible(m, e) && Undisturbed(e)
    ensures var (m1, outs) := Step(m, e);
            var told := TellAll(s, outs);
            && Phase(m1, told, u, d0) && s.done <= told.done
            && (!told.heard ==>
                  && !s.heard && (e.WindowsOver? ==> e.f.Nothing? && m.txCnt > 0)
                  && (if e.WindowsOver? then m1.txCnt == m.txCnt + 1
                      else m1.txCnt == m.txCnt || (m.txCnt == 0 && m1.txCnt == 1)))
            && (!s.heard && told.heard ==>
                  && e.WindowsOver? && told.sends == s.sends && |told.done| == 1
                  && (ACK in told.done[0] <==> e.f.Frame? && e.f.ack)
                  && (e.f.Nothing? ==> |s.sends| == TXCONF_ATTEMPTS))
  {
    hide EngineUpdate, ProcessDnData, TellAll, TriesRight, Working, Trying;
    var (m1, outs) := Step(m, e);
    if s.heard {
      ToldEnough(s, outs);
    } else if e.Timer? {
      UpdateTries(m, s, u, d0, e.now, e.luck);
      TryingParts(m, s, u, d0);
      TryingParts(m1, TellAll(s, outs), u, d0);
    } else {
      TryingParts(m, s, u, d0);
      if e.f.Frame? {
        FrameEnds(m, s, u, d0, e.f, e.rxtime, e.now, e.luck);
      } else if m.txCnt < TXCONF_ATTEMPTS {
        TriesAgain(m, s, u, d0, e.rxtime, e.now, e.luck);
        TryingParts(m1, TellAll(s, outs), u, d0);
      } else {
        GivesUp(m, s, u, d0, e.rxtime, e.now, e.luck);
      }
    }
  }

  lemma TryingParts(m: Mac, s: Story, u: nat, d0: Dr)
    requires Trying(m, s, u, d0)
    ensures !s.heard && s.done == [] && m.txCnt <= TXCONF_ATTEMPTS
    ensures TXRXPEND in m.opmode ==> m.txCnt == |s.sends| && 1 <= m.txCnt && POLL !in m.opmode
  {
  }

  /** While the uplink goes on, each closing of the windows has cost one try. */
  ghost predicate OnCourse(states: seq<Mac>, events: seq<Event>, n: nat, u: nat, d0: Dr)
    requires IsRun(states, events) && n <= |events|
  {
    var s := StoryOf(states, events, n);
    && Phase(states[n], s, u, d0)
    && (!s.heard ==>
        UnheardUntil(events, n) && WindowsClosed(events, n) == if states[n].txCnt == 0 then 0 else states[n].txCnt - 1)
    && (s.heard && NACK in s.done[0] && UnheardUntil(events, n) ==> |s.sends| == TXCONF_ATTEMPTS)
  }

  /** None of the first n events brought a frame. */
  predicate UnheardUntil(events: seq<Event>, n: nat)
    requires n <= |events|
  {
    forall i :: 0 <= i < n && events[i].WindowsOver? ==> events[i].f.Nothing?
  }

  /** The hand-over begins the uplink; its first try may go out at once. */
  lemma HandedOver(m: Mac, e: Event)
    requires HandsOver(m, e)
    ensures Trying(Step(m, e).0, TellAll(NOTHING_YET, Step(m, e).1), m.seqnoUp, m.datarate) && Step(m, e).0.txCnt <= 1
  {
    FirstRates(m.datarate);
    StoredTries(m, e);
    UpdateTries(Stored(m, e.len, e.confirmed), NOTHING_YET, m.seqnoUp, m.datarate, e.now, e.luck);
    hide EngineUpdate, TellAll, Trying;
  }

  lemma StoredTries(m: Mac, e: Event)
    requires HandsOver(m, e) && RateAt(m.datarate, 0) == m.datarate
    ensures Trying(Stored(m, e.len, e.confirmed), NOTHING_YET, m.seqnoUp, m.datarate)
  {
    hide RateAt;
  }

  lemma {:induction false} StaysOnCourse(states: seq<Mac>, events: seq<Event>, n: nat)
    requires Uplink(states, events) && 1 <= n <= |events|
    ensures OnCourse(states, events, n, states[0].seqnoUp, states[0].datarate)
  {
    hide Step, Possible, Phase, TellAll, HandsOver, Undisturbed;
    var u, d0 := states[0].seqnoUp, states[0].datarate;
    if n == 1 {
      StartsOnCourse(states, events);
    } else {
      StaysOnCourse(states, events, n - 1);
      var m, e, s := states[n - 1], events[n - 1], StoryOf(states, events, n - 1);
      StepTries(m, s, u, d0, e);
      TellTwo(NOTHING_YET, Outputs(states, events, n - 1), Step(m, e).1);
      ToldKept(s, m, e);
      PhaseEnded(m, s, u, d0);
      PhaseEnded(states[n], StoryOf(states, events, n), u, d0);
    }
  }

  lemma StartsOnCourse(states: seq<Mac>, events: seq<Event>)
    requires Uplink(states, events)
    ensures OnCourse(states, events, 1, states[0].seqnoUp, states[0].datarate)
  {
    hide Step, Trying, TellAll, HandsOver, Possible, Undisturbed;
    HandedOver(states[0], events[0]);
    assert Outputs(states, events, 1) == Outputs(states, events, 0) + Step(states[0], events[0]).1
           == Step(states[0], events[0]).1;
    TryingParts(states[1], StoryOf(states, events, 1), states[0].seqnoUp, states[0].datarate);
    HandedFacts(states[0], events[0]);
    assert WindowsClosed(events, 1) == WindowsClosed(events, 0) == 0;
  }

  lemma HandedFacts(m: Mac, e: Event)
    requires HandsOver(m, e)
    ensures e.SetTxData?
  {
  }

  lemma ToldKept(s: Story, m: Mac, e: Event)
    requires Proper(m) && Possible(m, e)
    ensures s.heard ==> TellAll(s, Step(m, e).1).sends == s.sends && TellAll(s, Step(m, e).1).heard
  {
    if s.heard {
      ToldEnough(s, Step(m, e).1);
    }
  }

  lemma PhaseEnded(m: Mac, s: Story, u: nat, d0: Dr)
    requires Phase(m, s, u, d0)
    ensures s.heard ==> Ended(s, u, d0)
    ensures !s.heard ==> m.txCnt <= TXCONF_ATTEMPTS && s.done == []
  {
  }

  lemma Lowered(dr: Dr, n: nat)
    requires n <= 1
    ensures LowerDr(dr, n) == if n == 1 && dr > 0 then dr - 1 else dr
  {
  }

  lemma RateFloor(d0: Dr, n: nat)
    requires 1 <= n <= TXCONF_ATTEMPTS
    ensures RateAt(d0, n) == var steps := (n - 1) / 2; if d0 >= steps then d0 - steps else 0
    decreases n
  {
    if n > 1 {
      RateFloor(d0, n - 1);
      Lowered(RateAt(d0, n - 1), DrAdjust(n));
    }
  }

  /**
   A confirmed uplink is tried at most eight times, always under the same number, at rates
   that fall by one at every second retry but not below the slowest; it ends with a report
   flagged either acknowledged or not, at the latest when the windows have closed eight times.
   */
  lemma ConfirmedUplink(states: seq<Mac>, events: seq<Event>)
    requires Uplink(states, events)
    ensures var s := StoryOf(states, events, |events|);
            && |s.sends| <= TXCONF_ATTEMPTS && AllTries(s.sends, states[0].seqnoUp, states[0].datarate)
            && (s.done != [] ==> |s.sends| >= 1 && (ACK in s.done[0] <==> NACK !in s.done[0]))
            && (s.done != [] && NACK in s.done[0] && UnheardUntil(events, |events|) ==> |s.sends| == TXCONF_ATTEMPTS)
            && (WindowsClosed(events, |events|) >= TXCONF_ATTEMPTS ==> s.done != [])
  {
    StaysOnCourse(states, events, |events|);
    hide StoryOf, Phase, WindowsClosed, AllTries, UnheardUntil;
    StoryFacts(states[|events|], StoryOf(states, events, |events|), states[0].seqnoUp, states[0].datarate);
  }

  /** The tries share the number u; the rate falls from d0 by one at every second retry. */
  predicate AllTries(sends: seq<Tx>, u: nat, d0: Dr) {
    forall k :: 0 <= k < |sends| ==>
      && sends[k].seqno == u && sends[k].confirmed && sends[k].payload
      && sends[k].dr == if d0 >= k / 2 then d0 - k / 2 else 0
  }

  lemma StoryFacts(m: Mac, s: Story, u: nat, d0: Dr)
    requires Phase(m, s, u, d0)
    ensures |s.sends| <= TXCONF_ATTEMPTS && AllTries(s.sends, u, d0) && (s.heard <==> s.done != [])
    ensures s.done != [] ==> |s.sends| >= 1 && (ACK in s.done[0] <==> NACK !in s.done[0])
    ensures s.done == [] ==> m.txCnt <= TXCONF_ATTEMPTS
  {
    hide Working, RateAt;
    forall k | 0 <= k < |s.sends|
      ensures s.sends[k].dr == if d0 >= k / 2 then d0 - k / 2 else 0
    {
      RateFloor(d0, k + 1);
    }
  }
}
