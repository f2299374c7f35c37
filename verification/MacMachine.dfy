/**
 The class A part of the LMIC engine as a state machine on values: engineUpdate and what
 drives it, with the radio's and the application's side as inputs. Times are unbounded;
 comparisons are the code's signed 32-bit differences. The operation mode is a set of flags.
 */
module MacMachine {
  import opened Common
  import opened Ticks
  import opened Channels
  import opened Airtime
  import DownCounter

  const TX_RAMPUP := 125
  const DNW2_SAFETY_ZONE := 187500
  const TXCONF_ATTEMPTS := 8
  const MAX_LEN_FRAME := 64
  const OFF_DAT_OPTS := 8
  const LEN_JR := 23
  const LINK_CHECK_DEAD := 24
  const LINK_CHECK_CONT := 12
  const LINK_CHECK_INIT := -12
  const LINK_CHECK_OFF := -128
  const BAND_MILLI := 0
  const BAND_CENTI := 1
  const DR_SF12: Dr := 0
  const DR_SF7: Dr := 5

  type Dr = x: int | 0 <= x < 8
  type Cr = x: int | 0 <= x < 4

  datatype Op = JOINING | TXDATA | POLL | REJOIN | SHUTDOWN | TXRXPEND | RNDTX | NEXTCHNL | LINKDEAD

  datatype Flag = ACK | NACK | NOPORT | PORT | DNW1 | DNW2

  datatype Ev = EV_JOINED | EV_REJOIN_FAILED | EV_TXCOMPLETE | EV_LINK_DEAD | EV_LINK_ALIVE | EV_RESET

  /** What the pending transaction waits for: the callback left in osjob. */
  datatype Job = Idle | AwaitsData | AwaitsJoin

  datatype Mac = Mac(opmode: set<Op>, joined: bool, job: Job,
                     bands: seq<Band>, plan: Plan, txChnl: nat, txend: int,
                     datarate: Dr, errcr: Cr, rejoinCnt: nat, globalDutyRate: nat, globalDutyAvail: int,
                     seqnoUp: nat, seqnoDn: nat, txCnt: nat, adrAckReq: int, adrChanged: bool, dnConf: bool,
                     pendTxConf: bool, pendTxLen: nat, pendOpts: nat)

  /** Tables of the right size, indices within them. */
  predicate Proper(m: Mac) {
    WellFormed(m.bands, m.plan) && m.txChnl < MAX_CHANNELS && m.pendOpts <= 15
  }

  type Modem = r: Rps | Legal(r) witness Fsk

  /** A frame on the air: when, in which band of what duty cycle, with what modulation and length. */
  datatype Tx = Tx(at: int, band: nat, txcap: nat, rps: Modem, flen: u1,
                   dr: Dr, seqno: int, joining: bool, confirmed: bool, payload: bool)

  /** For how long a frame blocks its band. */
  function Block(tx: Tx): int {
    ComputedTicks(tx.rps, tx.flen) * tx.txcap
  }

  /**
   What the engine does: it weighs sending in some state, backs off after a failed join
   given the band's time, sends, reports, sets its timer, starts afresh with new bands,
   gives up at counter roll-over, or never returns.
   */
  datatype Out =
    | Weighs(m: Mac, now: int)
    | BacksOff(avail: int, now: int)
    | Sent(tx: Tx)
    | Report(ev: Ev, flags: set<Flag>)
    | Wake(at: int)
    | Restarted
    | Resets
    | Hangs

  // ---------------------------------------------------------------- data rates

  /** updr2rps with the error coding rate set. */
  function UpRps(dr: Dr, errcr: Cr): Modem {
    if dr == 7 then Fsk else if dr == 6 then Lora(7, 1, errcr, false, false) else Lora(12 - dr, 0, errcr, false, false)
  }

  function DecDr(dr: Dr): Dr {
    if dr == 0 then dr else dr - 1
  }

  function LowerDr(dr: Dr, n: nat): Dr
    decreases n
  {
    if n == 0 then dr else LowerDr(DecDr(dr), n - 1)
  }

  /** DRADJUST: steps to lower the data rate, by retry count. */
  function DrAdjust(txCnt: nat): nat {
    if txCnt in {3, 5, 7} then 1 else 0
  }

  function SetDr(m: Mac, dr: Dr): (r: Mac)
    ensures Proper(m) ==> Proper(r)
  {
    if m.datarate != dr then m.(datarate := dr, opmode := m.opmode + {NEXTCHNL}) else m
  }

  // ---------------------------------------------------------------- channels

  function RateSet(): set<nat> {
    {0, 1, 2, 3, 4, 5}
  }

  /** initDefaultChannels: three channels, of band MILLI for joining and CENTI otherwise. */
  function DefaultPlan(join: bool): Plan {
    var b := if join then BAND_MILLI else BAND_CENTI;
    Plan([b, b, b] + Zeros(13), [RateSet(), RateSet(), RateSet()] + Empties(13), {0, 1, 2})
  }

  function Zeros(n: nat): (r: seq<nat>)
    ensures |r| == n && forall i :: 0 <= i < n ==> r[i] == 0
  {
    if n == 0 then [] else [0] + Zeros(n - 1)
  }

  function Empties(n: nat): (r: seq<set<nat>>)
    ensures |r| == n && forall i :: 0 <= i < n ==> r[i] == {}
  {
    if n == 0 then [] else [{}] + Empties(n - 1)
  }

  /** Random choices: the first channel, each band's last channel, and a 16-bit number for delays. */
  datatype Luck = Luck(channel: nat, last0: nat, last1: nat, last2: nat, r: nat)

  function DefaultBands(luck: Luck, now: int): seq<Band> {
    [Band(1000, luck.last0 % MAX_CHANNELS, now), Band(100, luck.last1 % MAX_CHANNELS, now),
     Band(10, luck.last2 % MAX_CHANNELS, now), Band(0, 0, 0)]
  }

  function RndDelay(r: nat, secSpan: nat): nat {
    (if r > 62500 then r % 62500 else r) + (if secSpan > 0 then r % 256 % secSpan * 62500 else 0)
  }

  function TxDelay(m: Mac, reftime: int, secSpan: nat, r: nat): (m': Mac)
    ensures Proper(m) ==> Proper(m')
  {
    var t := reftime + RndDelay(r, secSpan);
    if m.globalDutyRate == 0 || S32(t - m.globalDutyAvail) > 0 then
      m.(globalDutyAvail := t, opmode := m.opmode + {RNDTX})
    else m
  }

  // ---------------------------------------------------------------- sending

  function Shl(x: int, n: nat): int {
    x * Pow2(n)
  }

  /** updateTx: what the frame costs its band and the device. */
  function UpdateTx(m: Mac, txbeg: int, rps: Modem, dataLen: u1): (r: Mac)
    requires Proper(m)
    ensures Proper(r)
  {
    var airtime, b := ComputedTicks(rps, dataLen), m.plan.band[m.txChnl];
    m.(bands := m.bands[b := m.bands[b].(avail := txbeg + airtime * m.bands[b].txcap)],
       globalDutyAvail := if m.globalDutyRate != 0 then txbeg + Shl(airtime, m.globalDutyRate) else m.globalDutyAvail)
  }

  /** Whether the frame carries the payload: there is one to send, and it fits beside the options. */
  predicate CarriesPayload(m: Mac) {
    (TXDATA in m.opmode || POLL !in m.opmode) && OFF_DAT_OPTS + m.pendOpts + 5 + m.pendTxLen <= MAX_LEN_FRAME
  }

  /** buildDataFrame: the state after, the frame's length, and whether it is confirmed. */
  function BuildDataFrame(m: Mac): (Mac, int, bool) {
    var payload := CarriesPayload(m);
    var flen := OFF_DAT_OPTS + m.pendOpts + if payload then 5 + m.pendTxLen else 4;
    var m1 := m.(pendOpts := 0, dnConf := false, adrChanged := false,
                 adrAckReq := if m.adrChanged && m.adrAckReq < 0 then 0 else m.adrAckReq,
                 seqnoUp := if m.txCnt == 0 then m.seqnoUp + 1 else m.seqnoUp);
    var confirmed := payload && m.pendTxConf;
    (if confirmed && m.txCnt == 0 then m1.(txCnt := 1) else m1, flen, confirmed)
  }

  /** The part of engineUpdate that sends, at time now. */
  function Transmit(m: Mac, now: int): (r: (Mac, seq<Out>))
    requires Proper(m)
    ensures Proper(r.0)
  {
    var joining := JOINING in m.opmode || REJOIN in m.opmode;
    if joining then
      var dr := if REJOIN in m.opmode then LowerDr(m.datarate, m.rejoinCnt) else m.datarate;
      SendFrame(m.(job := AwaitsJoin), now, dr, LEN_JR, true, false, false)
    else if m.seqnoDn >= 0xFFFF_FF80 || (m.txCnt == 0 && m.seqnoUp == 0xFFFF_FFFF) then (m, [Resets])
    else
      var (m1, flen, confirmed) := BuildDataFrame(m);
      SendFrame(m1.(job := AwaitsData), now, m.datarate, flen, false, confirmed, CarriesPayload(m))
  }

  function SendFrame(m: Mac, now: int, dr: Dr, flen: u1, joining: bool, confirmed: bool, payload: bool)
    : (r: (Mac, seq<Out>))
    requires Proper(m)
    ensures Proper(r.0)
  {
    var m1 := m.(opmode := m.opmode - {POLL, RNDTX} + {TXRXPEND, NEXTCHNL});
    var b, rps := m.plan.band[m.txChnl], UpRps(dr, m.errcr);
    (UpdateTx(m1, now, rps, flen),
     [Sent(Tx(now, b, m.bands[b].txcap, rps, flen, dr, m.seqnoUp - 1, joining, confirmed, payload))])
  }

  // ---------------------------------------------------------------- engineUpdate

  /** LMIC_startJoining with initJoinLoop. */
  function StartJoining(m: Mac, now: int, luck: Luck): (r: (Mac, seq<Out>))
    requires Proper(m)
    ensures Proper(r.0)
  {
    (m.(globalDutyRate := 0, opmode := m.opmode - {REJOIN, LINKDEAD, NEXTCHNL} + {JOINING},
        rejoinCnt := 0, txCnt := 0, txChnl := luck.channel % 3, datarate := DR_SF7,
        bands := DefaultBands(luck, now), plan := DefaultPlan(true), txend := now + RndDelay(luck.r, 8)),
     [Restarted, Wake(now)])
  }

  /** Where and when to send: a new channel if one is asked for, otherwise the one already chosen. */
  function PlaceFrame(m: Mac, now: int): Option<Mac>
    requires Proper(m)
  {
    if NEXTCHNL !in m.opmode then Some(m)
    else
      var m1 := m.(opmode := m.opmode - {NEXTCHNL});
      match NextTx(m.bands, m.plan, m.datarate, now)
      case Stall => None
      case NoChannel(time) => Some(m1.(txend := time))
      case Found(time, b, c) =>
        if b < 4 then Some(m1.(txend := time, txChnl := c, bands := m.bands[b := m.bands[b].(lastchnl := c)])) else None
  }

  lemma PlacedProper(m: Mac, now: int)
    requires Proper(m)
    ensures PlaceFrame(m, now).Some? ==> Proper(PlaceFrame(m, now).value)
  {
    hide NextTx, Usable, Pick;
    NextTxRight(m.bands, m.plan, m.datarate, now);
  }

  /** The earliest start: after the channel's time, and after the device's own delay if there is one. */
  function StartTime(m: Mac): int {
    if (m.globalDutyRate != 0 || RNDTX in m.opmode) && S32(m.txend - m.globalDutyAvail) < 0
    then m.globalDutyAvail else m.txend
  }

  function EngineUpdate(m: Mac, now: int, luck: Luck): (r: (Mac, seq<Out>))
    requires Proper(m)
    ensures Proper(r.0)
  {
    if TXRXPEND in m.opmode || SHUTDOWN in m.opmode then (m, [])
    else if !m.joined && JOINING !in m.opmode then StartJoining(m, now, luck)
    else if m.opmode * {JOINING, REJOIN, TXDATA, POLL} == {} then (m, [])
    else
      PlacedProper(m, now);
      match PlaceFrame(m, now)
      case None => (m, [Weighs(m, now), Hangs])
      case Some(m1) =>
        var txbeg := StartTime(m1);
        if S32(txbeg - (now + TX_RAMPUP)) < 0 then
          var (m2, outs) := Transmit(m1, now);
          (m2, [Weighs(m, now)] + outs)
        else (m1, [Weighs(m, now), Wake(txbeg - TX_RAMPUP)])
  }

  /** reportEvent: the application is told, then the engine decides what is next. */
  function ReportEvent(m: Mac, ev: Ev, flags: set<Flag>, now: int, luck: Luck): (r: (Mac, seq<Out>))
    requires Proper(m)
    ensures Proper(r.0)
  {
    var (m1, outs) := EngineUpdate(m, now, luck);
    (m1, [Report(ev, flags)] + outs)
  }

  // ---------------------------------------------------------------- after a transmission

  /**
   What the MAC commands of an accepted frame change: the channels, the data rate, the
   device's duty cycle (255 shuts it down), whether an ADR request came, and the length of the answers.
   */
  datatype Commands = Commands(plan: Plan, dr: Option<Dr>, duty: Option<nat>, adr: bool, answers: nat)

  /** What the receive windows brought: nothing usable, or an accepted frame. */
  datatype Reception =
    | Nothing
    | Frame(window: Flag, ack: bool, confirmed: bool, more: bool, port: bool, seqnoDn: nat, commands: Commands)

  predicate Plausible(c: Commands) {
    |c.plan.band| == |c.plan.drMap| == MAX_CHANNELS && (forall i :: 0 <= i < MAX_CHANNELS ==> c.plan.band[i] < 4)
      && c.answers <= 15
  }

  predicate Received(f: Reception) {
    f.Frame? ==> Plausible(f.commands) && f.window in {DNW1, DNW2}
  }

  /** The MAC commands of a frame, carried out. */
  function Obey(m: Mac, c: Commands, now: int): (r: Mac)
    requires Proper(m) && Plausible(c)
    ensures Proper(r) && r.txCnt == m.txCnt
  {
    var m1 := m.(plan := c.plan, pendOpts := c.answers, adrChanged := c.adr,
                 opmode := if c.duty == Some(0xFF) then m.opmode + {SHUTDOWN} else m.opmode,
                 globalDutyRate := if c.duty.Some? then c.duty.value % 16 else m.globalDutyRate,
                 globalDutyAvail := if c.duty.Some? then now else m.globalDutyAvail);
    if c.dr.Some? then SetDr(m1, c.dr.value) else m1
  }

  /** The counters and requests after an accepted frame: an answer is owed if it was confirmed or there is more. */
  function Noted(m: Mac, f: Reception): (m': Mac)
    requires f.Frame?
    ensures Proper(m) ==> Proper(m')
  {
    m.(seqnoDn := f.seqnoDn, dnConf := f.confirmed, rejoinCnt := 0,
       opmode := if f.confirmed || f.more then m.opmode + {POLL} else m.opmode,
       adrAckReq := if m.adrAckReq != LINK_CHECK_OFF then LINK_CHECK_INIT else m.adrAckReq)
  }

  /** decodeFrame on an accepted frame. */
  function Accept(m: Mac, f: Reception, now: int): (r: (Mac, set<Flag>))
    requires Proper(m) && f.Frame? && Received(f)
    ensures Proper(r.0)
  {
    var heard := if m.txCnt != 0 then {f.window, if f.ack then ACK else NACK} else {f.window};
    (Obey(Noted(m, f), f.commands, now), heard + {if f.port then PORT else NOPORT})
  }

  /** From txcomplete on: the transaction is over and the application hears of it. */
  function TxComplete(m: Mac, flags: set<Flag>, now: int, luck: Luck): (r: (Mac, seq<Out>))
    requires Proper(m)
    ensures Proper(r.0)
  {
    var m1 := m.(opmode := m.opmode - {TXDATA, TXRXPEND}, job := Idle);
    var (m2, outs2) := if flags * {DNW1, DNW2} != {} && LINKDEAD in m1.opmode
                       then ReportEvent(m1.(opmode := m1.opmode - {LINKDEAD}), EV_LINK_ALIVE, flags, now, luck)
                       else (m1, []);
    var (m3, outs3) := ReportEvent(m2, EV_TXCOMPLETE, flags, now, luck);
    var (m4, outs4) := CheckLink(m3, flags, now, luck);
    (m4, outs2 + outs3 + outs4)
  }

  /** A network not heard for long makes the link dead: slower, and asking for other networks. */
  function CheckLink(m: Mac, flags: set<Flag>, now: int, luck: Luck): (r: (Mac, seq<Out>))
    requires Proper(m)
    ensures Proper(r.0)
  {
    if m.adrAckReq > LINK_CHECK_DEAD then
      var m1 := SetDr(m, DecDr(m.datarate)).(adrAckReq := LINK_CHECK_CONT);
      ReportEvent(m1.(opmode := m1.opmode + {REJOIN, LINKDEAD}), EV_LINK_DEAD, flags, now, luck)
    else (m, [])
  }

  /** What the retry changes before the engine is asked again. */
  function Retried(m: Mac, rxtime: int, r: nat): (m': Mac)
    ensures Proper(m) ==> Proper(m')
  {
    var m1 := m.(txCnt := m.txCnt + 1);
    var m2 := TxDelay(SetDr(m1, LowerDr(m.datarate, DrAdjust(m1.txCnt))), rxtime, 3, r);
    m2.(opmode := m2.opmode - {TXRXPEND}, job := Idle)
  }

  /** One more transaction without a word from the network. */
  function Lonelier(m: Mac): (m': Mac)
    ensures Proper(m) ==> Proper(m')
  {
    m.(adrAckReq := if m.adrAckReq != LINK_CHECK_OFF then m.adrAckReq + 1 else m.adrAckReq)
  }

  /** processDnData, called when a data transaction is pending; rxtime is when the windows ended. */
  function ProcessDnData(m: Mac, f: Reception, rxtime: int, now: int, luck: Luck): (r: (Mac, seq<Out>))
    requires Proper(m) && Received(f)
    ensures Proper(r.0)
  {
    match f
    case Frame(_, _, _, _, _, _, _) =>
      var (m1, flags) := Accept(m, f, now);
      TxComplete(m1, flags, now, luck)
    case Nothing =>
      if 0 < m.txCnt < TXCONF_ATTEMPTS then
        EngineUpdate(Retried(m, rxtime, luck.r), now, luck)
      else
        TxComplete(Lonelier(m), if m.txCnt != 0 then {NACK, NOPORT} else {NOPORT}, now, luck)
  }

  /** nextJoinState: the next join channel, every second time at a lower data rate. */
  function NextJoinState(m: Mac, now: int, r: nat): Mac
    requires Proper(m)
  {
    var lower := (m.txCnt + 1) % 2 == 0 && m.datarate != DR_SF12;
    var time := if S32(now - m.bands[BAND_MILLI].avail) < 0 then m.bands[BAND_MILLI].avail else now;
    var dr := if lower then DecDr(m.datarate) else m.datarate;
    m.(txChnl := if m.txChnl + 1 == 3 then 0 else m.txChnl + 1, txCnt := m.txCnt + 1, datarate := dr,
       opmode := m.opmode - {NEXTCHNL}, txend := time + DNW2_SAFETY_ZONE + RndDelay(r, 255 / Pow2(dr)))
  }

  /** A join accept that passed its checks: the channels it adds to the default ones. */
  datatype JoinAnswer = Unanswered | Accepted(plan: Plan)

  predicate AddsToDefault(plan: Plan) {
    |plan.band| == |plan.drMap| == MAX_CHANNELS && forall i :: 0 <= i < MAX_CHANNELS ==> plan.band[i] < 4
  }

  /** processJoinAccept, called when a join transaction is pending. */
  function ProcessJoinAccept(m: Mac, answer: JoinAnswer, now: int, luck: Luck): (r: (Mac, seq<Out>))
    requires Proper(m) && (answer.Accepted? ==> AddsToDefault(answer.plan))
    requires JOINING in m.opmode ==> m.txChnl < 3
    ensures Proper(r.0)
  {
    match answer
    case Unanswered =>
      if JOINING !in m.opmode then
        ReportEvent(m.(opmode := m.opmode - {REJOIN, TXRXPEND}, job := Idle,
                       rejoinCnt := if m.rejoinCnt < 10 then m.rejoinCnt + 1 else m.rejoinCnt),
                  EV_REJOIN_FAILED, {}, now, luck)
      else
        (NextJoinState(m.(opmode := m.opmode - {TXRXPEND}, job := Idle), now, luck.r),
         [BacksOff(m.bands[BAND_MILLI].avail, now), Wake(now)])
    case Accepted(plan) =>
      var (m2, outs) := ReportEvent(Joined(m, plan, now, luck), EV_JOINED, {}, now, luck);
      (m2, [Restarted] + outs)
  }

  /** The state in which a new session is reported. */
  function Joined(m: Mac, plan: Plan, now: int, luck: Luck): (r: Mac)
    requires Proper(m) && AddsToDefault(plan)
    ensures Proper(r)
  {
    m.(joined := true, job := Idle, bands := DefaultBands(luck, now), plan := plan,
       datarate := if REJOIN in m.opmode then LowerDr(m.datarate, m.rejoinCnt) else m.datarate,
       opmode := m.opmode - {JOINING, REJOIN, TXRXPEND},
       txCnt := 0, seqnoDn := 0, seqnoUp := 0, rejoinCnt := 0, dnConf := false, adrChanged := false, pendOpts := 0,
       adrAckReq := LINK_CHECK_INIT)
  }

  /** LMIC_reset: everything cleared, no session. */
  function Fresh(): Mac {
    Mac({}, false, Idle, [Band(0, 0, 0), Band(0, 0, 0), Band(0, 0, 0), Band(0, 0, 0)], Plan(Zeros(16), Empties(16), {}),
        0, 0, DR_SF12, 0, 0, 0, 0, 0, 0, 0, 0, false, false, false, 0, 0)
  }

  // ---------------------------------------------------------------- everything that can happen

  datatype Event =
    | Timer(now: int, luck: Luck)
    | SetTxData(len: nat, confirmed: bool, now: int, luck: Luck)
    | SendAlive(now: int, luck: Luck)
    | TryRejoin(now: int, luck: Luck)
    | ChangeRate(dr: Dr)
    | ClearTxData(now: int, luck: Luck)
    | WindowsOver(f: Reception, rxtime: int, now: int, luck: Luck)
    | JoinOver(answer: JoinAnswer, now: int, luck: Luck)
    | RunReset(now: int, luck: Luck)

  /** What an event may bring: frames and accepts that passed their checks, and the downlink counter after them. */
  predicate Possible(m: Mac, e: Event) {
    match e
    case WindowsOver(f, _, _, _) =>
      && TXRXPEND in m.opmode && m.job == AwaitsData && Received(f)
      && (f.Frame? ==> DownCounter.MayFollow(m.seqnoDn, f.seqnoDn))
    case JoinOver(answer, _, _) =>
      && TXRXPEND in m.opmode && m.job == AwaitsJoin
      && (answer.Accepted? ==> AddsToDefault(answer.plan))
      && (JOINING in m.opmode ==> m.txChnl < 3)
    case _ => true
  }

  function Step(m: Mac, e: Event): (r: (Mac, seq<Out>))
    requires Proper(m) && Possible(m, e)
    ensures Proper(r.0)
  {
    match e
    case Timer(now, luck) => EngineUpdate(m, now, luck)
    case SetTxData(len, confirmed, now, luck) =>
      EngineUpdate(m.(pendTxLen := len, pendTxConf := confirmed, opmode := m.opmode + {TXDATA},
                      txCnt := if JOINING in m.opmode then m.txCnt else 0), now, luck)
    case SendAlive(now, luck) => EngineUpdate(m.(opmode := m.opmode + {POLL}), now, luck)
    case TryRejoin(now, luck) => EngineUpdate(m.(opmode := m.opmode + {REJOIN}), now, luck)
    case ChangeRate(dr) => (SetDr(m, dr), [])
    case ClearTxData(now, luck) =>
      var m1 := m.(opmode := m.opmode - {TXDATA, TXRXPEND, POLL}, pendTxLen := 0);
      if JOINING in m.opmode then (m1, []) else EngineUpdate(m1.(job := Idle), now, luck)
    case WindowsOver(f, rxtime, now, luck) => ProcessDnData(m, f, rxtime, now, luck)
    case JoinOver(answer, now, luck) => ProcessJoinAccept(m, answer, now, luck)
    case RunReset(now, luck) =>
      var (m1, outs) := StartJoining(Fresh(), now, luck);
      var (m2, more) := ReportEvent(m1, EV_RESET, {}, now, luck);
      (m2, outs + more)
  }
}
