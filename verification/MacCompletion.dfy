/**
 How often a confirmed uplink is reported as complete. The retry count is not cleared by a
 completion, so a poll sent afterwards, because the network asked for an answer or has more
 to send, completes again, with the flags of an acknowledgement. Without one there is exactly
 one completion, however long the run.
 */
module MacCompletion {
  import opened Common
  import opened Ticks
  import opened Channels
  import opened Airtime
  import opened MacMachine
  import opened MacDuty
  import opened MacConfirmed
  import DownCounter

  /** The frame leaves the device nothing to answer, or shuts it down. */
  predicate Quiet(f: Reception) {
    f.Frame? ==> (!f.confirmed && !f.more) || f.commands.duty == Some(0xFF)
  }

  /** The first frame received, if any, is quiet. */
  predicate EndsQuietly(events: seq<Event>) {
    forall i :: 0 <= i < |events| && events[i].WindowsOver? && UnheardUntil(events, i) ==> Quiet(events[i].f)
  }

  // ---------------------------------------------------------------- nothing left to complete

  /** No data transaction is pending and none will be begun by the engine on its own. */
  predicate Finished(m: Mac) {
    && Proper(m) && m.joined && JOINING !in m.opmode && TXDATA !in m.opmode
    && if SHUTDOWN in m.opmode then TXRXPEND !in m.opmode
       else POLL !in m.opmode && (TXRXPEND in m.opmode ==> m.job == AwaitsJoin)
  }

  lemma UpdateFinished(m: Mac, now: int, luck: Luck)
    requires Finished(m)
    ensures Finished(EngineUpdate(m, now, luck).0)
  {
    hide Transmit, PlaceFrame, S32, StartTime, StartJoining, WellFormed;
    PlacedProper(m, now);
    if PlaceFrame(m, now).Some? && SHUTDOWN !in m.opmode && TXRXPEND !in m.opmode {
      PlacedFlags(m, now);
      if REJOIN in m.opmode {
        RejoinSent(PlaceFrame(m, now).value, now);
      }
    }
  }

  lemma PlacedFlags(m: Mac, now: int)
    requires Proper(m) && PlaceFrame(m, now).Some?
    ensures var m1 := PlaceFrame(m, now).value;
            m1 == m.(opmode := m.opmode - {NEXTCHNL}, txend := m1.txend, txChnl := m1.txChnl, bands := m1.bands)
  {
    hide NextTx;
  }

  lemma RejoinSent(m: Mac, now: int)
    requires Finished(m) && SHUTDOWN !in m.opmode && REJOIN in m.opmode
    ensures Finished(Transmit(m, now).0)
  {
    hide ComputedTicks, UpRps, LowerDr;
  }

  lemma ReportFinished(m: Mac, ev: Ev, flags: set<Flag>, now: int, luck: Luck)
    requires Finished(m)
    ensures Finished(ReportEvent(m, ev, flags, now, luck).0)
  {
    UpdateFinished(m, now, luck);
    hide EngineUpdate;
  }

  /** Once a transaction is over and nothing is to be answered, nothing is left. */
  lemma CompleteFinished(m: Mac, flags: set<Flag>, now: int, luck: Luck)
    requires Proper(m) && m.joined && JOINING !in m.opmode && (SHUTDOWN in m.opmode || POLL !in m.opmode)
    ensures Finished(TxComplete(m, flags, now, luck).0)
  {
    hide ReportEvent, CheckLink, WellFormed;
    var m1 := m.(opmode := m.opmode - {TXDATA, TXRXPEND}, job := Idle);
    var m1' := m1.(opmode := m1.opmode - {LINKDEAD});
    var alive := flags * {DNW1, DNW2} != {} && LINKDEAD in m1.opmode;
    ReportFinished(m1', EV_LINK_ALIVE, flags, now, luck);
    var m2 := if alive then ReportEvent(m1', EV_LINK_ALIVE, flags, now, luck).0 else m1;
    ReportFinished(m2, EV_TXCOMPLETE, flags, now, luck);
    LinkFinished(ReportEvent(m2, EV_TXCOMPLETE, flags, now, luck).0, flags, now, luck);
  }

  lemma LinkFinished(m: Mac, flags: set<Flag>, now: int, luck: Luck)
    requires Finished(m)
    ensures Finished(CheckLink(m, flags, now, luck).0)
  {
    hide ReportEvent, WellFormed;
    var m1 := SetDr(m, DecDr(m.datarate)).(adrAckReq := LINK_CHECK_CONT);
    var m2 := m1.(opmode := m1.opmode + {REJOIN, LINKDEAD});
    ReportFinished(m2, EV_LINK_DEAD, flags, now, luck);
  }

  lemma StepFinished(m: Mac, s: Story, e: Event)
    requires Finished(m) && s.heard && Possible(m, e) && Undisturbed(e)
    ensures Finished(Step(m, e).0) && TellAll(s, Step(m, e).1) == s
  {
    assert e.Timer?;
    UpdateFinished(m, e.now, e.luck);
    NeverReports(m, e.now, e.luck);
    NothingNew(s, Step(m, e).1);
    hide EngineUpdate, TellAll;
  }

  // ---------------------------------------------------------------- exactly one

  lemma AcceptAsks(m: Mac, f: Reception, now: int)
    requires Proper(m) && f.Frame? && Received(f)
    ensures var m1 := Accept(m, f, now).0;
            && Proper(m1) && m1.joined == m.joined && m1.txCnt == m.txCnt && m1.job == m.job && m1.seqnoDn == f.seqnoDn
            && (SHUTDOWN in m1.opmode <==> SHUTDOWN in m.opmode || f.commands.duty == Some(0xFF))
            && (POLL in m1.opmode <==> POLL in m.opmode || f.confirmed || f.more)
            && (JOINING in m1.opmode <==> JOINING in m.opmode) && (REJOIN in m1.opmode <==> REJOIN in m.opmode)
            && m1.adrAckReq <= LINK_CHECK_DEAD
  {
    hide WellFormed, Obey;
    ObeyAsks(Noted(m, f), f.commands, now);
  }

  lemma ObeyAsks(m: Mac, c: Commands, now: int)
    requires Proper(m) && Plausible(c)
    ensures var m1 := Obey(m, c, now);
            && m1.joined == m.joined && m1.job == m.job && m1.adrAckReq == m.adrAckReq && m1.seqnoDn == m.seqnoDn
            && (SHUTDOWN in m1.opmode <==> SHUTDOWN in m.opmode || c.duty == Some(0xFF))
            && (POLL in m1.opmode <==> POLL in m.opmode)
            && (JOINING in m1.opmode <==> JOINING in m.opmode) && (REJOIN in m1.opmode <==> REJOIN in m.opmode)
  {
    hide WellFormed;
  }

  /** The uplink is over and nothing was asked. */
  lemma EndFinished(m: Mac, s: Story, u: nat, d0: Dr, e: Event)
    requires Trying(m, s, u, d0) && Proper(m) && e.WindowsOver? && Possible(m, e) && Quiet(e.f)
    requires TellAll(s, Step(m, e).1).heard
    ensures Finished(Step(m, e).0)
  {
    TryingParts(m, s, u, d0);
    if e.f.Frame? {
      AcceptAsks(m, e.f, e.now);
      var (m1, flags) := Accept(m, e.f, e.now);
      CompleteFinished(m1, flags, e.now, e.luck);
    } else if m.txCnt < TXCONF_ATTEMPTS {
      TriesAgain(m, s, u, d0, e.rxtime, e.now, e.luck);
      TryingParts(Step(m, e).0, TellAll(s, Step(m, e).1), u, d0);
    } else {
      CompleteFinished(Lonelier(m), {NACK, NOPORT}, e.now, e.luck);
    }
    hide TxComplete, Accept, EngineUpdate, TellAll, Obey;
  }

  /** Heard of at most once, and then with nothing left. */
  ghost predicate OnceSoFar(states: seq<Mac>, events: seq<Event>, n: nat)
    requires IsRun(states, events) && n <= |events|
  {
    var s := StoryOf(states, events, n);
    if s.heard then |s.done| == 1 && Finished(states[n]) else s.done == []
  }

  lemma OnceNext(m: Mac, s: Story, u: nat, d0: Dr, e: Event)
    requires Phase(m, s, u, d0) && Proper(m) && Possible(m, e) && Undisturbed(e)
    requires if s.heard then |s.done| == 1 && Finished(m) else e.WindowsOver? ==> Quiet(e.f)
    ensures var (m1, outs) := Step(m, e); var told := TellAll(s, outs);
            if told.heard then |told.done| == 1 && Finished(m1) else told.done == []
  {
    StepTries(m, s, u, d0, e);
    var (m1, outs) := Step(m, e);
    PhaseEnded(m1, TellAll(s, outs), u, d0);
    if s.heard {
      StepFinished(m, s, e);
    } else if TellAll(s, outs).heard {
      EndFinished(m, s, u, d0, e);
    }
    hide Step, TellAll, Finished;
  }

  lemma {:induction false} StaysOnce(states: seq<Mac>, events: seq<Event>, n: nat)
    requires Uplink(states, events) && EndsQuietly(events) && 1 <= n <= |events|
    ensures OnceSoFar(states, events, n)
  {
    hide Step, Possible, Phase, TellAll, HandsOver, Undisturbed, Finished, Quiet, UnheardUntil;
    StaysOnCourse(states, events, n);
    var u, d0 := states[0].seqnoUp, states[0].datarate;
    if n == 1 {
      HandedOver(states[0], events[0]);
      assert Outputs(states, events, 1) == Outputs(states, events, 0) + Step(states[0], events[0]).1
             == Step(states[0], events[0]).1;
      TryingParts(states[1], StoryOf(states, events, 1), u, d0);
    } else {
      StaysOnce(states, events, n - 1);
      StaysOnCourse(states, events, n - 1);
      var m, e, s := states[n - 1], events[n - 1], StoryOf(states, events, n - 1);
      OnceNext(m, s, u, d0, e);
      TellTwo(NOTHING_YET, Outputs(states, events, n - 1), Step(m, e).1);
    }
  }

  /** When the frame that ends it is quiet, the uplink is reported as complete exactly once, if it has ended at all. */
  lemma CompletesOnce(states: seq<Mac>, events: seq<Event>)
    requires Uplink(states, events) && EndsQuietly(events)
    ensures var s := StoryOf(states, events, |events|); s.done != [] ==> |s.done| == 1
  {
    StaysOnce(states, events, |events|);
    hide StoryOf, EndsQuietly;
  }

  // ---------------------------------------------------------------- a second one

  /** A data frame is pending or to be sent, and the retry count is that of the uplink before. */
  predicate Busy(m: Mac) {
    && Proper(m) && m.joined && JOINING !in m.opmode && REJOIN !in m.opmode && SHUTDOWN !in m.opmode
    && TXDATA !in m.opmode
    && 1 <= m.txCnt <= TXCONF_ATTEMPTS && m.adrAckReq <= LINK_CHECK_DEAD && m.seqnoDn < FULL
    && if TXRXPEND in m.opmode then m.job == AwaitsData else POLL in m.opmode
  }

  lemma UpdateBusy(m: Mac, now: int, luck: Luck)
    requires Busy(m)
    ensures Busy(EngineUpdate(m, now, luck).0)
    ensures TXRXPEND !in m.opmode && CanSend(m, now) ==> TXRXPEND in EngineUpdate(m, now, luck).0.opmode
  {
    hide Transmit, PlaceFrame, S32, StartTime, StartJoining, WellFormed;
    PlacedProper(m, now);
    if PlaceFrame(m, now).Some? && TXRXPEND !in m.opmode {
      PlacedFlags(m, now);
      PollGoesOut(PlaceFrame(m, now).value, now);
      assert POLL in m.opmode * {JOINING, REJOIN, TXDATA, POLL};
    }
  }

  /** The frame may go out at once, and no counter is about to roll over. */
  ghost predicate CanSend(m: Mac, now: int)
    requires Proper(m)
  {
    && PlaceFrame(m, now).Some? && S32(StartTime(PlaceFrame(m, now).value) - (now + TX_RAMPUP)) < 0
    && m.seqnoDn < 0xFFFF_FF80
  }

  /** No poll ever goes out: the downlink counter has run out, or the channel search ends at no time. */
  ghost predicate NeverPolls(m: Mac) {
    && Proper(m) && TXRXPEND !in m.opmode
    && (m.seqnoDn >= 0xFFFF_FF80 || forall now :: PlaceFrame(m, now).None?)
  }

  lemma PollGoesOut(m: Mac, now: int)
    requires Busy(m) && TXRXPEND !in m.opmode
    ensures Busy(Transmit(m, now).0) && (m.seqnoDn < 0xFFFF_FF80 ==> TXRXPEND in Transmit(m, now).0.opmode)
  {
    hide ComputedTicks, UpRps;
  }

  lemma ReportBusy(m: Mac, ev: Ev, flags: set<Flag>, now: int, luck: Luck)
    requires Busy(m)
    ensures Busy(ReportEvent(m, ev, flags, now, luck).0)
  {
    UpdateBusy(m, now, luck);
    hide EngineUpdate, CanSend;
  }

  lemma CompleteBusy(m: Mac, flags: set<Flag>, now: int, luck: Luck)
    requires Proper(m) && m.joined && JOINING !in m.opmode && REJOIN !in m.opmode && SHUTDOWN !in m.opmode
             && POLL in m.opmode
    requires 1 <= m.txCnt <= TXCONF_ATTEMPTS && m.adrAckReq <= LINK_CHECK_DEAD && m.seqnoDn < FULL
    ensures Busy(TxComplete(m, flags, now, luck).0)
  {
    hide ReportEvent, WellFormed;
    var m1 := m.(opmode := m.opmode - {TXDATA, TXRXPEND}, job := Idle);
    var m1' := m1.(opmode := m1.opmode - {LINKDEAD});
    var alive := flags * {DNW1, DNW2} != {} && LINKDEAD in m1.opmode;
    ReportBusy(m1', EV_LINK_ALIVE, flags, now, luck);
    var m2 := if alive then ReportEvent(m1', EV_LINK_ALIVE, flags, now, luck).0 else m1;
    ReportBusy(m2, EV_TXCOMPLETE, flags, now, luck);
  }

  /** The frame that ended the uplink asks for another one: it is on the air already, or to be sent. */
  lemma EndBusy(m: Mac, s: Story, u: nat, d0: Dr, e: Event)
    requires Trying(m, s, u, d0) && Proper(m) && e.WindowsOver? && Possible(m, e) && e.f.Frame? && !Quiet(e.f)
    ensures Busy(Step(m, e).0)
  {
    TryingParts(m, s, u, d0);
    AcceptAsks(m, e.f, e.now);
    var (m1, flags) := Accept(m, e.f, e.now);
    CompleteBusy(m1, flags, e.now, e.luck);
    hide TxComplete, Accept, Obey;
  }

  /** While any band has a usable channel and the counter has not run out, a poll can go out at some time. */
  lemma UsablePolls(m: Mac, b: nat)
    requires Proper(m) && m.seqnoDn < 0xFFFF_FF80 && b < 4 && Feasible(m.plan, m.datarate, b)
    ensures !NeverPolls(m)
  {
    hide NextTx, Feasible;
    var now := m.bands[b].avail;
    assert Passing(m.bands, now, b);
    ReadyIsFound(m.bands, m.plan, m.datarate, now);
    assert PlaceFrame(m, now).Some?;
  }

  /** The answer to that frame completes again, as if confirmed data had been sent. */
  lemma PollAnswered(m: Mac, s: Story, e: Event)
    requires Busy(m) && e.WindowsOver? && e.f.Frame? && Possible(m, e)
    ensures var told := TellAll(s, Step(m, e).1);
            |told.done| == |s.done| + 1 && (if e.f.ack then ACK else NACK) in told.done[|s.done|]
  {
    AcceptFlags(m, e.f, e.now);
    var (m1, flags) := Accept(m, e.f, e.now);
    CompletionTold(m1, s, flags, e.now, e.luck);
    hide TxComplete, Accept, TellAll;
  }

  const LUCK: Luck := Luck(0, 0, 0, 0, 0)

  /** Not earlier than another event; the windows that it closes were still open then. */
  predicate Later(before: Event, e: Event) {
    !before.ChangeRate? && !e.ChangeRate? ==>
      before.now <= e.now && (e.WindowsOver? ==> before.now <= e.rxtime <= e.now)
  }

  /** Time goes forward. */
  ghost predicate InTime(events: seq<Event>) {
    forall i, j :: 0 <= i < j < |events| ==> Later(events[i], events[j])
  }

  lemma OneLater(events: seq<Event>, e: Event)
    requires events != [] && InTime(events) && Later(events[|events| - 1], e) && !events[|events| - 1].ChangeRate?
    ensures InTime(events + [e])
  {
    var longer := events + [e];
    forall i, j | 0 <= i < j < |longer|
      ensures Later(longer[i], longer[j])
    {
      if j == |events| && i < |events| - 1 {
        assert Later(events[i], events[|events| - 1]);
      }
    }
  }

  /** A run goes on, forward in time. */
  ghost predicate Continues(states: seq<Mac>, events: seq<Event>, states': seq<Mac>, events': seq<Event>) {
    Uplink(states', events') && events <= events' && states <= states' && InTime(events')
  }

  /** One more event. */
  lemma OneMore(states: seq<Mac>, events: seq<Event>, e: Event)
    requires Uplink(states, events) && Possible(states[|events|], e) && Undisturbed(e)
    requires InTime(events) && Later(events[|events| - 1], e)
    ensures var (m1, outs) := Step(states[|events|], e); var states', events' := states + [m1], events + [e];
            && Continues(states, events, states', events') && states'[|events'|] == m1
            && StoryOf(states', events', |events'|) == TellAll(StoryOf(states, events, |events|), outs)
  {
    NotRate(states, events);
    OneLater(events, e);
    hide Step, HandsOver, Undisturbed, TellAll, Possible, Later, InTime;
    var states', events' := states + [Step(states[|events|], e).0], events + [e];
    OutputsKept(states, events, states', events', |events|);
    TellTwo(NOTHING_YET, Outputs(states, events, |events|), Step(states[|events|], e).1);
  }

  lemma NotRate(states: seq<Mac>, events: seq<Event>)
    requires Uplink(states, events)
    ensures !events[|events| - 1].ChangeRate?
  {
    hide Step, Possible;
    HandedFacts(states[0], events[0]);
  }

  lemma {:induction false} OutputsKept(states: seq<Mac>, events: seq<Event>, states': seq<Mac>, events': seq<Event>,
                                       n: nat)
    requires IsRun(states, events) && IsRun(states', events') && events <= events' && states <= states' && n <= |events|
    ensures Outputs(states', events', n) == Outputs(states, events, n)
  {
    hide Step, Possible;
    if n > 0 {
      OutputsKept(states, events, states', events', n - 1);
    }
  }

  lemma {:induction false} StoryGrows(states: seq<Mac>, events: seq<Event>, i: nat, n: nat)
    requires IsRun(states, events) && i <= n <= |events| && StoryOf(states, events, i).heard
    ensures StoryOf(states, events, n).heard
    decreases n
  {
    hide Step, Possible, TellAll;
    if i < n {
      StoryGrows(states, events, i, n - 1);
      TellTwo(NOTHING_YET, Outputs(states, events, n - 1), Step(states[n - 1], events[n - 1]).1);
      ToldEnough(StoryOf(states, events, n - 1), Step(states[n - 1], events[n - 1]).1);
    }
  }

  /** The last event brought the frame that ended the uplink. */
  ghost predicate JustHeard(states: seq<Mac>, events: seq<Event>)
    requires IsRun(states, events)
  {
    && events != [] && events[|events| - 1].WindowsOver? && events[|events| - 1].f.Frame?
    && !StoryOf(states, events, |events| - 1).heard
  }

  /** The state and the story when that frame has just been received. */
  lemma WhenHeard(states: seq<Mac>, events: seq<Event>)
    requires Uplink(states, events) && JustHeard(states, events)
    ensures var s := StoryOf(states, events, |events|);
            && s.heard && |s.done| == 1 && UnheardUntil(events, |events| - 1)
            && (!Quiet(events[|events| - 1].f) ==> Busy(states[|events|]))
  {
    hide Step, TellAll, HandsOver, Undisturbed, Phase, Busy, Quiet, Possible;
    var n := |events| - 1;
    HandedFacts(states[0], events[0]);
    StaysOnCourse(states, events, n);
    var m, e, s := states[n], events[n], StoryOf(states, events, n);
    HeardNow(m, s, states[0].seqnoUp, states[0].datarate, e);
    TellTwo(NOTHING_YET, Outputs(states, events, n), Step(m, e).1);
  }

  lemma HeardNow(m: Mac, s: Story, u: nat, d0: Dr, e: Event)
    requires Phase(m, s, u, d0) && Proper(m) && Possible(m, e) && Undisturbed(e) && e.WindowsOver? && e.f.Frame?
             && !s.heard
    ensures var told := TellAll(s, Step(m, e).1); told.heard && |told.done| == 1
    ensures !Quiet(e.f) ==> Busy(Step(m, e).0)
  {
    StepTries(m, s, u, d0, e);
    if !Quiet(e.f) {
      EndBusy(m, s, u, d0, e);
    }
    hide Step, TellAll, Busy;
  }

  // ---------------------------------------------------------------- the poll and its answer

  /** The bands come to the search alike after whole turns of the clock. */
  lemma {:induction false} ReachedAgain(bands: seq<Band>, now: int, k: int, b: nat)
    requires |bands| == 4 && b < 4
    ensures Reached(bands, now + k * FULL, b) <==> Reached(bands, now, b)
    decreases b
  {
    hide S32;
    S32Shift(now + EIGHT_HOURS - bands[b].avail, k);
    forall a: nat | a < b
      ensures Reached(bands, now + k * FULL, a) <==> Reached(bands, now, a)
    {
      ReachedAgain(bands, now, k, a);
    }
  }

  lemma PlacedExactly(m: Mac, now: int)
    requires Proper(m)
    ensures PlaceFrame(m, now).Some? <==> NEXTCHNL !in m.opmode || NextTx(m.bands, m.plan, m.datarate, now) != Stall
  {
    hide NextTx, Reached, Feasible, Served, Pick, Usable;
    NextTxRight(m.bands, m.plan, m.datarate, now);
  }

  lemma StallsAgain(bands: seq<Band>, plan: Plan, dr: nat, now: int, later: int)
    requires WellFormed(bands, plan)
    requires forall b: nat :: b < 4 ==> (Reached(bands, later, b) <==> Reached(bands, now, b))
    requires NextTx(bands, plan, dr, later) == Stall
    ensures NextTx(bands, plan, dr, now) == Stall
  {
    hide NextTx, Reached, Feasible;
    StallsExactly(bands, plan, dr, later);
    var b: nat :| 1 <= b < 4 && !Reached(bands, later, b);
    assert !Reached(bands, now, b);
    forall a: nat | a < 4 && Reached(bands, now, a)
      ensures !Feasible(plan, dr, a)
    {
      assert Reached(bands, later, a);
    }
    StallsExactly(bands, plan, dr, now);
  }

  lemma SearchAgain(bands: seq<Band>, plan: Plan, dr: nat, now: int, k: int)
    requires WellFormed(bands, plan) && NextTx(bands, plan, dr, now) != Stall
    ensures NextTx(bands, plan, dr, now + k * FULL) != Stall
  {
    hide NextTx, Reached;
    forall b: nat | b < 4
      ensures Reached(bands, now + k * FULL, b) <==> Reached(bands, now, b)
    {
      ReachedAgain(bands, now, k, b);
    }
    if NextTx(bands, plan, dr, now + k * FULL) == Stall {
      StallsAgain(bands, plan, dr, now, now + k * FULL);
    }
  }

  /** A search that ends at one time ends as well whole turns of the clock later. */
  lemma PlacedAgain(m: Mac, now: int, k: int)
    requires Proper(m) && PlaceFrame(m, now).Some?
    ensures PlaceFrame(m, now + k * FULL).Some?
  {
    hide NextTx, PlaceFrame;
    PlacedExactly(m, now);
    PlacedExactly(m, now + k * FULL);
    if NEXTCHNL in m.opmode {
      SearchAgain(m.bands, m.plan, m.datarate, now, k);
    }
  }

  /** So many whole turns of the clock bring a time past another. */
  function Turns(a: int, b: int): (k: nat)
    ensures a + k * FULL >= b
  {
    if a >= b then 0 else (b - a) / FULL + 1
  }

  /** An acknowledgement that asks for nothing, under the next number. */
  function Answer(m: Mac): (f: Reception)
    requires Proper(m)
    ensures f.Frame? && Received(f)
  {
    Frame(DNW1, true, false, false, false, (m.seqnoDn + 1) % FULL, Commands(m.plan, None, None, false, 0))
  }

  lemma AnswerFollows(m: Mac)
    requires Proper(m) && m.seqnoDn < FULL
    ensures DownCounter.MayFollow(m.seqnoDn, Answer(m).seqnoDn)
  {
  }

  /** Three seconds, for the windows to open and close. */
  const RX_DONE := 187500

  /** Goes on with a poll and its answer, a new frame: a second completion. */
  lemma CompletesTwice(states: seq<Mac>, events: seq<Event>) returns (states': seq<Mac>, events': seq<Event>)
    requires Uplink(states, events) && InTime(events) && JustHeard(states, events)
    requires !Quiet(events[|events| - 1].f) && !NeverPolls(states[|events|])
    ensures Continues(states, events, states', events') && |StoryOf(states', events', |events'|).done| == 2
  {
    hide Step, HandsOver, TellAll, Quiet, PlaceFrame, InTime, Answer;
    WhenHeard(states, events);
    states', events' := PollSent(states, events);
    NotRate(states', events');
    var m, now := states'[|events'|], events'[|events'| - 1].now + RX_DONE;
    AnswerFollows(m);
    var answer := WindowsOver(Answer(m), now, now, LUCK);
    PollAnswered(m, StoryOf(states', events', |events'|), answer);
    OneMore(states', events', answer);
    states', events' := states' + [Step(m, answer).0], events' + [answer];
  }

  /** Goes on until the poll is on the air: placed at a time when the search ends, and sent when it may start. */
  lemma PollSent(states: seq<Mac>, events: seq<Event>) returns (states': seq<Mac>, events': seq<Event>)
    requires Uplink(states, events) && InTime(events) && StoryOf(states, events, |events|).heard
    requires Busy(states[|events|]) && !NeverPolls(states[|events|])
    ensures Continues(states, events, states', events')
    ensures Busy(states'[|events'|]) && TXRXPEND in states'[|events'|].opmode
    ensures StoryOf(states', events', |events'|) == StoryOf(states, events, |events|)
  {
    hide Step, HandsOver, TellAll, CanSend, PlaceFrame, StartTime, InTime;
    states', events' := states, events;
    if TXRXPEND !in states[|events|].opmode {
      NotRate(states, events);
      var m := states[|events|];
      var once :| PlaceFrame(m, once).Some?;
      var k := Turns(once, events[|events| - 1].now);
      PlacedAgain(m, once, k);
      var e := Timer(once + k * FULL, LUCK);
      PollPlaced(m, StoryOf(states, events, |events|), e.now, LUCK);
      OneMore(states, events, e);
      states', events' := states + [Step(m, e).0], events + [e];
      if TXRXPEND !in states'[|events'|].opmode {
        var m1 := states'[|events'|];
        var e1 := Timer(StartTime(m1) + Turns(StartTime(m1), e.now) * FULL, LUCK);
        PollTimed(m1, StoryOf(states', events', |events'|), e1.now, LUCK);
        OneMore(states', events', e1);
        states', events' := states' + [Step(m1, e1).0], events' + [e1];
      }
    }
  }

  lemma PollPlaced(m: Mac, s: Story, now: int, luck: Luck)
    requires Busy(m) && TXRXPEND !in m.opmode && m.seqnoDn < 0xFFFF_FF80 && PlaceFrame(m, now).Some? && s.heard
    ensures var (m1, outs) := Step(m, Timer(now, luck));
            && Busy(m1) && TellAll(s, outs) == s
            && (TXRXPEND in m1.opmode || forall k: nat :: CanSend(m1, StartTime(m1) + k * FULL))
  {
    UpdateBusy(m, now, luck);
    NeverReports(m, now, luck);
    NothingNew(s, EngineUpdate(m, now, luck).1);
    PlacedFlags(m, now);
    assert POLL in m.opmode * {JOINING, REJOIN, TXDATA, POLL};
    hide TellAll, Transmit, StartTime, NextTx, StartJoining, WellFormed;
    var m1 := EngineUpdate(m, now, luck).0;
    if TXRXPEND !in m1.opmode {
      forall k: nat
        ensures CanSend(m1, StartTime(m1) + k * FULL)
      {
        S32Shift(-TX_RAMPUP, 0 - k);
      }
    }
  }

  lemma PollTimed(m: Mac, s: Story, now: int, luck: Luck)
    requires Busy(m) && TXRXPEND !in m.opmode && CanSend(m, now) && s.heard
    ensures var (m1, outs) := Step(m, Timer(now, luck)); Busy(m1) && TXRXPEND in m1.opmode && TellAll(s, outs) == s
  {
    UpdateBusy(m, now, luck);
    NeverReports(m, now, luck);
    NothingNew(s, EngineUpdate(m, now, luck).1);
    hide EngineUpdate, TellAll, CanSend;
  }

  /** Without a poll nothing more is reported. */
  lemma StepNeverPolls(m: Mac, s: Story, e: Event)
    requires Busy(m) && NeverPolls(m) && s.heard && Possible(m, e) && Undisturbed(e)
    ensures var (m1, outs) := Step(m, e); Busy(m1) && NeverPolls(m1) && TellAll(s, outs) == s
  {
    UpdateBusy(m, e.now, e.luck);
    NeverReports(m, e.now, e.luck);
    NothingNew(s, EngineUpdate(m, e.now, e.luck).1);
    if PlaceFrame(m, e.now).Some? {
      PlacedFlags(m, e.now);
    }
    assert POLL in m.opmode * {JOINING, REJOIN, TXDATA, POLL};
    hide TellAll, PlaceFrame, StartTime, NextTx, StartJoining, SendFrame, BuildDataFrame, WellFormed;
  }

  lemma {:induction false} StaysUnpolled(states: seq<Mac>, events: seq<Event>, i: nat, n: nat)
    requires Uplink(states, events) && 1 <= i <= n <= |events|
    requires Busy(states[i]) && NeverPolls(states[i]) && StoryOf(states, events, i).heard
    ensures Busy(states[n]) && NeverPolls(states[n]) && StoryOf(states, events, n) == StoryOf(states, events, i)
    decreases n
  {
    hide Step, HandsOver, TellAll, Busy, NeverPolls, Possible, Undisturbed;
    if i < n {
      StaysUnpolled(states, events, i, n - 1);
      StepNeverPolls(states[n - 1], StoryOf(states, events, n - 1), events[n - 1]);
      TellTwo(NOTHING_YET, Outputs(states, events, n - 1), Step(states[n - 1], events[n - 1]).1);
    }
  }

  lemma EndsQuietlyOn(states: seq<Mac>, events: seq<Event>, states': seq<Mac>, events': seq<Event>)
    requires Uplink(states, events) && JustHeard(states, events) && Quiet(events[|events| - 1].f)
    requires Continues(states, events, states', events')
    ensures |StoryOf(states', events', |events'|).done| == 1
  {
    hide Step, HandsOver, Possible, Undisturbed, TellAll, Phase;
    WhenHeard(states, events);
    OutputsKept(states, events, states', events', |events|);
    StoryGrows(states', events', |events|, |events'|);
    assert EndsQuietly(events') by {
      var n := |events| - 1;
      forall i | 0 <= i < |events'| && events'[i].WindowsOver? && UnheardUntil(events', i)
        ensures Quiet(events'[i].f)
      {
        if i < n {
          assert events'[i] == events[i];
        }
      }
    }
    StaysOnce(states', events', |events'|);
  }

  lemma UnpolledOn(states: seq<Mac>, events: seq<Event>, states': seq<Mac>, events': seq<Event>)
    requires Uplink(states, events) && JustHeard(states, events)
    requires !Quiet(events[|events| - 1].f) && NeverPolls(states[|events|])
    requires Continues(states, events, states', events')
    ensures |StoryOf(states', events', |events'|).done| == 1
  {
    hide Step, HandsOver, Possible, Undisturbed, TellAll, Busy, NeverPolls, Quiet;
    WhenHeard(states, events);
    OutputsKept(states, events, states', events', |events|);
    StaysUnpolled(states', events', |events|, |events'|);
  }

  /**
   However the run goes on, forward in time, after the frame that ended it, the uplink is reported as complete
   exactly once, if and only if that frame is quiet or the poll it asks for can never go out.
   */
  lemma OnceExactly(states: seq<Mac>, events: seq<Event>)
    requires Uplink(states, events) && InTime(events) && JustHeard(states, events)
    ensures Quiet(events[|events| - 1].f) || NeverPolls(states[|events|]) <==>
            forall states', events' :: Continues(states, events, states', events') ==>
              |StoryOf(states', events', |events'|).done| == 1
  {
    hide HandsOver, Quiet, NeverPolls, StoryOf, Undisturbed, Step, Possible, InTime;
    if Quiet(events[|events| - 1].f) {
      forall states', events' | Continues(states, events, states', events')
        ensures |StoryOf(states', events', |events'|).done| == 1
      {
        EndsQuietlyOn(states, events, states', events');
      }
    } else if NeverPolls(states[|events|]) {
      forall states', events' | Continues(states, events, states', events')
        ensures |StoryOf(states', events', |events'|).done| == 1
      {
        UnpolledOn(states, events, states', events');
      }
    } else {
      var states', events' := CompletesTwice(states, events);
    }
  }

  // ---------------------------------------------------------------- a run that completes twice

  /** A device that has joined, with one channel. */
  function Joined1(): (m: Mac) {
    Fresh().(joined := true, datarate := 5,
             bands := [Band(100, 0, 0), Band(100, 0, 0), Band(100, 0, 0), Band(100, 0, 0)],
             plan := Plan(Zeros(16), [RateSet()] + Empties(15), {0}))
  }

  /** An acknowledgement with the mark that there is more to come. */
  function AckAndMore(): Reception {
    Frame(DNW1, true, false, true, false, 1, Commands(Joined1().plan, None, None, false, 0))
  }

  lemma JoinedReady()
    ensures var m := Joined1(); var e := SetTxData(1, true, 0, LUCK);
            && Proper(m) && HandsOver(m, e) && m.datarate == 5 && m.txend == 0 && m.globalDutyRate == 0
            && m.seqnoDn == 0 && m.bands[0].avail == 0
            && forall op :: op !in m.opmode
    ensures var f := AckAndMore();
            f.Frame? && Received(f) && !Quiet(f) && f.commands.plan == Joined1().plan && f.seqnoDn == 1
  {
  }

  /** The first try goes out at once on the channel chosen before. */
  lemma FirstTryOut(m: Mac, e: Event)
    requires HandsOver(m, e) && m.globalDutyRate == 0 && m.txend == e.now && forall op :: op !in m.opmode
    ensures var m1 := Step(m, e).0;
            && TXRXPEND in m1.opmode && NEXTCHNL in m1.opmode && m1.job == AwaitsData
            && LINKDEAD !in m1.opmode && RNDTX !in m1.opmode && m1.globalDutyRate == 0
            && m1.datarate == m.datarate && m1.plan == m.plan && 1 <= m1.txCnt <= TXCONF_ATTEMPTS
            && m1.joined && JOINING !in m1.opmode && REJOIN !in m1.opmode && SHUTDOWN !in m1.opmode
            && m1.seqnoDn == m.seqnoDn
  {
    hide ComputedTicks, UpRps, WellFormed;
    var m0 := Stored(m, e.len, true);
    assert PlaceFrame(m0, e.now) == Some(m0);
    assert StartTime(m0) == e.now;
    assert TXDATA in m0.opmode * {JOINING, REJOIN, TXDATA, POLL};
    assert CarriesPayload(m0);
  }

  /** Sending makes no band available earlier than now. */
  lemma SendsAhead(m: Mac, now: int, dr: Dr, flen: u1)
    requires Proper(m) && m.bands[0].avail >= now
    ensures SendFrame(m, now, dr, flen, false, true, true).0.bands[0].avail >= now
  {
    TicksPositive(UpRps(dr, m.errcr), flen);
    hide ComputedTicks, UpRps;
    var b := m.plan.band[m.txChnl];
    assert ComputedTicks(UpRps(dr, m.errcr), flen) * m.bands[b].txcap >= 0;
  }

  lemma FirstTryAhead(m: Mac, e: Event)
    requires HandsOver(m, e) && m.globalDutyRate == 0 && m.txend == e.now && forall op :: op !in m.opmode
    requires m.bands[0].avail >= e.now
    ensures Step(m, e).0.bands[0].avail >= e.now
  {
    hide SendFrame;
    var m0 := Stored(m, e.len, true);
    assert PlaceFrame(m0, e.now) == Some(m0) && StartTime(m0) == e.now;
    assert TXDATA in m0.opmode * {JOINING, REJOIN, TXDATA, POLL};
    assert CarriesPayload(m0);
    var (m1, flen, confirmed) := BuildDataFrame(m0);
    SendsAhead(m1.(job := AwaitsData), e.now, m0.datarate, flen);
  }

  lemma TicksPositive(rps: Modem, plen: u1)
    ensures ComputedTicks(rps, plen) >= 0
  {
    if rps.Lora? {
      var ticks := Quarters(rps, plen) * Pow2(Shift(rps.sf - 5 - rps.bw));
      QuartersPositive(rps, plen);
      assert ticks >= 0;
    }
  }

  lemma QuartersPositive(rps: Modem, plen: u1)
    requires rps.Lora?
    ensures Quarters(rps, plen) >= 0
  {
    var bits := PayloadBits(rps, plen);
    if bits > 0 {
      var blocks := (bits + BlockBits(rps) - 1) / BlockBits(rps);
      assert blocks * (rps.cr + 5) >= 0;
    }
  }

  lemma OneChannel(plan: Plan)
    requires plan == Joined1().plan
    ensures |plan.band| == MAX_CHANNELS && plan.band[0] == 0 && Feasible(plan, 5, 0)
    ensures forall band, c :: Usable(plan, 5, band, c) ==> c == 0 && band == 0
  {
    assert Usable(plan, 5, 0, 0);
  }

  /** With the one channel's band available again the poll may go out. */
  lemma MayPoll(m: Mac)
    requires Proper(m) && m.plan == Joined1().plan && m.datarate == 5 && m.globalDutyRate == 0 && RNDTX !in m.opmode
    requires NEXTCHNL in m.opmode && m.seqnoDn == 1
    ensures CanSend(m, m.bands[0].avail)
  {
    OneChannel(m.plan);
    hide NextTx, Feasible, Usable, Joined1, Fresh, WellFormed;
    BandNow(m.bands);
    ReadyIsFound(m.bands, m.plan, 5, m.bands[0].avail);
    PlacedNow(m, m.bands[0].avail);
  }

  lemma BandNow(bands: seq<Band>)
    requires |bands| == 4
    ensures Passing(bands, bands[0].avail, 0)
  {
  }

  /** A frame placed on the band that is available now may be sent now. */
  lemma PlacedNow(m: Mac, now: int)
    requires Proper(m) && m.globalDutyRate == 0 && RNDTX !in m.opmode && NEXTCHNL in m.opmode && m.seqnoDn == 1
    requires var choice := NextTx(m.bands, m.plan, m.datarate, now);
             choice.Found? && choice.band < 4 && choice.time == now
    ensures CanSend(m, now)
  {
    hide NextTx, WellFormed;
  }

  /** The frame is accepted and the poll goes out within the same step. */
  lemma PollOnAir(m: Mac, now: int)
    requires Proper(m) && m.joined && TXRXPEND in m.opmode && NEXTCHNL in m.opmode && m.job == AwaitsData
             && LINKDEAD !in m.opmode
    requires JOINING !in m.opmode && REJOIN !in m.opmode && SHUTDOWN !in m.opmode && 1 <= m.txCnt <= TXCONF_ATTEMPTS
    requires RNDTX !in m.opmode && m.globalDutyRate == 0 && m.datarate == 5 && m.plan == Joined1().plan
             && now == m.bands[0].avail && m.seqnoDn == 0
    ensures TXRXPEND in Step(m, WindowsOver(AckAndMore(), now, now, LUCK)).0.opmode
  {
    hide EngineUpdate, NextTx, CanSend, PlaceFrame;
    var (m1, flags) := Accept(m, AckAndMore(), now);
    var m2 := m1.(opmode := m1.opmode - {TXDATA, TXRXPEND}, job := Idle);
    assert m1.plan == m.plan && m1.bands == m.bands;
    MayPoll(m2);
    UpdateBusy(m2, now, LUCK);
    assert EngineUpdate(m2, now, LUCK).0.adrAckReq <= LINK_CHECK_DEAD;
  }

  /** A run in which one confirmed uplink is reported as complete twice. */
  lemma CompletedTwice() returns (states: seq<Mac>, events: seq<Event>)
    ensures Uplink(states, events) && InTime(events) && |StoryOf(states, events, |events|).done| == 2
  {
    JoinedReady();
    hide Step, CanSend, HandsOver, TellAll, Fresh, Joined1, AckAndMore, Quiet;
    var m, e := Joined1(), SetTxData(1, true, 0, LUCK);
    FirstTryOut(m, e);
    FirstTryAhead(m, e);
    var m1 := Step(m, e).0;
    states, events := [m, m1], [e];
    HandedOver(m, e);
    assert Outputs(states, events, 1) == Outputs(states, events, 0) + Step(m, e).1 == Step(m, e).1;
    TryingParts(m1, StoryOf(states, events, 1), m.seqnoUp, 5);
    var e1 := WindowsOver(AckAndMore(), m1.bands[0].avail, m1.bands[0].avail, LUCK);
    OneMore(states, events, e1);
    PollOnAir(m1, m1.bands[0].avail);
    var states1, events1 := states + [Step(m1, e1).0], events + [e1];
    OutputsKept(states, events, states1, events1, 1);
    states, events := CompletesTwice(states1, events1);
  }
}
