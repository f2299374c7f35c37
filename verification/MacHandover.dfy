/**
 What becomes of data handed over with LMIC_setTxData2: whether it goes out before the
 request to send it is cleared. After the hand-over nothing happens but timers and receive
 windows.
 */
module MacHandover {
  import opened Common
  import opened Ticks
  import opened Channels
  import opened Airtime
  import opened MacMachine
  import opened MacDuty
  import opened MacConfirmed
  import opened MacCompletion

  /** A frame with the payload was among what was put out. */
  ghost predicate PayloadOut(outs: seq<Out>) {
    exists i :: 0 <= i < |outs| && outs[i].Sent? && outs[i].tx.payload
  }

  lemma PayloadTwo(outs: seq<Out>, more: seq<Out>)
    ensures PayloadOut(outs + more) <==> PayloadOut(outs) || PayloadOut(more)
  {
    var all := outs + more;
    if i :| 0 <= i < |outs| && outs[i].Sent? && outs[i].tx.payload {
      assert all[i] == outs[i];
    }
    if i :| 0 <= i < |more| && more[i].Sent? && more[i].tx.payload {
      assert all[|outs| + i] == more[i];
    }
  }

  lemma NoPayload(out: Out)
    ensures !PayloadOut([])
    ensures PayloadOut([out]) <==> out.Sent? && out.tx.payload
  {
    assert out.Sent? && out.tx.payload ==> [out][0].Sent?;
  }

  // ---------------------------------------------------------------- no request, no payload

  predicate Unasked(m: Mac) {
    Proper(m) && m.joined && TXDATA !in m.opmode
  }

  /** The frame carries the payload exactly if both fit; a confirmed uplink starts only then. */
  lemma PayloadSentExactly(m: Mac, now: int)
    requires Calm(m) && TXDATA in m.opmode && m.txCnt == 0
    ensures var (m1, outs) := Transmit(m, now);
            && |outs| == 1 && outs[0].Sent?
            && (outs[0].tx.payload <==> Fits(m, m.pendTxLen))
            && m1.txCnt == (if outs[0].tx.payload && m.pendTxConf then 1 else 0)
            && TXDATA in m1.opmode && TXRXPEND in m1.opmode && m1.job == AwaitsData && m1.joined
            && JOINING !in m1.opmode && REJOIN !in m1.opmode && SHUTDOWN !in m1.opmode && m1.seqnoDn == m.seqnoDn
  {
    hide ComputedTicks, UpRps;
  }

  lemma UnaskedTransmit(m: Mac, now: int)
    requires Unasked(m) && m.opmode * {JOINING, REJOIN, POLL} != {}
    ensures Unasked(Transmit(m, now).0) && !PayloadOut(Transmit(m, now).1)
  {
    hide ComputedTicks, UpRps, LowerDr;
    assert JOINING in m.opmode || REJOIN in m.opmode || POLL in m.opmode;
  }

  lemma UnaskedUpdate(m: Mac, now: int, luck: Luck)
    requires Unasked(m)
    ensures Unasked(EngineUpdate(m, now, luck).0) && !PayloadOut(EngineUpdate(m, now, luck).1)
  {
    hide Transmit, S32, StartTime, PlaceFrame, WellFormed, PayloadOut;
    PlacedProper(m, now);
    NoPayload(Weighs(m, now));
    PayloadTwo([Weighs(m, now)], [Hangs]);
    NoPayload(Hangs);
    if PlaceFrame(m, now).Some? && m.opmode * {JOINING, REJOIN, TXDATA, POLL} != {} {
      var m1 := PlaceFrame(m, now).value;
      PlacedFlags(m, now);
      StillAsked(m.opmode);
      UnaskedTransmit(m1, now);
      PayloadTwo([Weighs(m, now)], Transmit(m1, now).1);
      PayloadTwo([Weighs(m, now)], [Wake(StartTime(m1) - TX_RAMPUP)]);
      NoPayload(Wake(StartTime(m1) - TX_RAMPUP));
      assert [Weighs(m, now), Wake(StartTime(m1) - TX_RAMPUP)] == [Weighs(m, now)] + [Wake(StartTime(m1) - TX_RAMPUP)];
    }
    assert [Weighs(m, now), Hangs] == [Weighs(m, now)] + [Hangs];
    NoPayload(Wake(now));
  }

  lemma StillAsked(opmode: set<Op>)
    requires opmode * {JOINING, REJOIN, TXDATA, POLL} != {} && TXDATA !in opmode
    ensures (opmode - {NEXTCHNL}) * {JOINING, REJOIN, POLL} != {}
  {
    var op :| op in opmode * {JOINING, REJOIN, TXDATA, POLL};
    assert op in (opmode - {NEXTCHNL}) * {JOINING, REJOIN, POLL};
  }

  lemma UnaskedReport(m: Mac, ev: Ev, flags: set<Flag>, now: int, luck: Luck)
    requires Unasked(m)
    ensures Unasked(ReportEvent(m, ev, flags, now, luck).0) && !PayloadOut(ReportEvent(m, ev, flags, now, luck).1)
  {
    UnaskedUpdate(m, now, luck);
    NoPayload(Report(ev, flags));
    PayloadTwo([Report(ev, flags)], EngineUpdate(m, now, luck).1);
    hide EngineUpdate, PayloadOut;
  }

  lemma UnaskedLink(m: Mac, flags: set<Flag>, now: int, luck: Luck)
    requires Unasked(m)
    ensures Unasked(CheckLink(m, flags, now, luck).0) && !PayloadOut(CheckLink(m, flags, now, luck).1)
  {
    hide ReportEvent, WellFormed, PayloadOut;
    NoPayload(Hangs);
    var m1 := SetDr(m, DecDr(m.datarate)).(adrAckReq := LINK_CHECK_CONT);
    UnaskedReport(m1.(opmode := m1.opmode + {REJOIN, LINKDEAD}), EV_LINK_DEAD, flags, now, luck);
  }

  /** The end of a transaction clears the request, and nothing after it carries a payload. */
  lemma UnaskedComplete(m: Mac, flags: set<Flag>, now: int, luck: Luck)
    requires Proper(m) && m.joined
    ensures Unasked(TxComplete(m, flags, now, luck).0) && !PayloadOut(TxComplete(m, flags, now, luck).1)
  {
    hide ReportEvent, CheckLink, WellFormed, PayloadOut;
    var m1 := m.(opmode := m.opmode - {TXDATA, TXRXPEND}, job := Idle);
    var m1' := m1.(opmode := m1.opmode - {LINKDEAD});
    var alive := flags * {DNW1, DNW2} != {} && LINKDEAD in m1.opmode;
    NoPayload(Hangs);
    UnaskedReport(m1', EV_LINK_ALIVE, flags, now, luck);
    var (m2, outs2) := if alive then ReportEvent(m1', EV_LINK_ALIVE, flags, now, luck) else (m1, []);
    UnaskedReport(m2, EV_TXCOMPLETE, flags, now, luck);
    var (m3, outs3) := ReportEvent(m2, EV_TXCOMPLETE, flags, now, luck);
    UnaskedLink(m3, flags, now, luck);
    PayloadTwo(outs2, outs3);
    PayloadTwo(outs2 + outs3, CheckLink(m3, flags, now, luck).1);
  }

  lemma UnaskedWindows(m: Mac, f: Reception, rxtime: int, now: int, luck: Luck)
    requires Proper(m) && m.joined && Received(f) && (TXDATA !in m.opmode || f.Frame? || m.txCnt == 0)
    ensures var (m1, outs) := ProcessDnData(m, f, rxtime, now, luck); Unasked(m1) && !PayloadOut(outs)
  {
    hide TxComplete, EngineUpdate, Accept, Retried, PayloadOut, WellFormed;
    if f.Frame? {
      AcceptAsks(m, f, now);
      var (m1, flags) := Accept(m, f, now);
      UnaskedComplete(m1, flags, now, luck);
    } else if 0 < m.txCnt < TXCONF_ATTEMPTS {
      RetriedAsks(m, rxtime, luck.r);
      UnaskedUpdate(Retried(m, rxtime, luck.r), now, luck);
    } else {
      UnaskedComplete(Lonelier(m), if m.txCnt != 0 then {NACK, NOPORT} else {NOPORT}, now, luck);
    }
  }

  lemma RetriedAsks(m: Mac, rxtime: int, r: nat)
    ensures var m1 := Retried(m, rxtime, r); m1.joined == m.joined && (TXDATA in m1.opmode <==> TXDATA in m.opmode)
  {
    hide RndDelay, S32, LowerDr;
  }

  // ---------------------------------------------------------------- from the hand-over on

  /** The data waits for its frame, which carries it exactly if it is to be sent. */
  predicate Waits(m: Mac, good: bool) {
    Calm(m) && TXDATA in m.opmode && TXRXPEND !in m.opmode && m.txCnt == 0 && (good <==> Fits(m, m.pendTxLen))
  }

  /** Good data waits or has been sent; other data waits, has a frame without it on the air, or has been dropped. */
  predicate Stage(m: Mac, sent: bool, good: bool) {
    if good then sent || Waits(m, good)
    else
      && !sent && Proper(m) && m.joined
      && (TXDATA in m.opmode ==> Waits(m, good) || (TXRXPEND in m.opmode && m.txCnt == 0))
  }

  lemma UpdateStage(m: Mac, good: bool, now: int, luck: Luck)
    requires Waits(m, good)
    ensures var (m1, outs) := EngineUpdate(m, now, luck); Stage(m1, PayloadOut(outs), good)
  {
    hide Transmit, S32, StartTime, PlaceFrame, WellFormed, PayloadOut;
    PlacedProper(m, now);
    assert TXDATA in m.opmode * {JOINING, REJOIN, TXDATA, POLL};
    NoPayload(Weighs(m, now));
    NoPayload(Hangs);
    PayloadTwo([Weighs(m, now)], [Hangs]);
    assert [Weighs(m, now), Hangs] == [Weighs(m, now)] + [Hangs];
    if PlaceFrame(m, now).Some? {
      var m1 := PlaceFrame(m, now).value;
      PlacedFlags(m, now);
      assert Waits(m1, good);
      PayloadSentExactly(m1, now);
      var outs := Transmit(m1, now).1;
      assert outs == [outs[0]];
      NoPayload(outs[0]);
      PayloadTwo([Weighs(m, now)], outs);
      NoPayload(Wake(StartTime(m1) - TX_RAMPUP));
      PayloadTwo([Weighs(m, now)], [Wake(StartTime(m1) - TX_RAMPUP)]);
      assert [Weighs(m, now), Wake(StartTime(m1) - TX_RAMPUP)] == [Weighs(m, now)] + [Wake(StartTime(m1) - TX_RAMPUP)];
    }
  }

  lemma StepStage(m: Mac, sent: bool, good: bool, e: Event)
    requires Stage(m, sent, good) && Proper(m) && Possible(m, e) && Undisturbed(e)
    ensures var (m1, outs) := Step(m, e); Stage(m1, sent || PayloadOut(outs), good)
  {
    hide EngineUpdate, ProcessDnData, PayloadOut, WellFormed, Waits;
    if !(good && sent) {
      if Waits(m, good) {
        WaitsFree(m, good);
        assert e.Timer?;
        UpdateStage(m, good, e.now, e.luck);
      } else if e.Timer? {
        if TXDATA in m.opmode {
          PendingUpdate(m, e.now, e.luck);
          NoPayload(Hangs);
        } else {
          UnaskedUpdate(m, e.now, e.luck);
        }
      } else {
        UnaskedWindows(m, e.f, e.rxtime, e.now, e.luck);
      }
    }
  }

  lemma WaitsFree(m: Mac, good: bool)
    requires Waits(m, good)
    ensures TXRXPEND !in m.opmode && TXDATA in m.opmode
  {
  }

  lemma PendingUpdate(m: Mac, now: int, luck: Luck)
    requires Proper(m) && TXRXPEND in m.opmode
    ensures EngineUpdate(m, now, luck) == (m, [])
  {
  }

  /** LMIC_setTxData2, and from then on only timers and receive windows. */
  ghost predicate Handover(states: seq<Mac>, events: seq<Event>) {
    && IsRun(states, events) && events != [] && events[0].SetTxData? && Calm(states[0])
    && forall i :: 1 <= i < |events| ==> Undisturbed(events[i])
  }

  /** No transaction is pending and the payload fits beside the options. */
  predicate Taken(m: Mac, len: nat) {
    TXRXPEND !in m.opmode && Fits(m, len)
  }

  lemma HandoverStage(m: Mac, e: Event)
    requires e.SetTxData? && Calm(m)
    ensures var (m1, outs) := Step(m, e); Stage(m1, PayloadOut(outs), Taken(m, e.len))
  {
    var m0 := Stored(m, e.len, e.confirmed);
    if TXRXPEND in m.opmode {
      PendingUpdate(m0, e.now, e.luck);
      NoPayload(Hangs);
    } else {
      assert Waits(m0, Taken(m, e.len));
      UpdateStage(m0, Taken(m, e.len), e.now, e.luck);
    }
    hide EngineUpdate, PayloadOut;
  }

  lemma {:induction false} StaysInStage(states: seq<Mac>, events: seq<Event>, n: nat)
    requires Handover(states, events) && 1 <= n <= |events|
    ensures Stage(states[n], PayloadOut(Outputs(states, events, n)), Taken(states[0], events[0].len))
  {
    hide Step, Possible, Stage, PayloadOut, Calm, Undisturbed, Taken;
    if n == 1 {
      HandoverStage(states[0], events[0]);
      assert Outputs(states, events, 1) == Outputs(states, events, 0) + Step(states[0], events[0]).1
             == Step(states[0], events[0]).1;
    } else {
      StaysInStage(states, events, n - 1);
      StepStage(states[n - 1], PayloadOut(Outputs(states, events, n - 1)), Taken(states[0], events[0].len),
                events[n - 1]);
      PayloadTwo(Outputs(states, events, n - 1), Step(states[n - 1], events[n - 1]).1);
    }
  }

  /**
   By the time the request to send has been cleared, the data has gone out if and only if no
   transaction was pending at the hand-over and it fitted beside the pending options. Otherwise
   it has been dropped, and what follows does not carry it either.
   */
  lemma DataSentExactly(states: seq<Mac>, events: seq<Event>)
    requires Handover(states, events) && TXDATA !in states[|events|].opmode
    ensures PayloadOut(Outputs(states, events, |events|)) <==> Taken(states[0], events[0].len)
  {
    hide Step, Possible, PayloadOut, Calm, Undisturbed, Taken;
    StaysInStage(states, events, |events|);
  }
}
