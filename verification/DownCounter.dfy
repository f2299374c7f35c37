/**
 decodeFrame up to its option loop: which downlink frames are accepted, how the 32-bit
 frame number is rebuilt from the sixteen bits on the air, and what the number's history
 is over a session.
 */
module DownCounter {
  import opened Common

  type Byte = x: int | 0 <= x < 256
  type u4 = x: int | 0 <= x < 0x1_0000_0000

  const OFF_DAT_ADDR := 1
  const OFF_DAT_FCT := 5
  const OFF_DAT_SEQNO := 6
  const OFF_DAT_OPTS := 8
  const HDR_FTYPE_DADN := 0x60
  const HDR_FTYPE_DCDN := 0xA0
  const LAST: u4 := 0xFFFF_FFFF

  /** The frame number, address and bytes a message integrity code is checked for. */
  type Mic = (u4, seq<Byte>) -> bool

  datatype Session = Session(devaddr: u4, seqnoDn: u4, dnConf: bool)

  /** What is read from an accepted frame: a port if there is one, and where its payload lies. */
  datatype Reading = Reading(seqno: u4, replay: bool, confirmed: bool, ack: bool, more: bool,
                             port: Option<Byte>, dataBeg: int, dataLen: int)

  function Ftype(hdr: Byte): int {
    hdr / 32 * 32
  }

  function Lsbf2(d: seq<Byte>, i: nat): int
    requires i + 2 <= |d|
  {
    (d[i] as int) + 256 * (d[i + 1] as int)
  }

  function Lsbf4(d: seq<Byte>, i: nat): int
    requires i + 4 <= |d|
  {
    Lsbf2(d, i) + 65536 * Lsbf2(d, i + 2)
  }

  /** seqnoDn + (u2_t)(seqno - seqnoDn), before it is cut to 32 bits. */
  function Ahead(seqnoDn: u4, low: int): int {
    seqnoDn + (low - seqnoDn) % 0x1_0000
  }

  function Rebuild(seqnoDn: u4, low: int): u4 {
    Ahead(seqnoDn, low) % 0x1_0000_0000
  }

  /** A 32-bit value read as signed. */
  function Signed(x: u4): int {
    if x < 0x8000_0000 then x else x - 0x1_0000_0000
  }

  /** The checks before the counter: length, version, type, address, options within the frame. */
  predicate Sane(s: Session, d: seq<Byte>) {
    && |d| >= OFF_DAT_OPTS + 4
    && d[0] % 4 == 0 && Ftype(d[0]) in {HDR_FTYPE_DADN, HDR_FTYPE_DCDN}
    && Lsbf4(d, OFF_DAT_ADDR) == s.devaddr
    && OFF_DAT_OPTS + d[OFF_DAT_FCT] % 16 <= |d| - 4
  }

  /** The frame passes every check but the one that it is not obsolete. */
  predicate Authentic(s: Session, d: seq<Byte>, mic: Mic) {
    Sane(s, d) && mic(Rebuild(s.seqnoDn, Lsbf2(d, OFF_DAT_SEQNO)), d)
  }

  function Read(s: Session, d: seq<Byte>, replay: bool): Reading
    requires Sane(s, d)
  {
    var poff, pend := OFF_DAT_OPTS + d[OFF_DAT_FCT] % 16, |d| - 4;
    var begin := if pend > poff then poff + 1 else poff;
    Reading(Rebuild(s.seqnoDn, Lsbf2(d, OFF_DAT_SEQNO)), replay, Ftype(d[0]) == HDR_FTYPE_DCDN,
            d[OFF_DAT_FCT] / 32 % 2 == 1, d[OFF_DAT_FCT] / 16 % 2 == 1,
            if pend > poff then Some(d[poff]) else None, begin, if pend > poff then pend - begin else 0)
  }

  /** The session after a frame, and what was read if it was accepted. */
  function Decode(s: Session, d: seq<Byte>, mic: Mic): (Session, Option<Reading>) {
    if !Authentic(s, d, mic) then (s, None)
    else
      var seqno := Rebuild(s.seqnoDn, Lsbf2(d, OFF_DAT_SEQNO));
      if seqno < s.seqnoDn then
        if Signed(seqno) > Signed(s.seqnoDn) then (s, None)
        else if seqno != s.seqnoDn - 1 || !s.dnConf || Ftype(d[0]) != HDR_FTYPE_DCDN then (s, None)
        else (s, Some(Read(s, d, true)))
      else
        (Session(s.devaddr, (seqno + 1) % 0x1_0000_0000, Ftype(d[0]) == HDR_FTYPE_DCDN), Some(Read(s, d, false)))
  }

  // ---------------------------------------------------------------- one frame

  /** Rebuilding finds the least number from seqnoDn on with the sixteen bits received. */
  lemma LeastNotBelow(seqnoDn: u4, low: int, x: int)
    requires 0 <= low < 0x1_0000
    ensures seqnoDn <= Ahead(seqnoDn, low) && Ahead(seqnoDn, low) % 0x1_0000 == low
    ensures seqnoDn <= x && x % 0x1_0000 == low ==> Ahead(seqnoDn, low) <= x
  {
  }

  /** A number cut to 32 bits is below seqnoDn, and then the roll-over check rejects it. */
  lemma WrapRejected(seqnoDn: u4, low: int)
    requires 0 <= low < 0x1_0000
    ensures Rebuild(seqnoDn, low) < seqnoDn <==> Ahead(seqnoDn, low) >= 0x1_0000_0000
    ensures Rebuild(seqnoDn, low) < seqnoDn ==> Signed(Rebuild(seqnoDn, low)) > Signed(seqnoDn)
  {
  }

  /** The replay branch is never taken: a frame is accepted exactly if authentic and not rolled over. */
  lemma AcceptedExactly(s: Session, d: seq<Byte>, mic: Mic)
    ensures var (s', r) := Decode(s, d, mic);
            && (r.Some? <==> Authentic(s, d, mic) && Ahead(s.seqnoDn, Lsbf2(d, OFF_DAT_SEQNO)) < 0x1_0000_0000)
            && (r.None? ==> s' == s)
            && (r.Some? ==> !r.value.replay
                            && s.seqnoDn <= r.value.seqno == Ahead(s.seqnoDn, Lsbf2(d, OFF_DAT_SEQNO))
                            && s'.seqnoDn == (r.value.seqno + 1) % 0x1_0000_0000)
  {
    if Authentic(s, d, mic) {
      WrapRejected(s.seqnoDn, Lsbf2(d, OFF_DAT_SEQNO));
    }
  }

  /** What is read of an accepted frame lies between the options and the integrity code. */
  lemma PayloadInFrame(s: Session, d: seq<Byte>, mic: Mic)
    requires Decode(s, d, mic).1.Some?
    ensures var r := Decode(s, d, mic).1.value;
            && OFF_DAT_OPTS <= r.dataBeg && 0 <= r.dataLen
            && (r.port.Some? ==> r.dataBeg + r.dataLen == |d| - 4 && r.port == Some(d[r.dataBeg - 1]))
            && (r.port.None? ==> r.dataLen == 0 && r.dataBeg == |d| - 4)
  {
  }

  /** What an accepted frame may make of the counter: one more than a number at most 0xFFFF ahead. */
  predicate MayFollow(was: nat, now: nat) {
    (was < now <= was + 0x1_0000 && now < 0x1_0000_0000) || (now == 0 && was >= 0xFFFF_0000)
  }

  /** Accepted frames move the counter in just these ways: each is the work of some sixteen bits received. */
  lemma FollowsExactly(was: u4, now: u4)
    ensures MayFollow(was, now) <==>
              exists low :: 0 <= low < 0x1_0000 && Ahead(was, low) < 0x1_0000_0000
                            && now == (Ahead(was, low) + 1) % 0x1_0000_0000
  {
    if MayFollow(was, now) {
      var seqno := if now == 0 then 0xFFFF_FFFF else now - 1;
      LeastNotBelow(was, seqno % 0x1_0000, seqno);
      SameLowHalf(was, seqno);
    }
  }

  lemma SameLowHalf(was: u4, seqno: int)
    requires was <= seqno < was + 0x1_0000
    ensures Ahead(was, seqno % 0x1_0000) == seqno
  {
  }

  /** The counter after an accepted frame. */
  lemma AcceptedFollows(s: Session, d: seq<Byte>, mic: Mic)
    requires Decode(s, d, mic).1.Some?
    ensures MayFollow(s.seqnoDn, Decode(s, d, mic).0.seqnoDn)
  {
    AcceptedExactly(s, d, mic);
    FollowsExactly(s.seqnoDn, Decode(s, d, mic).0.seqnoDn);
  }

  // ---------------------------------------------------------------- sessions

  datatype Frame = Frame(d: seq<Byte>, mic: Mic)

  /** A frame arrives, or an uplink goes out that carries the pending acknowledgement. */
  datatype Event = Arrives(frame: Frame) | Sends

  datatype History = History(session: Session, accepted: seq<Frame>, numbers: seq<u4>)

  function Step(h: History, event: Event): History {
    match event
    case Sends => h.(session := h.session.(dnConf := false))
    case Arrives(frame) =>
      var (s, r) := Decode(h.session, frame.d, frame.mic);
      if r.None? then h.(session := s) else History(s, h.accepted + [frame], h.numbers + [r.value.seqno])
  }

  function After(s0: Session, events: seq<Event>): History {
    if events == [] then History(s0, [], []) else Step(After(s0, events[..|events| - 1]), events[|events| - 1])
  }

  predicate Increasing(q: seq<u4>) {
    forall i, j :: 0 <= i < j < |q| ==> q[i] < q[j]
  }

  /** The last possible number is not in the sequence, except perhaps at its end. */
  predicate LastOnlyAtEnd(q: seq<u4>) {
    forall i :: 0 <= i < |q| - 1 ==> q[i] != LAST
  }

  /** The counter is ahead of every number accepted, until the last one is. */
  predicate CounterAhead(h: History) {
    (forall i :: 0 <= i < |h.numbers| ==> h.numbers[i] != LAST) ==>
      forall i :: 0 <= i < |h.numbers| ==> h.numbers[i] < h.session.seqnoDn
  }

  ghost predicate InStep(h: History) {
    && |h.accepted| == |h.numbers|
    && CounterAhead(h)
    && (LastOnlyAtEnd(h.numbers) ==> Increasing(h.numbers))
    && (forall i :: 0 <= i < |h.accepted| ==> h.accepted[i].mic(h.numbers[i], h.accepted[i].d))
  }

  lemma StepKeepsInStep(h: History, event: Event)
    requires InStep(h)
    ensures InStep(Step(h, event))
  {
    hide Rebuild, Ahead, Decode, Authentic;
    if event.Arrives? {
      var (s, r) := Decode(h.session, event.frame.d, event.frame.mic);
      AcceptedExactly(h.session, event.frame.d, event.frame.mic);
      if r.Some? {
        MicChecked(h.session, event.frame.d, event.frame.mic);
        NumbersGrow(h.numbers, h.session.seqnoDn, r.value.seqno);
      }
    }
  }

  lemma MicChecked(s: Session, d: seq<Byte>, mic: Mic)
    requires Decode(s, d, mic).1.Some?
    ensures mic(Decode(s, d, mic).1.value.seqno, d)
  {
  }

  lemma NumbersGrow(numbers: seq<u4>, seqnoDn: u4, n: u4)
    requires seqnoDn <= n
    requires (forall i :: 0 <= i < |numbers| ==> numbers[i] != LAST) ==>
               forall i :: 0 <= i < |numbers| ==> numbers[i] < seqnoDn
    requires LastOnlyAtEnd(numbers) ==> Increasing(numbers)
    ensures LastOnlyAtEnd(numbers + [n]) ==> Increasing(numbers + [n])
    ensures var longer := numbers + [n];
            (forall i :: 0 <= i < |longer| ==> longer[i] != LAST) ==>
              forall i :: 0 <= i < |longer| ==> longer[i] < (n + 1) % 0x1_0000_0000
  {
    var longer := numbers + [n];
    if LastOnlyAtEnd(longer) {
      forall i | 0 <= i < |numbers|
        ensures numbers[i] != LAST
      {
        assert longer[i] == numbers[i];
      }
    }
    if forall i :: 0 <= i < |longer| ==> longer[i] != LAST {
      assert longer[|numbers|] == n;
      forall i | 0 <= i < |numbers|
        ensures numbers[i] != LAST
      {
        assert longer[i] == numbers[i];
      }
    }
  }

  lemma {:induction false} AlwaysInStep(s0: Session, events: seq<Event>)
    ensures InStep(After(s0, events))
  {
    if events != [] {
      AlwaysInStep(s0, events[..|events| - 1]);
      StepKeepsInStep(After(s0, events[..|events| - 1]), events[|events| - 1]);
    }
  }

  /** The n-th event is a frame that gets past every check, the number it stands for within 32 bits. */
  predicate Taken(s0: Session, events: seq<Event>, n: nat)
    requires n < |events|
  {
    events[n].Arrives? &&
    var s, frame := After(s0, events[..n]).session, events[n].frame;
    Authentic(s, frame.d, frame.mic) && Ahead(s.seqnoDn, Lsbf2(frame.d, OFF_DAT_SEQNO)) < 0x1_0000_0000
  }

  /** And that number is the last there is, 0xFFFFFFFF: the counter goes back to zero. */
  predicate TakenLast(s0: Session, events: seq<Event>, n: nat)
    requires n < |events|
  {
    Taken(s0, events, n) &&
    Ahead(After(s0, events[..n]).session.seqnoDn, Lsbf2(events[n].frame.d, OFF_DAT_SEQNO)) == LAST
  }

  ghost predicate LastSeen(s0: Session, events: seq<Event>) {
    exists m :: 0 <= m < |events| && TakenLast(s0, events, m)
  }

  /** A frame is taken after the one that sent the counter back to zero. */
  ghost predicate TakenAfterLast(s0: Session, events: seq<Event>) {
    exists m, n :: 0 <= m < n < |events| && TakenLast(s0, events, m) && Taken(s0, events, n)
  }

  lemma TakenEarlier(s0: Session, events: seq<Event>, n: nat)
    requires n < |events| - 1
    ensures Taken(s0, events[..|events| - 1], n) == Taken(s0, events, n)
    ensures TakenLast(s0, events[..|events| - 1], n) == TakenLast(s0, events, n)
  {
    assert events[..|events| - 1][..n] == events[..n];
  }

  /** What the event at the end adds to the numbers. */
  lemma TakenAtEnd(s0: Session, events: seq<Event>)
    requires events != []
    ensures var last := |events| - 1;
            var before, now := After(s0, events[..last]).numbers, After(s0, events).numbers;
            if !Taken(s0, events, last) then now == before && !TakenLast(s0, events, last)
            else
              && |now| == |before| + 1 && now[..|before|] == before
              && (now[|before|] == LAST <==> TakenLast(s0, events, last))
  {
    hide Ahead, Authentic, Decode;
    var last := |events| - 1;
    if events[last].Arrives? {
      var h, frame := After(s0, events[..last]), events[last].frame;
      AcceptedExactly(h.session, frame.d, frame.mic);
      assert After(s0, events) == Step(h, events[last]);
      var r := Decode(h.session, frame.d, frame.mic).1;
      assert Taken(s0, events, last) <==> r.Some?;
      assert r.None? ==> Step(h, events[last]).numbers == h.numbers;
      assert r.Some? ==> Step(h, events[last]).numbers == h.numbers + [r.value.seqno];
    }
  }

  lemma {:induction false} LastSeenInNumbers(s0: Session, events: seq<Event>)
    ensures LAST in After(s0, events).numbers <==> LastSeen(s0, events)
    ensures LastOnlyAtEnd(After(s0, events).numbers) <==> !TakenAfterLast(s0, events)
  {
    hide Taken, TakenLast;
    if events != [] {
      hide After;
      var last := |events| - 1;
      LastSeenInNumbers(s0, events[..last]);
      TakenAtEnd(s0, events);
      forall n | 0 <= n < last
        ensures Taken(s0, events[..last], n) == Taken(s0, events, n)
        ensures TakenLast(s0, events[..last], n) == TakenLast(s0, events, n)
      {
        TakenEarlier(s0, events, n);
      }
      LongerNumbers(After(s0, events[..last]).numbers, After(s0, events).numbers);
      assert LastSeen(s0, events) <==> LastSeen(s0, events[..last]) || TakenLast(s0, events, last);
      assert TakenAfterLast(s0, events) <==>
             TakenAfterLast(s0, events[..last]) || (LastSeen(s0, events[..last]) && Taken(s0, events, last));
    }
  }

  lemma LongerNumbers(before: seq<u4>, now: seq<u4>)
    requires now == before || (|now| == |before| + 1 && now[..|before|] == before)
    ensures LAST in now <==> LAST in before || (now != before && now[|before|] == LAST)
    ensures LastOnlyAtEnd(now) <==> LastOnlyAtEnd(before) && (now == before || LAST !in before)
  {
    if now != before {
      assert now == before + [now[|before|]];
      if LastOnlyAtEnd(now) {
        forall i | 0 <= i < |before|
          ensures before[i] != LAST
        {
          assert now[i] == before[i];
        }
      }
    }
  }

  /**
   Over a session the accepted numbers strictly increase exactly if no frame is taken after
   one whose number is 0xFFFFFFFF, which sends the counter back to zero.
   */
  lemma NumbersIncreaseExactly(s0: Session, events: seq<Event>)
    ensures Increasing(After(s0, events).numbers) <==> !TakenAfterLast(s0, events)
  {
    AlwaysInStep(s0, events);
    LastSeenInNumbers(s0, events);
    var q := After(s0, events).numbers;
    if !LastOnlyAtEnd(q) {
      var i :| 0 <= i < |q| - 1 && q[i] == LAST;
      assert q[i + 1] <= q[i];
    }
  }

  /** A code that binds the frame number is passed under one number only. */
  ghost predicate Binds(mic: Mic) {
    forall a: u4, b: u4, d: seq<Byte> :: mic(a, d) && mic(b, d) ==> a == b
  }

  /** With such a code no frame is accepted twice, whoever sends it again. */
  lemma NoFrameTwice(s0: Session, events: seq<Event>, mic: Mic, i: nat, j: nat)
    requires Binds(mic) && !TakenAfterLast(s0, events)
    requires i < j < |After(s0, events).accepted|
    requires After(s0, events).accepted[i].mic == After(s0, events).accepted[j].mic == mic
    ensures After(s0, events).accepted[i].d != After(s0, events).accepted[j].d
  {
    AlwaysInStep(s0, events);
    LastSeenInNumbers(s0, events);
  }

  /**
   The engine resets a session whose counter is at 0xFFFFFF80 or above, but only when it
   builds an uplink: one frame can take the counter from below that zone to zero.
   */
  lemma ResetZoneJumped(s: Session, d: seq<Byte>, mic: Mic)
    requires 0xFFFF_0000 <= s.seqnoDn < 0xFFFF_FF80
    requires Authentic(s, d, mic) && Lsbf2(d, OFF_DAT_SEQNO) == 0xFFFF
    ensures Decode(s, d, mic).1.Some? && Decode(s, d, mic).0.seqnoDn == 0
  {
  }

  // ---------------------------------------------------------------- the state that is updated

  class Lmic {
    var devaddr: u4
    var seqnoDn: u4
    var dnConf: bool
    var poll: bool
    var dataBeg: int
    var dataLen: int

    function Current(): Session
      reads this
    {
      Session(devaddr, seqnoDn, dnConf)
    }

    /** decodeFrame up to the options; reading is what the rest of it goes on with. */
    method DecodeFrame(d: seq<Byte>, mic: Mic) returns (reading: Option<Reading>)
      modifies this
      ensures (Current(), reading) == Decode(old(Current()), d, mic)
      ensures reading.None? ==> dataLen == 0 && dataBeg == old(dataBeg) && poll == old(poll)
      ensures reading.Some? ==> dataBeg == reading.value.dataBeg && dataLen == reading.value.dataLen
      ensures reading.Some? ==> (poll <==> old(poll) || reading.value.confirmed || reading.value.more)
    {
      hide Ahead;
      var dlen := |d|;
      if dlen < OFF_DAT_OPTS + 4 || d[0] % 4 != 0 || (Ftype(d[0]) != HDR_FTYPE_DADN && Ftype(d[0]) != HDR_FTYPE_DCDN) {
        dataLen := 0;
        return None;
      }
      var ftype, fct := Ftype(d[0]), d[OFF_DAT_FCT];
      var addr := Lsbf4(d, OFF_DAT_ADDR);
      var poff, pend := OFF_DAT_OPTS + fct % 16, dlen - 4;
      if addr != devaddr || poff > pend {
        dataLen := 0;
        return None;
      }
      var port, replayConf := None, false;
      if pend > poff {
        port := Some(d[poff]);
        poff := poff + 1;
      }
      var seqno := Rebuild(seqnoDn, Lsbf2(d, OFF_DAT_SEQNO));
      if !mic(seqno, d) {
        dataLen := 0;
        return None;
      }
      if seqno < seqnoDn {
        if Signed(seqno) > Signed(seqnoDn) || seqno != seqnoDn - 1 || !dnConf || ftype != HDR_FTYPE_DCDN {
          dataLen := 0;
          return None;
        }
        replayConf := true;
      } else {
        seqnoDn := (seqno + 1) % 0x1_0000_0000;
        dnConf := ftype == HDR_FTYPE_DCDN;
      }
      if dnConf || fct / 16 % 2 == 1 {
        poll := true;
      }
      dataBeg := poff;
      dataLen := if port.None? then 0 else pend - poff;
      reading := Some(Reading(seqno, replayConf, ftype == HDR_FTYPE_DCDN, fct / 32 % 2 == 1, fct / 16 % 2 == 1,
                              port, dataBeg, dataLen));
    }
  }
}
