/**
 The engine functions of lmic.c on the fields of the LMIC structure, in their widths: opmode
 a word of bits, times 32 bits compared by signed difference, counters of 8 or 32 bits,
 channels in maps and frequency words. A ghost field holds the state of the unbounded machine
 of MacMachine that these fields stand for, times modulo 2^32. Each method is proved to take
 the machine's step and to do to radio, timer and application what the machine puts out; now is
 what the clock shows and t the true time. Methods are called where the channel search ends.
 */
module MacEngine {
  import opened Common
  import opened Ticks
  import Channels
  import opened Airtime
  import opened MacMachine
  import opened MacWords

  const MAX_LEN_PAYLOAD := 52

  /** What the receive windows brought, an accepted frame with the effect of its MAC commands on the fields. */
  datatype Heard =
    | Silence
    | Downlink(window: Flag, ack: bool, confirmed: bool, more: bool, port: bool, seqnoDn: u4,
               table: Table, dr: Option<Dr>, duty: Option<u1>, adr: bool, answers: u1)

  predicate Sensible(h: Heard) {
    h.Downlink? ==> h.window in {DNW1, DNW2} && Sized(h.table) && h.answers <= 15
  }

  function Meaning(h: Heard): (f: Reception)
    requires Sensible(h)
    ensures Received(f)
  {
    match h
    case Silence => Nothing
    case Downlink(window, ack, confirmed, more, port, seqnoDn, table, dr, duty, adr, answers) =>
      Frame(window, ack, confirmed, more, port, seqnoDn,
            Commands(PlanOf(table), dr, if duty.None? then None else Some(duty.value), adr, answers))
  }

  datatype Counters = Counters(seqnoUp: int, seqnoDn: int, rejoinCnt: int, errcr: int, adrAckReq: int,
                               adrChanged: bool, dnConf: bool)

  datatype Pending = Pending(conf: bool, len: int, opts: int)

  predicate SameChannels(bands: seq<Band32>, table: Table, txChnl: u1, mbands: seq<Channels.Band>, plan: Channels.Plan,
                         mtxChnl: nat) {
    SameBands(bands, mbands) && Sized(table) && PlanOf(table) == plan && txChnl == mtxChnl
  }

  predicate SameTimes(txend: u4, rate: u1, avail: u4, mtxend: int, mrate: nat, mavail: int) {
    Same(txend, mtxend) && rate == mrate && Same(avail, mavail)
  }

  class Lmic {
    var opmode: bv16
    var devaddr: u4
    var osjob: Job
    var bands: seq<Band32>
    /** channelFreq, channelDrMap and channelMap. */
    var channels: Table
    var txChnl: u1
    var txend: u4
    var datarate: Dr
    var errcr: Cr
    var rejoinCnt: u1
    var globalDutyRate: u1
    var globalDutyAvail: u4
    var seqnoUp: u4
    var seqnoDn: u4
    var txCnt: u1
    var adrAckReq: s1
    var adrChanged: bool
    var dnConf: bool
    var pendTxConf: bool
    var pendTxLen: u1
    /** The length of the MAC answers that are pending. */
    var pendOpts: u1
    /** The machine's state. */
    ghost var mac: Mac

    ghost predicate Valid()
      reads this
    {
      && Proper(mac)
      && Flags(opmode) == mac.opmode && osjob == mac.job && datarate == mac.datarate && txCnt == mac.txCnt % 256
      && (JOINING !in mac.opmode ==> mac.txCnt <= TXCONF_ATTEMPTS)
      && SameChannels(bands, channels, txChnl, mac.bands, mac.plan, mac.txChnl)
      && SameTimes(txend, globalDutyRate, globalDutyAvail, mac.txend, mac.globalDutyRate, mac.globalDutyAvail)
      && (devaddr != 0 <==> mac.joined)
      && Counters(seqnoUp, seqnoDn, rejoinCnt, errcr, adrAckReq, adrChanged, dnConf) ==
         Counters(mac.seqnoUp, mac.seqnoDn, mac.rejoinCnt, mac.errcr, mac.adrAckReq, mac.adrChanged, mac.dnConf)
      && Pending(pendTxConf, pendTxLen, pendOpts) == Pending(mac.pendTxConf, mac.pendTxLen, mac.pendOpts)
      && pendTxLen <= MAX_LEN_PAYLOAD
    }

    /** opmode |= OP_... */
    method Raise(op: Op)
      requires Valid()
      modifies this
      ensures Valid() && mac == old(mac).(opmode := old(mac).opmode + {op})
    {
      hide Has, With, SameChannels, SameTimes, Channels.WellFormed;
      SetFlag(opmode, op);
      opmode := With(opmode, op);
      mac := mac.(opmode := mac.opmode + {op});
    }

    /** opmode &= ~OP_... */
    method Lower(op: Op)
      requires Valid() && (op == JOINING ==> mac.txCnt <= TXCONF_ATTEMPTS)
      modifies this
      ensures Valid() && mac == old(mac).(opmode := old(mac).opmode - {op})
    {
      hide Has, Without, SameChannels, SameTimes, Channels.WellFormed;
      ClearFlag(opmode, op);
      opmode := Without(opmode, op);
      mac := mac.(opmode := mac.opmode - {op});
    }

    // -------------------------------------------------------------- groups of fields

    lemma FlagIs(op: Op)
      requires Valid()
      ensures Has(opmode, op) <==> op in mac.opmode
    {
      hide Has, SameChannels, SameTimes, Channels.WellFormed;
    }

    /** The fields stand for the machine's. */
    lemma Fields()
      requires Valid()
      ensures Proper(mac) && osjob == mac.job && datarate == mac.datarate && txCnt == mac.txCnt % 256
      ensures JOINING !in mac.opmode ==> mac.txCnt <= TXCONF_ATTEMPTS
      ensures seqnoUp == mac.seqnoUp && seqnoDn == mac.seqnoDn && rejoinCnt == mac.rejoinCnt
      ensures adrAckReq == mac.adrAckReq && adrChanged == mac.adrChanged && dnConf == mac.dnConf
      ensures pendTxConf == mac.pendTxConf && pendTxLen == mac.pendTxLen <= MAX_LEN_PAYLOAD && pendOpts == mac.pendOpts
      ensures Same(txend, mac.txend)
      ensures globalDutyRate == mac.globalDutyRate && Same(globalDutyAvail, mac.globalDutyAvail)
      ensures SameBands(bands, mac.bands) && Sized(channels) && PlanOf(channels) == mac.plan && txChnl == mac.txChnl
    {
      hide Flags, Same, SameBands, PlanOf, Sized, Proper;
    }

    /** The transaction: what it waits for, at which rate, for the how manieth time. */
    method PutTry(job: Job, dr: Dr, v: u1, ghost n: nat)
      requires Valid() && v == n % 256 && (JOINING !in mac.opmode ==> n <= TXCONF_ATTEMPTS)
      modifies `osjob, `datarate, `txCnt, `mac
      ensures Valid() && mac == old(mac).(job := job, datarate := dr, txCnt := n)
      ensures osjob == job && datarate == dr && txCnt == v
    {
      hide Flags, SameChannels, SameTimes, Channels.WellFormed;
      osjob, datarate, txCnt := job, dr, v;
      mac := mac.(job := job, datarate := dr, txCnt := n);
    }

    /** The counters of the session. */
    method PutCounts(up: u4, dn: u4, rejoins: u1)
      requires Valid()
      modifies `seqnoUp, `seqnoDn, `rejoinCnt, `mac
      ensures Valid() && mac == old(mac).(seqnoUp := up, seqnoDn := dn, rejoinCnt := rejoins)
    {
      hide Flags, SameChannels, SameTimes, Channels.WellFormed;
      seqnoUp, seqnoDn, rejoinCnt := up, dn, rejoins;
      mac := mac.(seqnoUp := up, seqnoDn := dn, rejoinCnt := rejoins);
    }

    /** What is owed to the network, and for how long it has not been heard. */
    method PutLink(ackReq: s1, changed: bool, conf: bool)
      requires Valid()
      modifies `adrAckReq, `adrChanged, `dnConf, `mac
      ensures Valid() && mac == old(mac).(adrAckReq := ackReq, adrChanged := changed, dnConf := conf)
    {
      hide Flags, SameChannels, SameTimes, Channels.WellFormed;
      adrAckReq, adrChanged, dnConf := ackReq, changed, conf;
      mac := mac.(adrAckReq := ackReq, adrChanged := changed, dnConf := conf);
    }

    /** What waits to be sent: the payload and the MAC answers. */
    method PutPending(conf: bool, len: u1, opts: u1)
      requires Valid() && len <= MAX_LEN_PAYLOAD && opts <= 15
      modifies `pendTxConf, `pendTxLen, `pendOpts, `mac
      ensures Valid() && mac == old(mac).(pendTxConf := conf, pendTxLen := len, pendOpts := opts)
    {
      hide Flags, SameChannels, SameTimes, Channels.WellFormed;
      pendTxConf, pendTxLen, pendOpts := conf, len, opts;
      mac := mac.(pendTxConf := conf, pendTxLen := len, pendOpts := opts);
    }

    /** When the next frame may start, for its channel and for the device. */
    method PutTimes(end: u4, ghost te: int, rate: u1, avail: u4, ghost ta: int)
      requires Valid() && Same(end, te) && Same(avail, ta)
      modifies `txend, `globalDutyRate, `globalDutyAvail, `mac
      ensures Valid() && mac == old(mac).(txend := te, globalDutyRate := rate, globalDutyAvail := ta)
    {
      hide Flags, SameChannels, Same, Channels.WellFormed;
      txend, globalDutyRate, globalDutyAvail := end, rate, avail;
      mac := mac.(txend := te, globalDutyRate := rate, globalDutyAvail := ta);
    }

    /** The channels, the bands, and the channel in use. */
    method PutChannels(words: seq<Band32>, ghost m: seq<Channels.Band>, table: Table, chnl: u1)
      requires Valid() && SameBands(words, m) && (forall b :: 0 <= b < 4 ==> m[b].lastchnl < 16)
      requires Sized(table) && chnl < 16
      modifies `bands, `channels, `txChnl, `mac
      ensures Valid() && mac == old(mac).(bands := m, plan := PlanOf(table), txChnl := chnl)
      ensures channels == table && txChnl == chnl
    {
      hide Flags, SameTimes, PlanOf, Same;
      PlanFits(mac, table);
      bands, channels, txChnl := words, table, chnl;
      mac := mac.(bands := m, plan := PlanOf(table), txChnl := chnl);
    }

    // -------------------------------------------------------------- rates and delays

    /** setDrTxpow */
    method SetDrTxpow(dr: Dr)
      requires Valid()
      modifies this
      ensures Valid() && mac == SetDr(old(mac), dr)
    {
      hide Flags, SameChannels, SameTimes, Channels.WellFormed;
      if datarate != dr {
        PutTry(osjob, dr, txCnt, mac.txCnt);
        Raise(NEXTCHNL);
      }
    }

    /** txDelay */
    method DelayTx(reftime: u4, ghost t: int, secSpan: nat, r: nat)
      requires Valid() && Same(reftime, t)
      modifies this
      ensures Valid() && mac == TxDelay(old(mac), t, secSpan, r)
    {
      hide Flags, SameChannels, Channels.WellFormed, RndDelay, S32, Same, Low32;
      var delayed := Low32(reftime + RndDelay(r, secSpan));
      SameSum(reftime, t, RndDelay(r, secSpan));
      SameDiff(delayed, t + RndDelay(r, secSpan), globalDutyAvail, mac.globalDutyAvail);
      if globalDutyRate == 0 || S32(delayed - globalDutyAvail) > 0 {
        PutTimes(txend, mac.txend, globalDutyRate, delayed, t + RndDelay(r, secSpan));
        Raise(RNDTX);
      }
    }

    // -------------------------------------------------------------- channels

    /** nextTx: the two loops over bands and channels, repeated with one band fewer. */
    method NextTx(now: u4, ghost t: int) returns (time: u4)
      requires Valid() && Same(now, t) && !Channels.NextTx(mac.bands, mac.plan, mac.datarate, t).Stall?
      modifies this
      ensures Valid()
      ensures var was := old(mac);
              var choice := Channels.NextTx(was.bands, was.plan, was.datarate, t);
              && Same(time, choice.time)
              && (choice.NoChannel? ==> mac == was)
              && (choice.Found? ==>
                    && choice.band < 4
                    && mac == was.(txChnl := choice.channel,
                                   bands := was.bands[choice.band := was.bands[choice.band].(
                                     lastchnl := choice.channel)]))
    {
      hide S32, Same, Flags, PlanOf, Channels.Usable, Channels.Select, Channels.Pick;
      var bmap: set<nat> := {0, 1, 2, 3};
      while true
        invariant Valid() && mac == old(mac)
        invariant Channels.Choose(mac.bands, mac.plan, mac.datarate, t, bmap)
                  == Channels.NextTx(mac.bands, mac.plan, mac.datarate, t)
        decreases |bmap|
      {
        var band;
        time, band := EarliestBand(now, t, bmap);
        Channels.SelectRange(mac.bands, bmap, 0, t + Channels.EIGHT_HOURS, 0);
        var chnl, found := UsableChannel(band);
        if found {
          TakeChannel(band, chnl);
          return;
        }
        bmap := bmap - {band};
        if bmap == {} {
          return;
        }
      }
    }

    method TakeChannel(band: nat, chnl: nat)
      requires Valid() && band < 4 && chnl < 16
      modifies this
      ensures Valid()
      ensures mac == old(mac).(txChnl := chnl, bands := old(mac).bands[band := old(mac).bands[band].(lastchnl := chnl)])
    {
      hide Same, Flags, PlanOf, SameTimes;
      PutChannels(bands[band := bands[band].(lastchnl := chnl)], mac.bands[band := mac.bands[band].(lastchnl := chnl)],
                  channels, chnl);
    }

    /** The band loop: the same band as on unbounded times, and its time modulo 2^32. */
    method EarliestBand(now: u4, ghost t: int, bmap: set<nat>) returns (mintime: u4, band: nat)
      requires Valid() && Same(now, t)
      ensures var choice := Channels.Select(mac.bands, bmap, 0, t + Channels.EIGHT_HOURS, 0);
              Same(mintime, choice.0) && band == choice.1
    {
      hide S32, Same, Flags, PlanOf, SameTimes, Low32;
      SameSum(now, t, Channels.EIGHT_HOURS);
      ghost var exact := t + Channels.EIGHT_HOURS;
      mintime, band := Low32(now + Channels.EIGHT_HOURS), 0;
      for bi := 0 to 4
        invariant Same(mintime, exact)
        invariant Channels.Select(mac.bands, bmap, bi, exact, band)
                  == Channels.Select(mac.bands, bmap, 0, t + Channels.EIGHT_HOURS, 0)
      {
        SameDiff(mintime, exact, bands[bi].avail, mac.bands[bi].avail);
        if bi in bmap && S32(mintime - bands[bi].avail) > 0 {
          band := bi;
          mintime, exact := bands[bi].avail, mac.bands[bi].avail;
        }
      }
    }

    method UsableChannel(band: nat) returns (chnl: nat, found: bool)
      requires Valid() && band < 4
      ensures Channels.Pick(mac.plan, mac.datarate, band, mac.bands[band].lastchnl, 16)
              == if found then Some(chnl) else None
      ensures chnl < 16
    {
      hide Flags, PlanOf, SameTimes, Channels.Usable, BitAt, Same;
      chnl := bands[band].lastchnl;
      for ci := 0 to 16
        invariant chnl < 16
        invariant Channels.Pick(mac.plan, mac.datarate, band, chnl, 16 - ci)
               == Channels.Pick(mac.plan, mac.datarate, band, mac.bands[band].lastchnl, 16)
      {
        chnl := chnl + 1;
        if chnl >= 16 {
          chnl := chnl - 16;
        }
        UsableBits(channels, datarate, band, chnl);
        if BitAt(channels.enabled, chnl) && BitAt(channels.drMap[chnl], datarate % 16)
           && channels.freq[chnl] % 4 == band {
          return chnl, true;
        }
      }
      found := false;
    }

    /** lowerDR */
    method LowerDR(dr0: Dr, n0: nat) returns (dr: Dr)
      ensures dr == LowerDr(dr0, n0)
    {
      dr := dr0;
      var n := n0;
      while n > 0
        invariant LowerDr(dr, n) == LowerDr(dr0, n0)
      {
        n := n - 1;
        dr := DecDr(dr);
      }
    }

    /** updateTx */
    method UpdateTX(txbeg: u4, ghost t: int, rps: Modem, dataLen: u1)
      requires Valid() && Same(txbeg, t)
      modifies this
      ensures Valid() && mac == UpdateTx(old(mac), t, rps, dataLen)
    {
      hide ComputedTicks, Flags, Same, Low32, Shl, SameTimes, SameBands, PlanOf, Channels.WellFormed;
      var airtime := CalcAirTime(rps, dataLen);
      BandOfChannel();
      var b := channels.freq[txChnl] % 4;
      Block(b, txbeg, t, airtime);
      BlockDevice(txbeg, t, airtime);
    }

    /** The device is blocked too, if its duty cycle is limited. */
    method BlockDevice(txbeg: u4, ghost t: int, airtime: int)
      requires Valid() && Same(txbeg, t)
      modifies this
      ensures Valid()
      ensures mac == old(mac).(globalDutyAvail := if old(mac).globalDutyRate != 0
                                                  then t + Shl(airtime, old(mac).globalDutyRate)
                                                  else old(mac).globalDutyAvail)
    {
      hide Flags, Same, Low32, SameChannels, Shl, Channels.WellFormed;
      if globalDutyRate != 0 {
        SameSum(txbeg, t, Shl(airtime, globalDutyRate));
        PutTimes(txend, mac.txend, globalDutyRate, Low32(txbeg + Shl(airtime, globalDutyRate)),
                 t + Shl(airtime, globalDutyRate));
      }
    }

    lemma BandOfChannel()
      requires Valid()
      ensures txChnl < |channels.freq| && channels.freq[txChnl] % 4 == mac.plan.band[mac.txChnl]
    {
    }

    /** The band is blocked for its share of the airtime. */
    method Block(b: nat, txbeg: u4, ghost t: int, airtime: int)
      requires Valid() && Same(txbeg, t) && b < 4
      modifies this
      ensures Valid()
      ensures mac == old(mac).(bands := old(mac).bands[b := old(mac).bands[b].(
                                 avail := t + airtime * old(mac).bands[b].txcap)])
      ensures channels == old(channels) && txChnl == old(txChnl)
    {
      hide Flags, Same, Low32, PlanOf, SameTimes;
      var blocked := airtime * bands[b].txcap;
      SameSum(txbeg, t, blocked);
      PutChannels(bands[b := bands[b].(avail := Low32(txbeg + blocked))],
                  mac.bands[b := mac.bands[b].(avail := t + blocked)], channels, txChnl);
    }

    // -------------------------------------------------------------- sending

    /** buildDataFrame: its length, the counters and the pending answers. */
    method BuildFrame() returns (flen: u1, confirmed: bool, txdata: bool)
      requires Valid() && JOINING !in mac.opmode && (mac.txCnt == 0 ==> mac.seqnoUp < 0xFFFF_FFFF)
      modifies this
      ensures Valid() && (mac, flen, confirmed) == BuildDataFrame(old(mac)) && txdata == CarriesPayload(old(mac))
    {
      hide Flags, SameChannels, SameTimes, CarriesPayload, Channels.WellFormed;
      flen, txdata := FrameLength();
      Answer();
      confirmed := txdata && pendTxConf;
      Number(confirmed);
    }

    /** The payload goes with the frame if there is one to send and it fits beside the options. */
    method FrameLength() returns (flen: u1, txdata: bool)
      requires Valid()
      ensures txdata == CarriesPayload(mac)
              && flen == OFF_DAT_OPTS + mac.pendOpts + if txdata then 5 + mac.pendTxLen else 4
    {
      hide Flags, SameChannels, SameTimes, Has, Channels.WellFormed;
      FlagIs(TXDATA);
      FlagIs(POLL);
      txdata := Has(opmode, TXDATA) || !Has(opmode, POLL);
      var end := OFF_DAT_OPTS + pendOpts;
      flen := end + if txdata then 5 + pendTxLen else 4;
      if flen > MAX_LEN_FRAME {
        txdata := false;
        flen := end + 4;
      }
    }

    /** The pending answers go out with the frame, and a change of rate asks for a sign of the network. */
    method Answer()
      requires Valid()
      modifies this
      ensures Valid()
      ensures mac == old(mac).(pendOpts := 0, adrChanged := false,
                               adrAckReq := if old(mac).adrChanged && old(mac).adrAckReq < 0 then 0
                                            else old(mac).adrAckReq)
    {
      hide Flags, SameChannels, SameTimes, Channels.WellFormed, Proper;
      PutPending(pendTxConf, pendTxLen, 0);
      if adrChanged {
        PutLink(if adrAckReq < 0 then 0 else adrAckReq, false, dnConf);
      }
    }

    /**
     A new number unless the frame is a retry; the confirmation owed is out; the first try of a confirmed
     frame counts.
     */
    method Number(confirmed: bool)
      requires Valid() && JOINING !in mac.opmode && (mac.txCnt == 0 ==> mac.seqnoUp < 0xFFFF_FFFF)
      modifies this
      ensures Valid()
      ensures mac == old(mac).(dnConf := false,
                               seqnoUp := if old(mac).txCnt == 0 then old(mac).seqnoUp + 1 else old(mac).seqnoUp,
                               txCnt := if confirmed && old(mac).txCnt == 0 then 1 else old(mac).txCnt)
    {
      hide Flags, SameChannels, SameTimes, Channels.WellFormed, Proper;
      if txCnt == 0 {
        PutCounts(seqnoUp + 1, seqnoDn, rejoinCnt);
      }
      PutLink(adrAckReq, adrChanged, false);
      if confirmed && txCnt == 0 {
        PutTry(osjob, datarate, 1, 1);
      }
    }

    /** The sending branch of engineUpdate. */
    method Send(now: u4, ghost t: int) returns (acts: seq<Act>)
      requires Valid() && Same(now, t)
      modifies this
      ensures Valid() && mac == Transmit(old(mac), t).0 && acts == ActsOf(Transmit(old(mac), t).1)
    {
      hide ComputedTicks, UpRps, LowerDr, Flags, Has, Same, SameChannels, SameTimes, Low32, Channels.WellFormed,
           SendFrame, ActsOf, BuildDataFrame, CarriesPayload;
      FlagIs(JOINING);
      FlagIs(REJOIN);
      if Has(opmode, JOINING) || Has(opmode, REJOIN) {
        var txdr := datarate;
        if Has(opmode, REJOIN) {
          txdr := LowerDR(datarate, rejoinCnt);
        }
        PutTry(AwaitsJoin, datarate, txCnt, mac.txCnt);
        acts := PutOnAir(now, t, txdr, LEN_JR, true, false, false);
      } else {
        if seqnoDn >= 0xFFFF_FF80 || (txCnt == 0 && seqnoUp == 0xFFFF_FFFF) {
          ActsOne(Resets);
          return [ResetJob];
        }
        var txdr := datarate;
        var flen, confirmed, txdata := BuildFrame();
        PutTry(AwaitsData, datarate, txCnt, mac.txCnt);
        acts := PutOnAir(now, t, txdr, flen, false, confirmed, txdata);
      }
    }

    method PutOnAir(now: u4, ghost t: int, txdr: Dr, flen: u1, ghost joining: bool, ghost confirmed: bool,
                    ghost txdata: bool)
      returns (acts: seq<Act>)
      requires Valid() && Same(now, t)
      modifies this
      ensures Valid()
      ensures mac == SendFrame(old(mac), t, txdr, flen, joining, confirmed, txdata).0
      ensures acts == ActsOf(SendFrame(old(mac), t, txdr, flen, joining, confirmed, txdata).1)
    {
      hide ComputedTicks, UpRps, Flags, Same, SameChannels, SameTimes, Low32, Channels.WellFormed, UpdateTx;
      Lower(POLL);
      Lower(RNDTX);
      Raise(TXRXPEND);
      Raise(NEXTCHNL);
      assert mac.opmode == old(mac).opmode - {POLL, RNDTX} + {TXRXPEND, NEXTCHNL};
      var rps := UpRps(txdr, errcr);
      BandOfChannel();
      acts := [Radio(now, channels.freq[txChnl] % 4, rps, flen)];
      UpdateTX(now, t, rps, flen);
      SameLow(now, t);
      ghost var outs := SendFrame(old(mac), t, txdr, flen, joining, confirmed, txdata).1;
      assert outs == [outs[0]];
      ActsOne(outs[0]);
    }

    // -------------------------------------------------------------- engineUpdate

    method Place(now: u4, ghost t: int)
      requires Valid() && Same(now, t) && PlaceFrame(mac, t).Some?
      modifies this
      ensures Valid() && mac == PlaceFrame(old(mac), t).value
    {
      hide Channels.NextTx, Flags, Has, Same, SameChannels, SameTimes, Channels.WellFormed;
      PlacedProper(mac, t);
      FourBands(mac);
      FlagIs(NEXTCHNL);
      if Has(opmode, NEXTCHNL) {
        var time := NextTx(now, t);
        Fields();
        PutTimes(time, Channels.NextTx(old(mac).bands, old(mac).plan, old(mac).datarate, t).time,
                 globalDutyRate, globalDutyAvail, mac.globalDutyAvail);
        Lower(NEXTCHNL);
      }
    }

    /** The earliest start: after the channel's time, and after the device's own delay if there is one. */
    method Start() returns (txbeg: u4)
      requires Valid()
      ensures Same(txbeg, StartTime(mac))
    {
      hide Flags, Has, Same, SameChannels, S32, Channels.WellFormed;
      FlagIs(RNDTX);
      SameDiff(txend, mac.txend, globalDutyAvail, mac.globalDutyAvail);
      txbeg := txend;
      if (globalDutyRate != 0 || Has(opmode, RNDTX)) && S32(txbeg - globalDutyAvail) < 0 {
        txbeg := globalDutyAvail;
      }
    }

    /** Whether engineUpdate has anything to do, and if so whether it is to begin a join. */
    method Asks() returns (idle: bool, join: bool)
      requires Valid()
      ensures idle
              == (TXRXPEND in mac.opmode || SHUTDOWN in mac.opmode
                  || (!join && mac.opmode * {JOINING, REJOIN, TXDATA, POLL} == {}))
      ensures join == (!mac.joined && JOINING !in mac.opmode)
    {
      hide Flags, Has, SameChannels, SameTimes, Channels.WellFormed;
      FlagIs(TXRXPEND);
      FlagIs(SHUTDOWN);
      FlagIs(JOINING);
      FlagIs(REJOIN);
      FlagIs(TXDATA);
      FlagIs(POLL);
      join := devaddr == 0 && !Has(opmode, JOINING);
      var asked := Has(opmode, JOINING) || Has(opmode, REJOIN) || Has(opmode, TXDATA) || Has(opmode, POLL);
      NoneAsked(mac.opmode);
      idle := Has(opmode, TXRXPEND) || Has(opmode, SHUTDOWN) || (!join && !asked);
    }

    /** engineUpdate, where the channel search ends. */
    method Update(now: u4, ghost t: int, luck: Luck) returns (acts: seq<Act>)
      requires Valid() && Same(now, t) && Hangs !in EngineUpdate(mac, t, luck).1
      modifies this
      ensures Valid() && mac == EngineUpdate(old(mac), t, luck).0 && acts == ActsOf(EngineUpdate(old(mac), t, luck).1)
    {
      hide Transmit, Channels.NextTx, StartJoining, S32, Channels.WellFormed, PlaceFrame, StartTime, ActsOf, Flags,
           Same, SameChannels, SameTimes, Low32;
      var idle, join := Asks();
      ActsOne(Hangs);
      if idle {
        return [];
      }
      if join {
        acts := BeginJoining(now, t, luck);
        return;
      }
      ghost var was := mac;
      PlacedProper(was, t);
      UpdateParts(was, t, luck);
      Place(now, t);
      ghost var placed := mac;
      var txbeg := Start();
      SameSum(now, t, TX_RAMPUP);
      SameDiff(txbeg, StartTime(placed), Low32(now + TX_RAMPUP), t + TX_RAMPUP);
      if S32(txbeg - Low32(now + TX_RAMPUP)) < 0 {
        acts := Send(now, t);
      } else {
        SameSum(txbeg, StartTime(placed), -TX_RAMPUP);
        SameLow(Low32(txbeg - TX_RAMPUP), StartTime(placed) - TX_RAMPUP);
        acts := [SetTimer(Low32(txbeg - TX_RAMPUP))];
      }
    }

    // -------------------------------------------------------------- joining

    /** initDefaultChannels */
    method InitDefaultChannels(join: bool, now: u4, ghost t: int, luck: Luck)
      requires Valid() && Same(now, t)
      modifies this
      ensures Valid() && mac == old(mac).(bands := DefaultBands(luck, t), plan := DefaultPlan(join))
    {
      hide Flags, Same, SameBands, SameTimes, PlanOf, DefaultPlan, DefaultTable, Channels.WellFormed, Proper;
      DefaultIsPlan(join);
      Fields();
      LastChannels(mac);
      var table := [Band32(1000, luck.last0 % 16, now), Band32(100, luck.last1 % 16, now),
                    Band32(10, luck.last2 % 16, now), Band32(0, 0, 0)];
      BandsFresh(table, luck, now, t);
      PutChannels(table, DefaultBands(luck, t), DefaultTable(join), txChnl);
    }

    /** LMIC_startJoining without a session. */
    method BeginJoining(now: u4, ghost t: int, luck: Luck) returns (acts: seq<Act>)
      requires Valid() && Same(now, t)
      modifies this
      ensures Valid() && mac == StartJoining(old(mac), t, luck).0 && acts == ActsOf(StartJoining(old(mac), t, luck).1)
    {
      hide DefaultPlan, DefaultBands, RndDelay, Channels.WellFormed, Flags, Same, SameChannels, SameTimes, ActsOf,
           Low32, Proper;
      ClearForJoin();
      InitJoinLoop(now, t, luck);
      Raise(JOINING);
      JoiningActs(now, t);
      acts := [SetBands, SetTimer(now)];
    }

    /** The limits and counts of the session before are lifted. */
    method ClearForJoin()
      requires Valid()
      modifies this
      ensures Valid()
      ensures mac == old(mac).(globalDutyRate := 0, opmode := old(mac).opmode - {REJOIN, LINKDEAD, NEXTCHNL},
                               rejoinCnt := 0, txCnt := 0)
    {
      hide Valid, Same, SameBands, PlanOf, Sized, Proper;
      Fields();
      PutTimes(txend, mac.txend, 0, globalDutyAvail, mac.globalDutyAvail);
      PutCounts(seqnoUp, seqnoDn, 0);
      PutTry(osjob, datarate, 0, 0);
      Lower(REJOIN);
      Lower(LINKDEAD);
      Lower(NEXTCHNL);
      assert mac.opmode == old(mac).opmode - {REJOIN, LINKDEAD, NEXTCHNL};
    }

    method InitJoinLoop(now: u4, ghost t: int, luck: Luck)
      requires Valid() && Same(now, t)
      modifies this
      ensures Valid()
      ensures mac == old(mac).(txChnl := luck.channel % 3, datarate := DR_SF7, bands := DefaultBands(luck, t),
                               plan := DefaultPlan(true), txend := t + RndDelay(luck.r, 8))
    {
      hide DefaultPlan, RndDelay, Channels.WellFormed, Flags, Same, SameChannels, SameTimes, Low32, Proper;
      Fields();
      LastChannels(mac);
      PutChannels(bands, mac.bands, channels, luck.channel % 3);
      PutTry(osjob, DR_SF7, txCnt, mac.txCnt);
      InitDefaultChannels(true, now, t, luck);
      SameSum(now, t, RndDelay(luck.r, 8));
      FirstBandNow(now, t, luck);
      Fields();
      PutTimes(Low32(bands[BAND_MILLI].avail + RndDelay(luck.r, 8)), t + RndDelay(luck.r, 8),
               globalDutyRate, globalDutyAvail, mac.globalDutyAvail);
    }

    /** The first band is available from now on. */
    lemma FirstBandNow(now: u4, t: int, luck: Luck)
      requires Valid() && Same(now, t) && mac.bands == DefaultBands(luck, t)
      ensures |bands| == 4 && bands[BAND_MILLI].avail == now
    {
      hide Flags, SameTimes, PlanOf, Channels.WellFormed;
      SameWord(now, bands[BAND_MILLI].avail, t);
    }

    // -------------------------------------------------------------- after a transmission

    method ReportAnd(ev: Ev, flags: set<Flag>, now: u4, ghost t: int, luck: Luck) returns (acts: seq<Act>)
      requires Valid() && Same(now, t) && Hangs !in ReportEvent(mac, ev, flags, t, luck).1
      modifies this
      ensures Valid() && mac == ReportEvent(old(mac), ev, flags, t, luck).0
      ensures acts == ActsOf(ReportEvent(old(mac), ev, flags, t, luck).1)
    {
      ReportParts(mac, ev, flags, t, luck);
      hide Valid, EngineUpdate, ReportEvent, ActsOf, Same;
      acts := Update(now, t, luck);
      acts := [Event(ev, flags)] + acts;
    }

    /** decodeFrame on an accepted frame, its MAC commands as given. */
    method AcceptFrame(h: Heard, now: u4, ghost t: int) returns (flags: set<Flag>)
      requires Valid() && Same(now, t) && h.Downlink? && Sensible(h) && JOINING !in mac.opmode
      modifies this
      ensures Valid() && (mac, flags) == Accept(old(mac), Meaning(h), t)
    {
      hide Flags, SameChannels, SameTimes, Channels.WellFormed, Obey, Noted, PlanOf, Same, Proper;
      flags := if txCnt != 0 then {h.window, if h.ack then ACK else NACK} else {h.window};
      flags := flags + {if h.port then PORT else NOPORT};
      Note(h);
      CarryOut(h, now, t);
    }

    /** The counters and requests after an accepted frame. */
    method Note(h: Heard)
      requires Valid() && h.Downlink? && Sensible(h)
      modifies this
      ensures Valid() && mac == Noted(old(mac), Meaning(h))
    {
      hide Flags, SameChannels, SameTimes, Channels.WellFormed, PlanOf, Proper;
      PutCounts(seqnoUp, h.seqnoDn, 0);
      PutLink(if adrAckReq != LINK_CHECK_OFF then LINK_CHECK_INIT else adrAckReq, adrChanged, h.confirmed);
      hide Valid;
      if h.confirmed || h.more {
        Raise(POLL);
      }
    }

    /** The effect of the option loop of decodeFrame. */
    method CarryOut(h: Heard, now: u4, ghost t: int)
      requires Valid() && Same(now, t) && h.Downlink? && Sensible(h)
      modifies this
      ensures Valid() && mac == Obey(old(mac), Meaning(h).commands, t)
    {
      hide Valid, PlanOf, Same, Channels.WellFormed;
      Fields();
      LastChannels(mac);
      PutChannels(bands, mac.bands, h.table, txChnl);
      PutPending(pendTxConf, pendTxLen, h.answers);
      PutLink(adrAckReq, h.adr, dnConf);
      LimitDuty(h.duty, now, t);
      if h.dr.Some? {
        SetDrTxpow(h.dr.value);
      }
    }

    /** MCMD_DCAP_REQ: the device's duty cycle, or with 255 its end. */
    method LimitDuty(duty: Option<u1>, now: u4, ghost t: int)
      requires Valid() && Same(now, t)
      modifies this
      ensures Valid()
      ensures mac == if duty.None? then old(mac)
                     else old(mac).(opmode := if duty.value == 0xFF then old(mac).opmode + {SHUTDOWN}
                                    else old(mac).opmode,
                                    globalDutyRate := duty.value % 16, globalDutyAvail := t)
    {
      hide Valid, Same;
      if duty.Some? {
        if duty.value == 0xFF {
          Raise(SHUTDOWN);
        }
        Fields();
        PutTimes(txend, mac.txend, duty.value % 16, now, t);
      }
    }

    /** The end of processDnData, from its label txcomplete on. */
    method Complete(flags: set<Flag>, now: u4, ghost t: int, luck: Luck) returns (acts: seq<Act>)
      requires Valid() && Same(now, t) && Hangs !in TxComplete(mac, flags, t, luck).1
      modifies this
      ensures Valid() && mac == TxComplete(old(mac), flags, t, luck).0
      ensures acts == ActsOf(TxComplete(old(mac), flags, t, luck).1)
    {
      hide ReportEvent, CheckLink, TxComplete, Valid, Channels.WellFormed, ActsOf, Same, Flags, Has, SameChannels,
           SameTimes;
      Fields();
      CompleteParts(mac, flags, t, luck);
      Lower(TXDATA);
      Lower(TXRXPEND);
      assert mac.opmode == old(mac).opmode - {TXDATA, TXRXPEND};
      Fields();
      PutTry(Idle, datarate, txCnt, mac.txCnt);
      acts := [];
      FlagIs(LINKDEAD);
      if flags * {DNW1, DNW2} != {} && Has(opmode, LINKDEAD) {
        Lower(LINKDEAD);
        acts := ReportAnd(EV_LINK_ALIVE, flags, now, t, luck);
      }
      var more := ReportAnd(EV_TXCOMPLETE, flags, now, t, luck);
      acts := acts + more;
      more := MindLink(flags, now, t, luck);
      acts := acts + more;
    }

    method MindLink(flags: set<Flag>, now: u4, ghost t: int, luck: Luck) returns (acts: seq<Act>)
      requires Valid() && Same(now, t) && Hangs !in CheckLink(mac, flags, t, luck).1
      modifies this
      ensures Valid() && mac == CheckLink(old(mac), flags, t, luck).0
      ensures acts == ActsOf(CheckLink(old(mac), flags, t, luck).1)
    {
      hide ReportEvent, Channels.WellFormed, Flags, SameChannels, SameTimes, Same, ActsOf;
      ActsOne(Hangs);
      acts := [];
      if adrAckReq > LINK_CHECK_DEAD {
        SetDrTxpow(DecDr(datarate));
        PutLink(LINK_CHECK_CONT, adrChanged, dnConf);
        Raise(REJOIN);
        Raise(LINKDEAD);
        assert mac.opmode == SetDr(old(mac), DecDr(old(mac).datarate)).opmode + {REJOIN, LINKDEAD};
        acts := ReportAnd(EV_LINK_DEAD, flags, now, t, luck);
      }
    }

    /** processDnData; rxtime is when the windows ended. */
    method ProcessDn(h: Heard, rxtime: u4, ghost rt: int, now: u4, ghost t: int, luck: Luck) returns (acts: seq<Act>)
      requires Valid() && Same(now, t) && Same(rxtime, rt) && Sensible(h)
      requires JOINING !in mac.opmode && mac.adrAckReq <= LINK_CHECK_DEAD
      requires Hangs !in ProcessDnData(mac, Meaning(h), rt, t, luck).1
      modifies this
      ensures Valid() && mac == ProcessDnData(old(mac), Meaning(h), rt, t, luck).0
      ensures acts == ActsOf(ProcessDnData(old(mac), Meaning(h), rt, t, luck).1)
    {
      hide TxComplete, EngineUpdate, Accept, LowerDr, S32, Channels.WellFormed, Flags, SameChannels, SameTimes, Same,
           PlanOf, ActsOf, RndDelay;
      if h.Downlink? {
        var flags := AcceptFrame(h, now, t);
        acts := Complete(flags, now, t, luck);
        return;
      }
      if txCnt != 0 && txCnt < TXCONF_ATTEMPTS {
        Retry(rxtime, rt, luck.r);
        acts := Update(now, t, luck);
        return;
      }
      var flags := if txCnt != 0 then {NACK, NOPORT} else {NOPORT};
      if adrAckReq != LINK_CHECK_OFF {
        PutLink(adrAckReq + 1, adrChanged, dnConf);
      }
      acts := Complete(flags, now, t, luck);
    }

    /** One more try: perhaps at a lower rate, after a random delay. */
    method Retry(rxtime: u4, ghost rt: int, r: nat)
      requires Valid() && Same(rxtime, rt) && JOINING !in mac.opmode && 0 < mac.txCnt < TXCONF_ATTEMPTS
      modifies this
      ensures Valid() && mac == Retried(old(mac), rt, r)
    {
      hide Valid, Proper, LowerDr, S32, Same, SameBands, PlanOf, Sized, RndDelay;
      Fields();
      PutTry(osjob, datarate, txCnt + 1, mac.txCnt + 1);
      var dr := LowerDR(datarate, DrAdjust(txCnt));
      SetDrTxpow(dr);
      DelayTx(rxtime, rt, 3, r);
      Lower(TXRXPEND);
      Fields();
      PutTry(Idle, datarate, txCnt, mac.txCnt);
    }

    // -------------------------------------------------------------- the end of a join

    /** nextJoinState */
    method NextJoin(now: u4, ghost t: int, r: nat)
      requires Valid() && Same(now, t) && mac.txChnl < 3 && JOINING in mac.opmode
      modifies this
      ensures Valid() && mac == NextJoinState(old(mac), t, r)
    {
      hide Valid, RndDelay, S32, Pow2, DecDr, Channels.WellFormed, Same, Low32;
      HopJoin();
      var time, exact := JoinTime(now, t);
      Fields();
      var delay := DNW2_SAFETY_ZONE + RndDelay(r, 255 / Pow2(datarate));
      Lower(NEXTCHNL);
      SameSum(time, exact, delay);
      Fields();
      PutTimes(Low32(time + delay), exact + delay, globalDutyRate, globalDutyAvail, mac.globalDutyAvail);
    }

    /** From now on, or from when the band of the join channels is available. */
    method JoinTime(now: u4, ghost t: int) returns (time: u4, ghost exact: int)
      requires Valid() && Same(now, t)
      ensures Same(time, exact) && |mac.bands| == 4
      ensures exact == if S32(t - mac.bands[BAND_MILLI].avail) < 0 then mac.bands[BAND_MILLI].avail else t
    {
      hide S32, Flags, Same, SameTimes, PlanOf, Channels.WellFormed;
      time, exact := now, t;
      SameDiff(now, t, bands[BAND_MILLI].avail, mac.bands[BAND_MILLI].avail);
      if S32(time - bands[BAND_MILLI].avail) < 0 {
        time, exact := bands[BAND_MILLI].avail, mac.bands[BAND_MILLI].avail;
      }
    }

    /** The next of the three join channels, every second time at a lower data rate. */
    method HopJoin()
      requires Valid() && mac.txChnl < 3 && JOINING in mac.opmode
      modifies this
      ensures Valid()
      ensures var was := old(mac);
              mac == was.(txChnl := if was.txChnl + 1 == 3 then 0 else was.txChnl + 1, txCnt := was.txCnt + 1,
                          datarate := if (was.txCnt + 1) % 2 == 0 && was.datarate != DR_SF12 then DecDr(was.datarate)
                                      else was.datarate)
    {
      hide DecDr, Channels.WellFormed, Flags, SameTimes, SameBands, PlanOf;
      Fields();
      LastChannels(mac);
      PutChannels(bands, mac.bands, channels, if txChnl + 1 == 3 then 0 else txChnl + 1);
      Parity(mac.txCnt);
      PutTry(osjob, datarate, (txCnt + 1) % 256, mac.txCnt + 1);
      if txCnt % 2 == 0 && datarate != DR_SF12 {
        PutTry(osjob, DecDr(datarate), txCnt, mac.txCnt);
      }
    }

    /**
     processJoinAccept; an answer that passed its checks brings an address and the channels it adds to
     the default ones.
     */
    method ProcessJoin(answer: Option<Assigned>, now: u4, ghost t: int, luck: Luck) returns (acts: seq<Act>)
      requires Valid() && Same(now, t) && (JOINING in mac.opmode ==> mac.txChnl < 3)
      requires answer.Some? ==> Sized(answer.value.table) && answer.value.addr != 0
      requires Hangs !in ProcessJoinAccept(mac, Answered(answer), t, luck).1
      modifies this
      ensures Valid() && mac == ProcessJoinAccept(old(mac), Answered(answer), t, luck).0
      ensures acts == ActsOf(ProcessJoinAccept(old(mac), Answered(answer), t, luck).1)
    {
      hide ReportEvent, DefaultBands, NextJoinState, LowerDr, DefaultPlan, Channels.WellFormed, Flags, Has,
           SameChannels, SameTimes, Same, PlanOf, ActsOf, Joined;
      if answer.Some? {
        JoinedParts(mac, PlanOf(answer.value.table), t, luck);
        Join(answer.value, now, t, luck);
        acts := ReportAnd(EV_JOINED, {}, now, t, luck);
        acts := [SetBands] + acts;
        return;
      }
      PutTry(Idle, datarate, txCnt, mac.txCnt);
      FlagIs(JOINING);
      if !Has(opmode, JOINING) {
        GiveUpRejoin();
        acts := ReportAnd(EV_REJOIN_FAILED, {}, now, t, luck);
      } else {
        Lower(TXRXPEND);
        FourBands(mac);
        BackOffActs(mac.bands[BAND_MILLI].avail, now, t);
        acts := [SetTimer(now)];
        NextJoin(now, t, luck.r);
      }
    }

    /** A rejoin without an answer. */
    method GiveUpRejoin()
      requires Valid()
      modifies this
      ensures Valid()
      ensures mac == old(mac).(opmode := old(mac).opmode - {REJOIN, TXRXPEND},
                               rejoinCnt := if old(mac).rejoinCnt < 10 then old(mac).rejoinCnt + 1
                                            else old(mac).rejoinCnt)
    {
      hide Channels.WellFormed, Flags, SameChannels, SameTimes;
      Lower(REJOIN);
      Lower(TXRXPEND);
      assert mac.opmode == old(mac).opmode - {REJOIN, TXRXPEND};
      if rejoinCnt < 10 {
        PutCounts(seqnoUp, seqnoDn, rejoinCnt + 1);
      }
    }

    /** The session begins: channels, rates and counters set up. */
    method Join(answer: Assigned, now: u4, ghost t: int, luck: Luck)
      requires Valid() && Same(now, t) && Sized(answer.table) && answer.addr != 0
      modifies this
      ensures Valid() && AddsToDefault(PlanOf(answer.table)) && mac == Joined(old(mac), PlanOf(answer.table), t, luck)
    {
      hide DefaultBands, DefaultPlan, LowerDr, Channels.WellFormed, Flags, Has, SameChannels, SameTimes, Same, PlanOf;
      Fields();
      PlanFits(mac, answer.table);
      PutAddress(answer.addr);
      InitDefaultChannels(false, now, t, luck);
      Fields();
      LastChannels(mac);
      PutChannels(bands, mac.bands, answer.table, txChnl);
      FlagIs(REJOIN);
      if Has(opmode, REJOIN) {
        var dr := LowerDR(datarate, rejoinCnt);
        Fields();
        PutTry(osjob, dr, txCnt, mac.txCnt);
      }
      StartSession();
    }

    method PutAddress(addr: u4)
      requires Valid() && addr != 0
      modifies this
      ensures Valid() && mac == old(mac).(joined := true)
    {
      hide Flags, SameChannels, SameTimes, Channels.WellFormed;
      devaddr := addr;
      mac := mac.(joined := true);
    }

    /** The flags and counters of a session just joined. */
    method StartSession()
      requires Valid()
      modifies this
      ensures Valid()
      ensures mac == old(mac).(job := Idle, opmode := old(mac).opmode - {JOINING, REJOIN, TXRXPEND},
                               txCnt := 0, seqnoDn := 0, seqnoUp := 0, rejoinCnt := 0, dnConf := false,
                               adrChanged := false, pendOpts := 0, adrAckReq := LINK_CHECK_INIT)
    {
      hide Valid;
      Fields();
      PutTry(Idle, datarate, 0, 0);
      Lower(JOINING);
      Lower(REJOIN);
      Lower(TXRXPEND);
      assert mac.opmode == old(mac).opmode - {JOINING, REJOIN, TXRXPEND};
      PutCounts(0, 0, 0);
      PutLink(LINK_CHECK_INIT, false, false);
      Fields();
      PutPending(pendTxConf, pendTxLen, 0);
    }

    // -------------------------------------------------------------- the API

    /** LMIC_setTxData2, the payload's bytes apart; data too long for its buffer is refused. */
    method SetTxData2(len: u1, confirmed: bool, now: u4, ghost t: int, luck: Luck) returns (ok: bool, acts: seq<Act>)
      requires Valid() && Same(now, t) && Hangs !in Step(mac, SetTxData(len, confirmed, t, luck)).1
      modifies this
      ensures Valid() && ok == (len <= MAX_LEN_PAYLOAD)
      ensures ok ==> mac == Step(old(mac), SetTxData(len, confirmed, t, luck)).0
                     && acts == ActsOf(Step(old(mac), SetTxData(len, confirmed, t, luck)).1)
      ensures !ok ==> mac == old(mac) && acts == []
    {
      hide EngineUpdate, Channels.WellFormed, Flags, Has, SameChannels, SameTimes, Same, ActsOf;
      ok, acts := len <= MAX_LEN_PAYLOAD, [];
      if !ok {
        return;
      }
      PutPending(confirmed, len, pendOpts);
      Raise(TXDATA);
      FlagIs(JOINING);
      if !Has(opmode, JOINING) {
        PutTry(osjob, datarate, 0, 0);
      }
      acts := Update(now, t, luck);
    }

    /** LMIC_clrTxData */
    method ClrTxData(now: u4, ghost t: int, luck: Luck) returns (acts: seq<Act>)
      requires Valid() && Same(now, t) && Hangs !in Step(mac, ClearTxData(t, luck)).1
      modifies this
      ensures Valid() && mac == Step(old(mac), ClearTxData(t, luck)).0
              && acts == ActsOf(Step(old(mac), ClearTxData(t, luck)).1)
    {
      hide Valid, EngineUpdate, Channels.WellFormed, Has, Same, SameBands, PlanOf, Sized, ActsOf;
      Lower(TXDATA);
      Lower(TXRXPEND);
      Lower(POLL);
      assert mac.opmode == old(mac).opmode - {TXDATA, TXRXPEND, POLL};
      Fields();
      PutPending(pendTxConf, 0, pendOpts);
      FlagIs(JOINING);
      ActsOne(Hangs);
      if Has(opmode, JOINING) {
        return [];
      }
      Fields();
      PutTry(Idle, datarate, txCnt, mac.txCnt);
      acts := Update(now, t, luck);
    }

    /** LMIC_sendAlive */
    method Alive(now: u4, ghost t: int, luck: Luck) returns (acts: seq<Act>)
      requires Valid() && Same(now, t) && Hangs !in Step(mac, SendAlive(t, luck)).1
      modifies this
      ensures Valid() && mac == Step(old(mac), SendAlive(t, luck)).0
              && acts == ActsOf(Step(old(mac), SendAlive(t, luck)).1)
    {
      hide Valid, EngineUpdate, ActsOf, Same;
      Raise(POLL);
      acts := Update(now, t, luck);
    }

    /** LMIC_tryRejoin */
    method Rejoin(now: u4, ghost t: int, luck: Luck) returns (acts: seq<Act>)
      requires Valid() && Same(now, t) && Hangs !in Step(mac, TryRejoin(t, luck)).1
      modifies this
      ensures Valid() && mac == Step(old(mac), TryRejoin(t, luck)).0
              && acts == ActsOf(Step(old(mac), TryRejoin(t, luck)).1)
    {
      hide Valid, EngineUpdate, ActsOf, Same;
      Raise(REJOIN);
      acts := Update(now, t, luck);
    }

    /** A device after LMIC_reset. */
    constructor ()
      ensures Valid() && mac == Fresh()
    {
      opmode, devaddr, osjob, txChnl, txend, datarate, errcr := 0, 0, Idle, 0, 0, DR_SF12, 0;
      bands, channels := NO_BANDS, NO_CHANNELS;
      rejoinCnt, globalDutyRate, globalDutyAvail, seqnoUp, seqnoDn, txCnt := 0, 0, 0, 0, 0, 0;
      adrAckReq, adrChanged, dnConf, pendTxConf, pendTxLen, pendOpts := 0, false, false, false, 0, 0;
      mac := Fresh();
      new;
      Cleared();
    }

    /** runReset: everything cleared, then a join begun and the reset reported. */
    method RunReset(now: u4, ghost t: int, luck: Luck) returns (acts: seq<Act>)
      requires Same(now, t) && Proper(mac) && Hangs !in Step(mac, MacMachine.RunReset(t, luck)).1
      modifies this
      ensures Valid() && mac == Step(old(mac), MacMachine.RunReset(t, luck)).0
      ensures acts == ActsOf(Step(old(mac), MacMachine.RunReset(t, luck)).1)
    {
      hide EngineUpdate, ReportEvent, StartJoining, ActsOf, Same, Fresh;
      Reset();
      ResetParts(t, luck);
      acts := BeginJoining(now, t, luck);
      var more := ReportAnd(EV_RESET, {}, now, t, luck);
      acts := acts + more;
    }

    /** LMIC_reset */
    method Reset()
      modifies this
      ensures Valid() && mac == Fresh()
    {
      hide Flags, PlanOf, SameBands, Same, Proper, Fresh, Sized;
      ClearRadio();
      ClearSession();
      mac := Fresh();
      Cleared();
      FreshFields();
    }

    method ClearRadio()
      modifies `bands, `channels, `txChnl, `txend, `datarate, `errcr, `globalDutyRate, `globalDutyAvail
      ensures bands == NO_BANDS && channels == NO_CHANNELS && txChnl == 0 && txend == 0
      ensures datarate == DR_SF12 && errcr == 0 && globalDutyRate == 0 && globalDutyAvail == 0
    {
      bands, channels, txChnl, txend := NO_BANDS, NO_CHANNELS, 0, 0;
      datarate, errcr, globalDutyRate, globalDutyAvail := DR_SF12, 0, 0, 0;
    }

    method ClearSession()
      modifies `opmode, `devaddr, `osjob, `rejoinCnt, `seqnoUp, `seqnoDn, `txCnt,
               `adrAckReq, `adrChanged, `dnConf, `pendTxConf, `pendTxLen, `pendOpts
      ensures opmode == 0 && devaddr == 0 && osjob == Idle && rejoinCnt == 0 && seqnoUp == 0 && seqnoDn == 0
              && txCnt == 0
      ensures adrAckReq == 0 && !adrChanged && !dnConf && !pendTxConf && pendTxLen == 0 && pendOpts == 0
    {
      opmode, devaddr, osjob, rejoinCnt, seqnoUp, seqnoDn, txCnt := 0, 0, Idle, 0, 0, 0, 0;
      adrAckReq, adrChanged, dnConf, pendTxConf, pendTxLen, pendOpts := 0, false, false, false, 0, 0;
    }
  }

  const NO_CHANNELS: Table := Table(Zeros(16), Zeros(16), 0)

  const NO_BANDS: seq<Band32> := [Band32(0, 0, 0), Band32(0, 0, 0), Band32(0, 0, 0), Band32(0, 0, 0)]

  lemma FreshFields()
    ensures var m := Fresh();
            && m.opmode == {} && !m.joined && m.job == Idle && m.txChnl == 0 && m.txend == 0 && m.datarate == DR_SF12
            && m.errcr == 0
            && m.rejoinCnt == 0 && m.globalDutyRate == 0 && m.globalDutyAvail == 0 && m.seqnoUp == 0 && m.seqnoDn == 0
            && m.txCnt == 0
            && m.adrAckReq == 0 && !m.adrChanged && !m.dnConf && !m.pendTxConf && m.pendTxLen == 0 && m.pendOpts == 0
  {
  }

  lemma Cleared()
    ensures Sized(NO_CHANNELS) && PlanOf(NO_CHANNELS) == Fresh().plan && Flags(0) == {} && Proper(Fresh())
    ensures SameBands(NO_BANDS, Fresh().bands) && Same(0, 0)
  {
    hide Bits, Has;
    NoFlags();
    SmallBits();
    var p, q := PlanOf(NO_CHANNELS), Fresh().plan;
    assert p.band == q.band && p.drMap == q.drMap;
  }

  /** What a join accept assigns. */
  datatype Assigned = Assigned(addr: u4, table: Table)

  function Answered(answer: Option<Assigned>): (a: JoinAnswer)
    requires answer.Some? ==> Sized(answer.value.table)
    ensures a.Accepted? ==> AddsToDefault(a.plan)
  {
    if answer.None? then Unanswered else Accepted(PlanOf(answer.value.table))
  }

  lemma Parity(n: nat)
    ensures (n % 256 + 1) % 256 == (n + 1) % 256 && (n + 1) % 256 % 2 == (n + 1) % 2
  {
  }

  lemma ReportParts(m: Mac, ev: Ev, flags: set<Flag>, t: int, luck: Luck)
    requires Proper(m) && Hangs !in ReportEvent(m, ev, flags, t, luck).1
    ensures Hangs !in EngineUpdate(m, t, luck).1
    ensures ReportEvent(m, ev, flags, t, luck).0 == EngineUpdate(m, t, luck).0
    ensures ActsOf(ReportEvent(m, ev, flags, t, luck).1) == [Event(ev, flags)] + ActsOf(EngineUpdate(m, t, luck).1)
  {
    hide EngineUpdate, ActsOf;
    var outs := EngineUpdate(m, t, luck).1;
    assert forall out :: out in outs ==> out in [Report(ev, flags)] + outs;
    ActsTwo([Report(ev, flags)], outs);
    ActsOne(Report(ev, flags));
  }

  lemma BackOffActs(avail: int, now: u4, t: int)
    requires Same(now, t)
    ensures ActsOf([BacksOff(avail, t), Wake(t)]) == [SetTimer(now)]
  {
    SameLow(now, t);
    ActsTwo([BacksOff(avail, t)], [Wake(t)]);
    ActsOne(BacksOff(avail, t));
    ActsOne(Wake(t));
    assert [BacksOff(avail, t)] + [Wake(t)] == [BacksOff(avail, t), Wake(t)];
  }

  lemma JoinedParts(m: Mac, plan: Channels.Plan, t: int, luck: Luck)
    requires Proper(m) && AddsToDefault(plan) && (JOINING in m.opmode ==> m.txChnl < 3)
    requires Hangs !in ProcessJoinAccept(m, Accepted(plan), t, luck).1
    ensures var rest := ReportEvent(Joined(m, plan, t, luck), EV_JOINED, {}, t, luck);
            && Hangs !in rest.1 && ProcessJoinAccept(m, Accepted(plan), t, luck).0 == rest.0
            && ActsOf(ProcessJoinAccept(m, Accepted(plan), t, luck).1) == [SetBands] + ActsOf(rest.1)
  {
    hide ReportEvent, Joined, ActsOf;
    var rest := ReportEvent(Joined(m, plan, t, luck), EV_JOINED, {}, t, luck).1;
    assert forall out :: out in rest ==> out in [Restarted] + rest;
    ActsTwo([Restarted], rest);
    ActsOne(Restarted);
  }

  lemma ResetParts(t: int, luck: Luck)
    requires Proper(Fresh()) && Hangs !in Step(Fresh(), MacMachine.RunReset(t, luck)).1
    ensures var (m1, outs) := StartJoining(Fresh(), t, luck); var (m2, more) := ReportEvent(m1, EV_RESET, {}, t, luck);
            && Hangs !in more && Step(Fresh(), MacMachine.RunReset(t, luck)).0 == m2
            && ActsOf(Step(Fresh(), MacMachine.RunReset(t, luck)).1) == ActsOf(outs) + ActsOf(more)
  {
    hide ReportEvent, StartJoining, ActsOf, Fresh;
    var (m1, outs) := StartJoining(Fresh(), t, luck);
    var more := ReportEvent(m1, EV_RESET, {}, t, luck).1;
    assert forall out :: out in more ==> out in outs + more;
    ActsTwo(outs, more);
  }

  /** The parts of a completion, none of which hangs. */
  lemma CompleteParts(m: Mac, flags: set<Flag>, t: int, luck: Luck)
    requires Proper(m) && Hangs !in TxComplete(m, flags, t, luck).1
    ensures var m1 := m.(opmode := m.opmode - {TXDATA, TXRXPEND}, job := Idle);
            var m1' := m1.(opmode := m1.opmode - {LINKDEAD});
            var alive := flags * {DNW1, DNW2} != {} && LINKDEAD in m1.opmode;
            && Proper(m1) && Proper(m1')
            && (alive ==> Hangs !in ReportEvent(m1', EV_LINK_ALIVE, flags, t, luck).1)
            && var (m2, outs2) := if alive then ReportEvent(m1', EV_LINK_ALIVE, flags, t, luck) else (m1, []);
               var (m3, outs3) := ReportEvent(m2, EV_TXCOMPLETE, flags, t, luck);
               var (m4, outs4) := CheckLink(m3, flags, t, luck);
               && Proper(m2) && Hangs !in outs3 && Proper(m3) && Hangs !in outs4
               && TxComplete(m, flags, t, luck).0 == m4
               && ActsOf(TxComplete(m, flags, t, luck).1) == ActsOf(outs2) + ActsOf(outs3) + ActsOf(outs4)
               && ActsOf([]) == []
  {
    hide ReportEvent, CheckLink, ActsOf, Channels.WellFormed;
    var m1 := m.(opmode := m.opmode - {TXDATA, TXRXPEND}, job := Idle);
    var m1' := m1.(opmode := m1.opmode - {LINKDEAD});
    var alive := flags * {DNW1, DNW2} != {} && LINKDEAD in m1.opmode;
    var (m2, outs2) := if alive then ReportEvent(m1', EV_LINK_ALIVE, flags, t, luck) else (m1, []);
    var (m3, outs3) := ReportEvent(m2, EV_TXCOMPLETE, flags, t, luck);
    var outs4 := CheckLink(m3, flags, t, luck).1;
    assert forall out :: out in outs2 || out in outs3 || out in outs4 ==> out in outs2 + outs3 + outs4;
    ActsTwo(outs2 + outs3, outs4);
    ActsTwo(outs2, outs3);
    ActsOne(Hangs);
  }

  lemma SameWord(a: u4, b: u4, t: int)
    requires Same(a, t) && Same(b, t)
    ensures a == b
  {
    SameLow(a, t);
    SameLow(b, t);
  }

  lemma NoneAsked(opmode: set<Op>)
    ensures opmode * {JOINING, REJOIN, TXDATA, POLL} == {} <==>
            JOINING !in opmode && REJOIN !in opmode && TXDATA !in opmode && POLL !in opmode
  {
    assert forall op :: op in {JOINING, REJOIN, TXDATA, POLL} && op in opmode ==>
             op in opmode * {JOINING, REJOIN, TXDATA, POLL};
  }

  lemma BandsFresh(table: seq<Band32>, luck: Luck, now: u4, t: int)
    requires Same(now, t)
    requires table ==
             [Band32(1000, luck.last0 % 16, now), Band32(100, luck.last1 % 16, now),
              Band32(10, luck.last2 % 16, now), Band32(0, 0, 0)]
    ensures SameBands(table, DefaultBands(luck, t))
    ensures forall b :: 0 <= b < 4 ==> DefaultBands(luck, t)[b].lastchnl < 16
  {
  }

  lemma JoiningActs(now: u4, t: int)
    requires Same(now, t)
    ensures ActsOf([Restarted, Wake(t)]) == [SetBands, SetTimer(now)]
  {
    SameLow(now, t);
    ActsTwo([Restarted], [Wake(t)]);
    ActsOne(Restarted);
    ActsOne(Wake(t));
    assert [Restarted] + [Wake(t)] == [Restarted, Wake(t)];
  }

  /** What an update that has something to send does, and what comes of it. */
  lemma UpdateParts(m: Mac, t: int, luck: Luck)
    requires Proper(m) && TXRXPEND !in m.opmode && SHUTDOWN !in m.opmode && (m.joined || JOINING in m.opmode)
    requires m.opmode * {JOINING, REJOIN, TXDATA, POLL} != {} && Hangs !in EngineUpdate(m, t, luck).1
    ensures PlaceFrame(m, t).Some?
    ensures var m1 := PlaceFrame(m, t).value; var (m2, outs) := EngineUpdate(m, t, luck);
            && Proper(m1)
            && if S32(StartTime(m1) - (t + TX_RAMPUP)) < 0
               then m2 == Transmit(m1, t).0 && ActsOf(outs) == ActsOf(Transmit(m1, t).1)
               else m2 == m1 && ActsOf(outs) == [SetTimer(Low32(StartTime(m1) - TX_RAMPUP))]
  {
    hide Transmit, Channels.NextTx, S32, Channels.WellFormed, PlaceFrame, StartTime, Low32, ActsOf;
    PlacedProper(m, t);
    assert Hangs in [Weighs(m, t), Hangs];
    if PlaceFrame(m, t).Some? {
      var m1 := PlaceFrame(m, t).value;
      ActsOne(Weighs(m, t));
      ActsTwo([Weighs(m, t)], Transmit(m1, t).1);
      ActsTwo([Weighs(m, t)], [Wake(StartTime(m1) - TX_RAMPUP)]);
      ActsOne(Wake(StartTime(m1) - TX_RAMPUP));
      assert [Weighs(m, t)] + [Wake(StartTime(m1) - TX_RAMPUP)] == [Weighs(m, t), Wake(StartTime(m1) - TX_RAMPUP)];
    }
  }

  lemma PlanFits(m: Mac, table: Table)
    requires Proper(m) && Sized(table)
    ensures AddsToDefault(PlanOf(table)) && Proper(m.(plan := PlanOf(table)))
  {
  }

  lemma LastChannels(m: Mac)
    requires Proper(m)
    ensures |m.bands| == 4 && m.txChnl < 16 && forall b :: 0 <= b < 4 ==> m.bands[b].lastchnl < 16
  {
  }

  lemma FourBands(m: Mac)
    requires Proper(m)
    ensures |m.bands| == 4
  {
  }
}
