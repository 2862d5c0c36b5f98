/** The socket object: fixed buffers and lists updated in place, every method
    proved equal to the functions on control blocks. */
module PseudoTcpSockets {
  import opened Arith
  import opened PseudoTcpReceive
  import opened PseudoTcpSend
  import opened PseudoTcpState
  import opened PseudoTcpOutput
  import opened PseudoTcpInput

  lemma CongestionSwap(t: Tcb, c: Congestion)
    requires Ready(t) && CongestionOk(c) && c.recover <= t.snd.sndNxt
    ensures Ready(t.(cong := c))
  {
  }

  /** One turn of the loop over saved segments. */
  lemma DrainOnce(r: Receiver)
    requires Fits(r) && |r.rlist| > 0 && r.rlist[0].sn <= r.rcvNxt
    ensures Drain(r) == Drain(DrainHead(r)) && Fits(DrainHead(r))
    ensures r.rlist[0].End() > r.rcvNxt ==>
              r.rlist[0].End() < TWO32 && r.rlen + (r.rlist[0].End() - r.rcvNxt) <= RCV_BUF_SIZE
  {
    assert SegmentFits(r, r.rlist[0]);
    var r' := DrainHead(r);
    forall i | 0 <= i < |r'.rlist| ensures SegmentFits(r', r'.rlist[i]) {
      assert SegmentFits(r, r.rlist[i + 1]);
    }
  }

  lemma AdvanceFits(r: Receiver, data: seq<Byte>)
    requires Fits(r) && |data| <= RCV_BUF_SIZE - r.rlen && r.rcvNxt + |data| < TWO32
    ensures Fits(Advance(r.(rbuf := Overwrite(r.rbuf, r.rlen, data)), |data|))
  {
    var r' := Advance(r.(rbuf := Overwrite(r.rbuf, r.rlen, data)), |data|);
    forall i | 0 <= i < |r'.rlist| ensures SegmentFits(r', r'.rlist[i]) {
      assert SegmentFits(r, r.rlist[i]);
    }
  }

  lemma InFlightOrNot(t: Tcb)
    requires Ready(t)
    ensures t.snd.sndUna <= t.snd.sndNxt
  {
  }

  lemma DrainNothing(r: Receiver)
    ensures r.rlist == [] || r.rlist[0].sn > r.rcvNxt ==> Drain(r) == r
  {
  }

  lemma ReceiveNothing(t: Tcb, p: Packet)
    requires Shape(t.rcv) && p.sn + |p.data| < TWO32 && Trim(t.rcv, p.sn, p.data).1 == []
    ensures ReceiveData(t, p) == t
    ensures AckFlags(t, p) == if p.sn != t.rcv.rcvNxt then ImmediateAck else if p.data != [] then DelayedAck else NoAck
  {
    hide Trim, Store;
  }

  lemma ReceiveSomething(t: Tcb, p: Packet, sn: nat, data: seq<Byte>, rcv: Receiver, recovered: bool)
    requires Shape(t.rcv) && p.sn + |p.data| < TWO32 && Trim(t.rcv, p.sn, p.data) == (sn, data) && data != []
    requires var ignore := p.ctl || t.shutdown;
             && rcv == (if !ignore then Store(t.rcv, sn, data)
                        else if sn == t.rcv.rcvNxt then t.rcv.(rcvNxt := U32(t.rcv.rcvNxt + |data|))
                        else t.rcv)
             && (recovered <==> !ignore && sn == t.rcv.rcvNxt && rcv.rcvNxt != U32(t.rcv.rcvNxt + |data|))
    ensures ReceiveData(t, p) == t.(rcv := rcv)
    ensures AckFlags(t, p) == if p.sn != t.rcv.rcvNxt || recovered then ImmediateAck
                              else if p.data != [] then DelayedAck else NoAck
  {
    hide Trim, Store;
  }

  /** One turn of the loop that offers a segment. */
  lemma WriteTurn(t: Tcb, env: Env, seg: SSegment, n: nat)
    requires t.cong.msslevel <= 9 && HEADER_SIZE + n <= MAX_PACKET
    requires t.snd.sndUna <= seg.sn && seg.sn - t.snd.sndUna + n <= |t.snd.sbuf|
    ensures var off := seg.sn - t.snd.sndUna;
            var (t1, wres) := WritePacket(t, env, seg.sn, seg.ctrl, t.snd.sbuf[off..off + n], false);
            && t1.cong == t.cong && t1.snd == t.snd
            && var (c, ok) := ReduceMss(t1.cong, n);
               WriteSegment(t, env, seg, n) ==
               if wres == Success then Written(t1, n, true)
               else if wres == Fail then Written(t1, n, false)
               else if !ok then Written(t1.(cong := c), n, false)
               else WriteSegment(t1.(cong := c), env, seg, c.mss)
  {
  }

  datatype Timers = Timers(
    rtoBase: nat, lastSend: nat, lastRecv: nat, tAck: nat, tsRecent: nat, tsLastAck: nat)

  /** The calls of the write callback so far, and the packets it accepted. */
  datatype Wire = Wire(calls: nat, sent: seq<Packet>)

  class PseudoTcpSocket {
    const conv: nat
    var state: ConnState
    var shutdown: bool

    const rbuf: array<Byte>
    var rlist: seq<RSegment>
    var rlen: nat
    var rcvNxt: nat
    var rcvWnd: nat

    const sbuf: array<Byte>
    var slist: seq<SSegment>
    var slen: nat
    var sndUna: nat
    var sndNxt: nat
    var sndWnd: nat
    var largest: nat

    var cong: Congestion
    var timers: Timers
    var wire: Wire

    ghost predicate Valid()
      reads this
    {
      rbuf != sbuf && rbuf.Length == RCV_BUF_SIZE && sbuf.Length == SND_BUF_SIZE && slen <= SND_BUF_SIZE
    }

    ghost function Rcv(): Receiver
      reads this, rbuf
    {
      Receiver(rbuf[..], rlen, rcvNxt, rcvWnd, rlist)
    }

    ghost function Snd(): Sender
      reads this, sbuf
      requires Valid()
    {
      Sender(sbuf[..slen], slist, sndUna, sndNxt, sndWnd, largest)
    }

    /** The control block this object represents. */
    ghost function Model(): Tcb
      reads this, rbuf, sbuf
      requires Valid()
    {
      Tcb(state, conv, shutdown, Rcv(), Snd(), cong,
          timers.rtoBase, timers.lastSend, timers.lastRecv, timers.tAck, timers.tsRecent, timers.tsLastAck,
          wire.calls, wire.sent)
    }

    constructor (conv: nat, now: nat)
      ensures Valid() && fresh(rbuf) && fresh(sbuf)
      ensures Model() == InitialTcb(conv, now)
    {
      this.conv := conv;
      state, shutdown := Listen, false;
      rbuf := new Byte[RCV_BUF_SIZE](_ => 0);
      rlist, rlen, rcvNxt, rcvWnd := [], 0, 0, RCV_BUF_SIZE;
      sbuf := new Byte[SND_BUF_SIZE](_ => 0);
      slist, slen, sndUna, sndNxt, sndWnd, largest := [], 0, 0, 0, 1, 0;
      cong := InitialCongestion();
      timers := Timers(0, now, now, 0, 0, 0);
      wire := Wire(0, []);
      new;
      assert rbuf[..] == InitialReceiver().rbuf;
    }

    /** Append to the send queue as much of `data` as there is room for. */
    method Queue(data: seq<Byte>, ctrl: bool) returns (n: nat)
      requires Valid()
      requires ctrl ==> slen + |data| <= SND_BUF_SIZE
      modifies this`slist, this`slen, sbuf
      ensures Valid()
      ensures n == Min(|data|, SND_BUF_SIZE - old(slen))
      ensures Model() == old(Model()).(snd := Enqueue(old(Snd()), data[..n], ctrl))
    {
      n := |data|;
      if n > sbuf.Length - slen {
        n := sbuf.Length - slen;
      }
      var last := |slist| - 1;
      if |slist| > 0 && slist[last].ctrl == ctrl && slist[last].xmit == 0 {
        slist := slist[..last] + [slist[last].(len := slist[last].len + n)];
      } else {
        slist := slist + [SSegment(U32(sndUna + slen), n, 0, ctrl)];
      }
      CopyToSend(slen, data[..n]);
      slen := slen + n;
    }

    /** memcpy into the send buffer. */
    method CopyToSend(at: nat, data: seq<Byte>)
      requires Valid() && at + |data| <= SND_BUF_SIZE
      modifies sbuf
      ensures sbuf[..at + |data|] == old(sbuf[..at]) + data
    {
      forall k | 0 <= k < |data| {
        sbuf[at + k] := data[k];
      }
    }

    /** Hand one packet to the network. */
    method WritePacket(env: Env, sn: nat, ctl: bool, data: seq<Byte>, bareAck: bool) returns (wres: WriteResult)
      requires Valid() && HEADER_SIZE + |data| <= MAX_PACKET
      modifies this`wire, this`timers
      ensures Valid()
      ensures (Model(), wres) == PseudoTcpState.WritePacket(old(Model()), env, sn, ctl, data, bareAck)
    {
      wres := env.write(wire.calls);
      wire := wire.(calls := wire.calls + 1);
      timers := timers.(tsLastAck := rcvNxt);
      if wres == Success {
        wire := wire.(sent := wire.sent +
          [Packet(conv, sn, rcvNxt, ctl, false, rcvWnd % TWO16, Now(env), timers.tsRecent, data)]);
      }
      if wres != Success && !bareAck {
        return;
      }
      timers := timers.(tAck := 0, lastSend := if |data| > 0 then Now(env) else timers.lastSend);
      wres := Success;
    }

    /** Step the segment size down until `n` bytes are too many for it. */
    method StepDown(n: nat) returns (ok: bool)
      requires cong.msslevel <= 9
      modifies this`cong
      ensures (cong, ok) == ReduceMss(old(cong), n)
    {
      while PACKET_MAXIMUMS[cong.msslevel + 1] != 0
        invariant cong.msslevel <= 9
        invariant ReduceMss(cong, n) == ReduceMss(old(cong), n)
        decreases 9 - cong.msslevel
      {
        cong := cong.(msslevel := cong.msslevel + 1,
                      mss := PACKET_MAXIMUMS[cong.msslevel + 1] - PACKET_OVERHEAD,
                      cwnd := 2 * (PACKET_MAXIMUMS[cong.msslevel + 1] - PACKET_OVERHEAD));
        if cong.mss < n {
          return true;
        }
      }
      return false;
    }

    /** Offer a segment to the network, with fewer bytes as long as it is too large. */
    method Offer(env: Env, seg: SSegment, most: nat) returns (n: nat, ok: bool)
      requires Valid() && cong.msslevel <= 9 && HEADER_SIZE + most <= MAX_PACKET
      requires sndUna <= seg.sn && seg.sn - sndUna + most <= slen
      modifies this`wire, this`timers, this`cong
      ensures Valid()
      ensures Written(Model(), n, ok) == WriteSegment(old(Model()), env, seg, most)
    {
      n, ok := most, false;
      var again := true;
      while again
        invariant Valid() && cong.msslevel <= 9 && n <= most
        invariant if again then WriteSegment(Model(), env, seg, n) == WriteSegment(old(Model()), env, seg, most)
                  else Written(Model(), n, ok) == WriteSegment(old(Model()), env, seg, most)
        decreases again, 9 - cong.msslevel
      {
        n, ok, again := OfferOnce(env, seg, n);
      }
    }

    method OfferOnce(env: Env, seg: SSegment, n: nat) returns (n': nat, ok: bool, again: bool)
      requires Valid() && cong.msslevel <= 9 && HEADER_SIZE + n <= MAX_PACKET
      requires sndUna <= seg.sn && seg.sn - sndUna + n <= slen
      modifies this`wire, this`timers, this`cong
      ensures Valid() && n' <= n && cong.msslevel <= 9
      ensures if again then
                cong.msslevel > old(cong.msslevel)
                && WriteSegment(Model(), env, seg, n') == WriteSegment(old(Model()), env, seg, n)
              else Written(Model(), n', ok) == WriteSegment(old(Model()), env, seg, n)
    {
      hide WriteSegment, ReduceMss, PseudoTcpState.WritePacket;
      var off := seg.sn - sndUna;
      assert Snd().sbuf[off..off + n] == sbuf[off..off + n];
      WriteTurn(Model(), env, seg, n);
      var wres := WritePacket(env, seg.sn, seg.ctrl, sbuf[off..off + n], false);
      ghost var t1 := Model();
      n', ok, again := n, wres == Success, false;
      if wres == TooLarge {
        again := StepDown(n);
        assert Model() == t1.(cong := cong);
        if again {
          n' := cong.mss;
        }
      }
    }

    method Transmit(env: Env, i: nat) returns (ok: bool)
      requires Valid() && MssOk(cong) && i < |slist|
      requires sndUna <= slist[i].sn && slist[i].End() <= sndUna + slen
      modifies this
      ensures Valid()
      ensures Transmitted(Model(), ok) == PseudoTcpState.Transmit(old(Model()), env, i)
    {
      var seg := slist[i];
      if seg.xmit >= MaxXmit(state) {
        return false;
      }
      var n;
      n, ok := Offer(env, seg, Min(seg.len, cong.mss));
      if !ok {
        return false;
      }
      RecordSegment(i, n);
      if timers.rtoBase == 0 {
        timers := timers.(rtoBase := Now(env));
      }
    }

    /** Cut the segment to the `n` bytes that were sent and count it as sent. */
    method RecordSegment(i: nat, n: nat)
      requires Valid() && i < |slist| && n <= slist[i].len
      modifies this`slist, this`sndNxt
      ensures Valid()
      ensures Model() == old(Model()).(snd := RecordSent(old(Snd()), i, n))
    {
      var list := slist;
      if n < list[i].len {
        list := Split(list, i, n);
      }
      var seg := list[i];
      if seg.xmit == 0 {
        sndNxt := U32(sndNxt + seg.len);
      }
      slist := Replace(list, i, [seg.(xmit := seg.xmit + 1)]);
    }

    /** The first segment that has not been sent yet. */
    method FindUnsent() returns (k: nat)
      ensures k == FirstUnsent(slist)
    {
      k := 0;
      while k < |slist| && slist[k].xmit > 0
        invariant k <= |slist|
        invariant FirstUnsent(slist) == k + FirstUnsent(slist[k..])
      {
        assert slist[k..][1..] == slist[k + 1..];
        k := k + 1;
      }
    }

    /** Send what the windows allow, then the acknowledgement that is owed. */
    method AttemptSend(env: Env, sflags: SendFlags)
      requires Valid() && Ready(Model())
      modifies this
      ensures Valid()
      ensures Model() == PseudoTcpOutput.AttemptSend(old(Model()), env, sflags)
    {
      hide Tiles, SegmentsOk, NonEmpty, Fits, SendNext, Available, FinishSend;
      if TimeDiff(Now(env), timers.lastSend) > cong.rto {
        cong := cong.(cwnd := cong.mss);
      }
      ghost var start := Model();
      var flags := sflags;
      while true
        invariant Valid() && Ready(Model())
        invariant SendLoop(Model(), env, flags) == SendLoop(start, env, sflags)
        decreases sndUna + slen - sndNxt
      {
        var more := SendOne(env, flags);
        if !more {
          return;
        }
        flags := NoAck;
      }
    }

    /** One turn of the send loop. */
    method SendOne(env: Env, sflags: SendFlags) returns (more: bool)
      requires Valid() && Ready(Model())
      modifies this
      ensures Valid() && slen == old(slen) && sndUna == old(sndUna)
      ensures if more then
                Ready(Model()) && sndNxt > old(sndNxt)
                && SendLoop(old(Model()), env, sflags) == SendLoop(Model(), env, NoAck)
              else Model() == SendLoop(old(Model()), env, sflags)
    {
      var nAvailable := ComputeAvailable();
      if nAvailable == 0 {
        Finish(env, sflags);
        return false;
      }
      if sndNxt > sndUna && nAvailable < cong.mss {
        return false;
      }
      more := TransmitNext(env, nAvailable);
    }

    method ComputeAvailable() returns (nAvailable: nat)
      requires Valid() && sndUna <= sndNxt <= sndUna + slen
      ensures nAvailable == Available(Model())
    {
      var cwnd := cong.cwnd;
      if cong.dupAcks == 1 || cong.dupAcks == 2 {
        cwnd := U32(cwnd + cong.dupAcks * cong.mss);
      }
      var nWindow := Min(sndWnd, cwnd);
      var nInFlight := sndNxt - sndUna;
      var nUseable := if nInFlight < nWindow then nWindow - nInFlight else 0;
      nAvailable := Min(slen - nInFlight, cong.mss);
      if nAvailable > nUseable {
        if nUseable * 4 < nWindow {
          nAvailable := 0;
        } else {
          nAvailable := nUseable;
        }
      }
    }

    method Finish(env: Env, sflags: SendFlags)
      requires Valid()
      modifies this`wire, this`timers
      ensures Valid() && Model() == FinishSend(old(Model()), env, sflags)
    {
      if sflags == NoAck {
        return;
      }
      if sflags == ImmediateAck || timers.tAck != 0 {
        var _ := WritePacket(env, sndNxt, false, [], true);
      } else {
        timers := timers.(tAck := Now(env));
      }
    }

    /** Cut the first unsent segment to `n` bytes and transmit it. */
    method TransmitNext(env: Env, n: nat) returns (ok: bool)
      requires Valid() && Ready(Model()) && n == Available(Model()) && n > 0
      modifies this
      ensures Valid() && slen == old(slen) && sndUna == old(sndUna)
      ensures Transmitted(Model(), ok) == SendNext(old(Model()), env)
    {
      ghost var t := Model();
      AvailableFits(t);
      CutUnsentKeeps(t, n, env);
      var k := FindUnsent();
      if slist[k].len > n {
        slist := Split(slist, k, n);
      }
      assert Model() == CutUnsent(t, n);
      TransmitEffect(CutUnsent(t, n), env, k);
      ok := Transmit(env, k);
    }

    // -------------------------------------------------------------------
    // Incoming packets

    /** Drop `nFree` acknowledged bytes from the segment list. */
    method FreeAcked(nFree: nat)
      requires nFree <= TotalLen(slist)
      modifies this`slist, this`largest
      ensures (slist, largest) == FreeSegments(old(slist), old(largest), nFree)
    {
      var left: nat := nFree;
      while left > 0
        invariant left <= TotalLen(slist)
        invariant FreeSegments(slist, largest, left) == FreeSegments(old(slist), old(largest), nFree)
        decreases left, |slist|
      {
        var data := slist[0];
        if left < data.len {
          slist := [data.(len := data.len - left)] + slist[1..];
          return;
        }
        largest := Max(largest, data.len);
        left := left - data.len;
        slist := slist[1..];
      }
    }

    /** Take an acknowledgement of data in flight into the send queue. */
    method Acknowledge(ack: nat, wnd: nat)
      requires Valid() && sndUna <= ack && ack - sndUna <= slen && ack - sndUna <= TotalLen(slist)
      modifies this`slist, this`largest, this`sndUna, this`sndWnd, this`slen, sbuf
      ensures Valid()
      ensures Model() == old(Model()).(snd := PseudoTcpSend.Acknowledge(old(Snd()), ack, wnd))
    {
      hide FreeSegments, TotalLen;
      var nAcked := ack - sndUna;
      sndWnd, sndUna := wnd, ack;
      DropFront(nAcked);
      FreeAcked(nAcked);
    }

    /** memmove the send buffer down over the first `n` bytes. */
    method DropFront(n: nat)
      requires Valid() && n <= slen
      modifies this`slen, sbuf
      ensures Valid() && sbuf[..slen] == old(sbuf[..slen])[n..]
    {
      slen := slen - n;
      forall k | 0 <= k < slen {
        sbuf[k] := sbuf[n + k];
      }
    }

    /** The queue part of an acknowledgement. */
    method TakeAck(p: Packet, env: Env)
      requires Valid() && Ready(Model()) && Acceptable(Model(), p, env)
      modifies this, sbuf
      ensures Valid() && Model() == AckQueue(old(Model()), p, env)
    {
      if sndUna < p.ack <= sndNxt {
        AcknowledgeKeeps(Snd(), p.ack, p.wnd);
        if p.tsecr != 0 {
          cong := UpdateRtt(cong, TimeDiff(Now(env), p.tsecr));
        }
        timers := timers.(rtoBase := if p.ack == sndNxt then 0 else Now(env));
        Acknowledge(p.ack, p.wnd);
      } else if p.ack == sndUna {
        sndWnd := p.wnd;
      }
    }

    method Resend(env: Env) returns (ok: bool)
      requires Valid() && Ready(Model()) && sndUna < sndNxt
      modifies this
      ensures Valid() && Transmitted(Model(), ok) == ResendHead(old(Model()), env)
    {
      HeadInFlight(Snd());
      SegmentInQueue(Snd(), 0);
      ok := Transmit(env, 0);
    }

    /** Congestion control on an acknowledgement of new data. */
    method GrowWindow(env: Env, nAcked: nat) returns (ok: bool)
      requires Valid() && Ready(Model())
      modifies this
      ensures Valid() && Transmitted(Model(), ok) == NewAck(old(Model()), env, nAcked)
    {
      ok := true;
      if cong.dupAcks >= 3 {
        if sndUna >= cong.recover {
          cong := cong.(cwnd := Min(cong.ssthresh, sndNxt - sndUna + cong.mss), dupAcks := 0);
        } else {
          ok := Resend(env);
          if ok {
            cong := cong.(cwnd := U32(cong.cwnd + cong.mss - Min(nAcked, cong.cwnd)));
          }
        }
      } else {
        cong := cong.(dupAcks := 0, cwnd := U32(cong.cwnd + WindowGrowth(cong)));
      }
    }

    /** Fast retransmit on the third repeated acknowledgement. */
    method EnterRecovery(env: Env) returns (ok: bool)
      requires Valid() && Ready(Model()) && sndUna < sndNxt
      modifies this
      ensures Valid() && Transmitted(Model(), ok) == FastRetransmit(old(Model()), env)
    {
      hide Ready, PseudoTcpState.Transmit;
      ok := Resend(env);
      if ok {
        var half := Max((sndNxt - sndUna) / 2, 2 * cong.mss);
        cong := cong.(recover := sndNxt, ssthresh := half, cwnd := half + 3 * cong.mss);
      }
    }

    /** Congestion control on a repeated acknowledgement. */
    method CountDuplicate(env: Env, bare: bool) returns (ok: bool)
      requires Valid() && Ready(Model())
      modifies this
      ensures Valid() && Transmitted(Model(), ok) == RepeatedAck(old(Model()), env, bare)
    {
      hide SendOk, Fits, FastRetransmit, Emits;
      ghost var t := Model();
      ok := true;
      if bare && sndUna == sndNxt {
        cong := cong.(dupAcks := 0);
        assert Model() == t.(cong := cong);
      } else if bare {
        var dups := (cong.dupAcks + 1) % 256;
        CongestionSwap(Model(), cong.(dupAcks := dups));
        InFlightOrNot(t);
        hide Ready;
        cong := cong.(dupAcks := dups, cwnd := if dups > 3 then U32(cong.cwnd + cong.mss) else cong.cwnd);
        assert Model() == t.(cong := cong);
        if dups == 3 {
          ok := EnterRecovery(env);
        }
      }
    }

    method ProcessAck(p: Packet, env: Env) returns (ok: bool)
      requires Valid() && Ready(Model()) && Acceptable(Model(), p, env)
      modifies this, sbuf
      ensures Valid() && Transmitted(Model(), ok) == AckStage(old(Model()), p, env)
    {
      var una, nxt := sndUna, sndNxt;
      TakeAck(p, env);
      if una < p.ack <= nxt {
        ok := GrowWindow(env, p.ack - una);
      } else if p.ack == una {
        ok := CountDuplicate(env, p.data == []);
      } else {
        ok := true;
      }
    }

    /** Make saved segments available that the in-order data has reached. */
    method DrainSaved() returns (recovered: bool)
      requires Fits(Rcv())
      modifies this`rlist, this`rlen, this`rcvNxt, this`rcvWnd
      ensures Rcv() == Drain(old(Rcv()))
      ensures recovered <==> rcvNxt != old(rcvNxt)
    {
      hide Drain, SegmentFits;
      recovered := false;
      DrainNothing(Rcv());
      while |rlist| > 0 && rlist[0].sn <= rcvNxt
        invariant Fits(Rcv()) && Drain(Rcv()) == Drain(old(Rcv()))
        invariant rcvNxt >= old(rcvNxt) && (recovered <==> rcvNxt != old(rcvNxt))
        decreases |rlist|
      {
        var data := rlist[0];
        DrainOnce(Rcv());
        if data.End() > rcvNxt {
          var nAdjust := data.End() - rcvNxt;
          recovered := true;
          rlen, rcvNxt, rcvWnd := rlen + nAdjust, U32(rcvNxt + nAdjust), U32(rcvWnd - nAdjust);
        }
        rlist := rlist[1..];
      }
      DrainNothing(Rcv());
    }

    /** Remember a segment that arrived ahead of its turn. */
    method SaveSegment(e: RSegment)
      modifies this`rlist
      ensures rlist == InsertSorted(old(rlist), e)
    {
      var k := 0;
      while k < |rlist| && rlist[k].sn < e.sn
        invariant k <= |rlist|
        invariant FindInsert(rlist, e.sn) == k + FindInsert(rlist[k..], e.sn)
      {
        assert rlist[k..][1..] == rlist[k + 1..];
        k := k + 1;
      }
      rlist := rlist[..k] + [e] + rlist[k..];
    }

    /** Copy a trimmed segment into the buffer and account for it. */
    method StoreSegment(sn: nat, data: seq<Byte>) returns (recovered: bool)
      requires Valid() && Fits(Rcv()) && data != [] && sn + |data| < TWO32
      requires rcvNxt <= sn && sn - rcvNxt + |data| <= RCV_BUF_SIZE - rlen
      modifies this`rlist, this`rlen, this`rcvNxt, this`rcvWnd, rbuf
      ensures Valid() && Rcv() == Store(old(Rcv()), sn, data)
      ensures recovered <==> sn == old(rcvNxt) && rcvNxt != U32(old(rcvNxt) + |data|)
    {
      hide Drain, SegmentFits, InsertSorted;
      var at := rlen + (sn - rcvNxt);
      forall k | 0 <= k < |data| {
        rbuf[at + k] := data[k];
      }
      assert rbuf[..] == Overwrite(old(rbuf[..]), at, data);
      if sn == rcvNxt {
        AdvanceFits(old(Rcv()), data);
        rlen, rcvNxt, rcvWnd := rlen + |data|, U32(rcvNxt + |data|), U32(rcvWnd - |data|);
        assert Rcv() == Advance(old(Rcv()).(rbuf := rbuf[..]), |data|);
        recovered := DrainSaved();
      } else {
        SaveSegment(RSegment(sn, |data|));
        recovered := false;
      }
    }

    /** The data half of `process`. */
    method TakeData(p: Packet) returns (sflags: SendFlags)
      requires Valid() && Fits(Rcv()) && p.sn + |p.data| < TWO32
      modifies this`rlist, this`rlen, this`rcvNxt, this`rcvWnd, rbuf
      ensures Valid() && Model() == ReceiveData(old(Model()), p)
      ensures sflags == AckFlags(old(Model()), p)
    {
      hide Store, Trim, SegmentFits, ReceiveData, AckFlags;
      ghost var t := Model();
      sflags := if p.sn != rcvNxt then ImmediateAck else if p.data != [] then DelayedAck else NoAck;
      var sn, data := TrimToWindow(p.sn, p.data);
      if data == [] {
        ReceiveNothing(t, p);
      } else {
        var recovered := TakeTrimmed(sn, data, p.ctl || shutdown);
        assert Model() == t.(rcv := Rcv());
        ReceiveSomething(t, p, sn, data, Rcv(), recovered);
        if recovered {
          sflags := ImmediateAck;
        }
      }
    }

    /** Store a trimmed segment, or only step over it when its data is ignored. */
    method TakeTrimmed(sn: nat, data: seq<Byte>, ignore: bool) returns (recovered: bool)
      requires Valid() && Fits(Rcv()) && data != [] && sn + |data| < TWO32
      requires rcvNxt <= sn && sn - rcvNxt + |data| <= RCV_BUF_SIZE - rlen
      modifies this`rlist, this`rlen, this`rcvNxt, this`rcvWnd, rbuf
      ensures Valid() && Snd() == old(Snd())
      ensures Rcv() == if !ignore then Store(old(Rcv()), sn, data)
                       else if sn == old(rcvNxt) then old(Rcv()).(rcvNxt := U32(old(rcvNxt) + |data|))
                       else old(Rcv())
      ensures recovered <==> !ignore && sn == old(rcvNxt) && rcvNxt != U32(old(rcvNxt) + |data|)
    {
      if ignore {
        recovered := false;
        if sn == rcvNxt {
          rcvNxt := U32(rcvNxt + |data|);
        }
      } else {
        recovered := StoreSegment(sn, data);
      }
    }

    /** Adjust an incoming segment to fit the receive buffer. */
    method TrimToWindow(sn: nat, data: seq<Byte>) returns (sn': nat, data': seq<Byte>)
      requires Valid() && Shape(Rcv()) && sn + |data| < TWO32
      ensures (sn', data') == Trim(Rcv(), sn, data)
    {
      sn', data' := sn, data;
      if sn' < rcvNxt {
        var nAdjust := rcvNxt - sn';
        if nAdjust < |data'| {
          sn', data' := sn' + nAdjust, data'[nAdjust..];
        } else {
          data' := [];
        }
      }
      var room := rbuf.Length - rlen;
      if U32(sn' + |data'| - rcvNxt) > room {
        var nAdjust := U32(U32(sn' + |data'| - rcvNxt) - room);
        data' := if nAdjust < |data'| then data'[..|data'| - nAdjust] else [];
      }
    }

    method CloseDown()
      requires Valid()
      modifies this`slen, this`state
      ensures Valid() && Model() == Closedown(old(Model()))
    {
      slen, state := 0, Closed;
      assert sbuf[..0] == [];
    }

    method AdjustMss()
      modifies this`cong
      ensures cong == AdjustMtu(old(cong))
    {
      var level := 0;
      while PACKET_MAXIMUMS[level + 1] > 0 && PACKET_MAXIMUMS[level] > cong.mtuAdvise
        invariant 0 <= level <= 9 && MssLevel(cong.mtuAdvise, level) == MssLevel(cong.mtuAdvise, 0)
        decreases 9 - level
      {
        level := level + 1;
      }
      var mss := U32(cong.mtuAdvise - PACKET_OVERHEAD);
      cong := cong.(msslevel := level, mss := mss,
                    ssthresh := Max(cong.ssthresh, U32(2 * mss)), cwnd := Max(cong.cwnd, mss));
    }

    /** A connect byte arrives. */
    method TakeConnect()
      requires Valid() && (slen < SND_BUF_SIZE || state != Listen)
      modifies this, sbuf
      ensures Valid() && Model() == Control(old(Model()))
    {
      if state == Listen {
        state := SynReceived;
        var n := Queue([CTL_CONNECT], true);
        assert [CTL_CONNECT][..n] == [CTL_CONNECT];
      } else if state == SynSent {
        state := Established;
        AdjustMss();
      }
    }

    /** The control and timestamp stage of `process`. */
    method TakeHeader(p: Packet)
      requires Valid() && (slen < SND_BUF_SIZE || state != Listen)
      modifies this, sbuf
      ensures Valid()
      ensures Model() == Timestamp(if p.ctl then Control(old(Model())) else old(Model()), p)
    {
      if p.ctl {
        TakeConnect();
      }
      ghost var t := Model();
      if p.sn <= timers.tsLastAck < U32(p.sn + |p.data|) {
        timers := timers.(tsRecent := p.tsval);
        assert Model() == t.(tsRecent := p.tsval);
      }
    }

    /** A packet for this conversation arrives at an open socket. */
    method TakePacket(p: Packet, env: Env) returns (ok: bool)
      requires Valid() && Ready(Model()) && Acceptable(Model(), p, env)
      modifies this, sbuf, rbuf
      ensures Valid() && Transmitted(Model(), ok) == ProcessOpen(old(Model()), p, env)
    {
      hide Tiles, SegmentsOk, NonEmpty, CongestionOk, AckStage, ReceiveData, PseudoTcpOutput.AttemptSend;
      ghost var t := Model();
      ControlKeeps(t, p, env);
      TakeHeader(p);
      ghost var t2 := Model();
      var valuable := sndUna < p.ack <= sndNxt;
      ok := ProcessAck(p, env);
      if ok {
        FinishPacket(t2, valuable, p, env);
      }
    }

    /** The first acknowledgement of the connect byte opens the listening side. */
    method OpenOnAck(ghost before: Tcb, valuable: bool, p: Packet)
      requires Valid() && Ready(Model()) && valuable == Valuable(before, p)
      modifies this`state, this`cong
      ensures Valid() && Model() == Establish(before, p, old(Model())) && Ready(Model())
    {
      ghost var t := Model();
      AdjustMtuOk(cong, cong.mtuAdvise);
      if valuable && state == SynReceived && !p.ctl {
        state := Established;
        AdjustMss();
      }
      assert Model() == Establish(before, p, t);
    }

    /** What follows the acknowledgement in `process`. */
    method FinishPacket(ghost before: Tcb, valuable: bool, p: Packet, env: Env)
      requires Valid() && Ready(Model()) && p.sn + |p.data| < TWO32
      requires valuable == Valuable(before, p)
      modifies this, sbuf, rbuf
      ensures Valid()
      ensures var t3 := Establish(before, p, old(Model()));
              && Ready(t3) && Ready(ReceiveData(t3, p))
              && Model() == PseudoTcpOutput.AttemptSend(ReceiveData(t3, p), env, AckFlags(t3, p))
    {
      OpenOnAck(before, valuable, p);
      ReceiveDataKeeps(Model(), p);
      var sflags := TakeData(p);
      AttemptSend(env, sflags);
    }

    method Process(p: Packet, env: Env) returns (taken: bool)
      requires Valid() && (state != Closed ==> Ready(Model()) && Acceptable(Model(), p, env))
      modifies this, sbuf, rbuf
      ensures Valid() && (Model(), taken) == PseudoTcpInput.Process(old(Model()), p, env)
    {
      if p.conv != conv {
        return false;
      }
      ghost var t := Model();
      timers := timers.(lastRecv := Now(env));
      assert Model() == t.(lastRecv := Now(env));
      if state == Closed {
        return false;
      }
      if p.rst {
        CloseDown();
        return false;
      }
      if p.ctl && (p.data == [] || p.data[0] != CTL_CONNECT) {
        return false;
      }
      taken := TakePacket(p, env);
      if !taken {
        CloseDown();
      }
    }

    // -------------------------------------------------------------------
    // The application's calls

    /** Read at most `len` bytes. */
    method Recv(len: nat, env: Env) returns (res: RecvResult)
      requires Valid() && (state == Established ==> Ready(Model()))
      modifies this, rbuf
      ensures Valid() && (Model(), res) == PseudoTcpInput.Recv(old(Model()), len, env)
    {
      hide SendOk, CongestionOk, SendLoop, PseudoTcpOutput.AttemptSend;
      if state != Established {
        return RecvNotConnected;
      }
      if rlen == 0 {
        return RecvWouldBlock;
      }
      ReadReady(Model(), len);
      var data := TakeFront(Min(len, rlen));
      var reopened := ReopenWindow();
      if reopened {
        AttemptSend(env, ImmediateAck);
      }
      res := Received(data);
    }

    /** Advertise the free part of the buffer once it is large enough. */
    method ReopenWindow() returns (reopened: bool)
      requires Valid() && rlen <= RCV_BUF_SIZE
      modifies this`rcvWnd
      ensures Valid()
      ensures reopened <==> WindowDue(old(Model())) && old(rcvWnd) == 0
      ensures Model() == if WindowDue(old(Model()))
                         then old(Model()).(rcv := old(Rcv()).(rcvWnd := U32(RCV_BUF_SIZE - rlen)))
                         else old(Model())
    {
      reopened := false;
      var slack := rbuf.Length - rlen - rcvWnd;
      if slack < 0 || slack >= Min(rbuf.Length / 2, cong.mss) {
        reopened := rcvWnd == 0;
        rcvWnd := U32(rbuf.Length - rlen);
      }
    }

    /** Remove the first `read` bytes and move the rest of the buffer up. */
    method TakeFront(read: nat) returns (data: seq<Byte>)
      requires Valid() && read <= rlen <= RCV_BUF_SIZE
      modifies this`rlen, rbuf
      ensures Valid() && data == old(rbuf[..read]) && Snd() == old(Snd())
      ensures Rcv() == old(Rcv()).(rlen := old(rlen) - read,
                                   rbuf := old(rbuf[read..]) + old(rbuf[RCV_BUF_SIZE - read..]))
    {
      data := rbuf[..read];
      rlen := rlen - read;
      forall k | 0 <= k < rbuf.Length - read {
        rbuf[k] := rbuf[read + k];
      }
      assert rbuf[..] == old(rbuf[read..]) + old(rbuf[RCV_BUF_SIZE - read..]);
    }

    /** Accept bytes for sending. */
    method Send(data: seq<Byte>, env: Env) returns (res: SendResult)
      requires Valid() && (state == Established ==> Ready(Model()) && sndUna + slen + |data| < TWO32)
      modifies this, sbuf
      ensures Valid() && (Model(), res) == PseudoTcpInput.Send(old(Model()), data, env)
    {
      hide Tiles, SegmentsOk, CongestionOk, SendLoop, PseudoTcpOutput.AttemptSend;
      if state != Established {
        return SendNotConnected;
      }
      if slen == sbuf.Length {
        return SendWouldBlock;
      }
      ghost var t := Model();
      EnqueueKeeps(t.snd, data[..Min(|data|, SND_BUF_SIZE - slen)], false);
      var n := Queue(data, false);
      AttemptSend(env, NoAck);
      res := Queued(n);
    }

    method Connect(env: Env) returns (ok: bool)
      requires Valid() && (state == Listen ==> Ready(Model()))
      modifies this, sbuf
      ensures Valid() && (Model(), ok) == PseudoTcpInput.Connect(old(Model()), env)
    {
      if state != Listen {
        return false;
      }
      ghost var t := Model();
      EnqueueKeeps(t.snd, [CTL_CONNECT], true);
      state := SynSent;
      var n := Queue([CTL_CONNECT], true);
      assert [CTL_CONNECT][..n] == [CTL_CONNECT];
      assert Model() == t.(state := SynSent, snd := Enqueue(t.snd, [CTL_CONNECT], true));
      AttemptSend(env, NoAck);
      ok := true;
    }

    method NotifyMtu(mtu: nat)
      requires Valid()
      modifies this`cong
      ensures Valid() && Model() == PseudoTcpInput.NotifyMtu(old(Model()), mtu)
    {
      cong := cong.(mtuAdvise := mtu);
      if state == Established {
        AdjustMss();
      }
    }

    /** The retransmission timer. */
    method CheckRetransmit(env: Env) returns (ok: bool)
      requires Valid() && Ready(Model())
      modifies this
      ensures Valid() && Transmitted(Model(), ok) == ClockRetransmit(old(Model()), env)
    {
      hide SendOk, CongestionOk, PseudoTcpState.Transmit;
      ok := true;
      if timers.rtoBase != 0 && TimeDiff(U32(timers.rtoBase + cong.rto), Now(env)) <= 0 {
        var limit := if state == Established then MAX_RTO else DEF_RTO;
        ok := Resend(env);
        if ok {
          BackOff(limit, env);
        }
      }
    }

    /** Shrink the windows and double the timeout after a retransmission. */
    method BackOff(limit: nat, env: Env)
      requires Valid() && sndUna <= sndNxt
      modifies this`cong, this`timers
      ensures Valid()
      ensures var t := old(Model());
              Model() == t.(cong := t.cong.(ssthresh := HalfInFlight(t), cwnd := t.cong.mss,
                                            rto := Min(limit, 2 * t.cong.rto)),
                            rtoBase := Now(env))
    {
      var half := Max((sndNxt - sndUna) / 2, 2 * cong.mss);
      cong := cong.(ssthresh := half, cwnd := cong.mss, rto := Min(limit, 2 * cong.rto));
      timers := timers.(rtoBase := Now(env));
    }

    /** Probing a closed window. */
    method CheckProbe(env: Env) returns (ok: bool)
      requires Valid() && Ready(Model())
      modifies this
      ensures Valid() && Transmitted(Model(), ok) == ClockProbe(old(Model()), env)
    {
      hide SendOk, Fits, CongestionOk, TimeDiff;
      ok := true;
      if sndWnd == 0 && TimeDiff(U32(timers.lastSend + cong.rto), Now(env)) <= 0 {
        if TimeDiff(Now(env), timers.lastRecv) >= 15000 {
          return false;
        }
        var _ := WritePacket(env, U32(sndNxt - 1), false, [], true);
        ghost var t1 := Model();
        timers := timers.(lastSend := Now(env));
        cong := cong.(rto := Min(MAX_RTO, 2 * cong.rto));
        assert Model() == t1.(lastSend := Now(env), cong := cong);
      }
    }

    method NotifyClock(env: Env)
      requires Valid() && (state != Closed ==> Ready(Model()))
      modifies this
      ensures Valid() && Model() == PseudoTcpInput.NotifyClock(old(Model()), env)
    {
      if state == Closed {
        return;
      }
      var ok := CheckRetransmit(env);
      if !ok {
        CloseDown();
        return;
      }
      ok := CheckProbe(env);
      if !ok {
        CloseDown();
        return;
      }
      if timers.tAck != 0 && TimeDiff(U32(timers.tAck + ACK_DELAY), Now(env)) <= 0 {
        var _ := WritePacket(env, sndNxt, false, [], true);
      }
    }
  }
}
