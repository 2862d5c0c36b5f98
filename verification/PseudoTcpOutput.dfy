/** What handing packets to the network does to a socket: the queue stays a
    tiling, the window is respected, and every packet is a slice of the queue. */
module PseudoTcpOutput {
  import opened Arith
  import opened PseudoTcpReceive
  import opened PseudoTcpSend
  import opened PseudoTcpState

  predicate Clocks32(t: Tcb) {
    && t.rtoBase < TWO32 && t.lastSend < TWO32 && t.lastRecv < TWO32
    && t.tAck < TWO32 && t.tsRecent < TWO32
  }

  /** The invariant of a socket that is not closed. */
  ghost predicate Ready(t: Tcb) {
    && Fits(t.rcv)
    && SendOk(t.snd)
    && CongestionOk(t.cong)
    && Clocks32(t)
    && t.cong.recover <= t.snd.sndNxt
    && (t.rtoBase != 0 ==> t.snd.sndUna < t.snd.sndNxt)
    && t.state != Closed
    && (t.state == Listen <==> t.snd.End() == 0)
  }

  /** A packet with the current acknowledgement and window of `t`, whose data
      is the part of the queue at its sequence number, cut at segment boundaries. */
  ghost predicate Emitted(p: Packet, t: Tcb, env: Env) {
    && p.conv == t.conv && !p.rst
    && p.ack == t.rcv.rcvNxt && p.wnd == t.rcv.rcvWnd % TWO16
    && p.tsval == Now(env) && p.tsecr == t.tsRecent
    && (p.data == [] ==> !p.ctl && p.sn < TWO32)
    && (p.data != [] ==> InQueue(p, t.snd))
  }

  ghost predicate InQueue(p: Packet, s: Sender) {
    && s.sndUna <= p.sn && p.sn + |p.data| <= s.sndNxt <= s.End()
    && p.data == s.sbuf[p.sn - s.sndUna..p.sn - s.sndUna + |p.data|]
    && (p.ctl <==> p.sn == 0) && (p.ctl ==> |p.data| == 1)
    && Boundary(s.slist, p.sn) && Boundary(s.slist, p.sn + |p.data|)
  }

  /** The parts of the control block no output function changes. */
  ghost predicate SameInput(t: Tcb, t': Tcb) {
    && t'.state == t.state && t'.conv == t.conv && t'.shutdown == t.shutdown
    && t'.rcv == t.rcv && t'.tsRecent == t.tsRecent && t'.lastRecv == t.lastRecv
    && t'.snd.sbuf == t.snd.sbuf && t'.snd.sndUna == t.snd.sndUna && t'.snd.sndWnd == t.snd.sndWnd
  }

  ghost predicate NewPackets(t: Tcb, t': Tcb, env: Env) {
    && |t.sent| <= |t'.sent|
    && t'.sent[..|t.sent|] == t.sent
    && forall i :: |t.sent| <= i < |t'.sent| ==> Emitted(t'.sent[i], t', env)
  }

  /** `t'` is `t` after handing some packets to the network. */
  ghost predicate Emits(t: Tcb, t': Tcb, env: Env) {
    && SameInput(t, t')
    && Ready(t')
    && t.snd.sndNxt <= t'.snd.sndNxt <= Max(t.snd.sndNxt, t.snd.sndUna + t.snd.sndWnd)
    && KeepsBoundaries(t.snd.slist, t'.snd.slist, t.snd.sndNxt)
    && NewPackets(t, t', env)
  }

  lemma EmitsTransitive(t: Tcb, t1: Tcb, t2: Tcb, env: Env)
    requires Emits(t, t1, env) && Emits(t1, t2, env)
    ensures Emits(t, t2, env)
  {
    forall i | |t.sent| <= i < |t1.sent|
      ensures Emitted(t1.sent[i], t2, env)
    {
      assert Emitted(t1.sent[i], t1, env);
    }
    forall i | |t.sent| <= i < |t2.sent|
      ensures Emitted(t2.sent[i], t2, env)
    {
      if i < |t1.sent| {
        assert t2.sent[i] == t2.sent[..|t1.sent|][i];
      }
    }
    assert t2.sent[..|t.sent|] == t2.sent[..|t1.sent|][..|t.sent|];
  }

  /** Congestion control and the timer may change after packets were handed over. */
  lemma EmitsThenTimer(t: Tcb, t': Tcb, env: Env, c: Congestion, rtoBase: nat)
    requires Emits(t, t', env) && CongestionOk(c) && c.recover <= t'.snd.sndNxt
    requires rtoBase < TWO32 && (rtoBase != 0 ==> t'.snd.sndUna < t'.snd.sndNxt)
    ensures Emits(t, t'.(cong := c, rtoBase := rtoBase), env)
  {
    var t2 := t'.(cong := c, rtoBase := rtoBase);
    forall i | |t.sent| <= i < |t2.sent|
      ensures Emitted(t2.sent[i], t2, env)
    {
      assert Emitted(t'.sent[i], t', env);
    }
  }

  // ---------------------------------------------------------------------
  // transmit()

  /** Packet `p` carries the first `n` bytes of segment `seg`. */
  ghost predicate Carries(p: Packet, t: Tcb, env: Env, seg: SSegment, n: nat) {
    && t.snd.sndUna <= seg.sn && seg.sn - t.snd.sndUna + n <= |t.snd.sbuf|
    && p == Packet(t.conv, seg.sn, t.rcv.rcvNxt, seg.ctrl, false, t.rcv.rcvWnd % TWO16, Now(env), t.tsRecent,
                   t.snd.sbuf[seg.sn - t.snd.sndUna..seg.sn - t.snd.sndUna + n])
  }

  /** Offering a segment changes only timers, the segment size and the wire. */
  ghost predicate SameButWire(t: Tcb, t': Tcb) {
    t' == t.(cong := t'.cong, lastSend := t'.lastSend, tAck := t'.tAck,
             tsLastAck := t'.tsLastAck, calls := t'.calls, sent := t'.sent)
  }

  /** Stepping the segment size down never breaks the congestion invariant. */
  lemma ReduceMssKeeps(c: Congestion, n: nat)
    requires CongestionOk(c) && n <= c.mss
    ensures CongestionOk(ReduceMss(c, n).0)
  {
    var c' := ReduceMss(c, n).0;
    assert c'.mss <= c.mss;
  }

  lemma {:induction false} WriteSegmentCongestion(t: Tcb, env: Env, seg: SSegment, n: nat)
    requires CongestionOk(t.cong) && 0 < n <= t.cong.mss && Clocks32(t)
    requires t.snd.sndUna <= seg.sn && seg.sn - t.snd.sndUna + n <= |t.snd.sbuf|
    ensures var t' := WriteSegment(t, env, seg, n).t;
            && CongestionOk(t'.cong) && t'.cong.recover == t.cong.recover && Clocks32(t')
            && t'.cong.cwnd <= Max(t.cong.cwnd, 2 * MAX_MSS)
    decreases 9 - t.cong.msslevel
  {
    var off := seg.sn - t.snd.sndUna;
    var (t1, wres) := WritePacket(t, env, seg.sn, seg.ctrl, t.snd.sbuf[off..off + n], false);
    if wres == TooLarge {
      ReduceMssKeeps(t1.cong, n);
      var (c, ok) := ReduceMss(t1.cong, n);
      if ok {
        WriteSegmentCongestion(t1.(cong := c), env, seg, c.mss);
      }
    }
  }

  /** One packet with the final number of bytes reaches the wire, or none. */
  lemma {:induction false} WriteSegmentEffect(t: Tcb, env: Env, seg: SSegment, n: nat)
    requires MssOk(t.cong) && 0 < n && HEADER_SIZE + n <= MAX_PACKET
    requires t.snd.sndUna <= seg.sn && seg.sn - t.snd.sndUna + n <= |t.snd.sbuf|
    ensures var w := WriteSegment(t, env, seg, n);
            && SameButWire(t, w.t)
            && w.n > 0
            && (if w.ok then |w.t.sent| == |t.sent| + 1 && w.t.sent[..|t.sent|] == t.sent
                             && Carries(w.t.sent[|t.sent|], t, env, seg, w.n)
                else w.t.sent == t.sent)
    decreases 9 - t.cong.msslevel
  {
    var off := seg.sn - t.snd.sndUna;
    var (t1, wres) := WritePacket(t, env, seg.sn, seg.ctrl, t.snd.sbuf[off..off + n], false);
    if wres == TooLarge {
      var (c, ok) := ReduceMss(t1.cong, n);
      if ok {
        WriteSegmentEffect(t1.(cong := c), env, seg, c.mss);
      }
    }
  }

  /** `transmit` from a well-formed queue: either it fails and only the wire
      state changed, or the segment (cut if need be) is recorded as sent. */
  lemma TransmitEffect(t: Tcb, env: Env, i: nat)
    requires Ready(t) && i < |t.snd.slist|
    requires t.snd.slist[i].len > 0
    requires t.snd.slist[i].xmit > 0 || t.snd.slist[i].sn == t.snd.sndNxt
    requires t.snd.slist[i].End() <= Max(t.snd.sndNxt, t.snd.sndUna + t.snd.sndWnd)
    ensures t.snd.sndUna <= t.snd.slist[i].sn && t.snd.slist[i].End() <= t.snd.End()
    ensures Emits(t, Transmit(t, env, i).t, env)
    ensures Transmit(t, env, i).t.cong.cwnd <= Max(t.cong.cwnd, 2 * MAX_MSS)
    ensures Transmit(t, env, i).ok && t.snd.slist[i].xmit == 0 ==>
              Transmit(t, env, i).t.snd.sndNxt > t.snd.sndNxt
  {
    var seg := t.snd.slist[i];
    Neighbours(t.snd.slist, t.snd.sndUna, t.snd.End(), i);
    if seg.xmit < MaxXmit(t.state) {
      var n := Min(seg.len, t.cong.mss);
      WriteSegmentEffect(t, env, seg, n);
      WriteSegmentCongestion(t, env, seg, n);
      var w := WriteSegment(t, env, seg, n);
      if w.ok {
        SentOne(t, w.t, env, i, w.n);
      }
    }
  }

  lemma SentOne(t: Tcb, tw: Tcb, env: Env, i: nat, n: nat)
    requires Ready(t) && i < |t.snd.slist| && 0 < n <= t.snd.slist[i].len
    requires t.snd.slist[i].xmit > 0 || t.snd.slist[i].sn == t.snd.sndNxt
    requires t.snd.slist[i].xmit < 30
    requires t.snd.slist[i].End() <= Max(t.snd.sndNxt, t.snd.sndUna + t.snd.sndWnd)
    requires SameButWire(t, tw) && CongestionOk(tw.cong) && Clocks32(tw) && tw.cong.recover == t.cong.recover
    requires |tw.sent| == |t.sent| + 1 && tw.sent[..|t.sent|] == t.sent
    requires Carries(tw.sent[|t.sent|], t, env, t.snd.slist[i], n)
    ensures var t' := tw.(snd := RecordSent(tw.snd, i, n),
                          rtoBase := if tw.rtoBase == 0 then Now(env) else tw.rtoBase);
            Emits(t, t', env) && (t.snd.slist[i].xmit == 0 ==> t'.snd.sndNxt > t.snd.sndNxt)
  {
    var seg := t.snd.slist[i];
    var s' := RecordSent(t.snd, i, n);
    RecordSentKeeps(t.snd, i, n);
    SegmentInQueue(t.snd, i);
    CarriedInQueue(tw.sent[|t.sent|], t, env, seg, n, s');
  }

  lemma CarriedInQueue(p: Packet, t: Tcb, env: Env, seg: SSegment, n: nat, s': Sender)
    requires Carries(p, t, env, seg, n) && SegmentOk(seg, t.snd.sndNxt) && 0 < n <= seg.len
    requires s'.sbuf == t.snd.sbuf && s'.sndUna == t.snd.sndUna
    requires seg.sn + n <= s'.sndNxt <= s'.End()
    requires Boundary(s'.slist, seg.sn) && Boundary(s'.slist, seg.sn + n)
    ensures p.data != [] && InQueue(p, s')
  {
    assert |p.data| == n;
  }

  lemma SegmentInQueue(s: Sender, i: nat)
    requires SendOk(s) && i < |s.slist|
    ensures SegmentOk(s.slist[i], s.sndNxt)
    ensures s.sndUna <= s.slist[i].sn && s.slist[i].End() <= s.End()
  {
    assert s.slist[i] in s.slist;
    Neighbours(s.slist, s.sndUna, s.End(), i);
  }

  // ---------------------------------------------------------------------
  // attempt_send()

  /** How many new bytes the windows, the queue and the segment size allow. */
  function Available(t: Tcb): nat
    requires t.snd.sndUna <= t.snd.sndNxt <= t.snd.End()
  {
    var c := t.cong;
    var cwnd := if c.dupAcks == 1 || c.dupAcks == 2 then U32(c.cwnd + c.dupAcks * c.mss) else c.cwnd;
    var nWindow := Min(t.snd.sndWnd, cwnd);
    var nInFlight := t.snd.sndNxt - t.snd.sndUna;
    var nUseable := if nInFlight < nWindow then nWindow - nInFlight else 0;
    var nAvailable := Min(|t.snd.sbuf| - nInFlight, c.mss);
    if nAvailable > nUseable then
      if nUseable * 4 < nWindow then 0 else nUseable
    else
      nAvailable
  }

  lemma AvailableFits(t: Tcb)
    requires t.snd.sndUna <= t.snd.sndNxt <= t.snd.End()
    ensures Available(t) <= t.snd.End() - t.snd.sndNxt
    ensures Available(t) > 0 ==> t.snd.sndNxt + Available(t) <= t.snd.sndUna + t.snd.sndWnd
  {
  }

  /** The queue with its first unsent segment cut to at most `n` bytes. */
  function CutUnsent(t: Tcb, n: nat): Tcb
    requires FirstUnsent(t.snd.slist) < |t.snd.slist|
  {
    var k := FirstUnsent(t.snd.slist);
    if t.snd.slist[k].len > n then t.(snd := t.snd.(slist := Split(t.snd.slist, k, n))) else t
  }

  lemma CutUnsentKeeps(t: Tcb, n: nat, env: Env)
    requires Ready(t) && 0 < n && t.snd.sndNxt + n <= Min(t.snd.End(), t.snd.sndUna + t.snd.sndWnd)
    ensures var k := FirstUnsent(t.snd.slist);
            && k < |t.snd.slist| && k < |CutUnsent(t, n).snd.slist|
            && Emits(t, CutUnsent(t, n), env)
            && var seg := CutUnsent(t, n).snd.slist[k];
               seg.xmit == 0 && seg.sn == t.snd.sndNxt && 0 < seg.len <= n
  {
    var k := FirstUnsent(t.snd.slist);
    UnsentAtNext(t.snd);
    if t.snd.slist[k].len > n {
      SplitKeeps(t.snd, k, n);
    }
  }

  /** The acknowledgement owed when there is nothing to send. */
  function FinishSend(t: Tcb, env: Env, sflags: SendFlags): Tcb {
    if sflags == NoAck then t
    else if sflags == ImmediateAck || t.tAck != 0 then SendAck(t, env, t.snd.sndNxt)
    else t.(tAck := Now(env))
  }

  lemma FinishSendEffect(t: Tcb, env: Env, sflags: SendFlags)
    requires Ready(t)
    ensures Emits(t, FinishSend(t, env, sflags), env)
  {
    SendAckEffect(t, env, t.snd.sndNxt);
  }

  lemma SendAckEffect(t: Tcb, env: Env, sn: nat)
    requires Ready(t) && sn < TWO32
    ensures Emits(t, SendAck(t, env, sn), env)
  {
    assert t.sent[..|t.sent|] == t.sent;
  }

  /** One new segment, cut to `Available` bytes and transmitted. */
  function SendNext(t: Tcb, env: Env): (r: Transmitted)
    requires Ready(t) && Available(t) > 0
    ensures Emits(t, r.t, env)
    ensures r.ok ==> r.t.snd.sndNxt > t.snd.sndNxt
  {
    AvailableFits(t);
    CutUnsentKeeps(t, Available(t), env);
    var t1 := CutUnsent(t, Available(t));
    var k := FirstUnsent(t.snd.slist);
    TransmitEffect(t1, env, k);
    EmitsTransitive(t, t1, Transmit(t1, env, k).t, env);
    Transmit(t1, env, k)
  }

  function SendLoop(t: Tcb, env: Env, sflags: SendFlags): (r: Tcb)
    requires Ready(t)
    ensures Emits(t, r, env)
    decreases t.snd.End() - t.snd.sndNxt
  {
    if Available(t) == 0 then
      FinishSendEffect(t, env, sflags);
      FinishSend(t, env, sflags)
    else if t.snd.sndNxt > t.snd.sndUna && Available(t) < t.cong.mss then
      t  // Nagle
    else
      var r := SendNext(t, env);
      if !r.ok then r.t
      else
        var t' := SendLoop(r.t, env, NoAck);
        EmitsTransitive(t, r.t, t', env);
        t'
  }

  function AttemptSend(t: Tcb, env: Env, sflags: SendFlags): (r: Tcb)
    requires Ready(t)
    ensures Emits(t, r, env)
  {
    var idle := TimeDiff(Now(env), t.lastSend) > t.cong.rto;
    SendLoop(if idle then t.(cong := t.cong.(cwnd := t.cong.mss)) else t, env, sflags)
  }
}
