/** Processing an incoming packet and the other calls of the socket's API. */
module PseudoTcpInput {
  import opened Arith
  import opened PseudoTcpReceive
  import opened PseudoTcpSend
  import opened PseudoTcpState
  import opened PseudoTcpOutput

  // ---------------------------------------------------------------------
  // Segment size, round-trip time and congestion window

  /** The first level of the table at or below the advised size, or the last. */
  function MssLevel(mtu: nat, level: nat): (r: nat)
    requires level <= 9
    ensures level <= r <= 9
    ensures r == 9 || PACKET_MAXIMUMS[r] <= mtu
    decreases 9 - level
  {
    if PACKET_MAXIMUMS[level + 1] == 0 || PACKET_MAXIMUMS[level] <= mtu then level
    else MssLevel(mtu, level + 1)
  }

  function AdjustMtu(c: Congestion): Congestion {
    var mss := U32(c.mtuAdvise - PACKET_OVERHEAD);
    c.(msslevel := MssLevel(c.mtuAdvise, 0), mss := mss,
       ssthresh := Max(c.ssthresh, U32(2 * mss)), cwnd := Max(c.cwnd, mss))
  }

  /** Any advised size above the packet overhead is safe, and no other is. */
  lemma AdjustMtuOk(c: Congestion, mtu: nat)
    requires CongestionOk(c) && mtu <= MAX_PACKET
    ensures CongestionOk(AdjustMtu(c.(mtuAdvise := mtu))) <==> mtu > PACKET_OVERHEAD
  {
  }

  function Bound(lower: nat, middle: nat, upper: nat): nat {
    Min(Max(lower, middle), upper)
  }

  function Abs(x: int): nat {
    if x < 0 then -x else x
  }

  function UpdateRtt(c: Congestion, rtt: nat): Congestion {
    var c1 :=
      if c.srtt == 0 then c.(srtt := rtt, rttvar := rtt / 2)
      else c.(rttvar := U32(U32(3 * c.rttvar) + Abs(rtt - c.srtt)) / 4,
              srtt := U32((U32(7 * c.srtt) + rtt) / 8));
    c1.(rto := Bound(MIN_RTO, U32(c1.srtt + Max(1, U32(4 * c1.rttvar))), MAX_RTO))
  }

  /** What one acknowledgement of new data adds to the congestion window. */
  function WindowGrowth(c: Congestion): nat
    requires c.cwnd < c.ssthresh || c.cwnd > 0
  {
    if c.cwnd < c.ssthresh then c.mss else Max(1, U32(c.mss * c.mss) / c.cwnd)
  }

  lemma WindowGrowthBounded(c: Congestion)
    requires CongestionOk(c)
    ensures 0 < WindowGrowth(c) <= c.mss
    ensures c.mss * c.mss < TWO32
  {
    SquareFits(c.mss);
    if c.cwnd >= c.ssthresh {
      MulMono(c.mss, c.cwnd, c.mss);
      DivBound(c.mss * c.mss, c.cwnd, c.mss);
    }
  }

  lemma MulMono(a: nat, b: nat, m: nat)
    requires a <= b
    ensures a * m <= b * m
  {
  }

  lemma SquareFits(m: nat)
    requires m <= MAX_MSS
    ensures m * m < TWO32
  {
    MulMono(m, MAX_MSS, m);
    assert m * MAX_MSS <= MAX_MSS * MAX_MSS;
  }

  lemma DivBound(a: nat, b: nat, m: nat)
    requires b > 0 && a <= b * m
    ensures a / b <= m
  {
    if m + 1 <= a / b {
      MulMono(m + 1, a / b, b);
    }
  }

  // ---------------------------------------------------------------------
  // process()

  /** The packet acknowledges data that is in flight. */
  predicate Valuable(t: Tcb, p: Packet) {
    t.snd.sndUna < p.ack <= t.snd.sndNxt
  }

  /** What `process` relies on: fewer than 2^32 bytes, acknowledgements on
      segment boundaries, and echoed timestamps that are not in the future. */
  ghost predicate Acceptable(t: Tcb, p: Packet, env: Env) {
    && p.sn + |p.data| < TWO32 && p.wnd < TWO16 && p.tsval < TWO32 && p.tsecr < TWO32
    && (Valuable(t, p) ==> Boundary(t.snd.slist, p.ack))
    && (Valuable(t, p) && p.tsecr != 0 ==> TimeDiff(Now(env), p.tsecr) >= 0)
  }

  function Closedown(t: Tcb): Tcb {
    t.(state := Closed, snd := t.snd.(sbuf := []))
  }

  /** A connect byte arrives. */
  function Control(t: Tcb): Tcb
    requires |t.snd.sbuf| < SND_BUF_SIZE || t.state != Listen
  {
    match t.state
    case Listen => t.(state := SynReceived, snd := Enqueue(t.snd, [CTL_CONNECT], true))
    case SynSent => t.(state := Established, cong := AdjustMtu(t.cong))
    case _ => t
  }

  function Timestamp(t: Tcb, p: Packet): Tcb {
    if p.sn <= t.tsLastAck < U32(p.sn + |p.data|) then t.(tsRecent := p.tsval) else t
  }

  /** The send queue after the acknowledgement and window of `p`. */
  function AckQueue(t: Tcb, p: Packet, env: Env): (r: Tcb)
    requires Ready(t) && Acceptable(t, p, env)
    ensures Ready(r) && KeepsBoundaries(t.snd.slist, r.snd.slist, t.snd.sndNxt)
    ensures r == t.(snd := r.snd, cong := r.cong, rtoBase := r.rtoBase)
    ensures r.snd.sndNxt == t.snd.sndNxt
    ensures r.cong.cwnd == t.cong.cwnd
  {
    if Valuable(t, p) then
      AcknowledgeKeeps(t.snd, p.ack, p.wnd);
      t.(snd := Acknowledge(t.snd, p.ack, p.wnd),
         cong := if p.tsecr != 0 then UpdateRtt(t.cong, TimeDiff(Now(env), p.tsecr)) else t.cong,
         rtoBase := if p.ack == t.snd.sndNxt then 0 else Now(env))
    else if p.ack == t.snd.sndUna then
      t.(snd := t.snd.(sndWnd := p.wnd))
    else
      t
  }

  function HalfInFlight(t: Tcb): int {
    Max((t.snd.sndNxt - t.snd.sndUna) / 2, 2 * t.cong.mss)
  }

  /** Congestion control on an acknowledgement of `nAcked` new bytes. */
  function NewAck(t: Tcb, env: Env, nAcked: nat): (r: Transmitted)
    requires Ready(t)
    ensures Emits(t, r.t, env)
  {
    var c := t.cong;
    if c.dupAcks >= 3 then
      if t.snd.sndUna >= c.recover then
        var nInFlight := t.snd.sndNxt - t.snd.sndUna;
        Transmitted(t.(cong := c.(cwnd := Min(c.ssthresh, nInFlight + c.mss), dupAcks := 0)), true)
      else
        Retransmit(t, env, nAcked)
    else
      WindowGrowthBounded(c);
      Transmitted(t.(cong := c.(dupAcks := 0, cwnd := U32(c.cwnd + WindowGrowth(c)))), true)
  }

  /** Resend the first segment. */
  function ResendHead(t: Tcb, env: Env): (r: Transmitted)
    requires Ready(t) && t.snd.sndUna < t.snd.sndNxt
    ensures Emits(t, r.t, env)
    ensures r.t.cong.cwnd <= Max(t.cong.cwnd, 2 * MAX_MSS)
  {
    HeadInFlight(t.snd);
    assert t.snd.slist[0] in t.snd.slist;
    TransmitEffect(t, env, 0);
    Transmit(t, env, 0)
  }

  /** Resend during recovery, and deflate the window by what was acknowledged. */
  function Retransmit(t: Tcb, env: Env, nAcked: nat): (r: Transmitted)
    requires Ready(t) && t.snd.sndUna < t.snd.sndNxt
    ensures Emits(t, r.t, env)
  {
    var r := ResendHead(t, env);
    if !r.ok then r
    else
      var c := r.t.cong.(cwnd := U32(r.t.cong.cwnd + r.t.cong.mss - Min(nAcked, r.t.cong.cwnd)));
      EmitsThenTimer(t, r.t, env, c, r.t.rtoBase);
      r.(t := r.t.(cong := c))
  }

  /** Congestion control on an acknowledgement that repeats the last one. */
  function RepeatedAck(t: Tcb, env: Env, bare: bool): (r: Transmitted)
    requires Ready(t)
    ensures Emits(t, r.t, env)
  {
    if !bare then Transmitted(t, true)
    else if t.snd.sndUna == t.snd.sndNxt then Transmitted(t.(cong := t.cong.(dupAcks := 0)), true)
    else
      var dups := (t.cong.dupAcks + 1) % 256;
      var t1 := t.(cong := t.cong.(dupAcks := dups));
      if dups == 3 then FastRetransmit(t1, env)
      else if dups > 3 then
        Transmitted(t1.(cong := t1.cong.(cwnd := U32(t1.cong.cwnd + t1.cong.mss))), true)
      else Transmitted(t1, true)
  }

  function FastRetransmit(t: Tcb, env: Env): (r: Transmitted)
    requires Ready(t) && t.snd.sndUna < t.snd.sndNxt
    ensures Emits(t, r.t, env)
  {
    var r := ResendHead(t, env);
    if !r.ok then r
    else
      var half := HalfInFlight(r.t);
      var c := r.t.cong.(recover := r.t.snd.sndNxt, ssthresh := half, cwnd := half + 3 * r.t.cong.mss);
      EmitsThenTimer(t, r.t, env, c, r.t.rtoBase);
      r.(t := r.t.(cong := c))
  }

  /** The acknowledgement half of `process`. */
  function AckStage(t: Tcb, p: Packet, env: Env): (r: Transmitted)
    requires Ready(t) && Acceptable(t, p, env)
    ensures Emits(AckQueue(t, p, env), r.t, env)
  {
    var t1 := AckQueue(t, p, env);
    if Valuable(t, p) then NewAck(t1, env, p.ack - t.snd.sndUna)
    else if p.ack == t.snd.sndUna then RepeatedAck(t1, env, p.data == [])
    else EmitsNothing(t1, env); Transmitted(t1, true)
  }

  lemma EmitsNothing(t: Tcb, env: Env)
    requires Ready(t)
    ensures Emits(t, t, env)
  {
  }

  /** What the packet's data does to the receive side. Control bytes, and all
      data after a shutdown, advance the sequence number and are not stored. */
  function ReceiveData(t: Tcb, p: Packet): Tcb
    requires Shape(t.rcv) && p.sn + |p.data| < TWO32
  {
    var (sn, data) := Trim(t.rcv, p.sn, p.data);
    if data == [] then t
    else if p.ctl || t.shutdown then
      if sn == t.rcv.rcvNxt then t.(rcv := t.rcv.(rcvNxt := U32(t.rcv.rcvNxt + |data|))) else t
    else
      t.(rcv := Store(t.rcv, sn, data))
  }

  /** Whether in-order data made saved segments available. */
  predicate Recovered(t: Tcb, p: Packet)
    requires Shape(t.rcv) && p.sn + |p.data| < TWO32
  {
    var (sn, data) := Trim(t.rcv, p.sn, p.data);
    && data != [] && !p.ctl && !t.shutdown && sn == t.rcv.rcvNxt
    && Store(t.rcv, sn, data).rcvNxt != U32(t.rcv.rcvNxt + |data|)
  }

  /** Which acknowledgement the packet calls for. */
  function AckFlags(t: Tcb, p: Packet): SendFlags
    requires Shape(t.rcv) && p.sn + |p.data| < TWO32
  {
    if p.sn != t.rcv.rcvNxt || Recovered(t, p) then ImmediateAck
    else if p.data != [] then DelayedAck
    else NoAck
  }

  lemma ReceiveDataKeeps(t: Tcb, p: Packet)
    requires Ready(t) && p.sn + |p.data| < TWO32
    ensures Ready(ReceiveData(t, p))
  {
    var (sn, data) := Trim(t.rcv, p.sn, p.data);
    if data != [] && !p.ctl && !t.shutdown {
      StoreFits(t.rcv, sn, data);
    }
  }

  function ProcessOpen(t: Tcb, p: Packet, env: Env): (r: Transmitted)
    requires Ready(t) && Acceptable(t, p, env)
  {
    var t2 := Timestamp(if p.ctl then Control(t) else t, p);
    ControlKeeps(t, p, env);
    var a := AckStage(t2, p, env);
    if !a.ok then a
    else
      var t3 := Establish(t2, p, a.t);
      ReceiveDataKeeps(t3, p);
      Transmitted(AttemptSend(ReceiveData(t3, p), env, AckFlags(t3, p)), true)
  }

  /** The first acknowledgement of the connect byte opens the listening side. */
  function Establish(before: Tcb, p: Packet, t: Tcb): Tcb {
    if Valuable(before, p) && t.state == SynReceived && !p.ctl
    then t.(state := Established, cong := AdjustMtu(t.cong))
    else t
  }

  lemma ControlKeeps(t: Tcb, p: Packet, env: Env)
    requires Ready(t) && Acceptable(t, p, env)
    ensures var t2 := Timestamp(if p.ctl then Control(t) else t, p);
            && Ready(t2) && Acceptable(t2, p, env)
            && KeepsBoundaries(t.snd.slist, t2.snd.slist, t.snd.sndNxt)
  {
    if p.ctl && t.state == Listen {
      ListenKeeps(t, p, env);
    } else if p.ctl && t.state == SynSent {
      SynSentKeeps(t, p, env);
    }
    TimestampKeeps(if p.ctl then Control(t) else t, p, env);
  }

  lemma TimestampKeeps(t: Tcb, p: Packet, env: Env)
    requires Ready(t) && Acceptable(t, p, env)
    ensures Ready(Timestamp(t, p)) && Acceptable(Timestamp(t, p), p, env)
    ensures Timestamp(t, p) == t.(tsRecent := Timestamp(t, p).tsRecent)
  {
  }

  lemma ListenKeeps(t: Tcb, p: Packet, env: Env)
    requires Ready(t) && Acceptable(t, p, env) && t.state == Listen
    ensures Ready(Control(t)) && Acceptable(Control(t), p, env)
    ensures KeepsBoundaries(t.snd.slist, Control(t).snd.slist, t.snd.sndNxt)
  {
    EnqueueKeeps(t.snd, [CTL_CONNECT], true);
  }

  lemma SynSentKeeps(t: Tcb, p: Packet, env: Env)
    requires Ready(t) && Acceptable(t, p, env) && t.state == SynSent
    ensures Ready(Control(t)) && Acceptable(Control(t), p, env)
  {
    AdjustMtuOk(t.cong, t.cong.mtuAdvise);
  }

  /** An incoming packet; the second result is the value returned to the caller. */
  function Process(t: Tcb, p: Packet, env: Env): (Tcb, bool)
    requires t.state != Closed ==> Ready(t) && Acceptable(t, p, env)
  {
    if p.conv != t.conv then (t, false)
    else
      var t1 := t.(lastRecv := Now(env));
      if t1.state == Closed then (t1, false)
      else if p.rst then (Closedown(t1), false)
      else if p.ctl && (p.data == [] || p.data[0] != CTL_CONNECT) then (t1, false)
      else
        var r := ProcessOpen(t1, p, env);
        if r.ok then (r.t, true) else (Closedown(r.t), false)
  }

  // ---------------------------------------------------------------------
  // The other calls

  datatype RecvResult = RecvNotConnected | RecvWouldBlock | Received(data: seq<Byte>)
  datatype SendResult = SendNotConnected | SendWouldBlock | Queued(n: nat)

  /** The window is advertised again once enough of the buffer is free. */
  predicate WindowDue(t: Tcb) {
    var slack := RCV_BUF_SIZE - t.rcv.rlen - t.rcv.rcvWnd;
    slack < 0 || slack >= Min(RCV_BUF_SIZE / 2, t.cong.mss)
  }

  /** Reading, with or without reopening the window, keeps the socket well-formed. */
  lemma ReadReady(t: Tcb, len: nat)
    requires Ready(t)
    ensures Ready(t.(rcv := ReadShift(t.rcv, len)))
    ensures var t1 := t.(rcv := ReadShift(t.rcv, len));
            Ready(t1.(rcv := t1.rcv.(rcvWnd := U32(RCV_BUF_SIZE - t1.rcv.rlen))))
  {
    var r' := ReadShift(t.rcv, len);
    forall i | 0 <= i < |r'.rlist| ensures SegmentFits(r', r'.rlist[i]) {
      assert SegmentFits(t.rcv, t.rcv.rlist[i]);
    }
  }

  function Recv(t: Tcb, len: nat, env: Env): (Tcb, RecvResult)
    requires t.state == Established ==> Ready(t)
  {
    if t.state != Established then (t, RecvNotConnected)
    else if t.rcv.rlen == 0 then (t, RecvWouldBlock)
    else
      var data := ReadBytes(t.rcv, len);
      var t1 := t.(rcv := ReadShift(t.rcv, len));
      if !WindowDue(t1) then (t1, Received(data))
      else
        var t2 := t1.(rcv := t1.rcv.(rcvWnd := U32(RCV_BUF_SIZE - t1.rcv.rlen)));
        (if t.rcv.rcvWnd == 0 then AttemptSend(t2, env, ImmediateAck) else t2, Received(data))
  }

  function Send(t: Tcb, data: seq<Byte>, env: Env): (Tcb, SendResult)
    requires t.state == Established ==> Ready(t) && t.snd.End() + |data| < TWO32
  {
    if t.state != Established then (t, SendNotConnected)
    else if |t.snd.sbuf| == SND_BUF_SIZE then (t, SendWouldBlock)
    else
      var n := Min(|data|, SND_BUF_SIZE - |t.snd.sbuf|);
      EnqueueKeeps(t.snd, data[..n], false);
      (AttemptSend(t.(snd := Enqueue(t.snd, data[..n], false)), env, NoAck), Queued(n))
  }

  function Connect(t: Tcb, env: Env): (Tcb, bool)
    requires t.state == Listen ==> Ready(t)
  {
    if t.state != Listen then (t, false)
    else
      EnqueueKeeps(t.snd, [CTL_CONNECT], true);
      (AttemptSend(t.(state := SynSent, snd := Enqueue(t.snd, [CTL_CONNECT], true)), env, NoAck), true)
  }

  function NotifyMtu(t: Tcb, mtu: nat): Tcb {
    var c := t.cong.(mtuAdvise := mtu);
    t.(cong := if t.state == Established then AdjustMtu(c) else c)
  }

  /** The retransmission timer. */
  function ClockRetransmit(t: Tcb, env: Env): (r: Transmitted)
    requires Ready(t)
    ensures Emits(t, r.t, env)
  {
    if t.rtoBase != 0 && TimeDiff(U32(t.rtoBase + t.cong.rto), Now(env)) <= 0 then
      var r := ResendHead(t, env);
      if !r.ok then r
      else
        var limit := if t.state == Established then MAX_RTO else DEF_RTO;
        var c := r.t.cong.(ssthresh := HalfInFlight(r.t), cwnd := r.t.cong.mss,
                           rto := Min(limit, 2 * r.t.cong.rto));
        EmitsThenTimer(t, r.t, env, c, Now(env));
        r.(t := r.t.(cong := c, rtoBase := Now(env)))
    else Transmitted(t, true)
  }

  /** Probing a closed window. */
  function ClockProbe(t: Tcb, env: Env): (r: Transmitted)
    requires Ready(t)
    ensures Emits(t, r.t, env)
  {
    if t.snd.sndWnd == 0 && TimeDiff(U32(t.lastSend + t.cong.rto), Now(env)) <= 0 then
      if TimeDiff(Now(env), t.lastRecv) >= 15000 then Transmitted(t, false)
      else
        SendAckEffect(t, env, U32(t.snd.sndNxt - 1));
        var t1 := SendAck(t, env, U32(t.snd.sndNxt - 1));
        Transmitted(t1.(lastSend := Now(env), cong := t1.cong.(rto := Min(MAX_RTO, 2 * t1.cong.rto))), true)
    else Transmitted(t, true)
  }

  /** A delayed acknowledgement that is due. */
  function ClockAck(t: Tcb, env: Env): (r: Tcb)
    requires Ready(t)
    ensures Emits(t, r, env)
  {
    SendAckEffect(t, env, t.snd.sndNxt);
    if t.tAck != 0 && TimeDiff(U32(t.tAck + ACK_DELAY), Now(env)) <= 0
    then SendAck(t, env, t.snd.sndNxt)
    else t
  }

  function ClockStages(t: Tcb, env: Env): (r: Transmitted)
    requires Ready(t)
    ensures Emits(t, r.t, env)
  {
    var r1 := ClockRetransmit(t, env);
    if !r1.ok then r1
    else
      var r2 := ClockProbe(r1.t, env);
      EmitsTransitive(t, r1.t, r2.t, env);
      if !r2.ok then r2
      else
        var t3 := ClockAck(r2.t, env);
        EmitsTransitive(t, r2.t, t3, env);
        Transmitted(t3, true)
  }

  function NotifyClock(t: Tcb, env: Env): Tcb
    requires t.state != Closed ==> Ready(t)
  {
    if t.state == Closed then t
    else
      var r := ClockStages(t, env);
      if r.ok then r.t else Closedown(r.t)
  }
}
