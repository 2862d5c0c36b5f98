/** Does the congestion window always hold a segment? Three places add to the 32-bit
    window. It holds a segment exactly as long as no call lets one of these sums wrap around
    without setting the window anew later, and a connection can reach a sum that does. */
module PseudoTcpCongestion {
  import opened Arith
  import opened PseudoTcpReceive
  import opened PseudoTcpSend
  import opened PseudoTcpState
  import opened PseudoTcpOutput
  import opened PseudoTcpInput
  import opened PseudoTcpProgress
  import opened PseudoTcpSafety

  predicate Holds(c: Congestion) {
    c.mss <= c.cwnd
  }

  // ---------------------------------------------------------------------
  // The three sums

  lemma WrapOnce(x: int)
    requires TWO32 <= x < 2 * TWO32
    ensures U32(x) == x - TWO32
  {
  }

  /** An acknowledgement of new data outside recovery. */
  lemma GrowthHoldsIff(c: Congestion)
    requires CongestionOk(c) && Holds(c)
    ensures Holds(c.(cwnd := U32(c.cwnd + WindowGrowth(c)))) <==> c.cwnd + WindowGrowth(c) < TWO32
  {
    WindowGrowthBounded(c);
    if c.cwnd + WindowGrowth(c) >= TWO32 {
      WrapOnce(c.cwnd + WindowGrowth(c));
    }
  }

  /** An acknowledgement of part of what was in flight when recovery began. */
  lemma DeflateHoldsIff(c: Congestion, nAcked: nat)
    requires CongestionOk(c)
    ensures var sum := c.cwnd + c.mss - Min(nAcked, c.cwnd);
            Holds(c.(cwnd := U32(sum))) <==> sum < TWO32
  {
    var sum := c.cwnd + c.mss - Min(nAcked, c.cwnd);
    if sum >= TWO32 {
      WrapOnce(sum);
    }
  }

  /** A further duplicate acknowledgement during recovery. */
  lemma InflateHoldsIff(c: Congestion)
    requires CongestionOk(c)
    ensures Holds(c.(cwnd := U32(c.cwnd + c.mss))) <==> c.cwnd + c.mss < TWO32
  {
    if c.cwnd + c.mss >= TWO32 {
      WrapOnce(c.cwnd + c.mss);
    }
  }

  // ---------------------------------------------------------------------
  // Sending

  /** Sending leaves the window and the segment size alone, or steps the segment size down,
      which sets the window anew. */
  predicate Stepped(c: Congestion, c': Congestion) {
    && c.msslevel <= c'.msslevel
    && if c.msslevel == c'.msslevel then c'.mss == c.mss && c'.cwnd == c.cwnd else Holds(c')
  }

  lemma {:induction false} ReduceSteps(c: Congestion, n: nat)
    requires c.msslevel <= 9
    ensures Stepped(c, ReduceMss(c, n).0)
  {
    assert PACKET_MAXIMUMS[10] == 0;
  }

  lemma {:induction false} WriteSteps(t: Tcb, env: Env, seg: SSegment, n: nat)
    requires MssOk(t.cong) && HEADER_SIZE + n <= MAX_PACKET
    requires t.snd.sndUna <= seg.sn && seg.sn - t.snd.sndUna + n <= |t.snd.sbuf|
    ensures Stepped(t.cong, WriteSegment(t, env, seg, n).t.cong)
    decreases 9 - t.cong.msslevel
  {
    hide ReduceMss;
    var off := seg.sn - t.snd.sndUna;
    var (t1, wres) := WritePacket(t, env, seg.sn, seg.ctrl, t.snd.sbuf[off..off + n], false);
    if wres == TooLarge {
      var (c, ok) := ReduceMss(t1.cong, n);
      ReduceSteps(t1.cong, n);
      if ok {
        WriteSteps(t1.(cong := c), env, seg, c.mss);
      }
    }
  }

  lemma TransmitSteps(t: Tcb, env: Env, i: nat)
    requires MssOk(t.cong) && i < |t.snd.slist|
    requires t.snd.sndUna <= t.snd.slist[i].sn && t.snd.slist[i].End() <= t.snd.End()
    ensures Stepped(t.cong, Transmit(t, env, i).t.cong)
  {
    hide WriteSegment, RecordSent;
    var seg := t.snd.slist[i];
    if seg.xmit < MaxXmit(t.state) {
      WriteSteps(t, env, seg, Min(seg.len, t.cong.mss));
    }
  }

  lemma ResendHolds(t: Tcb, env: Env)
    requires Ready(t) && t.snd.sndUna < t.snd.sndNxt && Holds(t.cong)
    ensures Holds(ResendHead(t, env).t.cong)
  {
    hide Transmit;
    HeadInFlight(t.snd);
    assert t.snd.slist[0] in t.snd.slist;
    TransmitEffect(t, env, 0);
    TransmitSteps(t, env, 0);
  }

  lemma SendNextSteps(t: Tcb, env: Env)
    requires Ready(t) && Available(t) > 0
    ensures Stepped(t.cong, SendNext(t, env).t.cong)
  {
    hide Transmit, Available;
    AvailableFits(t);
    CutUnsentKeeps(t, Available(t), env);
    var t1 := CutUnsent(t, Available(t));
    var k := FirstUnsent(t.snd.slist);
    TransmitEffect(t1, env, k);
    TransmitSteps(t1, env, k);
  }

  lemma {:induction false} SendLoopSteps(t: Tcb, env: Env, sflags: SendFlags)
    requires Ready(t)
    ensures Stepped(t.cong, SendLoop(t, env, sflags).cong)
    decreases t.snd.End() - t.snd.sndNxt
  {
    hide SendNext, Available, Tiles, SegmentsOk, NonEmpty, Fits;
    if Available(t) != 0 && !(t.snd.sndNxt > t.snd.sndUna && Available(t) < t.cong.mss) {
      SendNextSteps(t, env);
      var r := SendNext(t, env);
      if r.ok {
        SendLoopSteps(r.t, env, NoAck);
      }
    }
  }

  /** Nothing was sent for longer than the retransmission timeout. */
  ghost predicate Idle(t: Tcb, env: Env)
    requires Ready(t)
  {
    TimeDiff(Now(env), t.lastSend) > t.cong.rto
  }

  /** Sending meets write results that step the segment size down. */
  ghost predicate StepsDown(t: Tcb, env: Env, sflags: SendFlags)
    requires Ready(t)
  {
    AttemptSend(t, env, sflags).cong.msslevel > t.cong.msslevel
  }

  /** After sending, the window holds a segment if and only if it did before, or was reset
      after idling, or was set anew for smaller segments. */
  lemma AttemptSendHoldsIff(t: Tcb, env: Env, sflags: SendFlags)
    requires Ready(t)
    ensures Holds(AttemptSend(t, env, sflags).cong) <==> Holds(t.cong) || Idle(t, env) || StepsDown(t, env, sflags)
  {
    hide SendLoop;
    if Idle(t, env) {
      SendLoopSteps(t.(cong := t.cong.(cwnd := t.cong.mss)), env, sflags);
    } else {
      SendLoopSteps(t, env, sflags);
    }
  }

  // ---------------------------------------------------------------------
  // Acknowledgements

  /** The acknowledgement makes one of the three sums wrap around. */
  ghost predicate Wraps(t: Tcb, p: Packet, env: Env)
    requires Ready(t) && Acceptable(t, p, env)
  {
    var t1 := AckQueue(t, p, env);
    var c := t1.cong;
    if Valuable(t, p) then
      if c.dupAcks < 3 then c.cwnd + WindowGrowth(c) >= TWO32
      else
        && t1.snd.sndUna < c.recover
        && var r := ResendHead(t1, env);
           r.ok && r.t.cong.cwnd + r.t.cong.mss - Min(p.ack - t.snd.sndUna, r.t.cong.cwnd) >= TWO32
    else
      && p.ack == t.snd.sndUna && p.data == [] && t1.snd.sndUna != t1.snd.sndNxt
      && (c.dupAcks + 1) % 256 > 3 && c.cwnd + c.mss >= TWO32
  }

  lemma NewAckHoldsIff(t: Tcb, env: Env, nAcked: nat)
    requires Ready(t) && Holds(t.cong)
    ensures Holds(NewAck(t, env, nAcked).t.cong) <==>
            if t.cong.dupAcks < 3 then t.cong.cwnd + WindowGrowth(t.cong) < TWO32
            else t.snd.sndUna < t.cong.recover ==>
              var r := ResendHead(t, env);
              r.ok ==> r.t.cong.cwnd + r.t.cong.mss - Min(nAcked, r.t.cong.cwnd) < TWO32
  {
    hide ResendHead, WindowGrowth, Emits;
    var c := t.cong;
    if c.dupAcks < 3 {
      GrowthHoldsIff(c);
    } else if t.snd.sndUna < c.recover {
      ResendHolds(t, env);
      DeflateOk(t, env, nAcked);
    }
  }

  lemma DeflateOk(t: Tcb, env: Env, nAcked: nat)
    requires Ready(t) && t.snd.sndUna < t.snd.sndNxt
    ensures var c := ResendHead(t, env).t.cong;
            var sum := c.cwnd + c.mss - Min(nAcked, c.cwnd);
            Holds(c.(cwnd := U32(sum))) <==> sum < TWO32
  {
    hide ResendHead, SendOk, Fits;
    DeflateHoldsIff(ResendHead(t, env).t.cong, nAcked);
  }

  lemma RepeatedAckHoldsIff(t: Tcb, env: Env, bare: bool)
    requires Ready(t) && Holds(t.cong)
    ensures Holds(RepeatedAck(t, env, bare).t.cong) <==>
            !(bare && t.snd.sndUna != t.snd.sndNxt && (t.cong.dupAcks + 1) % 256 > 3
              && t.cong.cwnd + t.cong.mss >= TWO32)
  {
    hide ResendHead, Emits;
    InflateHoldsIff(t.cong);
    if bare && t.snd.sndUna != t.snd.sndNxt && (t.cong.dupAcks + 1) % 256 == 3 {
      ResendHolds(t.(cong := t.cong.(dupAcks := 3)), env);
    }
  }

  /** The acknowledgement stage keeps room for a segment exactly when no sum wraps. */
  lemma AckHoldsIff(t: Tcb, p: Packet, env: Env)
    requires Ready(t) && Acceptable(t, p, env) && Holds(t.cong)
    ensures Holds(AckStage(t, p, env).t.cong) <==> !Wraps(t, p, env)
  {
    hide NewAck, RepeatedAck, ResendHead, WindowGrowth;
    var t1 := AckQueue(t, p, env);
    AckQueueHolds(t, p, env);
    if Valuable(t, p) {
      NewAckHoldsIff(t1, env, p.ack - t.snd.sndUna);
    } else if p.ack == t.snd.sndUna {
      RepeatedAckHoldsIff(t1, env, p.data == []);
    }
  }

  lemma AckQueueHolds(t: Tcb, p: Packet, env: Env)
    requires Ready(t) && Acceptable(t, p, env) && Holds(t.cong)
    ensures Holds(AckQueue(t, p, env).cong)
  {
  }

  // ---------------------------------------------------------------------
  // Calls and runs

  lemma AtAckReady(t: Tcb, p: Packet, env: Env)
    requires Ready(t) && Acceptable(t, p, env)
    ensures Ready(AtAck(t, p, env)) && Acceptable(AtAck(t, p, env), p, env)
    ensures Holds(t.cong) ==> Holds(AtAck(t, p, env).cong)
  {
    hide Control, Timestamp;
    HeardSafe(t, p, env);
    ControlKeeps(t.(lastRecv := Now(env)), p, env);
    if Holds(t.cong) {
      ControlHolds(t.(lastRecv := Now(env)), p);
    }
  }

  lemma ControlHolds(t: Tcb, p: Packet)
    requires Ready(t) && Holds(t.cong)
    ensures Holds(Timestamp(if p.ctl then Control(t) else t, p).cong)
  {
    hide SendOk, Fits;
  }

  /** The call lets a sum wrap around: only arriving packets can. */
  ghost predicate CallWraps(t: Tcb, c: Call, env: Env)
    requires Safe(t) && Admissible(t, c, env)
  {
    && c.CallPacket? && t.state != Closed && Heeded(t, c.p)
    && (AtAckReady(t, c.p, env); Wraps(AtAck(t, c.p, env), c.p, env))
  }

  /** A later stage of the packet's handling sets the window anew: the connection opens and
      adopts the advised MTU, or the socket was idle, or smaller segments are called for. */
  ghost predicate Heals(t: Tcb, p: Packet, env: Env)
    requires Ready(t) && Acceptable(t, p, env)
  {
    AtAckReady(t, p, env);
    var t2 := AtAck(t, p, env);
    var a := AckStage(t2, p, env);
    && a.ok
    && (|| (Valuable(t2, p) && a.t.state == SynReceived && !p.ctl)
        || Idle(AtSend(t, p, env), env)
        || StepsDown(AtSend(t, p, env), env, AckFlags(Establish(t2, p, a.t), p)))
  }

  /** The call lets a sum wrap around and no later stage makes up for it. */
  ghost predicate CallLoses(t: Tcb, c: Call, env: Env)
    requires Safe(t) && Admissible(t, c, env)
  {
    CallWraps(t, c, env) && !Heals(t, c.p, env)
  }

  lemma ProcessHoldsIff(t: Tcb, p: Packet, env: Env)
    requires Ready(t) && Acceptable(t, p, env) && Holds(t.cong) && Heeded(t, p)
    ensures Holds(Process(t, p, env).0.cong) <==> !CallLoses(t, CallPacket(p), env)
  {
    hide AckStage, Wraps, ReceiveData, AttemptSend, Control, Timestamp, AckFlags, Idle;
    AtAckReady(t, p, env);
    var t2 := AtAck(t, p, env);
    AckHoldsIff(t2, p, env);
    var a := AckStage(t2, p, env);
    if a.ok {
      var t3 := Establish(t2, p, a.t);
      EstablishSafe(t2, p, a.t);
      ReceiveDataKeeps(t3, p);
      ReceiveSame(t3, p);
      AttemptSendHoldsIff(ReceiveData(t3, p), env, AckFlags(t3, p));
    }
  }

  lemma ReceiveSame(t: Tcb, p: Packet)
    requires Shape(t.rcv) && p.sn + |p.data| < TWO32
    ensures ReceiveData(t, p).cong == t.cong
  {
  }

  lemma ClockHolds(t: Tcb, env: Env)
    requires Ready(t) && Holds(t.cong)
    ensures Holds(NotifyClock(t, env).cong)
  {
    hide ClockRetransmit, ClockProbe, Emits, SendOk, Fits;
    RetransmitHolds(t, env);
    var r := ClockRetransmit(t, env);
    if r.ok {
      ProbeHolds(r.t, env);
    }
  }

  lemma RetransmitHolds(t: Tcb, env: Env)
    requires Ready(t) && Holds(t.cong)
    ensures Holds(ClockRetransmit(t, env).t.cong) && Ready(ClockRetransmit(t, env).t)
  {
    hide ResendHead, SendOk, Fits, CongestionOk, TimeDiff;
    if t.rtoBase != 0 {
      ResendHolds(t, env);
    }
  }

  lemma ProbeHolds(t: Tcb, env: Env)
    requires Ready(t) && Holds(t.cong)
    ensures Holds(ClockProbe(t, env).t.cong)
  {
    hide SendOk, Fits, CongestionOk, TimeDiff;
  }

  lemma RecvHolds(t: Tcb, len: nat, env: Env)
    requires Ready(t) && Holds(t.cong)
    ensures Holds(Recv(t, len, env).0.cong)
  {
    hide AttemptSend, ReadShift, ReadBytes;
    if t.state == Established && t.rcv.rlen != 0 {
      var t1 := t.(rcv := ReadShift(t.rcv, len));
      var t2 := t1.(rcv := t1.rcv.(rcvWnd := U32(RCV_BUF_SIZE - t1.rcv.rlen)));
      ReadReady(t, len);
      AttemptSendHoldsIff(t2, env, ImmediateAck);
    }
  }

  lemma SendHolds(t: Tcb, data: seq<Byte>, env: Env)
    requires Ready(t) && Holds(t.cong) && t.snd.End() + |data| < TWO32
    ensures Holds(Send(t, data, env).0.cong)
  {
    hide AttemptSend, Tiles, SegmentsOk, NonEmpty, Fits, Enqueue;
    if t.state == Established && |t.snd.sbuf| != SND_BUF_SIZE {
      var n := Min(|data|, SND_BUF_SIZE - |t.snd.sbuf|);
      EnqueueKeeps(t.snd, data[..n], false);
      QueuedReady(t, data[..n]);
      AttemptSendHoldsIff(t.(snd := Enqueue(t.snd, data[..n], false)), env, NoAck);
    }
  }

  lemma QueuedReady(t: Tcb, data: seq<Byte>)
    requires Ready(t) && t.state == Established && |t.snd.sbuf| + |data| <= SND_BUF_SIZE
    requires t.snd.End() + |data| < TWO32
    ensures Ready(t.(snd := Enqueue(t.snd, data, false)))
  {
    EnqueueKeeps(t.snd, data, false);
  }

  lemma ConnectHolds(t: Tcb, env: Env)
    requires Ready(t) && Holds(t.cong)
    ensures Holds(Connect(t, env).0.cong)
  {
    hide AttemptSend;
    if t.state == Listen {
      EnqueueKeeps(t.snd, [CTL_CONNECT], true);
      AttemptSendHoldsIff(t.(state := SynSent, snd := Enqueue(t.snd, [CTL_CONNECT], true)), env, NoAck);
    }
  }

  /** A call keeps room for a segment if and only if it makes no sum wrap around or a later
      stage of it sets the window anew. */
  lemma CallHoldsIff(t: Tcb, c: Call, env: Env)
    requires Safe(t) && Admissible(t, c, env) && Holds(t.cong)
    ensures Holds(Apply(t, c, env).cong) <==> !CallLoses(t, c, env)
  {
    hide Ready, Acceptable, Process, Recv, Send, Connect, NotifyClock, Heals, Wraps, AtAck;
    if t.state == Closed {
      ClosedHolds(t, c, env);
    } else {
      match c
      case CallConnect => ConnectHolds(t, env);
      case CallSend(data) => SendHolds(t, data, env);
      case CallRecv(len) => RecvHolds(t, len, env);
      case CallClock => ClockHolds(t, env);
      case CallMtu(mtu) =>
      case CallPacket(p) => PacketHoldsIff(t, p, env);
    }
  }

  lemma ClosedHolds(t: Tcb, c: Call, env: Env)
    requires t.state == Closed && Admissible(t, c, env) && Holds(t.cong)
    ensures Holds(Apply(t, c, env).cong)
  {
  }

  lemma PacketHoldsIff(t: Tcb, p: Packet, env: Env)
    requires Ready(t) && Acceptable(t, p, env) && Holds(t.cong)
    ensures Holds(Process(t, p, env).0.cong) <==> !CallLoses(t, CallPacket(p), env)
  {
    hide Wraps, ProcessOpen, Fits, SendOk, CongestionOk, Acceptable, Heals;
    if Heeded(t, p) {
      ProcessHoldsIff(t, p, env);
    }
  }

  /** Some call of the run loses the room for a segment. */
  ghost predicate RunLoses(t: Tcb, steps: seq<Step>)
    requires Safe(t)
    decreases |steps|
  {
    && steps != [] && Admissible(t, steps[0].c, steps[0].env)
    && (|| CallLoses(t, steps[0].c, steps[0].env)
        || (ApplyKeeps(t, steps[0].c, steps[0].env);
            RunLoses(Apply(t, steps[0].c, steps[0].env), steps[1..])))
  }

  /** The window holds a segment in every state of the run, up to a call that is not allowed. */
  ghost predicate AlwaysHolds(t: Tcb, steps: seq<Step>)
    requires Safe(t)
    decreases |steps|
  {
    && Holds(t.cong)
    && (steps != [] && Admissible(t, steps[0].c, steps[0].env) ==>
          (ApplyKeeps(t, steps[0].c, steps[0].env);
           AlwaysHolds(Apply(t, steps[0].c, steps[0].env), steps[1..])))
  }

  lemma {:induction false} RunHoldsIff(t: Tcb, steps: seq<Step>)
    requires Safe(t) && Holds(t.cong)
    ensures AlwaysHolds(t, steps) <==> !RunLoses(t, steps)
    decreases |steps|
  {
    hide Ready, CallLoses, Apply, Admissible;
    if steps != [] && Admissible(t, steps[0].c, steps[0].env) {
      CallHoldsIff(t, steps[0].c, steps[0].env);
      ApplyKeeps(t, steps[0].c, steps[0].env);
      if !CallLoses(t, steps[0].c, steps[0].env) {
        RunHoldsIff(Apply(t, steps[0].c, steps[0].env), steps[1..]);
      }
    }
  }

  /** The window holds a segment in every state of a run if and only if no call of the run
      makes a sum wrap around that no later stage of the call makes up for. */
  lemma WindowHoldsSegmentIff(conv: nat, now: nat, steps: seq<Step>)
    requires now < TWO32
    ensures Safe(InitialTcb(conv, now))
    ensures AlwaysHolds(InitialTcb(conv, now), steps) <==> !RunLoses(InitialTcb(conv, now), steps)
  {
    hide RunLoses, AlwaysHolds;
    assert Ready(InitialTcb(conv, now));
    RunHoldsIff(InitialTcb(conv, now), steps);
  }

  // ---------------------------------------------------------------------
  // A sum that wraps around can be reached

  /** Connected with nothing queued: `k` bytes were sent and acknowledged. */
  ghost predicate Resting(t: Tcb, env: Env, k: nat, w: nat) {
    && Ready(t) && t.state == Established && !t.shutdown
    && t.snd == Sender([], [], k, k, 1, t.snd.largest)
    && t.rcv.rcvNxt == 1 && t.lastSend == Now(env) && t.rtoBase == 0
    && t.cong.mss == MAX_MSS && t.cong.cwnd == w && t.cong.dupAcks == 0
  }

  /** One byte is in flight. */
  ghost predicate Flying(t: Tcb, env: Env, k: nat, w: nat) {
    && Ready(t) && t.state == Established && !t.shutdown
    && t.snd == Sender([0], [SSegment(k, 1, 1, false)], k, k + 1, 1, t.snd.largest)
    && t.rcv.rcvNxt == 1 && t.lastSend == Now(env)
    && t.cong.mss == MAX_MSS && t.cong.cwnd == w && t.cong.dupAcks == 0
  }

  lemma ByteSent(t: Tcb, clock: nat, k: nat, w: nat)
    requires Resting(t, Calm(clock), k, w) && 0 < w && k + 1 < TWO32
    ensures Flying(Send(t, [0], Calm(clock)).0, Calm(clock), k, w)
  {
    hide SendOk, Fits, CongestionOk, TimeDiff, SendLoop, Window;
    var env := Calm(clock);
    var t1 := t.(snd := Enqueue(t.snd, [0], false));
    QueuedReady(t, [0]);
    NoTime(Now(env));
    RtoBounds(t);
    assert [0][..1] == [0];
    assert t1.snd == t.snd.(sbuf := [0], slist := [SSegment(k, 1, 0, false)]);
    ByteFits(t1);
    SegmentSent(t1, env, NoAck, k, 1, false);
  }

  lemma ByteFits(t: Tcb)
    requires Ready(t) && 0 < t.cong.cwnd && t.cong.dupAcks == 0 && t.snd.sndWnd == 1
    ensures Window(t) == 1 && 1 <= t.cong.mss
  {
  }

  function Ack(conv: nat, ack: nat): Packet {
    Packet(conv, 1, ack, false, false, 1, 0, 0, [])
  }

  lemma AckTaken(t: Tcb, clock: nat, k: nat, w: nat)
    requires Flying(t, Calm(clock), k, w) && (w < t.cong.ssthresh || 0 < w)
    ensures Acceptable(t, Ack(t.conv, k + 1), Calm(clock))
    ensures Process(t, Ack(t.conv, k + 1), Calm(clock)).0.conv == t.conv
    ensures Resting(Process(t, Ack(t.conv, k + 1), Calm(clock)).0, Calm(clock), k + 1, U32(w + WindowGrowth(t.cong)))
  {
    hide AckStage, AttemptSend, SendOk, Process, AtSend, NewPackets, Emits, RenoGrowth, LevelOk, FinishSend,
      ReceiveData, AckFlags, WindowGrowth;
    var env, p := Calm(clock), Ack(t.conv, k + 1);
    assert Acceptable(t, p, env);
    ProcessIs(t, p, env);
    AtSendIs(t, p, env);
    NothingReceived(t, p);
    var t2 := AtAck(t, p, env);
    assert t2 == t.(lastRecv := Now(env), tsRecent := t2.tsRecent);
    AckStageFrees(t2, p, env, k, false);
    GrowthIs(t.cong);
    NothingToSend(AtSend(t, p, env), env, NoAck);
    FinishNothing(AtSend(t, p, env), env);
  }

  /** From a resting state, one byte after the other is sent and acknowledged until the
      sum wraps around. */
  lemma {:induction false} Grind(t: Tcb, clock: nat, k: nat, w: nat) returns (steps: seq<Step>, final: Tcb)
    requires Resting(t, Calm(clock), k, w) && k < w < TWO32
    ensures Run(t, steps, final) && final.state == Established && !Holds(final.cong)
    decreases TWO32 - w
  {
    hide Ready, Send, Process, Acceptable, WindowGrowth;
    var env := Calm(clock);
    ByteSent(t, clock, k, w);
    var t1 := Send(t, [0], env).0;
    GrowthOf(t1, env, k, w);
    var g := WindowGrowth(t1.cong);
    AckTaken(t1, clock, k, w);
    var p := Ack(t1.conv, k + 1);
    var t2 := Process(t1, p, env).0;
    var s1, s2 := Step(CallSend([0]), env), Step(CallPacket(p), env);
    if w + g < TWO32 {
      steps, final := Grind(t2, clock, k + 1, w + g);
    } else {
      WrapOnce(w + g);
      steps, final := [], t2;
    }
    TwoSteps(t, s1, s2, t1, t2, steps, final);
    steps := [s1, s2] + steps;
  }

  lemma GrowthOf(t: Tcb, env: Env, k: nat, w: nat)
    requires Flying(t, env, k, w)
    ensures (w < t.cong.ssthresh || 0 < w) && 0 < WindowGrowth(t.cong) <= t.cong.mss
  {
    hide SendOk, Fits, WindowGrowth;
    WindowGrowthBounded(t.cong);
  }

  lemma TwoSteps(t: Tcb, s1: Step, s2: Step, t1: Tcb, t2: Tcb, steps: seq<Step>, final: Tcb)
    requires Safe(t) && Admissible(t, s1.c, s1.env) && t1 == Apply(t, s1.c, s1.env)
    requires Safe(t1) && Admissible(t1, s2.c, s2.env) && t2 == Apply(t1, s2.c, s2.env)
    requires Safe(t2) && Run(t2, steps, final)
    ensures Run(t, [s1, s2] + steps, final)
  {
    hide Safe, Admissible, Apply;
    var all := [s1, s2] + steps;
    assert all[1..] == [s2] + steps && all[1..][1..] == steps;
    assert ([s2] + steps)[1..] == steps;
    assert Run(t1, [s2] + steps, final);
  }

  /** The connecting side waits for the answer to its connect byte. */
  ghost predicate Asking(t: Tcb, env: Env) {
    && Ready(t) && t.state == SynSent && !t.shutdown
    && t.snd == Sender([0], [SSegment(0, 1, 1, true)], 0, 1, 1, t.snd.largest)
    && t.rcv == InitialReceiver() && t.cong == InitialCongestion() && t.lastSend == Now(env)
  }

  lemma ConnectAsks(conv: nat, clock: nat)
    ensures var t := InitialTcb(conv, Now(Calm(clock)));
            Ready(t) && Asking(Connect(t, Calm(clock)).0, Calm(clock)) && Connect(t, Calm(clock)).0.conv == conv
  {
    hide SendLoop, InitialReceiver, Ready, Connect, InitialCongestion, Window;
    var env := Calm(clock);
    var t := InitialTcb(conv, Now(env));
    InitialIsReady(conv, Now(env));
    ConnectOffered(t, env);
    var t1 := t.(state := SynSent, snd := Sender([CTL_CONNECT], [SSegment(0, 1, 0, true)], 0, 0, 1, 0));
    SegmentSent(t1, env, NoAck, 0, 1, true);
  }

  lemma InitialIsReady(conv: nat, now: nat)
    requires now < TWO32
    ensures Ready(InitialTcb(conv, now))
  {
  }

  function Answer(conv: nat): Packet {
    Packet(conv, 0, 1, true, false, 1, 0, 0, [CTL_CONNECT])
  }

  lemma AnswerTaken(t: Tcb, clock: nat)
    requires Asking(t, Calm(clock))
    ensures Acceptable(t, Answer(t.conv), Calm(clock))
    ensures Resting(Process(t, Answer(t.conv), Calm(clock)).0, Calm(clock), 1, 2 * MAX_MSS)
  {
    hide AckStage, AttemptSend, SendOk, Process, ReceiveData, AckFlags, AtSend, InitialReceiver, Fits, FinishSend;
    var env, p := Calm(clock), Answer(t.conv);
    assert Acceptable(t, p, env);
    ProcessIs(t, p, env);
    AtSendIs(t, p, env);
    ConnectReceived(t, p);
    var t2, b := AtAck(t, p, env), AtSend(t, p, env);
    assert t2.cong.mss == MAX_MSS == t2.cong.cwnd && t2.cong.ssthresh == 2 * MAX_MSS && t2.state == Established;
    AckStageFrees(t2, p, env, 0, true);
    NothingToSend(b, env, DelayedAck);
    OnlyOwed(b, env, DelayedAck);
  }

  /** A connection of fewer than 2^32 bytes whose peer acknowledges every byte on its own
      reaches a state in which the window no longer holds a segment. */
  lemma WrapIsReachable(conv: nat, clock: nat) returns (steps: seq<Step>, final: Tcb)
    ensures Safe(InitialTcb(conv, Now(Calm(clock))))
    ensures Run(InitialTcb(conv, Now(Calm(clock))), steps, final)
    ensures final.state == Established && !Holds(final.cong)
  {
    hide Ready, Connect, Process, Acceptable;
    var env := Calm(clock);
    var t := InitialTcb(conv, Now(env));
    ConnectAsks(conv, clock);
    var t1 := Connect(t, env).0;
    AnswerTaken(t1, clock);
    var t2 := Process(t1, Answer(conv), env).0;
    RestingReady(t2, env);
    steps, final := Grind(t2, clock, 1, 2 * MAX_MSS);
    var s1, s2 := Step(CallConnect, env), Step(CallPacket(Answer(conv)), env);
    TwoSteps(t, s1, s2, t1, t2, steps, final);
    steps := [s1, s2] + steps;
  }

  lemma RestingReady(t: Tcb, env: Env)
    requires Resting(t, env, 1, 2 * MAX_MSS)
    ensures Ready(t)
  {
  }
}
