/** In every run of a connecting and a listening endpoint, what one application
    reads is a prefix of what the other wrote. */
module PseudoTcpDelivery {
  import opened Arith
  import opened PseudoTcpReceive
  import opened PseudoTcpReassembly
  import opened PseudoTcpWindow
  import opened PseudoTcpSend
  import opened PseudoTcpState
  import opened PseudoTcpOutput
  import opened PseudoTcpInput
  import opened PseudoTcpSystem

  ghost predicate Pair(s: Side, r: Side) {
    Link(s, r) && Link(r, s)
  }

  // ---------------------------------------------------------------------
  // Changes a side makes on its own

  lemma PairEmits(s: Side, r: Side, t': Tcb, env: Env)
    requires Pair(s, r) && s.Open() && ClockOk(s, env) && Emits(s.t, t', env)
    ensures Pair(Sent(s, t', env), r)
  {
    EmitAsSender(s, r, t', env);
    EmitAsReceiver(r, s, t', env);
  }

  /** Timers, congestion control and the connection state may change. */
  lemma PairTweak(s: Side, r: Side, t': Tcb)
    requires Pair(s, r) && s.Open() && Ready(t')
    requires t' == s.t.(state := t'.state, cong := t'.cong, lastRecv := t'.lastRecv, tsRecent := t'.tsRecent)
    requires t'.tsRecent == s.t.tsRecent || Reading(t'.tsRecent, r)
    requires t'.state == Established ==> r.t.rcv.rcvNxt >= 1
    ensures Pair(s.(t := t'), r)
  {
    SameSender(s, s.(t := t'), r);
    SameReceiver(r, s, s.(t := t'));
  }

  lemma PairLater(s: Side, r: Side, env: Env)
    requires Pair(s, r) && ClockOk(s, env)
    ensures Pair(s.(clock := env.clock), r)
  {
    var s' := s.(clock := env.clock);
    assert Link(s', r) by { LaterAsSender(s, r, env); }
    assert Link(r, s') by { SameReceiver(r, s, s'); }
  }

  lemma LaterAsSender(s: Side, r: Side, env: Env)
    requires Link(s, r) && ClockOk(s, env)
    ensures Link(s.(clock := env.clock), r)
  {
    SameSender(s, s.(clock := env.clock), r);
  }

  lemma PairCloses(s: Side, r: Side)
    requires Pair(s, r) && s.Open()
    ensures Pair(s.(t := Closedown(s.t)), r)
  {
    var s' := s.(t := Closedown(s.t));
    forall p | p in s.t.sent ensures DataPacket(p, s', r) && Reading(p.tsval, s') {
      assert DataPacket(p, s, r);
    }
    forall p | p in r.t.sent ensures AckPacket(p, s', r) {
      assert AckPacket(p, s, r);
    }
    assert Link(s', r);
    SameReceiver(r, s, s');
  }

  // ---------------------------------------------------------------------
  // The application's calls

  /** The side after a call, given the new control block. */
  function After(s: Side, t': Tcb, env: Env): Side {
    s.(t := t', clock := env.clock)
  }

  lemma ClockKeeps(s: Side, r: Side, env: Env)
    requires Pair(s, r) && ClockOk(s, env)
    ensures Pair(After(s, NotifyClock(s.t, env), env), r)
  {
    if s.t.state == Closed {
      PairLater(s, r, env);
    } else {
      var c := ClockStages(s.t, env);
      PairEmits(s, r, c.t, env);
      if !c.ok {
        PairCloses(Sent(s, c.t, env), r);
      }
    }
  }

  lemma MtuKeeps(s: Side, r: Side, mtu: nat)
    requires Pair(s, r) && s.Open() && PACKET_OVERHEAD < mtu <= MAX_PACKET
    ensures Pair(s.(t := NotifyMtu(s.t, mtu)), r)
  {
    MtuReady(s.t, mtu);
    PairTweak(s, r, NotifyMtu(s.t, mtu));
  }

  lemma MtuReady(t: Tcb, mtu: nat)
    requires Ready(t) && PACKET_OVERHEAD < mtu <= MAX_PACKET
    ensures Ready(NotifyMtu(t, mtu))
    ensures NotifyMtu(t, mtu) == t.(cong := NotifyMtu(t, mtu).cong)
  {
    AdjustMtuOk(t.cong, mtu);
  }

  lemma ConnectKeeps(s: Side, r: Side, env: Env)
    requires Pair(s, r) && ClockOk(s, env) && s.t.state == Listen && s.out == []
    ensures Pair(After(s, Connect(s.t, env).0, env).(out := [CTL_CONNECT]), r)
  {
    var s1 := Accepted(s, [CTL_CONNECT], true, SynSent);
    AcceptAsSender(s, r, [CTL_CONNECT], true, SynSent);
    AcceptAsReceiver(r, s, [CTL_CONNECT], true, SynSent);
    assert s1.out == [CTL_CONNECT];
    PairEmits(s1, r, AttemptSend(s1.t, env, NoAck), env);
  }

  lemma SendKeeps(s: Side, r: Side, data: seq<Byte>, n: nat, env: Env)
    requires Pair(s, r) && ClockOk(s, env) && s.t.state == Established
    requires |s.out| + |data| < TWO32 && Send(s.t, data, env).1 == Queued(n)
    ensures n <= |data| && Pair(After(s, Send(s.t, data, env).0, env).(out := s.out + data[..n]), r)
  {
    var s1 := Accepted(s, data[..n], false, Established);
    AcceptAsSender(s, r, data[..n], false, Established);
    AcceptAsReceiver(r, s, data[..n], false, Established);
    PairEmits(s1, r, AttemptSend(s1.t, env, NoAck), env);
  }

  /** The receive side after a read that may have reopened the window. */
  function ReadRcv(t: Tcb, len: nat): Receiver
    requires Shape(t.rcv)
  {
    var t1 := t.(rcv := ReadShift(t.rcv, len));
    if WindowDue(t1) then t1.rcv.(rcvWnd := U32(RCV_BUF_SIZE - t1.rcv.rlen)) else t1.rcv
  }

  lemma ReadRcvKeeps(t: Tcb, stream: seq<Byte>, len: nat)
    requires ReceiveOk(t.rcv, stream) && WindowOk(t.rcv)
    ensures var r' := ReadRcv(t, len);
            && ReceiveOk(r', stream) && WindowOk(r')
            && r'.rcvNxt == t.rcv.rcvNxt && r'.rlist == t.rcv.rlist && r'.rlen <= t.rcv.rlen
            && Edge(t.rcv) <= Edge(r')
            && NextRead(r') == NextRead(t.rcv) + |ReadBytes(t.rcv, len)|
            && ReadBytes(t.rcv, len) == stream[NextRead(t.rcv)..NextRead(r')]
  {
    ReadKeeps(t.rcv, stream, len);
    var r1 := ReadShift(t.rcv, len);
    var r' := ReadRcv(t, len);
    assert r' == r1.(rcvWnd := r'.rcvWnd);
    assert ReceiveOk(r', stream);
  }

  /** The side after its application read at most `len` bytes. */
  function HasRead(s: Side, len: nat): Side
    requires Shape(s.t.rcv)
  {
    s.(t := s.t.(rcv := ReadRcv(s.t, len)), got := s.got + ReadBytes(s.t.rcv, len))
  }

  lemma ReadAsReceiver(s: Side, r: Side, len: nat)
    requires Link(s, r) && r.t.rcv.rlen > 0
    ensures Link(s, HasRead(r, len))
  {
    var r' := HasRead(r, len);
    ReadRcvKeeps(r.t, s.out, len);
    var from, to := NextRead(r.t.rcv), NextRead(r'.t.rcv);
    assert s.out[1..from] + s.out[from..to] == s.out[1..to];
    assert forall x :: Landing(r'.t.rcv, x) <==> Landing(r.t.rcv, x);
    ReceiverMoves(s, r, r');
  }

  lemma ReadAsSender(s: Side, r: Side, len: nat)
    requires Link(s, r) && s.Open()
    ensures Shape(s.t.rcv) && Link(HasRead(s, len), r)
  {
    ReadReady(s.t, len);
    SameSender(s, HasRead(s, len), r);
  }

  lemma RecvKeeps(s: Side, r: Side, len: nat, env: Env)
    requires Pair(s, r) && ClockOk(s, env) && s.t.state == Established && s.t.rcv.rlen > 0
    ensures var t' := Recv(s.t, len, env).0;
            Pair(After(s, t', env).(got := s.got + ReadBytes(s.t.rcv, len)), r)
  {
    ReadAsSender(s, r, len);
    ReadAsReceiver(r, s, len);
    var s1 := HasRead(s, len);
    assert Pair(s1, r);
    RecvFinishes(s, r, len, env);
  }

  lemma RecvFinishes(s: Side, r: Side, len: nat, env: Env)
    requires Shape(s.t.rcv) && Pair(HasRead(s, len), r) && ClockOk(s, env)
    requires Ready(s.t) && s.t.state == Established && s.t.rcv.rlen > 0
    ensures var t' := Recv(s.t, len, env).0;
            Pair(After(s, t', env).(got := s.got + ReadBytes(s.t.rcv, len)), r)
  {
    var s1 := HasRead(s, len);
    ReadReady(s.t, len);
    if WindowDue(s.t.(rcv := ReadShift(s.t.rcv, len))) && s.t.rcv.rcvWnd == 0 {
      assert Recv(s.t, len, env).0 == AttemptSend(s1.t, env, ImmediateAck);
      PairEmits(s1, r, AttemptSend(s1.t, env, ImmediateAck), env);
    } else {
      assert Recv(s.t, len, env).0 == s1.t;
      PairLater(s1, r, env);
    }
  }

  // ---------------------------------------------------------------------
  // An arriving packet

  /** The control and timestamp stage of `process`, outside LISTEN. */
  lemma ControlStageKeeps(s: Side, r: Side, p: Packet, env: Env)
    requires Pair(s, r) && s.Open() && p in r.t.sent && Acceptable(s.t, p, env)
    requires p.ctl ==> s.t.state != Listen
    requires p.ctl && s.t.state == SynSent ==> r.t.rcv.rcvNxt >= 1
    ensures var t2 := Timestamp(if p.ctl then Control(s.t) else s.t, p);
            Pair(s.(t := t2), r) && Ready(t2) && Acceptable(t2, p, env)
  {
    ControlKeeps(s.t, p, env);
    assert Reading(p.tsval, r);
    PairTweak(s, r, Timestamp(if p.ctl then Control(s.t) else s.t, p));
  }

  lemma AckStageKeeps(s: Side, r: Side, p: Packet, env: Env)
    requires Pair(s, r) && s.Open() && p in r.t.sent && Acceptable(s.t, p, env) && ClockOk(s, env)
    ensures Pair(Sent(s, AckStage(s.t, p, env).t, env), r)
  {
    var s1 := s.(t := AckQueue(s.t, p, env));
    AckAsSender(s, r, p, env);
    SameReceiver(r, s, s1);
    PairEmits(s1, r, AckStage(s.t, p, env).t, env);
  }

  lemma EstablishKeeps(s: Side, r: Side, before: Tcb, p: Packet)
    requires Pair(s, r) && s.Open() && p in r.t.sent
    ensures Pair(s.(t := Establish(before, p, s.t)), r) && Ready(Establish(before, p, s.t))
  {
    EstablishReady(before, p, s.t);
    if Valuable(before, p) {
      assert AckPacket(p, s, r);
    }
    PairTweak(s, r, Establish(before, p, s.t));
  }

  lemma EstablishReady(before: Tcb, p: Packet, t: Tcb)
    requires Ready(t)
    ensures Ready(Establish(before, p, t))
    ensures Establish(before, p, t) == t.(state := Establish(before, p, t).state, cong := Establish(before, p, t).cong)
    ensures Establish(before, p, t).state == Established && t.state != Established ==> Valuable(before, p)
  {
    AdjustMtuOk(t.cong, t.cong.mtuAdvise);
  }

  lemma DataStageKeeps(s: Side, r: Side, p: Packet)
    requires Pair(s, r) && s.Open() && p in r.t.sent
    ensures p.sn + |p.data| < TWO32
    ensures Pair(s.(t := ReceiveData(s.t, p)), r) && Ready(ReceiveData(s.t, p))
    ensures s.t.rcv.rcvNxt <= ReceiveData(s.t, p).rcv.rcvNxt
  {
    var s' := s.(t := ReceiveData(s.t, p));
    assert Link(r, s') && s.t.rcv.rcvNxt <= s'.t.rcv.rcvNxt by { DataAsReceiver(r, s, p); }
    ReceiveDataKeeps(s.t, p);
    assert Link(s', r) by { SameSender(s, s', r); }
  }

  /** The stages of `process` after the acknowledgement. */
  lemma FinishKeeps(s: Side, r: Side, before: Tcb, p: Packet, env: Env)
    requires Pair(s, r) && s.Open() && p in r.t.sent && ClockOk(s, env)
    ensures var t3 := Establish(before, p, s.t);
            && Ready(t3) && p.sn + |p.data| < TWO32 && Ready(ReceiveData(t3, p))
            && Pair(Sent(s, AttemptSend(ReceiveData(t3, p), env, AckFlags(t3, p)), env), r)
            && s.t.rcv.rcvNxt <= ReceiveData(t3, p).rcv.rcvNxt
  {
    EstablishKeeps(s, r, before, p);
    var s3 := s.(t := Establish(before, p, s.t));
    DataStageKeeps(s3, r, p);
    var s4 := s3.(t := ReceiveData(s3.t, p));
    PairEmits(s4, r, AttemptSend(s4.t, env, AckFlags(s3.t, p)), env);
  }

  /** How a packet may change the connection state. */
  predicate NextState(before: ConnState, ctl: bool, after: ConnState) {
    || after == before
    || (before == SynSent && ctl && after == Established)
    || (before == SynReceived && !ctl && after == Established)
  }

  lemma ControlState(t: Tcb, p: Packet, env: Env)
    requires Ready(t) && Acceptable(t, p, env) && (p.ctl ==> t.state != Listen)
    ensures var t2 := Timestamp(if p.ctl then Control(t) else t, p);
            && Ready(t2) && Acceptable(t2, p, env)
            && (t2.state == t.state || (t.state == SynSent && p.ctl && t2.state == Established))
            && AckStage(t2, p, env).t.state == t2.state && Ready(AckStage(t2, p, env).t)
            && AckStage(t2, p, env).t.rcv == t.rcv
  {
    ControlKeeps(t, p, env);
  }

  lemma FinishState(before: Tcb, t: Tcb, p: Packet, env: Env)
    requires Ready(t) && p.sn + |p.data| < TWO32
    ensures var t3 := Establish(before, p, t);
            && Ready(t3) && Ready(ReceiveData(t3, p))
            && AttemptSend(ReceiveData(t3, p), env, AckFlags(t3, p)).state == t3.state
  {
    EstablishReady(before, p, t);
    ReceiveDataKeeps(Establish(before, p, t), p);
  }

  lemma ProcessState(t: Tcb, p: Packet, env: Env)
    requires Ready(t) && Acceptable(t, p, env) && (p.ctl ==> t.state != Listen)
    ensures NextState(t.state, p.ctl, ProcessOpen(t, p, env).t.state)
  {
    var t2 := Timestamp(if p.ctl then Control(t) else t, p);
    ControlState(t, p, env);
    var a := AckStage(t2, p, env);
    if a.ok {
      FinishState(t2, a.t, p, env);
    }
  }

  lemma ProcessOpenKeeps(s: Side, r: Side, p: Packet, env: Env)
    requires Pair(s, r) && s.Open() && p in r.t.sent && ClockOk(s, env) && Acceptable(s.t, p, env)
    requires p.ctl ==> s.t.state != Listen
    requires p.ctl && s.t.state == SynSent ==> r.t.rcv.rcvNxt >= 1
    ensures Pair(Sent(s, ProcessOpen(s.t, p, env).t, env), r)
    ensures s.t.rcv.rcvNxt <= ProcessOpen(s.t, p, env).t.rcv.rcvNxt
  {
    var t2 := Timestamp(if p.ctl then Control(s.t) else s.t, p);
    ControlStageKeeps(s, r, p, env);
    ControlState(s.t, p, env);
    var a := AckStage(t2, p, env);
    var s3 := Sent(s, a.t, env);
    assert Pair(s3, r) by { AckStageKeeps(s.(t := t2), r, p, env); }
    if a.ok {
      FinishKeeps(s3, r, t2, p, env);
    }
  }

  /** A listening side before it answers: the connect byte is consumed, its own
      is queued, and nothing was sent yet. */
  function Answering(t: Tcb, p: Packet): Tcb
    requires Shape(t.rcv) && p.sn + |p.data| < TWO32 && |t.snd.sbuf| < SND_BUF_SIZE
  {
    var t1 := Timestamp(t, p);
    t1.(state := SynReceived, rcv := ReceiveData(t, p).rcv,
        snd := Enqueue(t.snd, [CTL_CONNECT], true).(sndWnd := if p.ack == t.snd.sndUna then p.wnd else t.snd.sndWnd))
  }

  /** Nothing is in flight, so the acknowledgement stage only sets the window. */
  lemma ListenAck(t: Tcb, p: Packet, env: Env)
    requires Ready(t) && Acceptable(t, p, env) && t.state == Listen && p.ctl && p.data != []
    ensures var t2 := Timestamp(Control(t), p);
            && Ready(t2) && Acceptable(t2, p, env)
            && !Valuable(t2, p)
            && AckStage(t2, p, env) == Transmitted(AckQueue(t2, p, env), true)
  {
    ControlKeeps(t, p, env);
  }

  lemma ListenAnswers(t: Tcb, p: Packet, env: Env)
    requires Ready(t) && Acceptable(t, p, env) && t.state == Listen
    requires Ready(Timestamp(Control(t), p)) && Acceptable(Timestamp(Control(t), p), p, env)
    requires !Valuable(Timestamp(Control(t), p), p)
    ensures var a := AckQueue(Timestamp(Control(t), p), p, env);
            Shape(a.rcv) && ReceiveData(a, p) == Answering(t, p)
  {
    hide Trim, Store, CongestionOk, Tiles, SegmentsOk;
  }

  lemma ListenProcess(t: Tcb, p: Packet, env: Env)
    requires Ready(t) && Acceptable(t, p, env) && t.state == Listen && p.ctl && p.data != []
    ensures ProcessOpen(t, p, env).ok && Ready(Answering(t, p))
    ensures exists flags :: ProcessOpen(t, p, env).t == AttemptSend(Answering(t, p), env, flags)
  {
    var t2 := Timestamp(Control(t), p);
    ListenAck(t, p, env);
    ListenAnswers(t, p, env);
    var t3 := AckQueue(t2, p, env);
    assert Establish(t2, p, t3) == t3;
    ReceiveDataKeeps(t3, p);
    assert ProcessOpen(t, p, env).t == AttemptSend(Answering(t, p), env, AckFlags(t3, p));
  }

  lemma AnsweringKeeps(s: Side, r: Side, p: Packet, env: Env)
    requires Pair(s, r) && s.t.state == Listen && s.out == [] && p in r.t.sent && p.ctl && Acceptable(s.t, p, env)
    ensures |s.t.snd.sbuf| < SND_BUF_SIZE && p.sn + |p.data| < TWO32
    ensures Pair(s.(t := Answering(s.t, p), out := [CTL_CONNECT]), r)
    ensures Answering(s.t, p).rcv.rcvNxt >= 1
  {
    hide Trim, Store, Buffer, Wire, Acks, Flow, CongestionOk, Tiles, SegmentsOk;
    DataStageKeeps(s, r, p);
    ConnectByteArrives(r, s, p);
    var s1 := s.(t := ReceiveData(s.t, p));
    AcceptAsSender(s1, r, [CTL_CONNECT], true, SynReceived);
    AcceptAsReceiver(r, s1, [CTL_CONNECT], true, SynReceived);
    var s2 := Accepted(s1, [CTL_CONNECT], true, SynReceived);
    assert s2.out == [CTL_CONNECT];
    AnsweringWindow(s2, r, p, env);
    var s3 := s2.(t := AckQueue(s2.t, p, env));
    TimestampKeeps(s3.t, p, env);
    assert Reading(p.tsval, r);
    PairTweak(s3, r, Timestamp(s3.t, p));
    assert Timestamp(s3.t, p) == Answering(s.t, p);
  }

  lemma AnsweringWindow(s: Side, r: Side, p: Packet, env: Env)
    requires Pair(s, r) && s.Open() && p in r.t.sent && Acceptable(s.t, p, env)
    ensures Pair(s.(t := AckQueue(s.t, p, env)), r)
  {
    AckAsSender(s, r, p, env);
    SameReceiver(r, s, s.(t := AckQueue(s.t, p, env)));
  }

  lemma ListenKeepsPair(s: Side, r: Side, p: Packet, env: Env)
    requires Pair(s, r) && s.t.state == Listen && s.out == [] && p in r.t.sent && p.ctl
    requires ClockOk(s, env) && Acceptable(s.t, p, env)
    ensures ProcessOpen(s.t, p, env).ok
    ensures var s' := After(s, ProcessOpen(s.t, p, env).t, env).(out := [CTL_CONNECT]);
            Pair(s', r) && s'.t.rcv.rcvNxt >= 1 && s'.t.state == SynReceived
  {
    assert DataPacket(p, r, s);
    AnsweringKeeps(s, r, p, env);
    ListenProcess(s.t, p, env);
    var flags :| ProcessOpen(s.t, p, env).t == AttemptSend(Answering(s.t, p), env, flags);
    PairEmits(s.(t := Answering(s.t, p), out := [CTL_CONNECT]), r, AttemptSend(Answering(s.t, p), env, flags), env);
  }

  // ---------------------------------------------------------------------
  // Runs

  datatype Action =
    | DoConnect
    | DoSend(data: seq<Byte>)
    | DoRecv(len: nat)
    | DoClock
    | DoMtu(mtu: nat)
    | DoDeliver(k: nat)

  /** What a side may do next: any packet the peer ever sent may arrive, any
      number of times and in any order. */
  predicate Permitted(s: Side, peer: Side, connects: bool, a: Action, env: Env) {
    && ClockOk(s, env)
    && match a
       case DoConnect => connects
       case DoSend(data) => |s.out| + |data| < TWO32
       case DoMtu(mtu) => PACKET_OVERHEAD < mtu <= MAX_PACKET
       case DoDeliver(k) => k < |peer.t.sent|
       case _ => true
  }

  /** The side after its application wrote `data`. */
  function Written(s: Side, data: seq<Byte>, env: Env): Side
    requires Queue(s) && |s.out| + |data| < TWO32
  {
    var (t', res) := Send(s.t, data, env);
    After(s, t', env).(out := if res.Queued? then s.out + data[..Min(res.n, |data|)] else s.out)
  }

  /** The side after its application read at most `len` bytes. */
  function Read(s: Side, len: nat, env: Env): Side
    requires Queue(s)
  {
    var (t', res) := Recv(s.t, len, env);
    After(s, t', env).(got := if res.Received? then s.got + res.data else s.got)
  }

  /** The side after its application asked for a connection. */
  function Asked(s: Side, env: Env): Side
    requires Queue(s)
  {
    var (t', ok) := Connect(s.t, env);
    After(s, t', env).(out := if ok then [CTL_CONNECT] else s.out)
  }

  /** The side after a packet arrived. */
  function Taken(s: Side, p: Packet, env: Env): Side
    requires s.Open() ==> Ready(s.t) && Acceptable(s.t, p, env)
  {
    var t' := Process(s.t, p, env).0;
    After(s, t', env).(out := if s.t.state == Listen && t'.state == SynReceived then [CTL_CONNECT] else s.out)
  }

  function Act(s: Side, peer: Side, connects: bool, a: Action, env: Env): Side
    requires Pair(s, peer) && Permitted(s, peer, connects, a, env)
  {
    match a
    case DoConnect => Asked(s, env)
    case DoSend(data) => Written(s, data, env)
    case DoRecv(len) => Read(s, len, env)
    case DoClock => After(s, NotifyClock(s.t, env), env)
    case DoMtu(mtu) => After(s, NotifyMtu(s.t, mtu), env)
    case DoDeliver(k) =>
      Deliverable(s, peer, k, env);
      Taken(s, peer.t.sent[k], env)
  }

  lemma Deliverable(s: Side, peer: Side, k: nat, env: Env)
    requires Pair(s, peer) && ClockOk(s, env) && k < |peer.t.sent|
    ensures s.Open() ==> Ready(s.t) && Acceptable(s.t, peer.t.sent[k], env)
  {
    if s.Open() {
      PeerPacketAcceptable(s, peer, peer.t.sent[k], env);
    }
  }

  ghost predicate RolesOf(s: Side, peer: Side, connects: bool) {
    if connects then Roles(s, peer) else Roles(peer, s)
  }

  /** A peer's packet passes the checks at the top of `process`. */
  lemma PeerPacketPasses(s: Side, peer: Side, p: Packet)
    requires Pair(s, peer) && p in peer.t.sent
    ensures p.conv == s.t.conv && !p.rst
    ensures p.ctl ==> p.data == [CTL_CONNECT] && peer.out != []
  {
    assert DataPacket(p, peer, s);
  }

  /** A peer's connect byte never reaches a connecting side that is still in
      LISTEN, and a connecting side has been heard when it does arrive. */
  lemma ConnectOrder(s: Side, peer: Side, connects: bool, p: Packet)
    requires Pair(s, peer) && RolesOf(s, peer, connects) && p in peer.t.sent && p.ctl
    ensures connects ==> s.t.state != Listen && peer.t.rcv.rcvNxt >= 1
  {
    PeerPacketPasses(s, peer, p);
    if connects {
      assert ReceiveOk(peer.t.rcv, s.out);
    }
  }

  lemma ListenOut(s: Side, peer: Side)
    requires Pair(s, peer) && s.t.state == Listen
    ensures s.out == []
  {
  }

  lemma HeardTweak(s: Side, peer: Side, p: Packet, env: Env)
    requires Pair(s, peer) && s.Open() && Acceptable(s.t, p, env)
    ensures var s1 := s.(t := s.t.(lastRecv := Now(env)));
            Pair(s1, peer) && Acceptable(s1.t, p, env)
  {
    PairTweak(s, peer, s.t.(lastRecv := Now(env)));
  }

  lemma DeliverListen(s: Side, peer: Side, connects: bool, p: Packet, env: Env)
    requires Pair(s, peer) && RolesOf(s, peer, connects) && ClockOk(s, env) && p in peer.t.sent
    requires s.t.state == Listen && p.ctl && Acceptable(s.t, p, env)
    ensures var t' := Process(s.t, p, env).0;
            var s' := After(s, t', env).(out := [CTL_CONNECT]);
            t'.state == SynReceived && Pair(s', peer) && RolesOf(s', peer, connects)
  {
    PeerPacketPasses(s, peer, p);
    HeardTweak(s, peer, p, env);
    ConnectOrder(s, peer, connects, p);
    ListenOut(s, peer);
    ListenKeepsPair(s.(t := s.t.(lastRecv := Now(env))), peer, p, env);
  }

  /** Roles only depend on state, accepted bytes and received position. */
  lemma RolesKept(s: Side, s': Side, peer: Side, connects: bool)
    requires RolesOf(s, peer, connects)
    requires s'.out == s.out && s.t.rcv.rcvNxt <= s'.t.rcv.rcvNxt
    requires s'.t.state == s.t.state || s'.t.state == Established || s'.t.state == Closed
    ensures RolesOf(s', peer, connects)
  {
  }

  lemma ProcessOther(s: Side, peer: Side, connects: bool, p: Packet, env: Env)
    requires Pair(s, peer) && RolesOf(s, peer, connects) && ClockOk(s, env) && p in peer.t.sent
    requires s.Open() && (p.ctl ==> s.t.state != Listen) && Acceptable(s.t, p, env)
    ensures var t' := ProcessOpen(s.t, p, env).t;
            && Pair(Sent(s, t', env), peer)
            && s.t.rcv.rcvNxt <= t'.rcv.rcvNxt && NextState(s.t.state, p.ctl, t'.state)
  {
    if p.ctl {
      ConnectOrder(s, peer, connects, p);
    }
    ProcessOpenKeeps(s, peer, p, env);
    ProcessState(s.t, p, env);
  }

  lemma DeliverOther(s: Side, peer: Side, connects: bool, p: Packet, env: Env)
    requires Pair(s, peer) && RolesOf(s, peer, connects) && ClockOk(s, env) && p in peer.t.sent
    requires s.Open() && (p.ctl ==> s.t.state != Listen) && Acceptable(s.t, p, env)
    ensures var t' := Process(s.t, p, env).0;
            var s' := After(s, t', env);
            && (s.t.state == Listen ==> t'.state != SynReceived)
            && Pair(s', peer) && RolesOf(s', peer, connects)
  {
    PeerPacketPasses(s, peer, p);
    HeardTweak(s, peer, p, env);
    var s1 := s.(t := s.t.(lastRecv := Now(env)));
    RolesKept(s, s1, peer, connects);
    ProcessOther(s1, peer, connects, p, env);
    var r := ProcessOpen(s1.t, p, env);
    if !r.ok {
      PairCloses(Sent(s1, r.t, env), peer);
    }
    RolesKept(s, After(s, Process(s.t, p, env).0, env), peer, connects);
  }

  lemma DeliverClosed(s: Side, peer: Side, p: Packet, env: Env)
    requires Pair(s, peer) && !s.Open() && ClockOk(s, env) && p in peer.t.sent
    ensures Pair(After(s, Process(s.t, p, env).0, env), peer)
  {
    PeerPacketPasses(s, peer, p);
    ClosedTweak(s, peer, s.t.(lastRecv := Now(env)), env);
  }

  /** A closed side only has bookkeeping left to change. */
  lemma ClosedTweak(s: Side, peer: Side, t': Tcb, env: Env)
    requires Pair(s, peer) && !s.Open() && ClockOk(s, env)
    requires t' == s.t.(lastRecv := t'.lastRecv, cong := t'.cong)
    ensures Pair(After(s, t', env), peer)
  {
    var s' := After(s, t', env);
    assert Link(s', peer) by { SameSender(s, s', peer); }
    assert Link(peer, s') by { SameReceiver(peer, s, s'); }
  }

  /** A side takes a packet of its peer. */
  lemma DeliverKeeps(s: Side, peer: Side, connects: bool, k: nat, env: Env)
    requires Pair(s, peer) && RolesOf(s, peer, connects)
    requires Permitted(s, peer, connects, DoDeliver(k), env)
    ensures Pair(Act(s, peer, connects, DoDeliver(k), env), peer)
    ensures RolesOf(Act(s, peer, connects, DoDeliver(k), env), peer, connects)
  {
    var p := peer.t.sent[k];
    Deliverable(s, peer, k, env);
    if !s.Open() {
      DeliverClosed(s, peer, p, env);
    } else if p.ctl && s.t.state == Listen {
      DeliverListen(s, peer, connects, p, env);
    } else {
      DeliverOther(s, peer, connects, p, env);
    }
  }
}
