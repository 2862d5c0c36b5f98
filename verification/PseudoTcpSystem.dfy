/** Two pseudo-TCP endpoints over a network that may lose, duplicate and
    reorder packets: the invariant of every run. */
module PseudoTcpSystem {
  import opened Arith
  import opened PseudoTcpReceive
  import opened PseudoTcpReassembly
  import opened PseudoTcpWindow
  import opened PseudoTcpSend
  import opened PseudoTcpState
  import opened PseudoTcpOutput
  import opened PseudoTcpInput

  /** One endpoint with its history: the bytes it accepted for sending (the
      connect byte first), the bytes it delivered to its application, and the
      range of its clock. */
  datatype Side = Side(t: Tcb, out: seq<Byte>, got: seq<Byte>, epoch: nat, clock: nat) {
    predicate Open() { t.state != Closed }
    function Edge(): nat { PseudoTcpWindow.Edge(t.rcv) }
  }

  /** `v` is a reading of the side's clock up to now. */
  ghost predicate Reading(v: nat, s: Side) {
    exists at: nat :: s.epoch <= at <= s.clock && v == U32(at)
  }

  // ---------------------------------------------------------------------
  // The invariant of one direction, from sender `s` to receiver `r`

  /** The send queue is the unacknowledged tail of what was accepted. */
  ghost predicate Queue(s: Side) {
    && |s.out| < TWO32
    && (s.out != [] ==> s.out[0] == CTL_CONNECT)
    && (s.Open() ==> Ready(s.t) && s.t.snd.End() == |s.out| && s.t.snd.sbuf == s.out[s.t.snd.sndUna..])
  }

  /** `x` lies between segments of the sender, at or below what it has sent. */
  ghost predicate Cut(s: Side, x: nat) {
    s.Open() ==> x <= s.t.snd.sndNxt && Boundary(s.t.snd.slist, x)
  }

  /** A packet of `s` is a slice of its stream that fits the window of `r`. */
  ghost predicate DataPacket(p: Packet, s: Side, r: Side) {
    && p.conv == s.t.conv && !p.rst && p.wnd < TWO16
    && (p.data == [] ==> !p.ctl && p.sn < TWO32)
    && (p.data != [] ==>
          && p.sn + |p.data| <= |s.out| && p.data == s.out[p.sn..p.sn + |p.data|]
          && (p.ctl <==> p.sn == 0) && (p.ctl ==> |p.data| == 1)
          && p.sn + |p.data| <= r.Edge()
          && Cut(s, p.sn + |p.data|))
  }

  ghost predicate Wire(s: Side, r: Side) {
    forall p :: p in s.t.sent ==> DataPacket(p, s, r)
  }

  /** The receive side holds the sender's stream, and its window is honest. */
  ghost predicate Buffer(s: Side, r: Side) {
    && ReceiveOk(r.t.rcv, s.out)
    && WindowOk(r.t.rcv)
    && forall x :: Landing(r.t.rcv, x) ==> Cut(s, x)
  }

  /** What the application was given is what was accepted at the other end. */
  ghost predicate Delivered(s: Side, r: Side) {
    if r.t.rcv.rcvNxt == 0 then r.got == []
    else 1 <= NextRead(r.t.rcv) <= |s.out| && r.got == s.out[1..NextRead(r.t.rcv)]
  }

  /** An acknowledgement of `r` names a cut of the sender's stream and a window
      that has been granted. */
  ghost predicate AckPacket(p: Packet, s: Side, r: Side) {
    && p.ack <= r.t.rcv.rcvNxt && p.ack + p.wnd <= r.Edge()
    && Cut(s, p.ack)
    && p.tsval < TWO32 && (p.tsecr == 0 || Reading(p.tsecr, s))
  }

  ghost predicate Acks(s: Side, r: Side) {
    forall p :: p in r.t.sent ==> AckPacket(p, s, r)
  }

  /** Flow control: nothing is sent beyond the granted window. */
  ghost predicate Flow(s: Side, r: Side) {
    s.Open() ==>
      && s.t.snd.sndUna <= r.t.rcv.rcvNxt
      && s.t.snd.sndUna + s.t.snd.sndWnd <= r.Edge()
      && s.t.snd.sndNxt <= r.Edge()
  }

  ghost predicate Times(s: Side, r: Side) {
    && s.epoch <= s.clock < s.epoch + TWO31
    && (forall p :: p in s.t.sent ==> Reading(p.tsval, s))
    && (r.t.tsRecent == 0 || Reading(r.t.tsRecent, s))
  }

  /** Application data is only accepted once the peer has consumed the connect byte. */
  ghost predicate Handshake(s: Side, r: Side) {
    && s.t.conv == r.t.conv && !r.t.shutdown
    && (s.t.state == Established || |s.out| > 1 ==> r.t.rcv.rcvNxt >= 1)
  }

  ghost predicate Link(s: Side, r: Side) {
    && Queue(s) && Wire(s, r) && Buffer(s, r) && Delivered(s, r)
    && Acks(s, r) && Flow(s, r) && Times(s, r) && Handshake(s, r)
  }

  /** The connecting side `x` and the listening side `y`. */
  ghost predicate Roles(x: Side, y: Side) {
    && x.t.state != SynReceived && y.t.state != SynSent
    && (y.out != [] ==> y.t.rcv.rcvNxt >= 1)
  }

  // ---------------------------------------------------------------------
  // Handing packets to the network

  lemma NewOrOld(t: Tcb, t': Tcb, env: Env, p: Packet)
    requires NewPackets(t, t', env) && p in t'.sent
    ensures p in t.sent || Emitted(p, t', env)
  {
    var i :| 0 <= i < |t'.sent| && t'.sent[i] == p;
    if i < |t.sent| {
      assert t.sent[i] == t'.sent[..|t.sent|][i];
    }
  }

  /** The side after some of its packets were handed over at time `env.clock`. */
  function Sent(s: Side, t': Tcb, env: Env): Side {
    s.(t := t', clock := env.clock)
  }

  predicate ClockOk(s: Side, env: Env) {
    s.clock <= env.clock < s.epoch + TWO31
  }

  lemma ReadingLater(v: nat, s: Side, s': Side)
    requires Reading(v, s) && s'.epoch == s.epoch && s.clock <= s'.clock
    ensures Reading(v, s')
  {
  }

  lemma CutKept(s: Side, t': Tcb, env: Env, x: nat)
    requires s.Open() && Emits(s.t, t', env) && Cut(s, x)
    ensures Cut(Sent(s, t', env), x)
  {
  }

  /** Emitting packets keeps everything the peer relies on as a receiver. */
  lemma EmitAsSender(s: Side, r: Side, t': Tcb, env: Env)
    requires Link(s, r) && s.Open() && ClockOk(s, env) && Emits(s.t, t', env)
    ensures Link(Sent(s, t', env), r)
  {
    var s' := Sent(s, t', env);
    forall x | Cut(s, x) ensures Cut(s', x) { CutKept(s, t', env, x); }
    forall p | p in t'.sent ensures DataPacket(p, s', r) && Reading(p.tsval, s') {
      NewOrOld(s.t, t', env, p);
      if p in s.t.sent {
        assert DataPacket(p, s, r);
        ReadingLater(p.tsval, s, s');
      } else {
        EmittedData(s, r, t', env, p);
      }
    }
    forall p | p in r.t.sent ensures AckPacket(p, s', r) {
      assert AckPacket(p, s, r);
    }
    assert Buffer(s', r);
    assert Times(s', r);
  }

  lemma EmittedData(s: Side, r: Side, t': Tcb, env: Env, p: Packet)
    requires Queue(s) && Flow(s, r) && Times(s, r) && s.Open() && ClockOk(s, env)
    requires Emits(s.t, t', env) && Emitted(p, t', env)
    ensures DataPacket(p, Sent(s, t', env), r) && Reading(p.tsval, Sent(s, t', env))
  {
    if p.data != [] {
      var una := s.t.snd.sndUna;
      assert p.data == s.out[una..][p.sn - una..p.sn - una + |p.data|];
    }
  }

  /** Emitting packets keeps what the side relies on as a receiver itself. */
  lemma EmitAsReceiver(s: Side, r: Side, t': Tcb, env: Env)
    requires Link(s, r) && r.Open() && ClockOk(r, env) && Emits(r.t, t', env)
    ensures Link(s, Sent(r, t', env))
  {
    var r' := Sent(r, t', env);
    forall p | p in t'.sent ensures AckPacket(p, s, r') {
      NewOrOld(r.t, t', env, p);
      if p in r.t.sent {
        assert AckPacket(p, s, r);
      }
    }
    forall p | p in s.t.sent ensures DataPacket(p, s, r') {
      assert DataPacket(p, s, r);
    }
  }

  // ---------------------------------------------------------------------
  // Accepting bytes from the application

  /** The side after `data` was queued and its state changed to `state`. */
  function Accepted(s: Side, data: seq<Byte>, ctrl: bool, state: ConnState): Side
    requires |s.t.snd.sbuf| + |data| <= SND_BUF_SIZE
  {
    s.(t := s.t.(snd := Enqueue(s.t.snd, data, ctrl), state := state), out := s.out + data)
  }

  lemma QueueAccepts(s: Side, data: seq<Byte>, ctrl: bool, state: ConnState)
    requires Queue(s) && s.Open() && |s.out| + |data| < TWO32
    requires |s.t.snd.sbuf| + |data| <= SND_BUF_SIZE
    requires if ctrl then s.t.state == Listen && data == [CTL_CONNECT] else s.t.state != Listen
    requires state != Listen && state != Closed
    ensures Queue(Accepted(s, data, ctrl, state))
    ensures forall x :: Cut(s, x) ==> Cut(Accepted(s, data, ctrl, state), x)
  {
    EnqueueKeeps(s.t.snd, data, ctrl);
    assert (s.out + data)[s.t.snd.sndUna..] == s.out[s.t.snd.sndUna..] + data;
  }

  /** More data accepted does not disturb what the peer has received. */
  lemma ReceiveGrows(r: Receiver, stream: seq<Byte>, more: seq<Byte>)
    requires ReceiveOk(r, stream) && |stream + more| < TWO32
    ensures ReceiveOk(r, stream + more)
  {
    assert (stream + more)[r.rcvNxt - r.rlen..r.rcvNxt] == stream[r.rcvNxt - r.rlen..r.rcvNxt];
  }

  lemma AcceptAsSender(s: Side, r: Side, data: seq<Byte>, ctrl: bool, state: ConnState)
    requires Link(s, r) && s.Open() && |s.out| + |data| < TWO32
    requires |s.t.snd.sbuf| + |data| <= SND_BUF_SIZE
    requires if ctrl then s.t.state == Listen && data == [CTL_CONNECT] && state != Established
             else s.t.state == Established == state
    requires state != Listen && state != Closed
    ensures Link(Accepted(s, data, ctrl, state), r)
  {
    var s' := Accepted(s, data, ctrl, state);
    QueueAccepts(s, data, ctrl, state);
    ReceiveGrows(r.t.rcv, s.out, data);
    forall p | p in s.t.sent ensures DataPacket(p, s', r) && Reading(p.tsval, s') {
      assert DataPacket(p, s, r);
    }
    forall p | p in r.t.sent ensures AckPacket(p, s', r) {
      assert AckPacket(p, s, r);
    }
    DeliveredGrows(s, r, data);
    assert Buffer(s', r);
    assert Times(s', r);
  }

  lemma DeliveredGrows(s: Side, r: Side, data: seq<Byte>)
    requires Delivered(s, r)
    ensures Delivered(s.(out := s.out + data), r)
  {
    if r.t.rcv.rcvNxt != 0 {
      assert (s.out + data)[1..NextRead(r.t.rcv)] == s.out[1..NextRead(r.t.rcv)];
    }
  }

  lemma AcceptAsReceiver(s: Side, r: Side, data: seq<Byte>, ctrl: bool, state: ConnState)
    requires Link(s, r) && r.Open()
    requires |r.t.snd.sbuf| + |data| <= SND_BUF_SIZE
    ensures Link(s, Accepted(r, data, ctrl, state))
  {
    SameReceiver(s, r, Accepted(r, data, ctrl, state));
  }

  /** A side's view as a receiver depends on its receive state and packets only. */
  lemma SameReceiver(s: Side, r: Side, r': Side)
    requires Link(s, r)
    requires r'.t.rcv == r.t.rcv && r'.t.sent == r.t.sent && r'.got == r.got
    requires r'.t.conv == r.t.conv && r'.t.shutdown == r.t.shutdown
    requires r'.t.tsRecent == r.t.tsRecent || Reading(r'.t.tsRecent, s)
    ensures Link(s, r')
  {
    forall p | p in s.t.sent ensures DataPacket(p, s, r') {
      assert DataPacket(p, s, r);
    }
    forall p | p in r'.t.sent ensures AckPacket(p, s, r') {
      assert AckPacket(p, s, r);
    }
  }

  // ---------------------------------------------------------------------
  // Acknowledgements

  /** Every packet of the peer is one that `process` can take. */
  lemma PeerPacketAcceptable(s: Side, r: Side, p: Packet, env: Env)
    requires Link(s, r) && Link(r, s) && s.Open() && p in r.t.sent
    requires ClockOk(s, env)
    ensures Acceptable(s.t, p, env)
  {
    assert AckPacket(p, s, r) && DataPacket(p, r, s);
    if Valuable(s.t, p) && p.tsecr != 0 {
      var at: nat :| s.epoch <= at <= s.clock && p.tsecr == U32(at);
      TimeDiffExact(at, env.clock);
    }
  }

  lemma AckAsSender(s: Side, r: Side, p: Packet, env: Env)
    requires Link(s, r) && s.Open() && p in r.t.sent && Acceptable(s.t, p, env)
    ensures Link(s.(t := AckQueue(s.t, p, env)), r)
  {
    var s' := s.(t := AckQueue(s.t, p, env));
    assert AckPacket(p, s, r);
    QueueAcks(s, p, env);
    forall q | q in s.t.sent ensures DataPacket(q, s', r) && Reading(q.tsval, s') {
      assert DataPacket(q, s, r);
    }
    forall q | q in r.t.sent ensures AckPacket(q, s', r) {
      assert AckPacket(q, s, r);
    }
    assert Buffer(s', r);
    assert Times(s', r);
  }

  lemma QueueAcks(s: Side, p: Packet, env: Env)
    requires Queue(s) && s.Open() && Acceptable(s.t, p, env)
    ensures Queue(s.(t := AckQueue(s.t, p, env)))
    ensures forall x :: Cut(s, x) ==> Cut(s.(t := AckQueue(s.t, p, env)), x)
  {
    var una := s.t.snd.sndUna;
    if Valuable(s.t, p) {
      assert s.out[una..][p.ack - una..] == s.out[p.ack..];
    }
  }

  // ---------------------------------------------------------------------
  // Arriving data

  /** A side's view as a sender depends on its send state and packets only. */
  lemma SameSender(s: Side, s': Side, r: Side)
    requires Link(s, r)
    requires s'.out == s.out && s'.epoch == s.epoch && s.clock <= s'.clock < s'.epoch + TWO31
    requires s'.t.snd == s.t.snd && s'.t.sent == s.t.sent && s'.t.conv == s.t.conv
    requires s'.Open() == s.Open() && (s'.Open() ==> Ready(s'.t))
    requires s'.t.state == Established ==> r.t.rcv.rcvNxt >= 1
    ensures Link(s', r)
  {
    forall p | p in s.t.sent ensures DataPacket(p, s', r) && Reading(p.tsval, s') {
      assert DataPacket(p, s, r);
      ReadingLater(p.tsval, s, s');
    }
    forall p | p in r.t.sent ensures AckPacket(p, s', r) {
      assert AckPacket(p, s, r);
    }
    assert Buffer(s', r);
  }

  /** The receive side moves on: positions and window edge only grow. */
  lemma ReceiverMoves(s: Side, r: Side, r': Side)
    requires Link(s, r)
    requires r'.t == r.t.(rcv := r'.t.rcv)
    requires Buffer(s, r') && Delivered(s, r')
    requires r.t.rcv.rcvNxt <= r'.t.rcv.rcvNxt && r.Edge() <= r'.Edge()
    ensures Link(s, r')
  {
    forall p | p in s.t.sent ensures DataPacket(p, s, r') {
      assert DataPacket(p, s, r);
    }
    forall p | p in r'.t.sent ensures AckPacket(p, s, r') {
      assert AckPacket(p, s, r);
    }
  }

  lemma DataAsReceiver(s: Side, r: Side, p: Packet)
    requires Link(s, r) && p in s.t.sent
    ensures p.sn + |p.data| < TWO32
    ensures Link(s, r.(t := ReceiveData(r.t, p)))
    ensures r.t.rcv.rcvNxt <= ReceiveData(r.t, p).rcv.rcvNxt
  {
    assert DataPacket(p, s, r);
    var r' := r.(t := ReceiveData(r.t, p));
    if p.data == [] {
    } else if p.ctl {
      ConnectByteArrives(s, r, p);
    } else {
      StreamArrives(s, r, p);
    }
  }

  /** Application data: nothing is cut off, and the window edge stays. */
  lemma StreamArrives(s: Side, r: Side, p: Packet)
    requires Link(s, r) && p in s.t.sent && p.data != [] && !p.ctl
    requires p.sn + |p.data| < TWO32
    ensures Link(s, r.(t := ReceiveData(r.t, p)))
    ensures r.t.rcv.rcvNxt <= ReceiveData(r.t, p).rcv.rcvNxt
    ensures PseudoTcpWindow.Edge(ReceiveData(r.t, p).rcv) == PseudoTcpWindow.Edge(r.t.rcv)
    ensures var t := Trim(r.t.rcv, p.sn, p.data);
            if p.sn + |p.data| <= r.t.rcv.rcvNxt then t.1 == [] else t.1 != [] && t.0 + |t.1| == p.sn + |p.data|
  {
    hide Trim;
    assert DataPacket(p, s, r);
    TrimKeepsEnd(r.t.rcv, p.sn, p.data);
    var r' := r.(t := ReceiveData(r.t, p));
    assert r'.t.rcv == Accept(r.t.rcv, p.sn, p.data);
    AcceptKeeps(r.t.rcv, s.out, p.sn, p.data);
    AcceptWindow(r.t.rcv, p.sn, p.data);
    forall x | Landing(r'.t.rcv, x) ensures Cut(s, x) {
      assert x == p.sn + |p.data| || Landing(r.t.rcv, x);
    }
    ReceiverMoves(s, r, r');
  }

  /** The connect byte: consumed once, ignored afterwards. */
  lemma ConnectByteArrives(s: Side, r: Side, p: Packet)
    requires Link(s, r) && p in s.t.sent && p.ctl
    requires p.sn + |p.data| < TWO32
    ensures Link(s, r.(t := ReceiveData(r.t, p)))
    ensures ReceiveData(r.t, p).rcv == if r.t.rcv.rcvNxt == 0 then r.t.rcv.(rcvNxt := 1) else r.t.rcv
    ensures r.t.rcv.rcvNxt == 0 ==> r.t.rcv.rlist == [] && r.t.rcv.rlen == 0
  {
    assert DataPacket(p, s, r);
    TrimKeepsEnd(r.t.rcv, p.sn, p.data);
    if r.t.rcv.rcvNxt == 0 {
      var r' := r.(t := ReceiveData(r.t, p));
      NothingSaved(r.t.rcv, s.out);
      assert r'.t.rcv == r.t.rcv.(rcvNxt := 1);
      ReceiverMoves(s, r, r');
    }
  }

  lemma NothingSaved(r: Receiver, stream: seq<Byte>)
    requires ReceiveOk(r, stream) && r.rcvNxt == 0 && |stream| <= 1
    ensures r.rlist == [] && r.rlen == 0
  {
    if r.rlist != [] {
      assert Within(r.rlist[0].sn, r.rlist[0].sn, r.rlist[0].len);
      assert Covers(r.rlist, r.rlist[0].sn);
    }
  }
}
