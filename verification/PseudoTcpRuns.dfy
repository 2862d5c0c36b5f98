/** Runs of two pseudo-TCP endpoints, one connecting and one listening. */
module PseudoTcpRuns {
  import opened Arith
  import opened PseudoTcpReceive
  import opened PseudoTcpWindow
  import opened PseudoTcpSend
  import opened PseudoTcpState
  import opened PseudoTcpOutput
  import opened PseudoTcpInput
  import opened PseudoTcpSystem
  import opened PseudoTcpDelivery

  /** The side after action `a` is again related to its peer as the invariant asks. */
  ghost predicate Kept(s: Side, peer: Side, connects: bool, a: Action, env: Env)
    requires Pair(s, peer) && Permitted(s, peer, connects, a, env)
  {
    var s' := Act(s, peer, connects, a, env);
    Pair(s', peer) && RolesOf(s', peer, connects)
  }

  lemma ConnectAct(s: Side, peer: Side, env: Env)
    requires Pair(s, peer) && Permitted(s, peer, true, DoConnect, env)
    requires RolesOf(s, peer, true)
    ensures Kept(s, peer, true, DoConnect, env)
  {
    hide Wire, Buffer, Acks, Times, Delivered, Flow, AttemptSend, SendOk;
    if s.t.state == Listen {
      ListenOut(s, peer);
      ConnectKeeps(s, peer, env);
    } else {
      PairLater(s, peer, env);
    }
  }

  lemma SendAct(s: Side, peer: Side, connects: bool, data: seq<Byte>, env: Env)
    requires Pair(s, peer) && Permitted(s, peer, connects, DoSend(data), env)
    requires RolesOf(s, peer, connects)
    ensures Kept(s, peer, connects, DoSend(data), env)
  {
    hide Wire, Buffer, Acks, Times, Delivered, Flow, AttemptSend, SendOk;
    var res := Send(s.t, data, env).1;
    if res.Queued? {
      SendKeeps(s, peer, data, res.n, env);
      SendRoles(s, peer, connects, data, env);
    } else {
      PairLater(s, peer, env);
    }
  }

  lemma SendRoles(s: Side, peer: Side, connects: bool, data: seq<Byte>, env: Env)
    requires Pair(s, peer) && Permitted(s, peer, connects, DoSend(data), env)
    requires RolesOf(s, peer, connects) && s.t.state == Established
    ensures RolesOf(Act(s, peer, connects, DoSend(data), env), peer, connects)
  {
    hide Wire, Buffer, Acks, Times, Delivered, Flow, AttemptSend, SendOk;
    var s' := Act(s, peer, connects, DoSend(data), env);
    assert s'.t.state == s.t.state && s'.t.rcv == s.t.rcv;
    assert s.out != [];
  }

  lemma RecvAct(s: Side, peer: Side, connects: bool, len: nat, env: Env)
    requires Pair(s, peer) && Permitted(s, peer, connects, DoRecv(len), env)
    requires RolesOf(s, peer, connects)
    ensures Kept(s, peer, connects, DoRecv(len), env)
  {
    hide Wire, Buffer, Acks, Times, Delivered, Flow, AttemptSend, SendOk, ReadShift, ReadBytes, WindowDue, Ready,
      InQueue;
    if s.t.state == Established && s.t.rcv.rlen > 0 {
      RecvKeeps(s, peer, len, env);
      RecvRoles(s, peer, connects, len, env);
    } else {
      PairLater(s, peer, env);
    }
  }

  lemma RecvRoles(s: Side, peer: Side, connects: bool, len: nat, env: Env)
    requires Pair(s, peer) && Permitted(s, peer, connects, DoRecv(len), env)
    requires RolesOf(s, peer, connects) && s.t.state == Established
    ensures RolesOf(Act(s, peer, connects, DoRecv(len), env), peer, connects)
  {
    hide Wire, Buffer, Acks, Times, Delivered, Flow, AttemptSend, SendOk, InQueue;
    var s' := Act(s, peer, connects, DoRecv(len), env);
    assert s'.t.rcv.rcvNxt == s.t.rcv.rcvNxt && s'.t.state == s.t.state;
  }

  lemma ClockAct(s: Side, peer: Side, connects: bool, env: Env)
    requires Pair(s, peer) && Permitted(s, peer, connects, DoClock, env)
    requires RolesOf(s, peer, connects)
    ensures Kept(s, peer, connects, DoClock, env)
  {
    hide Wire, Buffer, Acks, Times, Delivered, Flow, SendOk, ClockStages;
    ClockKeeps(s, peer, env);
    RolesKept(s, Act(s, peer, connects, DoClock, env), peer, connects);
  }

  lemma MtuAct(s: Side, peer: Side, connects: bool, mtu: nat, env: Env)
    requires Pair(s, peer) && Permitted(s, peer, connects, DoMtu(mtu), env)
    requires RolesOf(s, peer, connects)
    ensures Kept(s, peer, connects, DoMtu(mtu), env)
  {
    hide Wire, Buffer, Acks, Times, Delivered, Flow, SendOk, AdjustMtu;
    if s.Open() {
      MtuKeeps(s, peer, mtu);
      PairLater(s.(t := NotifyMtu(s.t, mtu)), peer, env);
    } else {
      ClosedTweak(s, peer, NotifyMtu(s.t, mtu), env);
    }
  }

  /** Every permitted action of a side keeps the invariant. */
  lemma ActKeeps(s: Side, peer: Side, connects: bool, a: Action, env: Env)
    requires Pair(s, peer) && Permitted(s, peer, connects, a, env)
    requires RolesOf(s, peer, connects)
    ensures Kept(s, peer, connects, a, env)
  {
    hide Link, Roles, Act;
    match a
    case DoConnect => ConnectAct(s, peer, env);
    case DoSend(data) => SendAct(s, peer, connects, data, env);
    case DoRecv(len) => RecvAct(s, peer, connects, len, env);
    case DoClock => ClockAct(s, peer, connects, env);
    case DoMtu(mtu) => MtuAct(s, peer, connects, mtu, env);
    case DoDeliver(k) => DeliverKeeps(s, peer, connects, k, env);
  }

  // ---------------------------------------------------------------------
  // Runs

  datatype Sys = Sys(x: Side, y: Side)

  datatype Event = Event(atX: bool, a: Action, env: Env)

  ghost predicate SysOk(sys: Sys) {
    Pair(sys.x, sys.y) && Roles(sys.x, sys.y)
  }

  predicate Possible(sys: Sys, e: Event) {
    if e.atX then Permitted(sys.x, sys.y, true, e.a, e.env)
    else Permitted(sys.y, sys.x, false, e.a, e.env)
  }

  function Next(sys: Sys, e: Event): (sys': Sys)
    requires SysOk(sys) && Possible(sys, e)
    ensures SysOk(sys')
  {
    if e.atX then
      ActKeeps(sys.x, sys.y, true, e.a, e.env);
      sys.(x := Act(sys.x, sys.y, true, e.a, e.env))
    else
      ActKeeps(sys.y, sys.x, false, e.a, e.env);
      sys.(y := Act(sys.y, sys.x, false, e.a, e.env))
  }

  ghost predicate Run(sys: Sys, events: seq<Event>, final: Sys)
    requires SysOk(sys)
    decreases |events|
  {
    if events == [] then final == sys
    else Possible(sys, events[0]) && Run(Next(sys, events[0]), events[1..], final)
  }

  function NewSide(conv: nat, epoch: nat): Side {
    Side(InitialTcb(conv, U32(epoch)), [], [], epoch, epoch)
  }

  lemma InitialOk(conv: nat, epochX: nat, epochY: nat)
    ensures SysOk(Sys(NewSide(conv, epochX), NewSide(conv, epochY)))
  {
    hide Link;
    NewLink(conv, epochX, epochY);
    NewLink(conv, epochY, epochX);
  }

  lemma NewLink(conv: nat, epochS: nat, epochR: nat)
    ensures Link(NewSide(conv, epochS), NewSide(conv, epochR))
  {
    var s, r := NewSide(conv, epochS), NewSide(conv, epochR);
    hide Ready, ReceiveOk, WindowOk, SendOk, InitialReceiver, InitialCongestion;
    InitialReady(conv, U32(epochS));
    InitialReceives();
    InitialRcv();
    assert s.t.snd.sbuf == s.out[0..];
  }

  lemma InitialReady(conv: nat, now: nat)
    requires now < TWO32
    ensures Ready(InitialTcb(conv, now))
  {
  }

  lemma InitialRcv()
    ensures var r := InitialReceiver();
            Shape(r) && r.rlen == 0 && r.rcvNxt == 0 && r.rcvWnd == RCV_BUF_SIZE && r.rlist == []
  {
  }

  lemma InitialReceives()
    ensures ReceiveOk(InitialReceiver(), []) && WindowOk(InitialReceiver())
  {
  }

  lemma {:induction false} RunKeeps(sys: Sys, events: seq<Event>, final: Sys)
    requires SysOk(sys) && Run(sys, events, final)
    ensures SysOk(final)
    decreases |events|
  {
    hide Link, Roles, Possible;
    if events != [] {
      RunKeeps(Next(sys, events[0]), events[1..], final);
    }
  }

  /** What a side accepted from its application: all but the connect byte. */
  function AppBytes(s: Side): seq<Byte> {
    if s.out == [] then [] else s.out[1..]
  }

  /** Main theorem. In every run over a network that loses, duplicates and
      reorders packets, the bytes each application has read are a prefix of the
      bytes the other application has written. */
  lemma DeliveredIsPrefix(conv: nat, epochX: nat, epochY: nat, events: seq<Event>, final: Sys)
    ensures var start := Sys(NewSide(conv, epochX), NewSide(conv, epochY));
            && SysOk(start)
            && (Run(start, events, final) ==>
                  final.y.got <= AppBytes(final.x) && final.x.got <= AppBytes(final.y))
  {
    hide Link, Roles, Next, Respected;
    InitialOk(conv, epochX, epochY);
    var start := Sys(NewSide(conv, epochX), NewSide(conv, epochY));
    if Run(start, events, final) {
      RunKeeps(start, events, final);
      PrefixOf(final.x, final.y);
      PrefixOf(final.y, final.x);
    }
  }

  lemma PrefixOf(s: Side, r: Side)
    requires Link(s, r)
    ensures r.got <= AppBytes(s)
  {
    hide Queue, Wire, Buffer, Acks, Flow, Times;
    if r.t.rcv.rcvNxt != 0 {
      assert s.out[1..NextRead(r.t.rcv)] == AppBytes(s)[..NextRead(r.t.rcv) - 1];
    }
  }

  /** In every run the receiver never has to cut a segment at the far end of its
      window, its window never wraps, and every acknowledgement in the network
      falls on a segment boundary of the sender. */
  lemma WindowsAreRespected(conv: nat, epochX: nat, epochY: nat, events: seq<Event>, final: Sys)
    ensures var start := Sys(NewSide(conv, epochX), NewSide(conv, epochY));
            && SysOk(start)
            && (Run(start, events, final) ==> Respected(final.x, final.y) && Respected(final.y, final.x))
  {
    hide Link, Roles, Next, Respected;
    InitialOk(conv, epochX, epochY);
    var start := Sys(NewSide(conv, epochX), NewSide(conv, epochY));
    if Run(start, events, final) {
      RunKeeps(start, events, final);
      LinkRespects(final.x, final.y);
      LinkRespects(final.y, final.x);
    }
  }

  ghost predicate Respected(s: Side, r: Side) {
    && Shape(r.t.rcv)
    && r.t.rcv.rlen + r.t.rcv.rcvWnd <= RCV_BUF_SIZE
    && (forall p :: p in s.t.sent && p.data != [] ==> NotCut(p, r))
    && (forall p :: p in r.t.sent && s.Open() ==> p.ack <= s.t.snd.sndNxt && Boundary(s.t.snd.slist, p.ack))
  }

  /** Whatever is left of the packet after trimming reaches its last byte. */
  ghost predicate NotCut(p: Packet, r: Side)
    requires Shape(r.t.rcv)
  {
    && p.sn + |p.data| < TWO32
    && p.sn + |p.data| <= r.t.rcv.rcvNxt + r.t.rcv.rcvWnd
    && var t := Trim(r.t.rcv, p.sn, p.data);
       if p.sn + |p.data| <= r.t.rcv.rcvNxt then t.1 == [] else t.1 != [] && t.0 + |t.1| == p.sn + |p.data|
  }

  lemma LinkRespects(s: Side, r: Side)
    requires Link(s, r)
    ensures Respected(s, r)
  {
    forall p | p in s.t.sent && p.data != [] ensures NotCut(p, r) {
      assert DataPacket(p, s, r);
      TrimKeepsEnd(r.t.rcv, p.sn, p.data);
    }
    forall p | p in r.t.sent && s.Open()
      ensures p.ack <= s.t.snd.sndNxt && Boundary(s.t.snd.slist, p.ack)
    {
      assert AckPacket(p, s, r);
    }
  }
}
