/** Two hosts, each an application on a socket object, driven through a run:
    what the run theorem says holds of the objects. */
module PseudoTcpHosts {
  import opened Arith
  import opened PseudoTcpState
  import opened PseudoTcpOutput
  import opened PseudoTcpInput
  import opened PseudoTcpSystem
  import opened PseudoTcpDelivery
  import opened PseudoTcpRuns
  import opened PseudoTcpSockets

  /** A socket with what its application has written to it and read from it. */
  class Host {
    const socket: PseudoTcpSocket
    const connects: bool
    const epoch: nat
    var clock: nat
    var out: seq<Byte>
    var got: seq<Byte>

    ghost predicate Valid()
      reads this, socket
    {
      socket.Valid()
    }

    ghost function Footprint(): set<object> {
      {this, socket, socket.rbuf, socket.sbuf}
    }

    ghost function Model(): Side
      reads this, socket, socket.rbuf, socket.sbuf
      requires Valid()
    {
      Side(socket.Model(), out, got, epoch, clock)
    }

    constructor (conv: nat, epoch: nat, connects: bool)
      ensures Valid() && fresh(Footprint()) && this.connects == connects
      ensures Model() == NewSide(conv, epoch)
    {
      socket := new PseudoTcpSocket(conv, U32(epoch));
      this.connects, this.epoch, clock, out, got := connects, epoch, epoch, [], [];
    }

    method Ask(env: Env)
      requires Valid() && PseudoTcpSystem.Queue(Model())
      modifies Footprint()
      ensures Valid() && Model() == Asked(old(Model()), env)
    {
      hide PseudoTcpInput.Connect, Ready;
      var ok := socket.Connect(env);
      clock := env.clock;
      if ok {
        out := [CTL_CONNECT];
      }
    }

    method Write(data: seq<Byte>, env: Env)
      requires Valid() && PseudoTcpSystem.Queue(Model()) && |out| + |data| < TWO32
      modifies Footprint()
      ensures Valid() && Model() == PseudoTcpDelivery.Written(old(Model()), data, env)
    {
      hide PseudoTcpInput.Send, Ready;
      var res := socket.Send(data, env);
      clock := env.clock;
      if res.Queued? {
        out := out + data[..Min(res.n, |data|)];
      }
    }

    method Read(len: nat, env: Env)
      requires Valid() && PseudoTcpSystem.Queue(Model())
      modifies Footprint()
      ensures Valid() && Model() == PseudoTcpDelivery.Read(old(Model()), len, env)
    {
      hide PseudoTcpInput.Recv, Ready;
      var res := socket.Recv(len, env);
      clock := env.clock;
      if res.Received? {
        got := got + res.data;
      }
    }

    method Take(p: Packet, env: Env)
      requires Valid() && (Model().Open() ==> Ready(Model().t) && Acceptable(Model().t, p, env))
      modifies Footprint()
      ensures Valid() && Model() == Taken(old(Model()), p, env)
    {
      hide PseudoTcpInput.Process, Ready, Acceptable;
      var listening := socket.state == Listen;
      var _ := socket.Process(p, env);
      clock := env.clock;
      if listening && socket.state == SynReceived {
        out := [CTL_CONNECT];
      }
    }

    /** Do one action, unless it is not permitted. */
    method Perform(ghost peer: Side, sent: seq<Packet>, a: Action, env: Env) returns (done: bool)
      requires Valid() && Pair(Model(), peer) && sent == peer.t.sent
      modifies Footprint()
      ensures Valid()
      ensures done <==> Permitted(old(Model()), peer, connects, a, env)
      ensures Model() == if done then Act(old(Model()), peer, connects, a, env) else old(Model())
    {
      hide Asked, PseudoTcpDelivery.Written, PseudoTcpDelivery.Read, Taken, PseudoTcpInput.NotifyClock, Ready;
      done := clock <= env.clock < epoch + TWO31;
      if !done {
        return;
      }
      match a
      case DoConnect =>
        done := connects;
        if done {
          Ask(env);
        }
      case DoSend(data) =>
        done := |out| + |data| < TWO32;
        if done {
          Write(data, env);
        }
      case DoRecv(len) =>
        Read(len, env);
      case DoClock =>
        socket.NotifyClock(env);
        clock := env.clock;
      case DoMtu(mtu) =>
        done := PACKET_OVERHEAD < mtu <= MAX_PACKET;
        if done {
          socket.NotifyMtu(mtu);
          clock := env.clock;
        }
      case DoDeliver(k) =>
        done := k < |sent|;
        if done {
          Deliverable(Model(), peer, k, env);
          Take(sent[k], env);
        }
    }
  }

  /** The events that are performed when those that are not possible are skipped. */
  ghost function Performed(sys: Sys, events: seq<Event>): seq<Event>
    requires SysOk(sys)
    decreases |events|
  {
    if events == [] then []
    else if Possible(sys, events[0]) then [events[0]] + Performed(Next(sys, events[0]), events[1..])
    else Performed(sys, events[1..])
  }

  /** Where they lead to. */
  ghost function Outcome(sys: Sys, events: seq<Event>): Sys
    requires SysOk(sys)
    decreases |events|
  {
    if events == [] then sys
    else if Possible(sys, events[0]) then Outcome(Next(sys, events[0]), events[1..])
    else Outcome(sys, events[1..])
  }

  lemma {:induction false} OutcomeIsRun(sys: Sys, events: seq<Event>)
    requires SysOk(sys)
    ensures Run(sys, Performed(sys, events), Outcome(sys, events))
    decreases |events|
  {
    hide SysOk, Possible, Next;
    if events != [] {
      if Possible(sys, events[0]) {
        var rest := Performed(Next(sys, events[0]), events[1..]);
        OutcomeIsRun(Next(sys, events[0]), events[1..]);
        assert ([events[0]] + rest)[1..] == rest;
      } else {
        OutcomeIsRun(sys, events[1..]);
      }
    }
  }

  /** Do the event at its host, unless it is not permitted. */
  method Advance(x: Host, y: Host, e: Event) returns (done: bool)
    requires x.Valid() && y.Valid() && x.connects && !y.connects && x.Footprint() !! y.Footprint()
    requires SysOk(Sys(x.Model(), y.Model()))
    modifies x.Footprint(), y.Footprint()
    ensures x.Valid() && y.Valid()
    ensures done <==> Possible(old(Sys(x.Model(), y.Model())), e)
    ensures Sys(x.Model(), y.Model()) ==
            if done then Next(old(Sys(x.Model(), y.Model())), e) else old(Sys(x.Model(), y.Model()))
  {
    hide Link, Permitted, Act, Roles;
    if e.atX {
      done := x.Perform(y.Model(), y.socket.wire.sent, e.a, e.env);
    } else {
      done := y.Perform(x.Model(), x.socket.wire.sent, e.a, e.env);
    }
  }

  /** Two new hosts driven through any sequence of events, skipping those that are not
      permitted: the objects follow the run of the system that performs the others, and
      what each application has read is a prefix of what the other has written. */
  method Converse(conv: nat, epochX: nat, epochY: nat, events: seq<Event>) returns (x: Host, y: Host)
    ensures x.Valid() && y.Valid() && fresh(x.Footprint()) && fresh(y.Footprint())
    ensures var start := Sys(NewSide(conv, epochX), NewSide(conv, epochY));
            SysOk(start) && Run(start, Performed(start, events), Sys(x.Model(), y.Model()))
    ensures y.got <= (if x.out == [] then [] else x.out[1..])
    ensures x.got <= (if y.out == [] then [] else y.out[1..])
  {
    hide SysOk, Possible, Next;
    x := new Host(conv, epochX, true);
    y := new Host(conv, epochY, false);
    ghost var start := Sys(x.Model(), y.Model());
    InitialOk(conv, epochX, epochY);
    for i := 0 to |events|
      invariant x.Valid() && y.Valid() && x.connects && !y.connects && x.Footprint() !! y.Footprint()
      invariant fresh(x.Footprint()) && fresh(y.Footprint())
      invariant SysOk(Sys(x.Model(), y.Model()))
      invariant Outcome(start, events) == Outcome(Sys(x.Model(), y.Model()), events[i..])
    {
      assert events[i..][1..] == events[i + 1..];
      var _ := Advance(x, y, events[i]);
    }
    OutcomeIsRun(start, events);
    DeliveredIsPrefix(conv, epochX, epochY, Performed(start, events), Sys(x.Model(), y.Model()));
  }
}
