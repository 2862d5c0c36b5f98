/** One socket against any peer that acknowledges on segment boundaries: the
    invariant of every run of API calls, and what it means for the assertions
    of the source. */
module PseudoTcpSafety {
  import opened Arith
  import opened PseudoTcpReceive
  import opened PseudoTcpSend
  import opened PseudoTcpState
  import opened PseudoTcpOutput
  import opened PseudoTcpInput

  datatype Call =
    | CallConnect
    | CallSend(data: seq<Byte>)
    | CallRecv(len: nat)
    | CallClock
    | CallMtu(mtu: nat)
    | CallPacket(p: Packet)

  ghost predicate Safe(t: Tcb) {
    t.state != Closed ==> Ready(t)
  }

  ghost predicate Admissible(t: Tcb, c: Call, env: Env) {
    match c
    case CallSend(data) => t.snd.End() + |data| < TWO32
    case CallMtu(mtu) => PACKET_OVERHEAD < mtu <= MAX_PACKET
    case CallPacket(p) => t.state != Closed ==> Acceptable(t, p, env)
    case _ => true
  }

  function Apply(t: Tcb, c: Call, env: Env): Tcb
    requires Safe(t) && Admissible(t, c, env)
  {
    match c
    case CallConnect => Connect(t, env).0
    case CallSend(data) => Send(t, data, env).0
    case CallRecv(len) => Recv(t, len, env).0
    case CallClock => NotifyClock(t, env)
    case CallMtu(mtu) => NotifyMtu(t, mtu)
    case CallPacket(p) => Process(t, p, env).0
  }

  lemma ProcessSafe(t: Tcb, p: Packet, env: Env)
    requires Ready(t) && Acceptable(t, p, env)
    ensures Ready(ProcessOpen(t, p, env).t)
  {
    hide SendOk, CongestionOk, Fits, AckQueue, ReceiveData, Control;
    var t2 := Timestamp(if p.ctl then Control(t) else t, p);
    ControlKeeps(t, p, env);
    var a := AckStage(t2, p, env);
    if a.ok {
      var t3 := Establish(t2, p, a.t);
      EstablishSafe(t2, p, a.t);
      ReceiveDataKeeps(t3, p);
    }
  }

  lemma EstablishSafe(before: Tcb, p: Packet, t: Tcb)
    requires Ready(t)
    ensures Ready(Establish(before, p, t))
  {
    AdjustMtuOk(t.cong, t.cong.mtuAdvise);
  }

  lemma RecvSafe(t: Tcb, len: nat, env: Env)
    requires Ready(t) && t.state == Established
    ensures Ready(Recv(t, len, env).0)
  {
    hide AttemptSend;
    ReadReady(t, len);
  }

  /** Every call keeps the invariant. */
  lemma ApplyKeeps(t: Tcb, c: Call, env: Env)
    requires Safe(t) && Admissible(t, c, env)
    ensures Safe(Apply(t, c, env))
  {
    match c
    case CallConnect =>
    case CallSend(data) =>
    case CallRecv(len) =>
      if t.state == Established {
        RecvSafe(t, len, env);
      }
    case CallClock =>
    case CallMtu(mtu) =>
      if t.state != Closed {
        AdjustMtuOk(t.cong, mtu);
      }
    case CallPacket(p) =>
      if t.state != Closed {
        HeardSafe(t, p, env);
        ProcessSafe(t.(lastRecv := Now(env)), p, env);
      }
  }

  lemma HeardSafe(t: Tcb, p: Packet, env: Env)
    requires Ready(t) && Acceptable(t, p, env)
    ensures Ready(t.(lastRecv := Now(env))) && Acceptable(t.(lastRecv := Now(env)), p, env)
  {
  }

  // ---------------------------------------------------------------------
  // Runs

  datatype Step = Step(c: Call, env: Env)

  ghost predicate Run(t: Tcb, steps: seq<Step>, final: Tcb)
    requires Safe(t)
    decreases |steps|
  {
    if steps == [] then final == t
    else
      && Admissible(t, steps[0].c, steps[0].env)
      && (ApplyKeeps(t, steps[0].c, steps[0].env);
          Run(Apply(t, steps[0].c, steps[0].env), steps[1..], final))
  }

  lemma {:induction false} RunSafe(t: Tcb, steps: seq<Step>, final: Tcb)
    requires Safe(t) && Run(t, steps, final)
    ensures Safe(final)
    decreases |steps|
  {
    hide Ready;
    if steps != [] {
      ApplyKeeps(t, steps[0].c, steps[0].env);
      RunSafe(Apply(t, steps[0].c, steps[0].env), steps[1..], final);
    }
  }

  /** What the source's assertions and comments take for granted about the send
      queue and the congestion state. */
  ghost predicate QueueAndWindows(t: Tcb) {
    var s, c := t.snd, t.cong;
    && Tiles(s.slist, s.sndUna, s.End())
    && (var k := FirstUnsent(s.slist);
        && TotalLen(s.slist[..k]) == s.sndNxt - s.sndUna
        && (forall i :: k <= i < |s.slist| ==> s.slist[i].xmit == 0)
        && (s.sndNxt < s.End() ==> k < |s.slist|))
    && (t.rtoBase != 0 ==> s.slist != [] && s.slist[0].xmit > 0)
    && 0 < c.mss && 2 * c.mss <= c.ssthresh && c.mss * c.mss < TWO32
    && HEADER_SIZE + c.mss <= MAX_PACKET
    && MIN_RTO <= c.rto <= MAX_RTO
  }

  lemma UnsentSuffix(s: Sender)
    requires SendOk(s)
    ensures var k := FirstUnsent(s.slist);
            && TotalLen(s.slist[..k]) == s.sndNxt - s.sndUna
            && forall i :: k <= i < |s.slist| ==> s.slist[i].xmit == 0
  {
    var k := FirstUnsent(s.slist);
    TilesAt(s.slist, s.sndUna, s.End(), k);
    TilesOrdered(s.slist[..k], s.sndUna, if k < |s.slist| then s.slist[k].sn else s.End());
    if k > 0 {
      LastTile(s.slist[..k], s.sndUna, if k < |s.slist| then s.slist[k].sn else s.End());
      assert s.slist[k - 1] in s.slist;
    }
    forall i | k <= i < |s.slist| ensures s.slist[i].xmit == 0 {
      NoneSentAfter(s, k, i);
    }
    if k < |s.slist| {
      assert s.slist[k] in s.slist;
    }
  }

  /** A segment behind an unsent one is unsent. */
  lemma NoneSentAfter(s: Sender, k: nat, i: nat)
    requires SendOk(s) && k <= i < |s.slist| && s.slist[k].xmit == 0
    ensures s.slist[i].xmit == 0
  {
    if k < i {
      Neighbours(s.slist, s.sndUna, s.End(), k);
      assert s.slist[i] == s.slist[k + 1..][i - k - 1];
      assert s.slist[i] in s.slist[k + 1..];
      assert s.slist[i] in s.slist && s.slist[k] in s.slist;
    }
  }

  lemma ReadyMeans(t: Tcb)
    requires Ready(t)
    ensures QueueAndWindows(t)
  {
    UnsentSuffix(t.snd);
    if t.snd.sndNxt < t.snd.End() {
      UnsentAtNext(t.snd);
    }
    if t.rtoBase != 0 {
      HeadInFlight(t.snd);
    }
    SquareFits(t.cong.mss);
  }

  /** Main theorem: in every state a socket reaches without being closed, the
      segments tile the queue, those sent form a prefix of length
      `sndNxt - sndUna`, a running timer means data in flight, the windows and the
      timeout are in range, and a packet with a full segment has a legal size. */
  lemma EveryRunIsSafe(conv: nat, now: nat, steps: seq<Step>, final: Tcb)
    requires now < TWO32
    ensures Safe(InitialTcb(conv, now))
    ensures Run(InitialTcb(conv, now), steps, final) && final.state != Closed ==> QueueAndWindows(final)
  {
    assert Ready(InitialTcb(conv, now));
    if Run(InitialTcb(conv, now), steps, final) && final.state != Closed {
      RunSafe(InitialTcb(conv, now), steps, final);
      ReadyMeans(final);
    }
  }
}
