/** What two endpoints can achieve: they open a connection, and whatever one application
    writes reaches the other. */
module PseudoTcpArrival {
  import opened Arith
  import opened PseudoTcpReceive
  import opened PseudoTcpSend
  import opened PseudoTcpState
  import opened PseudoTcpOutput
  import opened PseudoTcpInput
  import opened PseudoTcpSystem
  import opened PseudoTcpDelivery
  import opened PseudoTcpRuns
  import opened PseudoTcpProgress

  // ---------------------------------------------------------------------
  // One chunk from end to end

  /** The largest chunk sent at a time. */
  const CHUNK: nat := RCV_BUF_SIZE / 2

  /** An open socket with nothing queued and nothing to read: it has sent `k` bytes, all
      acknowledged, and received `m`. */
  ghost predicate Resting(t: Tcb, now: nat, k: nat, m: nat) {
    && Ready(t) && t.state == Established && !t.shutdown && t.lastSend == now
    && t.snd.sbuf == [] && t.snd.slist == [] && t.snd.sndUna == k && t.snd.sndNxt == k
    && t.rcv.rcvNxt == m && t.rcv.rlen == 0 && t.rcv.rlist == [] && CHUNK < t.rcv.rcvWnd <= RCV_BUF_SIZE
    && t.cong.mss == MAX_MSS <= t.cong.cwnd && t.cong.dupAcks == 0
  }

  /** Otherwise resting, but with a chunk in flight. */
  ghost predicate Flying(t: Tcb, now: nat, k: nat, m: nat, data: seq<Byte>) {
    && Ready(t) && t.state == Established && !t.shutdown && t.lastSend == now
    && t.snd.sbuf == data && t.snd.slist == [SSegment(k, |data|, 1, false)] && t.snd.sndUna == k
    && t.snd.sndNxt == k + |data|
    && t.rcv.rcvNxt == m && t.rcv.rlen == 0 && t.rcv.rlist == [] && CHUNK < t.rcv.rcvWnd <= RCV_BUF_SIZE
    && t.cong.mss == MAX_MSS <= t.cong.cwnd && t.cong.dupAcks == 0
  }

  /** The packet with the chunk. */
  ghost predicate IsChunk(p: Packet, t: Tcb, k: nat, m: nat, data: seq<Byte>) {
    && p.conv == t.conv && !p.rst && !p.ctl && p.sn == k && p.ack == m && p.data == data
    && p.wnd == t.rcv.rcvWnd
  }

  lemma ChunkSent(t: Tcb, env: Env, k: nat, m: nat, data: seq<Byte>)
    requires Resting(t, Now(env), k, m) && Working(env) && 0 < |data| <= CHUNK && 0 < k && k + |data| < TWO32
    requires CHUNK < t.snd.sndWnd
    ensures var (t', res) := Send(t, data, env);
            && Flying(t', Now(env), k, m, data) && res == Queued(|data|) && t'.cong == t.cong && t'.rcv == t.rcv
            && t'.snd.sndWnd == t.snd.sndWnd && t'.conv == t.conv
            && |t'.sent| == |t.sent| + 1 && IsChunk(t'.sent[|t.sent|], t, k, m, data)
  {
    hide Fits, SendOk, SendLoop, CongestionOk, Send, Enqueue, OneQueued;
    ChunkQueued(t, k, data);
    ChunkOffered(t, env, k, data);
    var t1 := t.(snd := Enqueue(t.snd, data, false));
    SegmentSent(t1, env, NoAck, k, |data|, false);
    assert data[..|data|] == data;
  }

  lemma ChunkOffered(t: Tcb, env: Env, k: nat, data: seq<Byte>)
    requires Ready(t) && t.state == Established && t.snd.sbuf == [] && t.snd.sndUna == k && t.lastSend == Now(env)
    requires 0 < |data| <= CHUNK && 0 < k && k + |data| < TWO32
    ensures Ready(t.(snd := Enqueue(t.snd, data, false)))
    ensures Send(t, data, env) == (SendLoop(t.(snd := Enqueue(t.snd, data, false)), env, NoAck), Queued(|data|))
  {
    hide Fits, SendOk, CongestionOk, SendLoop, TimeDiff, Enqueue;
    EnqueueKeeps(t.snd, data, false);
    assert data[..|data|] == data;
    EnqueuedSame(t.snd, data);
    NoTime(Now(env));
    RtoBounds(t);
  }

  lemma EnqueuedSame(s: Sender, data: seq<Byte>)
    requires |s.sbuf| + |data| <= SND_BUF_SIZE
    ensures var s' := Enqueue(s, data, false);
            && s' == s.(slist := s'.slist, sbuf := s.sbuf + data)
  {
  }

  lemma ChunkQueued(t: Tcb, k: nat, data: seq<Byte>)
    requires Ready(t) && t.snd.sbuf == [] && t.snd.slist == [] && t.snd.sndUna == k && t.snd.sndNxt == k
    requires 0 < |data| <= CHUNK < t.snd.sndWnd && 0 < k && k + |data| < TWO32 && t.state == Established
    requires t.cong.mss == MAX_MSS <= t.cong.cwnd && t.cong.dupAcks == 0
    ensures OneQueued(t.(snd := Enqueue(t.snd, data, false)), k, |data|, false)
    ensures Enqueue(t.snd, data, false) == t.snd.(sbuf := data, slist := [SSegment(k, |data|, 0, false)])
  {
    hide Fits, LevelOk, SendOk;
    EnqueueKeeps(t.snd, data, false);
    assert [] + [SSegment(U32(k), |data|, 0, false)] == [SSegment(k, |data|, 0, false)];
  }

  /** In-order data that fits goes straight into the buffer. */
  lemma InOrderStored(t: Tcb, p: Packet)
    requires Shape(t.rcv) && t.rcv.rlist == [] && t.rcv.rlen == 0 && !t.shutdown && !p.ctl && p.sn == t.rcv.rcvNxt
    requires 0 < |p.data| <= t.rcv.rcvWnd <= RCV_BUF_SIZE && p.sn + |p.data| < TWO32
    ensures var r := ReceiveData(t, p).rcv;
            r == t.rcv.(rbuf := r.rbuf, rlen := |p.data|, rcvNxt := p.sn + |p.data|, rcvWnd := t.rcv.rcvWnd - |p.data|)
  {
    hide Overwrite;
    assert Trim(t.rcv, p.sn, p.data) == (p.sn, p.data);
  }

  /** Data that was received before changes nothing and is answered at once. */
  lemma OldIgnored(t: Tcb, p: Packet)
    requires Shape(t.rcv) && p.data != [] && p.sn + |p.data| <= t.rcv.rcvNxt
    ensures ReceiveData(t, p).rcv == t.rcv && AckFlags(t, p) == ImmediateAck
  {
  }

  /** A packet of a connection that repeats the acknowledgement and carries data. */
  ghost predicate Repeats(t: Tcb, p: Packet, env: Env) {
    && Ready(t) && Acceptable(t, p, env) && t.state == Established && Heeded(t, p)
    && p.ack == t.snd.sndUna && p.data != []
  }

  lemma RepeatTaken(t: Tcb, p: Packet, env: Env)
    requires Repeats(t, p, env) && t.snd.sbuf == [] && t.lastSend == Now(env)
    ensures Process(t, p, env).1
    ensures var t3 := t.(lastRecv := Now(env), tsRecent := AtAck(t, p, env).tsRecent,
                         snd := t.snd.(sndWnd := p.wnd), rcv := ReceiveData(t, p).rcv);
            Ready(t3) && Process(t, p, env).0 == FinishSend(t3, env, AckFlags(t, p))
  {
    hide AckStage, AttemptSend, SendOk, CongestionOk, Process, ReceiveData, AckFlags, FinishSend, AtSend,
      NewPackets, Emits;
    ProcessIs(t, p, env);
    AtSendIs(t, p, env);
    var t2 := AtAck(t, p, env);
    assert t2 == t.(lastRecv := Now(env), tsRecent := t2.tsRecent);
    RepeatStage(t2, p, env);
    NothingToSend(AtSend(t, p, env), env, AckFlags(t, p));
  }

  lemma RepeatStage(t: Tcb, p: Packet, env: Env)
    requires Ready(t) && Acceptable(t, p, env) && p.ack == t.snd.sndUna && p.data != []
    ensures AckStage(t, p, env) == Transmitted(t.(snd := t.snd.(sndWnd := p.wnd)), true)
  {
    hide SendOk, Fits, CongestionOk, Emits;
  }

  /** Otherwise resting, but with a chunk to read. */
  ghost predicate Holding(t: Tcb, now: nat, k: nat, m: nat, n: nat) {
    && Ready(t) && t.state == Established && !t.shutdown && t.lastSend == now
    && t.snd.sbuf == [] && t.snd.slist == [] && t.snd.sndUna == k && t.snd.sndNxt == k
    && t.rcv.rcvNxt == m && t.rcv.rlen == n && t.rcv.rlist == [] && CHUNK < t.rcv.rcvWnd + n <= RCV_BUF_SIZE
    && 0 < t.rcv.rcvWnd
    && t.cong.mss == MAX_MSS <= t.cong.cwnd && t.cong.dupAcks == 0
  }

  lemma ChunkTaken(t: Tcb, p: Packet, env: Env, k: nat, m: nat)
    requires Resting(t, Now(env), k, m) && Repeats(t, p, env)
    requires !p.ctl && p.sn == m && 0 < |p.data| <= CHUNK
    ensures var t' := Process(t, p, env).0;
            && Holding(t', Now(env), k, m + |p.data|, |p.data|) && t'.cong == t.cong && t'.conv == t.conv
            && t'.snd.sndWnd == p.wnd
  {
    hide AttemptSend, SendOk, CongestionOk, Process, ReceiveData, AckFlags, AtAck;
    RepeatTaken(t, p, env);
    InOrderStored(t, p);
    var t3 := t.(lastRecv := Now(env), tsRecent := AtAck(t, p, env).tsRecent,
                 snd := t.snd.(sndWnd := p.wnd), rcv := ReceiveData(t, p).rcv);
    OnlyOwed(t3, env, AckFlags(t, p));
  }

  lemma ChunkTakenAgain(t: Tcb, p: Packet, env: Env, k: nat, m: nat)
    requires Resting(t, Now(env), k, m) && Repeats(t, p, env) && Working(env) && p.sn + |p.data| <= m
    ensures var t' := Process(t, p, env).0;
            && Resting(t', Now(env), k, m) && t'.cong == t.cong && t'.conv == t.conv && t'.rcv == t.rcv
            && t'.snd.sndWnd == p.wnd && |t'.sent| == |t.sent| + 1
            && t'.sent[|t.sent|] == Bare(t, env, k).(tsecr := t'.tsRecent)
  {
    hide AttemptSend, SendOk, CongestionOk, Process, ReceiveData, AckFlags, AtAck;
    RepeatTaken(t, p, env);
    OldIgnored(t, p);
    var t3 := t.(lastRecv := Now(env), tsRecent := AtAck(t, p, env).tsRecent, snd := t.snd.(sndWnd := p.wnd));
    OnlyOwed(t3, env, ImmediateAck);
  }

  /** The application reads the chunk; the window is reopened if half the buffer is free
      beyond it. */
  lemma ChunkRead(t: Tcb, env: Env, k: nat, m: nat, n: nat)
    requires Holding(t, Now(env), k, m, n) && 0 < n
    ensures var (t', res) := Recv(t, n, env);
            && Resting(t', Now(env), k, m) && t'.cong == t.cong && t'.conv == t.conv && t'.sent == t.sent
            && t'.snd == t.snd && res.Received? && |res.data| == n
  {
    hide AttemptSend, SendOk, CongestionOk, SegmentFits;
    ReadReady(t, n);
  }

  /** A growing window reaches four segments soon and then grows by at most a quarter of one. */
  lemma GrowthSlows(c: Congestion)
    requires CongestionOk(c) && c.mss == MAX_MSS
    ensures 0 < RenoGrowth(c) <= if c.cwnd < 4 * MAX_MSS then MAX_MSS else MAX_MSS / 4
  {
    GrowthIs(c);
    WindowGrowthBounded(c);
    if c.cwnd >= 4 * MAX_MSS {
      QuarterGrowth(c.cwnd);
    }
  }

  lemma QuarterGrowth(w: nat)
    requires w >= 4 * MAX_MSS
    ensures MAX_MSS * MAX_MSS / w <= MAX_MSS / 4
  {
    MulMono(4 * MAX_MSS, w, MAX_MSS / 4 + 1);
    DivBelow(MAX_MSS * MAX_MSS, w, MAX_MSS / 4 + 1);
  }

  lemma DivBelow(a: nat, b: nat, m: nat)
    requires 0 < b && a < b * m
    ensures a / b < m
  {
    assert a / b * b <= a;
    if m <= a / b {
      MulMono(m, a / b, b);
    }
  }

  /** The acknowledgement of the chunk brings the sender back to rest. */
  lemma AckTaken(t: Tcb, p: Packet, env: Env, k: nat, m: nat, data: seq<Byte>)
    requires Flying(t, Now(env), k, m, data) && data != [] && Acceptable(t, p, env) && Heeded(t, p)
    requires !p.ctl && p.data == [] && p.sn == m && p.ack == k + |data|
    requires t.cong.cwnd + RenoGrowth(t.cong) < TWO32
    ensures var t' := Process(t, p, env).0;
            && Resting(t', Now(env), k + |data|, m) && t'.rcv == t.rcv && t'.snd.sndWnd == p.wnd && t'.conv == t.conv
            && t'.cong.cwnd == t.cong.cwnd + RenoGrowth(t.cong)
  {
    hide AckStage, AttemptSend, SendOk, Process, AtSend, NewPackets, Emits, RenoGrowth, LevelOk, FinishSend,
      ReceiveData, AckFlags;
    ProcessIs(t, p, env);
    AtSendIs(t, p, env);
    NothingReceived(t, p);
    var t2 := AtAck(t, p, env);
    assert t2 == t.(lastRecv := Now(env), tsRecent := t2.tsRecent);
    AckStageFrees(t2, p, env, k, false);
    NothingToSend(AtSend(t, p, env), env, NoAck);
    FinishNothing(AtSend(t, p, env), env);
  }

  // ---------------------------------------------------------------------
  // Two sides

  /** The system with side `s` connecting or listening. */
  function Place(s: Side, r: Side, connects: bool): Sys {
    if connects then Sys(s, r) else Sys(r, s)
  }

  lemma Play(s: Side, r: Side, connects: bool, a: Action, env: Env)
    requires SysOk(Place(s, r, connects)) && Permitted(s, r, connects, a, env)
    ensures Pair(s, r)
    ensures var sys := Place(s, r, connects);
            var s' := Act(s, r, connects, a, env);
            && Possible(sys, Event(connects, a, env)) && Next(sys, Event(connects, a, env)) == Place(s', r, connects)
            && SysOk(Place(s', r, connects)) && Run(sys, [Event(connects, a, env)], Place(s', r, connects))
  {
    hide Link, Roles, Act;
    var sys, e := Place(s, r, connects), Event(connects, a, env);
    assert [e][1..] == [];
    assert Run(Next(sys, e), [], Next(sys, e));
  }

  lemma {:induction false} RunConcat(a: Sys, e1: seq<Event>, b: Sys, e2: seq<Event>, c: Sys)
    requires SysOk(a) && Run(a, e1, b) && SysOk(b) && Run(b, e2, c)
    ensures Run(a, e1 + e2, c)
    decreases |e1|
  {
    hide SysOk, Possible, Next;
    if e1 == [] {
      assert e1 + e2 == e2;
    } else {
      RunConcat(Next(a, e1[0]), e1[1..], b, e2, c);
      assert (e1 + e2)[1..] == e1[1..] + e2;
    }
  }

  /** Side `s` rests, all that it sent has reached `r`, and it knows the window of `r`. */
  ghost predicate AtRest(s: Side, r: Side) {
    && Resting(s.t, U32(s.epoch), |s.out|, |r.out|) && s.clock == s.epoch && s.out != []
    && s.t.snd.sndWnd == r.t.rcv.rcvWnd && s.t.conv == r.t.conv
  }

  ghost predicate Quiet(s: Side, r: Side) {
    AtRest(s, r) && AtRest(r, s)
  }

  /** The side after it was given a chunk to send. */
  lemma SendAction(s: Side, r: Side, connects: bool, data: seq<Byte>)
    requires Pair(s, r) && Quiet(s, r) && 0 < |data| <= CHUNK && |s.out| + |data| < TWO32
    ensures var env := Calm(s.epoch);
            && Permitted(s, r, connects, DoSend(data), env)
            && var s' := Act(s, r, connects, DoSend(data), env);
               && Flying(s'.t, Now(env), |s.out|, |r.out|, data)
               && s' == s.(t := s'.t, out := s.out + data)
               && s'.t.cong == s.t.cong && s'.t.rcv == s.t.rcv && s'.t.conv == s.t.conv
               && |s'.t.sent| == |s.t.sent| + 1
               && IsChunk(s'.t.sent[|s.t.sent|], s.t, |s.out|, |r.out|, data)
  {
    hide Link, Send, Ready, CongestionOk, Flying, IsChunk;
    ChunkSent(s.t, Calm(s.epoch), |s.out|, |r.out|, data);
    assert data[..|data|] == data;
  }

  /** A packet of the peer arrives. */
  lemma DeliverAction(s: Side, r: Side, connects: bool, k: nat)
    requires Pair(s, r) && k < |r.t.sent| && s.clock == s.epoch && s.Open()
    ensures var env, p := Calm(s.epoch), r.t.sent[k];
            && Permitted(s, r, connects, DoDeliver(k), env)
            && Ready(s.t) && Acceptable(s.t, p, env)
            && var t' := Process(s.t, p, env).0;
               Act(s, r, connects, DoDeliver(k), env) ==
               s.(t := t', out := if s.t.state == Listen && t'.state == SynReceived then [CTL_CONNECT] else s.out)
  {
    hide Link, Process, Ready, Acceptable;
    Deliverable(s, r, k, Calm(s.epoch));
  }

  lemma ReadAction(s: Side, r: Side, connects: bool, n: nat)
    requires Pair(s, r) && s.clock == s.epoch && 0 < n && Holding(s.t, U32(s.epoch), |s.out|, |r.out|, n)
    ensures var env := Calm(s.epoch);
            && Permitted(s, r, connects, DoRecv(n), env)
            && var s' := Act(s, r, connects, DoRecv(n), env);
               && Resting(s'.t, U32(s.epoch), |s.out|, |r.out|) && s' == s.(t := s'.t, got := s'.got)
               && s'.t.cong == s.t.cong && s'.t.conv == s.t.conv && s'.t.sent == s.t.sent && s'.t.snd == s.t.snd
  {
    hide Link, Recv, Ready, CongestionOk, Resting;
    ChunkRead(s.t, Calm(s.epoch), |s.out|, |r.out|, n);
  }

  /** The chunk is sent and put into the buffer at the other end. */
  lemma ChunkLands(s: Side, r: Side, connects: bool, data: seq<Byte>)
    returns (events: seq<Event>, s': Side, r': Side, k: nat)
    requires SysOk(Place(s, r, connects)) && Quiet(s, r) && 0 < |data| <= CHUNK && |s.out| + |data| < TWO32
    ensures SysOk(Place(s', r', connects)) && Run(Place(s, r, connects), events, Place(s', r', connects))
    ensures Flying(s'.t, U32(s.epoch), |s.out|, |r.out|, data) && s' == s.(t := s'.t, out := s.out + data)
    ensures s'.t.cong == s.t.cong && s'.t.rcv == s.t.rcv && s'.t.conv == s.t.conv
    ensures Holding(r'.t, U32(r.epoch), |r.out|, |s'.out|, |data|) && r' == r.(t := r'.t)
    ensures r'.t.cong == r.t.cong && r'.t.conv == r.t.conv && r'.t.snd.sndWnd == s.t.rcv.rcvWnd
    ensures k < |s'.t.sent| && IsChunk(s'.t.sent[k], s.t, |s.out|, |r.out|, data)
  {
    hide Link, Roles, Act, Permitted, Possible, Next, Ready, Flying, Holding, CongestionOk, Process, Run, Acceptable;
    SendAction(s, r, connects, data);
    Play(s, r, connects, DoSend(data), Calm(s.epoch));
    s' := Act(s, r, connects, DoSend(data), Calm(s.epoch));
    k := |s.t.sent|;
    DeliverAction(r, s', !connects, k);
    Play(r, s', !connects, DoDeliver(k), Calm(r.epoch));
    ChunkTaken(r.t, s'.t.sent[k], Calm(r.epoch), |r.out|, |s.out|);
    r' := Act(r, s', !connects, DoDeliver(k), Calm(r.epoch));
    var e1, e2 := Event(connects, DoSend(data), Calm(s.epoch)), Event(!connects, DoDeliver(k), Calm(r.epoch));
    RunConcat(Place(s, r, connects), [e1], Place(s', r, connects), [e2], Place(s', r', connects));
    events := [e1] + [e2];
  }

  /** It is read there. */
  lemma ChunkArrives(s: Side, r: Side, connects: bool, data: seq<Byte>)
    returns (events: seq<Event>, s': Side, r': Side, k: nat)
    requires SysOk(Place(s, r, connects)) && Quiet(s, r) && 0 < |data| <= CHUNK && |s.out| + |data| < TWO32
    ensures SysOk(Place(s', r', connects)) && Run(Place(s, r, connects), events, Place(s', r', connects))
    ensures Flying(s'.t, U32(s.epoch), |s.out|, |r.out|, data) && s' == s.(t := s'.t, out := s.out + data)
    ensures s'.t.cong == s.t.cong && s'.t.rcv == s.t.rcv && s'.t.conv == s.t.conv
    ensures Resting(r'.t, U32(r.epoch), |r.out|, |s'.out|) && r' == r.(t := r'.t, got := r'.got)
    ensures r'.t.cong == r.t.cong && r'.t.conv == r.t.conv && r'.t.snd.sndWnd == s.t.rcv.rcvWnd
    ensures k < |s'.t.sent| && IsChunk(s'.t.sent[k], s.t, |s.out|, |r.out|, data)
  {
    hide Link, Roles, Act, Permitted, Possible, Next, Run, Ready, Flying, Holding, CongestionOk, Resting;
    var r1, first;
    first, s', r1, k := ChunkLands(s, r, connects, data);
    ReadAction(r1, s', !connects, |data|);
    Play(r1, s', !connects, DoRecv(|data|), Calm(r.epoch));
    r' := Act(r1, s', !connects, DoRecv(|data|), Calm(r.epoch));
    var e := Event(!connects, DoRecv(|data|), Calm(r.epoch));
    RunConcat(Place(s, r, connects), first, Place(s', r1, connects), [e], Place(s', r', connects));
    events := first + [e];
  }

  /** The network delivers the chunk once more, and the answer brings the sender to rest. */
  lemma AnswerArrives(s: Side, r: Side, connects: bool, data: seq<Byte>, u: nat, v: nat, k: nat)
    returns (events: seq<Event>, s': Side, r': Side)
    requires SysOk(Place(s, r, connects)) && data != [] && |s.out| == u + |data| && 0 < u && s.t.conv == r.t.conv
    requires Flying(s.t, U32(s.epoch), u, |r.out|, data) && s.clock == s.epoch
    requires Resting(r.t, U32(r.epoch), |r.out|, |s.out|) && r.clock == r.epoch && r.out != []
    requires k < |s.t.sent| && s.t.rcv.rcvWnd == v
    requires var p := s.t.sent[k];
             p.conv == r.t.conv && !p.rst && !p.ctl && p.sn == u && p.ack == |r.out| && p.data == data && p.wnd == v
    requires CongestionOk(s.t.cong) && s.t.cong.cwnd + RenoGrowth(s.t.cong) < TWO32
    ensures SysOk(Place(s', r', connects)) && Run(Place(s, r, connects), events, Place(s', r', connects))
    ensures Quiet(s', r') && s'.out == s.out && r'.out == r.out && r'.t.cong == r.t.cong
    ensures s'.epoch == s.epoch && r'.epoch == r.epoch
    ensures s'.t.cong.cwnd == s.t.cong.cwnd + RenoGrowth(s.t.cong)
  {
    hide Link, Roles, Act, Permitted, Possible, Next, SendOk, Fits, CongestionOk, RenoGrowth, Process;
    var sys := Place(s, r, connects);
    DeliverAction(r, s, !connects, k);
    Play(r, s, !connects, DoDeliver(k), Calm(r.epoch));
    ChunkTakenAgain(r.t, s.t.sent[k], Calm(r.epoch), |r.out|, |s.out|);
    r' := Act(r, s, !connects, DoDeliver(k), Calm(r.epoch));
    var j := |r.t.sent|;
    DeliverAction(s, r', connects, j);
    Play(s, r', connects, DoDeliver(j), Calm(s.epoch));
    AckTaken(s.t, r'.t.sent[j], Calm(s.epoch), u, |r.out|, data);
    s' := Act(s, r', connects, DoDeliver(j), Calm(s.epoch));
    var e1, e2 := Event(!connects, DoDeliver(k), Calm(r.epoch)), Event(connects, DoDeliver(j), Calm(s.epoch));
    RunConcat(sys, [e1], Place(s, r', connects), [e2], Place(s', r', connects));
    events := [e1] + [e2];
  }

  lemma Round(s: Side, r: Side, connects: bool, data: seq<Byte>)
    returns (events: seq<Event>, s': Side, r': Side)
    requires SysOk(Place(s, r, connects)) && Quiet(s, r) && 0 < |data| <= CHUNK && |s.out| + |data| < TWO32
    requires CongestionOk(s.t.cong) && s.t.cong.cwnd + RenoGrowth(s.t.cong) < TWO32
    ensures SysOk(Place(s', r', connects)) && Run(Place(s, r, connects), events, Place(s', r', connects))
    ensures Quiet(s', r') && s'.out == s.out + data && r'.out == r.out && r'.t.cong == r.t.cong
    ensures s'.epoch == s.epoch && r'.epoch == r.epoch
    ensures s'.t.cong.cwnd == s.t.cong.cwnd + RenoGrowth(s.t.cong)
  {
    hide SysOk, Place, Run, Ready, CongestionOk, RenoGrowth, Flying;
    var s1, r1, k, first, rest;
    first, s1, r1, k := ChunkArrives(s, r, connects, data);
    rest, s', r' := AnswerArrives(s1, r1, connects, data, |s.out|, s.t.rcv.rcvWnd, k);
    RunConcat(Place(s, r, connects), first, Place(s1, r1, connects), rest, Place(s', r', connects));
    events := first + rest;
  }

  /** The number of chunks it takes to send `n` bytes. */
  function Chunks(n: nat): nat {
    if n == 0 then 0 else 1 + Chunks(n - Min(n, CHUNK))
  }

  lemma {:induction false} ChunksBound(n: nat)
    ensures Chunks(n) * CHUNK < n + CHUNK
  {
    if n > 0 {
      ChunksBound(n - Min(n, CHUNK));
    }
  }

  /** The congestion window will not wrap around while `n` bytes are sent in chunks. */
  ghost predicate Spare(c: Congestion, n: nat) {
    Max(c.cwnd, 5 * MAX_MSS) + Chunks(n) * (MAX_MSS / 4) < TWO32
  }

  lemma SpareNext(c: Congestion, n: nat, cwnd: nat)
    requires CongestionOk(c) && c.mss == MAX_MSS && Spare(c, n) && 0 < n && cwnd == c.cwnd + RenoGrowth(c)
    ensures cwnd < TWO32
    ensures forall c': Congestion :: c'.cwnd == cwnd ==> Spare(c', n - Min(n, CHUNK))
  {
    hide RenoGrowth, CongestionOk;
    GrowthSlows(c);
  }

  /** Any amount of data gets through, chunk by chunk. */
  lemma {:induction false} StreamFlows(s: Side, r: Side, connects: bool, data: seq<Byte>)
    returns (events: seq<Event>, s': Side, r': Side)
    requires SysOk(Place(s, r, connects)) && Quiet(s, r) && |s.out| + |data| < TWO32 && Spare(s.t.cong, |data|)
    ensures SysOk(Place(s', r', connects)) && Run(Place(s, r, connects), events, Place(s', r', connects))
    ensures Quiet(s', r') && s'.out == s.out + data && r'.out == r.out && r'.t.cong == r.t.cong
    ensures s'.epoch == s.epoch && r'.epoch == r.epoch
    decreases |data|
  {
    hide SysOk, Place, RenoGrowth, Spare, SendOk, Fits;
    if data == [] {
      events, s', r' := [], s, r;
      assert s.out + data == s.out;
    } else {
      var n := Min(|data|, CHUNK);
      SpareNext(s.t.cong, |data|, s.t.cong.cwnd + RenoGrowth(s.t.cong));
      var s1, r1, first, rest;
      first, s1, r1 := Round(s, r, connects, data[..n]);
      rest, s', r' := StreamFlows(s1, r1, connects, data[n..]);
      RunConcat(Place(s, r, connects), first, Place(s1, r1, connects), rest, Place(s', r', connects));
      events := first + rest;
      assert s.out + data[..n] + data[n..] == s.out + data;
    }
  }

  // ---------------------------------------------------------------------
  // Opening the connection

  /** The packet with the connect byte. */
  function Hello(t: Tcb, env: Env, ack: nat): Packet {
    Packet(t.conv, 0, ack, true, false, RCV_BUF_SIZE, Now(env), t.tsRecent, [CTL_CONNECT])
  }

  /** The connect byte has been sent. */
  ghost predicate Greeting(t: Tcb, env: Env, state: ConnState, m: nat, wnd: nat) {
    && Ready(t) && t.state == state && !t.shutdown && t.lastSend == Now(env) && t.tAck == 0
    && t.snd == Sender([CTL_CONNECT], [SSegment(0, 1, 1, true)], 0, 1, wnd, t.snd.largest)
    && t.rcv == InitialReceiver().(rcvNxt := m) && t.cong == InitialCongestion()
  }

  lemma Asks(conv: nat, env: Env)
    requires Working(env)
    ensures var t := InitialTcb(conv, Now(env));
            && Ready(t)
            && var (t', ok) := Connect(t, env);
               ok && Greeting(t', env, SynSent, 0, 1) && t'.conv == conv && t'.sent == [Hello(t, env, 0)]
  {
    hide SendLoop, TimeDiff, InitialReceiver, Ready, Connect, InitialCongestion, Window;
    var t := InitialTcb(conv, Now(env));
    InitialReady(conv, Now(env));
    InitialRcv();
    ConnectOffered(t, env);
    var t1 := t.(state := SynSent, snd := Sender([CTL_CONNECT], [SSegment(0, 1, 0, true)], 0, 0, 1, 0));
    SegmentSent(t1, env, NoAck, 0, 1, true);
    assert [CTL_CONNECT][0..1] == [CTL_CONNECT];
  }

  /** A connect byte at position 0. */
  ghost predicate IsHello(p: Packet, conv: nat, ack: nat) {
    && p.conv == conv && !p.rst && p.ctl && p.sn == 0 && p.ack == ack && p.data == [CTL_CONNECT]
    && p.wnd == RCV_BUF_SIZE
  }

  /** The listening side answers with its own connect byte. */
  lemma Answers(t: Tcb, p: Packet, env: Env)
    requires Working(env) && t == InitialTcb(t.conv, Now(env)) && IsHello(p, t.conv, 0)
    requires Ready(t) && Acceptable(t, p, env)
    ensures var t' := Process(t, p, env).0;
            && Greeting(t', env, SynReceived, 1, RCV_BUF_SIZE) && t'.conv == t.conv && |t'.sent| == 1
            && IsHello(t'.sent[0], t.conv, 1)
  {
    hide AckStage, SendOk, SendLoop, TimeDiff, Process, ReceiveData, AckFlags, AtSend, InitialReceiver, Fits;
    ProcessIs(t, p, env);
    AtSendIs(t, p, env);
    ConnectReceived(t, p);
    InitialRcv();
    var t2, b := AtAck(t, p, env), AtSend(t, p, env);
    assert t2 == t.(state := SynReceived, lastRecv := Now(env), tsRecent := t2.tsRecent,
                    snd := t.snd.(sbuf := [CTL_CONNECT], slist := [SSegment(0, 1, 0, true)]));
    RepeatStage(t2, p, env);
    NoTime(Now(env));
    SegmentSent(b, env, DelayedAck, 0, 1, true);
    assert [CTL_CONNECT][0..1] == [CTL_CONNECT];
  }

  /** The connecting side opens on the answer. */
  lemma Opens(t: Tcb, p: Packet, env: Env)
    requires Greeting(t, env, SynSent, 0, 1) && IsHello(p, t.conv, 1) && Acceptable(t, p, env)
    ensures var t' := Process(t, p, env).0;
            && Resting(t', Now(env), 1, 1) && t'.conv == t.conv && t'.cong.cwnd <= 2 * MAX_MSS
            && t'.snd.sndWnd == RCV_BUF_SIZE == t'.rcv.rcvWnd
  {
    hide AckStage, AttemptSend, SendOk, Process, ReceiveData, AckFlags, AtSend, InitialReceiver, Fits, RenoGrowth;
    ProcessIs(t, p, env);
    AtSendIs(t, p, env);
    ConnectReceived(t, p);
    InitialRcv();
    var t2, b := AtAck(t, p, env), AtSend(t, p, env);
    assert t2.cong.mss == MAX_MSS == t2.cong.cwnd && t2.state == Established;
    AckStageFrees(t2, p, env, 0, true);
    GrowthSlows(t2.cong);
    NothingToSend(b, env, DelayedAck);
    OnlyOwed(b, env, DelayedAck);
  }

  /** The listening side opens on the acknowledgement of its connect byte. */
  lemma OpensToo(t: Tcb, p: Packet, env: Env)
    requires Greeting(t, env, SynReceived, 1, RCV_BUF_SIZE) && Acceptable(t, p, env) && Heeded(t, p)
    requires !p.ctl && p.data == [] && p.sn == 1 && p.ack == 1 && p.wnd == RCV_BUF_SIZE
    ensures var t' := Process(t, p, env).0;
            && Resting(t', Now(env), 1, 1) && t'.conv == t.conv && t'.cong.cwnd <= 2 * MAX_MSS
            && t'.snd.sndWnd == RCV_BUF_SIZE == t'.rcv.rcvWnd
  {
    hide AckStage, AttemptSend, SendOk, Process, ReceiveData, AckFlags, AtSend, InitialReceiver, Fits, RenoGrowth;
    ProcessIs(t, p, env);
    AtSendIs(t, p, env);
    NothingReceived(t, p);
    InitialRcv();
    var t2, b := AtAck(t, p, env), AtSend(t, p, env);
    assert t2 == t.(lastRecv := Now(env), tsRecent := t2.tsRecent);
    AckStageFrees(t2, p, env, 0, true);
    GrowthIs(t2.cong);
    WindowGrowthBounded(t2.cong);
    NothingToSend(b, env, NoAck);
    FinishNothing(b, env);
  }

  /** The connecting side has asked and the listening side has answered. */
  lemma Greet(conv: nat, epochX: nat, epochY: nat) returns (events: seq<Event>, x: Side, y: Side)
    ensures var start := Sys(NewSide(conv, epochX), NewSide(conv, epochY));
            SysOk(start) && SysOk(Sys(x, y)) && Run(start, events, Sys(x, y))
    ensures x.clock == x.epoch && y.clock == y.epoch && x.out == [CTL_CONNECT] && y.out == [CTL_CONNECT]
    ensures x.epoch == epochX && y.epoch == epochY && x.t.conv == y.t.conv
    ensures Greeting(x.t, Calm(epochX), SynSent, 0, 1) && Greeting(y.t, Calm(epochY), SynReceived, 1, RCV_BUF_SIZE)
    ensures |y.t.sent| == 1 && IsHello(y.t.sent[0], conv, 1) && x.t.conv == conv
  {
    hide Link, Roles, Possible, Next, Ready, Process, Connect, Acceptable, InitialReceiver;
    InitialOk(conv, epochX, epochY);
    var x0, y0 := NewSide(conv, epochX), NewSide(conv, epochY);
    var ex, ey := Calm(epochX), Calm(epochY);
    Asks(conv, ex);
    Play(x0, y0, true, DoConnect, ex);
    x := Act(x0, y0, true, DoConnect, ex);
    DeliverAction(y0, x, false, 0);
    Play(y0, x, false, DoDeliver(0), ey);
    HelloIs(x0.t, ex);
    Answers(y0.t, x.t.sent[0], ey);
    y := Act(y0, x, false, DoDeliver(0), ey);
    var e1, e2 := Event(true, DoConnect, ex), Event(false, DoDeliver(0), ey);
    RunConcat(Sys(x0, y0), [e1], Sys(x, y0), [e2], Sys(x, y));
    events := [e1] + [e2];
  }

  lemma HelloIs(t: Tcb, env: Env)
    ensures IsHello(Hello(t, env, 0), t.conv, 0)
  {
  }

  /** Both sides open; the answer is delivered twice, which makes the connecting side
      acknowledge it at once. */
  lemma Open(conv: nat, epochX: nat, epochY: nat) returns (events: seq<Event>, x: Side, y: Side)
    ensures var start := Sys(NewSide(conv, epochX), NewSide(conv, epochY));
            SysOk(start) && SysOk(Sys(x, y)) && Run(start, events, Sys(x, y))
    ensures Quiet(x, y) && x.out == [CTL_CONNECT] && y.out == [CTL_CONNECT]
    ensures x.t.cong.cwnd <= 2 * MAX_MSS && y.t.cong.cwnd <= 2 * MAX_MSS
  {
    hide Link, Roles, Possible, Next, SendOk, Fits, CongestionOk, Process, Acceptable, InitialReceiver, Act, Permitted;
    var start := Sys(NewSide(conv, epochX), NewSide(conv, epochY));
    var ex, ey := Calm(epochX), Calm(epochY);
    var x1, x2, y1;
    events, x1, y1 := Greet(conv, epochX, epochY);
    DeliverAction(x1, y1, true, 0);
    Play(x1, y1, true, DoDeliver(0), ex);
    Opens(x1.t, y1.t.sent[0], ex);
    x2 := Act(x1, y1, true, DoDeliver(0), ex);
    DeliverAction(x2, y1, true, 0);
    Play(x2, y1, true, DoDeliver(0), ex);
    ChunkTakenAgain(x2.t, y1.t.sent[0], ex, 1, 1);
    x := Act(x2, y1, true, DoDeliver(0), ex);
    var j := |x2.t.sent|;
    DeliverAction(y1, x, false, j);
    Play(y1, x, false, DoDeliver(j), ey);
    OpensToo(y1.t, x.t.sent[j], ey);
    y := Act(y1, x, false, DoDeliver(j), ey);
    var e1, e2 := Event(true, DoDeliver(0), ex), Event(false, DoDeliver(j), ey);
    RunConcat(start, events, Sys(x1, y1), [e1], Sys(x2, y1));
    RunConcat(start, events + [e1], Sys(x2, y1), [e1], Sys(x, y1));
    RunConcat(start, events + [e1] + [e1], Sys(x, y1), [e2], Sys(x, y));
    events := events + [e1] + [e1] + [e2];
  }

  // ---------------------------------------------------------------------
  // Everything can arrive

  lemma SpareAtFirst(c: Congestion, n: nat)
    requires c.cwnd <= 2 * MAX_MSS && n < TWO32
    ensures Spare(c, n)
  {
    hide Chunks;
    ChunksBound(n);
    assert Chunks(n) <= 139811;
  }

  lemma AllRead(s: Side, r: Side)
    requires Link(s, r) && AtRest(r, s)
    ensures r.got == AppBytes(s)
  {
    hide Queue, Wire, Buffer, Acks, Flow, Times, Ready;
  }

  /** For whatever two applications want to tell each other, there is a run of a connecting
      and a listening endpoint after which both are open and each application has read
      everything the other has written. */
  lemma EverythingCanArrive(conv: nat, epochX: nat, epochY: nat, dataX: seq<Byte>, dataY: seq<Byte>)
    returns (events: seq<Event>, final: Sys)
    requires |dataX| + 1 < TWO32 && |dataY| + 1 < TWO32
    ensures var start := Sys(NewSide(conv, epochX), NewSide(conv, epochY));
            SysOk(start) && Run(start, events, final)
    ensures final.x.t.state == Established && final.y.t.state == Established
    ensures final.y.got == dataX == AppBytes(final.x) && final.x.got == dataY == AppBytes(final.y)
  {
    hide SysOk, Ready, CongestionOk;
    var start := Sys(NewSide(conv, epochX), NewSide(conv, epochY));
    var x, y, x1, y1, x2, y2, e1, e2, e3;
    e1, x, y := Open(conv, epochX, epochY);
    SpareAtFirst(x.t.cong, |dataX|);
    SpareAtFirst(y.t.cong, |dataY|);
    e2, x1, y1 := StreamFlows(x, y, true, dataX);
    e3, y2, x2 := StreamFlows(y1, x1, false, dataY);
    RunConcat(start, e1, Sys(x, y), e2, Sys(x1, y1));
    RunConcat(start, e1 + e2, Sys(x1, y1), e3, Sys(x2, y2));
    events, final := e1 + e2 + e3, Sys(x2, y2);
    SysLinks(final);
    AllRead(x2, y2);
    AllRead(y2, x2);
  }

  lemma SysLinks(sys: Sys)
    requires SysOk(sys)
    ensures Link(sys.x, sys.y) && Link(sys.y, sys.x)
  {
  }
}
