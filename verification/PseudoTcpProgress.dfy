/** What a socket is bound to do: resend when its timer runs out or duplicates ask for it,
    probe a closed window, pay the acknowledgements it owes, send all the window allows,
    and open when the other side is heard. */
module PseudoTcpProgress {
  import opened Arith
  import opened PseudoTcpReceive
  import opened PseudoTcpSend
  import opened PseudoTcpState
  import opened PseudoTcpOutput
  import opened PseudoTcpInput

  // ---------------------------------------------------------------------
  // Resending the first segment

  /** The first packet handed over after `t` carries the first `n` queued bytes, with the
      current acknowledgement and window. */
  ghost predicate Resent(t: Tcb, t': Tcb, env: Env, n: nat) {
    && 0 < n <= |t.snd.sbuf| && |t.sent| < |t'.sent| && t'.sent[..|t.sent|] == t.sent
    && t'.sent[|t.sent|] == Packet(t.conv, t.snd.sndUna, t.rcv.rcvNxt, t.snd.sndUna == 0, false,
                                   t.rcv.rcvWnd % TWO16, Now(env), t.tsRecent, t.snd.sbuf[..n])
  }

  /** The first segment has been sent as often as it may be. */
  predicate Exhausted(t: Tcb)
    requires t.snd.slist != []
  {
    t.snd.slist[0].xmit >= if t.state == Established then 15 else 30
  }

  /** How much of the first segment is offered at first. */
  function HeadSize(t: Tcb): nat
    requires t.snd.slist != []
  {
    Min(t.snd.slist[0].len, t.cong.mss)
  }

  lemma HeadOk(t: Tcb)
    requires Ready(t) && t.snd.sndUna < t.snd.sndNxt
    ensures t.snd.slist != [] && t.snd.slist[0].xmit > 0 && 0 < HeadSize(t) <= |t.snd.sbuf|
    ensures t.snd.slist[0].sn == t.snd.sndUna && (t.snd.slist[0].ctrl <==> t.snd.sndUna == 0)
    ensures t.snd.slist[0].End() <= t.snd.sndNxt
  {
    HeadInFlight(t.snd);
    assert t.snd.slist[0] in t.snd.slist;
  }

  /** Offering the segment succeeds at once if the first write does. */
  lemma WrittenAtOnce(t: Tcb, env: Env, seg: SSegment, n: nat)
    requires MssOk(t.cong) && 0 < n && HEADER_SIZE + n <= MAX_PACKET
    requires t.snd.sndUna <= seg.sn && seg.sn - t.snd.sndUna + n <= |t.snd.sbuf|
    ensures env.write(t.calls) == Success ==>
              var w := WriteSegment(t, env, seg, n);
              && w.ok && w.n == n && w.t.cong == t.cong && w.t.lastSend == Now(env) && w.t.calls == t.calls + 1
              && w.t.tAck == 0
    ensures env.write(t.calls) == Fail ==> !WriteSegment(t, env, seg, n).ok
  {
    hide ReduceMss;
  }

  /** Resending hands over a piece of the first segment, all of the first offer if the
      first write succeeds, or it fails and hands over nothing. */
  lemma HeadResent(t: Tcb, env: Env) returns (n: nat)
    requires Ready(t) && t.snd.sndUna < t.snd.sndNxt
    ensures t.snd.slist != [] && n <= HeadSize(t)
    ensures var r := ResendHead(t, env);
            && (r.ok ==> Resent(t, r.t, env, n) && |r.t.sent| == |t.sent| + 1 && !Exhausted(t)
                         && r.t.snd.sndNxt == t.snd.sndNxt && r.t.rtoBase == Resumed(t, env)
                         && r.t.cong.rto == t.cong.rto && r.t.lastSend == Now(env) && r.t.tAck == 0)
            && (!r.ok ==> r.t.sent == t.sent)
            && (!Exhausted(t) && env.write(t.calls) == Success ==>
                  r.ok && n == HeadSize(t) && r.t.cong == t.cong && r.t.calls == t.calls + 1)
            && (env.write(t.calls) == Fail ==> !r.ok)
  {
    hide WriteSegment, Fits, CongestionOk, Tiles, SegmentsOk, NonEmpty;
    HeadOk(t);
    var seg := t.snd.slist[0];
    n := HeadSize(t);
    if !Exhausted(t) {
      HeadFits(t);
      WriteSegmentEffect(t, env, seg, n);
      WrittenAtOnce(t, env, seg, n);
      KeepsRto(t, env, seg, n);
      var w := WriteSegment(t, env, seg, n);
      n := w.n;
      if w.ok {
        SentHead(t, w.n);
      }
    }
  }

  function Resumed(t: Tcb, env: Env): nat {
    if t.rtoBase == 0 then Now(env) else t.rtoBase
  }

  lemma HeadFits(t: Tcb)
    requires Ready(t) && t.snd.slist != []
    ensures MssOk(t.cong) && HEADER_SIZE + HeadSize(t) <= MAX_PACKET
  {
  }

  lemma SentHead(t: Tcb, n: nat)
    requires Ready(t) && t.snd.slist != [] && t.snd.slist[0].xmit > 0 && 0 < n <= t.snd.slist[0].len
    ensures RecordSent(t.snd, 0, n).sndNxt == t.snd.sndNxt
  {
  }

  lemma {:induction false} KeepsRto(t: Tcb, env: Env, seg: SSegment, n: nat)
    requires MssOk(t.cong) && 0 < n && HEADER_SIZE + n <= MAX_PACKET
    requires t.snd.sndUna <= seg.sn && seg.sn - t.snd.sndUna + n <= |t.snd.sbuf|
    ensures var w := WriteSegment(t, env, seg, n);
            w.t.cong.rto == t.cong.rto && (w.ok ==> w.t.lastSend == Now(env) && w.t.tAck == 0)
    decreases 9 - t.cong.msslevel
  {
    var off := seg.sn - t.snd.sndUna;
    var (t1, wres) := WritePacket(t, env, seg.sn, seg.ctrl, t.snd.sbuf[off..off + n], false);
    if wres == TooLarge {
      var (c, ok) := ReduceMss(t1.cong, n);
      if ok {
        KeepsRto(t1.(cong := c), env, seg, c.mss);
      }
    }
  }

  // ---------------------------------------------------------------------
  // The clock

  /** The retransmission timer runs and has run out. */
  ghost predicate Expired(t: Tcb, env: Env)
    requires Ready(t)
  {
    t.rtoBase != 0 && TimeDiff(U32(t.rtoBase + t.cong.rto), Now(env)) <= 0
  }

  /** A time less than 2^31 ms ahead is not due. */
  lemma NotDue(clock: nat, d: nat)
    requires 0 < d < TWO31
    ensures TimeDiff(U32(U32(clock) + d), U32(clock)) == d
  {
    assert U32(U32(clock) + d) == U32(clock + d) by {
      WrapSum(clock, d);
    }
    TimeDiffExact(clock, clock + d);
  }

  lemma WrapSum(a: nat, b: nat)
    ensures U32(U32(a) + b) == U32(a + b)
  {
  }

  /** What the timer makes of the congestion state: half the flight as threshold, one
      segment as window, and twice the timeout up to its limit. */
  ghost predicate BackedOff(t: Tcb, t': Tcb, env: Env) {
    && t'.cong.ssthresh == Max((t.snd.sndNxt - t.snd.sndUna) / 2, 2 * t'.cong.mss)
    && t'.cong.cwnd == t'.cong.mss && t'.rtoBase == Now(env)
    && t'.cong.rto == Min(if t.state == Established then 60000 else 3000, 2 * t.cong.rto)
  }

  /** When the timer has run out, the clock hands over exactly one packet, the beginning of
      the first segment, and backs off; or it closes the connection and hands over nothing.
      It resends if the first write succeeds and the segment was not sent too often. */
  lemma TimerResends(t: Tcb, env: Env) returns (n: nat)
    requires Ready(t) && Expired(t, env)
    ensures t.snd.slist != [] && n <= HeadSize(t)
    ensures var t' := NotifyClock(t, env);
            && (if t'.state == Closed then t'.sent == t.sent
                else Resent(t, t', env, n) && |t'.sent| == |t.sent| + 1 && BackedOff(t, t', env) && t'.state == t.state)
            && (Exhausted(t) || env.write(t.calls) == Fail ==> t'.state == Closed)
            && (!Exhausted(t) && env.write(t.calls) == Success ==>
                  t'.state != Closed && n == HeadSize(t) && t'.cong.mss == t.cong.mss)
  {
    hide ResendHead, SendOk, Fits, CongestionOk, TimeDiff;
    HeadOk(t);
    n := HeadResent(t, env);
    var r := ClockRetransmit(t, env);
    if r.ok {
      RtoBounds(r.t);
      NotDue(env.clock, r.t.cong.rto);
    }
  }

  lemma RtoBounds(t: Tcb)
    requires Ready(t)
    ensures 0 < t.cong.rto < TWO31
  {
  }

  /** A packet without data that tells the current acknowledgement and window. */
  function Bare(t: Tcb, env: Env, sn: nat): Packet {
    Packet(t.conv, sn, t.rcv.rcvNxt, false, false, t.rcv.rcvWnd % TWO16, Now(env), t.tsRecent, [])
  }

  /** The packets handed over once the write of one more was tried. */
  function Tried(t: Tcb, env: Env, sn: nat): seq<Packet> {
    if env.write(t.calls) == Success then t.sent + [Bare(t, env, sn)] else t.sent
  }

  /** The window is closed and nothing was sent for a timeout. */
  ghost predicate ProbeDue(t: Tcb, env: Env)
    requires Ready(t)
  {
    t.snd.sndWnd == 0 && TimeDiff(U32(t.lastSend + t.cong.rto), Now(env)) <= 0
  }

  /** A delayed acknowledgement has waited for 100 ms. */
  ghost predicate AckDue(t: Tcb, env: Env)
    requires Ready(t)
  {
    t.tAck != 0 && TimeDiff(U32(t.tAck + 100), Now(env)) <= 0
  }

  /** While the timer has not run out nothing is resent. A closed window is probed with the
      last position, unless the peer was silent for 15 s, which closes the connection; an
      acknowledgement that is due is sent; otherwise nothing changes. */
  lemma ClockWithoutTimer(t: Tcb, env: Env)
    requires Ready(t) && !Expired(t, env)
    ensures var t' := NotifyClock(t, env);
            if ProbeDue(t, env) then
              if TimeDiff(Now(env), t.lastRecv) >= 15000 then t'.state == Closed && t'.sent == t.sent
              else
                && t'.state == t.state && t'.sent == Tried(t, env, U32(t.snd.sndNxt - 1)) && t'.tAck == 0
                && t'.lastSend == Now(env) && t'.cong == t.cong.(rto := Min(60000, 2 * t.cong.rto))
            else if AckDue(t, env) then
              t'.sent == Tried(t, env, t.snd.sndNxt) && t'.tAck == 0 && t'.state == t.state && t'.cong == t.cong
            else t' == t
  {
    hide SendOk, Fits, CongestionOk, TimeDiff;
  }

  // ---------------------------------------------------------------------
  // Sending all that the window allows

  /** Every write succeeds. */
  ghost predicate Working(env: Env) {
    forall k :: env.write(k) == Success
  }

  /** A clock reading with which every write succeeds. */
  function Calm(clock: nat): (env: Env)
    ensures Working(env)
  {
    Env(clock, _ => Success)
  }

  function Flight(t: Tcb): int {
    t.snd.sndNxt - t.snd.sndUna
  }

  function Unsent(t: Tcb): int {
    t.snd.End() - t.snd.sndNxt
  }

  /** The smaller of the peer's window and the congestion window, the latter with up to two
      segments more for the first duplicates. */
  function Window(t: Tcb): nat {
    var extra := if t.cong.dupAcks == 1 || t.cong.dupAcks == 2 then t.cong.dupAcks * t.cong.mss else 0;
    Min(t.snd.sndWnd, U32(t.cong.cwnd + extra))
  }

  function Usable(t: Tcb): int {
    Max(0, Window(t) - Flight(t))
  }

  /** All is sent, or so little of the window is usable that using it would be silly. */
  predicate Waiting(t: Tcb) {
    Unsent(t) == 0 || Usable(t) == 0 || (Usable(t) < Min(Unsent(t), t.cong.mss) && 4 * Usable(t) < Window(t))
  }

  /** A part of a segment waits behind data in flight. */
  predicate Held(t: Tcb) {
    !Waiting(t) && Flight(t) > 0 && (Unsent(t) < t.cong.mss || Usable(t) < t.cong.mss)
  }

  lemma AvailableIs(t: Tcb)
    requires Ready(t)
    ensures Available(t) == 0 <==> Waiting(t)
    ensures !Waiting(t) ==> Available(t) == Min(Min(Unsent(t), Usable(t)), t.cong.mss)
  {
    hide SendOk, Fits;
    QueueBounds(t);
    Word(t.cong.cwnd);
  }

  lemma Word(x: nat)
    requires x < TWO32
    ensures U32(x) == x
  {
  }

  lemma QueueBounds(t: Tcb)
    requires Ready(t)
    ensures 0 <= Flight(t) && 0 <= Unsent(t) && Flight(t) + Unsent(t) == |t.snd.sbuf|
    ensures t.snd.sndUna <= t.snd.sndNxt <= t.snd.End() < TWO32
  {
  }

  /** The packets carry the queue from position `from` to `to`, in order. */
  ghost predicate InOrder(ps: seq<Packet>, s: Sender, from: nat, to: nat, mss: nat)
    decreases |ps|
  {
    if ps == [] then from == to
    else
      && ps[0].sn == from && 0 < |ps[0].data| <= mss
      && s.sndUna <= from && from - s.sndUna + |ps[0].data| <= |s.sbuf|
      && ps[0].data == s.sbuf[from - s.sndUna..from - s.sndUna + |ps[0].data|]
      && InOrder(ps[1..], s, from + |ps[0].data|, to, mss)
  }

  /** The packet that carries the `n` bytes of the queue from position `sn` on. */
  function Slice(t: Tcb, env: Env, sn: nat, ctl: bool, n: nat): Packet
    requires t.snd.sndUna <= sn && sn - t.snd.sndUna + n <= |t.snd.sbuf|
  {
    Packet(t.conv, sn, t.rcv.rcvNxt, ctl, false, t.rcv.rcvWnd % TWO16, Now(env), t.tsRecent,
           t.snd.sbuf[sn - t.snd.sndUna..sn - t.snd.sndUna + n])
  }

  lemma NewSegmentSent(t: Tcb, env: Env, k: nat)
    requires Ready(t) && Working(env) && k < |t.snd.slist|
    requires var seg := t.snd.slist[k]; seg.xmit == 0 && seg.sn == t.snd.sndNxt && 0 < seg.len <= t.cong.mss
    ensures var seg := t.snd.slist[k];
            && MssOk(t.cong) && t.snd.sndUna <= seg.sn && seg.End() <= t.snd.End()
            && var r := Transmit(t, env, k);
               && r.ok && r.t.sent == t.sent + [Slice(t, env, seg.sn, seg.ctrl, seg.len)] && r.t.cong == t.cong
               && r.t.tAck == 0 && r.t.lastSend == Now(env) && r.t.snd.sndNxt == t.snd.sndNxt + seg.len
  {
    hide WriteSegment, RecordSent, Fits, Tiles, SegmentsOk, NonEmpty, LevelOk;
    var seg := t.snd.slist[k];
    SegmentInQueue(t.snd, k);
    WriteSegmentEffect(t, env, seg, seg.len);
    WrittenAtOnce(t, env, seg, seg.len);
    RecordedNext(t.snd, k);
    var w := WriteSegment(t, env, seg, seg.len);
    assert w.t.sent == t.sent + [w.t.sent[|t.sent|]];
  }

  /** One turn of the loop hands over one packet. */
  lemma NextSent(t: Tcb, env: Env) returns (p: Packet)
    requires Ready(t) && Available(t) > 0 && Working(env)
    ensures var r := SendNext(t, env);
            && r.ok && r.t.sent == t.sent + [p] && r.t.cong == t.cong && r.t.tAck == 0 && r.t.lastSend == Now(env)
            && p.sn == t.snd.sndNxt && 0 < |p.data| <= Available(t)
            && p.sn - t.snd.sndUna + |p.data| <= |t.snd.sbuf|
            && p.data == t.snd.sbuf[p.sn - t.snd.sndUna..p.sn - t.snd.sndUna + |p.data|]
            && r.t.snd.sndNxt == t.snd.sndNxt + |p.data|
  {
    hide Transmit, Available, CutUnsent, Fits, SendOk, CongestionOk, NewPackets, KeepsBoundaries;
    QueueBounds(t);
    AvailableFits(t);
    AvailableSmall(t);
    CutUnsentKeeps(t, Available(t), env);
    CutSame(t, Available(t));
    var t1 := CutUnsent(t, Available(t));
    var k := FirstUnsent(t.snd.slist);
    NewSegmentSent(t1, env, k);
    var seg := t1.snd.slist[k];
    p := Slice(t1, env, seg.sn, seg.ctrl, seg.len);
  }

  lemma AvailableSmall(t: Tcb)
    requires Ready(t)
    ensures Available(t) <= t.cong.mss && MssOk(t.cong)
  {
  }

  lemma CutSame(t: Tcb, n: nat)
    requires FirstUnsent(t.snd.slist) < |t.snd.slist|
    ensures CutUnsent(t, n) == t.(snd := t.snd.(slist := CutUnsent(t, n).snd.slist))
  {
  }

  lemma RecordedNext(s: Sender, k: nat)
    requires SendOk(s) && k < |s.slist| && s.slist[k].xmit == 0 && s.slist[k].sn == s.sndNxt && 0 < s.slist[k].len
    ensures RecordSent(s, k, s.slist[k].len).sndNxt == s.sndNxt + s.slist[k].len
  {
    RecordSentKeeps(s, k, s.slist[k].len);
  }

  /** What becomes of an acknowledgement that is owed when no data goes out: it is sent,
      or remembered for later. Behind data that is held back it is forgotten. */
  ghost predicate Owed(t: Tcb, t': Tcb, env: Env, sflags: SendFlags) {
    if Held(t) || sflags == NoAck then t'.sent == t.sent && t'.tAck == t.tAck
    else if sflags == ImmediateAck || t.tAck != 0 then
      t'.sent == t.sent + [Bare(t, env, t.snd.sndNxt)] && t'.tAck == 0
    else t'.sent == t.sent && t'.tAck == Now(env)
  }

  /** The outcome of the loop when it hands over `ps`. */
  ghost predicate Sends(t: Tcb, t': Tcb, env: Env, sflags: SendFlags, ps: seq<Packet>) {
    && InOrder(ps, t.snd, t.snd.sndNxt, t'.snd.sndNxt, t.cong.mss) && t'.cong == t.cong
    && (Waiting(t') || Held(t'))
    && (ps == [] <==> Waiting(t) || Held(t))
    && (ps == [] ==> Owed(t, t', env, sflags) && t'.lastSend == t.lastSend)
    && (ps != [] ==> t'.sent == t.sent + ps && t'.tAck == 0 && t'.lastSend == Now(env))
  }

  lemma {:induction false} LoopSends(t: Tcb, env: Env, sflags: SendFlags) returns (ps: seq<Packet>)
    requires Ready(t) && Working(env)
    ensures Sends(t, SendLoop(t, env, sflags), env, sflags, ps)
    decreases t.snd.End() - t.snd.sndNxt
  {
    hide SendNext, Available, Waiting, Fits, SendOk, CongestionOk, NewPackets, Sends, KeepsBoundaries;
    AvailableIs(t);
    QueueBounds(t);
    if Waiting(t) || Held(t) {
      ps := [];
      WaitingStays(t, env, sflags);
    } else {
      var p := NextSent(t, env);
      var r := SendNext(t, env);
      var rest := LoopSends(r.t, env, NoAck);
      ps := [p] + rest;
      TurnThenLoop(t, r.t, SendLoop(r.t, env, NoAck), env, sflags, p, rest);
    }
  }

  lemma TurnThenLoop(t: Tcb, t1: Tcb, t': Tcb, env: Env, sflags: SendFlags, p: Packet, rest: seq<Packet>)
    requires Sends(t1, t', env, NoAck, rest) && !Waiting(t) && !Held(t)
    requires t1.sent == t.sent + [p] && t1.cong == t.cong && t1.tAck == 0 && t1.lastSend == Now(env)
    requires p.sn == t.snd.sndNxt && 0 < |p.data| <= t.cong.mss && t.snd.sndUna <= p.sn
    requires p.sn - t.snd.sndUna + |p.data| <= |t.snd.sbuf|
    requires p.data == t.snd.sbuf[p.sn - t.snd.sndUna..p.sn - t.snd.sndUna + |p.data|]
    requires t1.snd.sndNxt == t.snd.sndNxt + |p.data| && t1.snd.sbuf == t.snd.sbuf && t1.snd.sndUna == t.snd.sndUna
    ensures Sends(t, t', env, sflags, [p] + rest)
  {
    hide Waiting;
    var ps := [p] + rest;
    assert ps[1..] == rest;
    InOrderOf(rest, t1.snd, t.snd, t1.snd.sndNxt, t'.snd.sndNxt, t.cong.mss);
    assert t.sent + [p] + rest == t.sent + ps;
  }

  lemma SameRoom(t: Tcb, t': Tcb)
    requires t'.snd.sndUna == t.snd.sndUna && t'.snd.sndNxt == t.snd.sndNxt && t'.snd.sbuf == t.snd.sbuf
    requires t'.snd.sndWnd == t.snd.sndWnd && t'.cong == t.cong
    ensures (Waiting(t') <==> Waiting(t)) && (Held(t') <==> Held(t))
  {
  }

  lemma WaitingStays(t: Tcb, env: Env, sflags: SendFlags)
    requires Ready(t) && Working(env) && (Waiting(t) || Held(t))
    ensures Sends(t, SendLoop(t, env, sflags), env, sflags, [])
  {
    hide SendNext, Available, Waiting, Fits, SendOk, CongestionOk, NewPackets;
    AvailableIs(t);
    SameRoom(t, SendLoop(t, env, sflags));
  }

  lemma {:induction false} InOrderOf(ps: seq<Packet>, s: Sender, s': Sender, from: nat, to: nat, mss: nat)
    requires InOrder(ps, s, from, to, mss) && s'.sbuf == s.sbuf && s'.sndUna == s.sndUna
    ensures InOrder(ps, s', from, to, mss)
    decreases |ps|
  {
    if ps != [] {
      InOrderOf(ps[1..], s, s', from + |ps[0].data|, to, mss);
    }
  }

  /** The state in which sending starts: after idling the window is one segment. */
  ghost function Rested(t: Tcb, env: Env): (r: Tcb)
    requires Ready(t)
    ensures Ready(r)
  {
    if TimeDiff(Now(env), t.lastSend) > t.cong.rto then t.(cong := t.cong.(cwnd := t.cong.mss)) else t
  }

  /** While writes succeed, sending hands over the queue in order until the rest has to wait
      for the window or for a full segment. It hands over no data exactly if that is so from
      the start; then the acknowledgement owed is paid unless data is held back. */
  lemma SendsAll(t: Tcb, env: Env, sflags: SendFlags) returns (ps: seq<Packet>)
    requires Ready(t) && Working(env)
    ensures Sends(Rested(t, env), AttemptSend(t, env, sflags), env, sflags, ps)
  {
    hide SendLoop, Sends, SendOk, Fits, CongestionOk, TimeDiff;
    ps := LoopSends(Rested(t, env), env, sflags);
  }

  // ---------------------------------------------------------------------
  // Smaller segments

  /** The segment size of a level of the table. */
  function SizeAt(level: nat): int
    requires level <= 9
  {
    PACKET_MAXIMUMS[level] - PACKET_OVERHEAD
  }

  /** `next` is the first level after `level` whose segments are shorter than `n`, or the end
      of the table. */
  predicate NextLevel(level: nat, n: nat, next: nat) {
    && level < next <= 10 && (next <= 9 ==> SizeAt(next) < n)
    && forall l :: level < l < next ==> SizeAt(l) >= n
  }

  lemma {:induction false} ReducesTo(c: Congestion, n: nat, next: nat)
    requires c.msslevel <= 9 && NextLevel(c.msslevel, n, next)
    ensures var r := ReduceMss(c, n);
            && (r.1 <==> next <= 9)
            && (r.1 ==> r.0.msslevel == next && r.0.mss == SizeAt(next) && r.0.cwnd == 2 * r.0.mss)
    decreases 9 - c.msslevel
  {
    if c.msslevel < 9 && next > c.msslevel + 1 {
      assert SizeAt(c.msslevel + 1) >= n;
      var mss := SizeAt(c.msslevel + 1);
      ReducesTo(c.(msslevel := c.msslevel + 1, mss := mss, cwnd := 2 * mss), n, next);
    }
  }

  /** The socket after a packet was found too large. */
  function Shrunk(t: Tcb, n: nat): Tcb
    requires t.cong.msslevel <= 9
  {
    t.(calls := t.calls + 1, tsLastAck := t.rcv.rcvNxt, cong := ReduceMss(t.cong, n).0)
  }

  lemma FoundTooLarge(t: Tcb, env: Env, seg: SSegment, n: nat)
    requires t.cong.msslevel <= 9 && HEADER_SIZE + n <= MAX_PACKET
    requires t.snd.sndUna <= seg.sn && seg.sn - t.snd.sndUna + n <= |t.snd.sbuf|
    requires env.write(t.calls) == TooLarge
    ensures var w := WriteSegment(t, env, seg, n);
            if ReduceMss(t.cong, n).1 then w == WriteSegment(Shrunk(t, n), env, seg, ReduceMss(t.cong, n).0.mss)
            else !w.ok
  {
    hide ReduceMss;
  }

  lemma TakenAtOnce(t: Tcb, env: Env, seg: SSegment, n: nat)
    requires t.cong.msslevel <= 9 && HEADER_SIZE + n <= MAX_PACKET
    requires t.snd.sndUna <= seg.sn && seg.sn - t.snd.sndUna + n <= |t.snd.sbuf|
    requires env.write(t.calls) == Success
    ensures var w := WriteSegment(t, env, seg, n); w.ok && w.n == n && w.t.cong == t.cong
  {
  }

  /** The levels of the table go down. */
  lemma LevelIs(level: nat, n: nat, next: nat)
    requires NextLevel(level, n, next)
    ensures level < next <= 10
    ensures next <= 9 ==> 0 < SizeAt(next) < n && NextLevel(next, SizeAt(next), next + 1)
  {
  }

  /** The level for an advised size is the first one of the table that does not exceed it, or
      the last one. */
  lemma {:induction false} LevelFits(mtu: nat, level: nat)
    requires level <= 9
    ensures var r := MssLevel(mtu, level);
            && (r < 9 ==> PACKET_MAXIMUMS[r] <= mtu)
            && forall l :: level <= l < r ==> PACKET_MAXIMUMS[l] > mtu
    decreases 9 - level
  {
    if level < 9 && PACKET_MAXIMUMS[level] > mtu {
      LevelFits(mtu, level + 1);
    }
  }

  /** A segment that the network finds too large `k` times is offered in the next smaller size
      of the table each time, and is sent in the size that is taken; it fails if and only if
      the table is at its end before. */
  lemma {:induction false} OfferedSmaller(t: Tcb, env: Env, seg: SSegment, n: nat, next: nat, k: nat)
    requires t.cong.msslevel <= 9 && HEADER_SIZE + n <= MAX_PACKET && NextLevel(t.cong.msslevel, n, next)
    requires t.snd.sndUna <= seg.sn && seg.sn - t.snd.sndUna + n <= |t.snd.sbuf|
    requires forall i :: t.calls <= i < t.calls + k ==> env.write(i) == TooLarge
    requires env.write(t.calls + k) == Success
    ensures var w := WriteSegment(t, env, seg, n);
            && (w.ok <==> k == 0 || next + k <= 10)
            && (w.ok && k == 0 ==> w.n == n && w.t.cong == t.cong)
            && (w.ok && k > 0 ==> w.n == w.t.cong.mss == SizeAt(next + k - 1) && w.t.cong.msslevel == next + k - 1)
    decreases k
  {
    hide ReduceMss, WriteSegment, SizeAt, NextLevel;
    if k == 0 {
      TakenAtOnce(t, env, seg, n);
    } else {
      FoundTooLarge(t, env, seg, n);
      ReducesTo(t.cong, n, next);
      LevelIs(t.cong.msslevel, n, next);
      if next <= 9 {
        var u := Shrunk(t, n);
        assert u.calls + (k - 1) == t.calls + k;
        OfferedSmaller(u, env, seg, u.cong.mss, next + 1, k - 1);
      }
    }
  }

  // ---------------------------------------------------------------------
  // The state of the connection

  /** The packet is looked at: it belongs to the conversation, resets nothing and has no
      unknown control byte. */
  predicate Heeded(t: Tcb, p: Packet) {
    p.conv == t.conv && !p.rst && (p.ctl ==> p.data != [] && p.data[0] == CTL_CONNECT)
  }

  /** The state that a packet leads to unless it breaks the connection. The connecting side
      opens on the connect byte, the listening side on the acknowledgement of its own. */
  function NextState(t: Tcb, p: Packet): ConnState {
    match t.state
    case Listen => if p.ctl then SynReceived else Listen
    case SynSent => if p.ctl then Established else SynSent
    case SynReceived => if !p.ctl && t.snd.sndUna < p.ack <= t.snd.sndNxt then Established else SynReceived
    case Established => Established
    case Closed => Closed
  }

  /** The packet asks for the first segment again: it is the third duplicate, or it
      acknowledges only part of what was in flight when recovery began. */
  predicate AsksAgain(t: Tcb, p: Packet) {
    || (t.snd.sndUna < p.ack <= t.snd.sndNxt && t.cong.dupAcks >= 3 && p.ack < t.cong.recover)
    || (p.ack == t.snd.sndUna < t.snd.sndNxt && p.data == [] && t.cong.dupAcks == 2)
  }

  /** The segment at position `sn` has been sent as often as it may be. */
  ghost predicate SpentAt(t: Tcb, sn: nat, state: ConnState) {
    exists e :: e in t.snd.slist && e.sn == sn && e.xmit >= if state == Established then 15 else 30
  }

  /** The control block in which the acknowledgement of a packet is looked at. */
  function AtAck(t: Tcb, p: Packet, env: Env): Tcb
    requires Ready(t)
  {
    var t1 := t.(lastRecv := Now(env));
    Timestamp(if p.ctl then Control(t1) else t1, p)
  }

  lemma AtAckKeeps(t: Tcb, p: Packet, env: Env)
    requires Ready(t) && Acceptable(t, p, env)
    ensures Ready(AtAck(t, p, env)) && Acceptable(AtAck(t, p, env), p, env)
  {
    hide Control, Timestamp, Fits, SendOk, CongestionOk;
    ControlKeeps(t.(lastRecv := Now(env)), p, env);
  }

  /** The control block in which sending is attempted after a packet, if its
      acknowledgement does not break the connection. */
  ghost function AtSend(t: Tcb, p: Packet, env: Env): (r: Tcb)
    requires Ready(t) && Acceptable(t, p, env)
    ensures Ready(r)
  {
    AtAckKeeps(t, p, env);
    var t2 := AtAck(t, p, env);
    var a := AckStage(t2, p, env);
    AdjustMtuOk(a.t.cong, a.t.cong.mtuAdvise);
    ReceiveDataKeeps(Establish(t2, p, a.t), p);
    ReceiveData(Establish(t2, p, a.t), p)
  }

  lemma AtAckIs(t: Tcb, p: Packet, env: Env)
    requires Ready(t)
    ensures var r := AtAck(t, p, env);
            && r.snd.sndUna == t.snd.sndUna && r.snd.sndNxt == t.snd.sndNxt && r.cong.dupAcks == t.cong.dupAcks
            && r.cong.recover == t.cong.recover && r.rcv == t.rcv && r.sent == t.sent && r.calls == t.calls
            && r.tAck == t.tAck && r.conv == t.conv && r.lastSend == t.lastSend && r.shutdown == t.shutdown
            && r.tsRecent == (if p.sn <= t.tsLastAck < U32(p.sn + |p.data|) then p.tsval else t.tsRecent)
            && (t.state != Listen ==> r.snd == t.snd) && (t.state == Established ==> r.cong == t.cong)
            && r.state == (if t.state == Listen && p.ctl then SynReceived
                           else if t.state == SynSent && p.ctl then Established else t.state)
  {
    hide SendOk, Fits, CongestionOk;
  }

  lemma StageResends(t: Tcb, p: Packet, env: Env)
    requires Ready(t) && Acceptable(t, p, env)
    ensures !AsksAgain(t, p) ==> AckStage(t, p, env).ok && AckStage(t, p, env).t.sent == t.sent
    ensures AsksAgain(t, p) ==>
              var t1 := AckQueue(t, p, env);
              var c := if p.ack == t.snd.sndUna then t1.cong.(dupAcks := 3) else t1.cong;
              var r := ResendHead(t1.(cong := c), env);
              AckStage(t, p, env).ok == r.ok && AckStage(t, p, env).t.sent == r.t.sent
  {
    hide ResendHead, SendOk, Fits, MssOk, LevelOk, Emits, WindowGrowth, UpdateRtt;
    QueueBounds(t);
    AckedCong(t, p, env);
  }

  lemma AckedCong(t: Tcb, p: Packet, env: Env)
    requires Ready(t) && Acceptable(t, p, env)
    ensures var t1 := AckQueue(t, p, env);
            && t1.cong.dupAcks == t.cong.dupAcks && t1.cong.recover == t.cong.recover && t1.cong.mss == t.cong.mss
            && t1.cong.ssthresh == t.cong.ssthresh && t1.cong.cwnd == t.cong.cwnd
            && t1.snd.sndUna == (if Valuable(t, p) then p.ack else t.snd.sndUna)
  {
    hide SendOk, Fits, CongestionOk;
  }

  /** A packet that is looked at either leads to the next state or closes the connection,
      which only a failed resending does. */
  lemma StateAfter(t: Tcb, p: Packet, env: Env)
    requires Ready(t) && Acceptable(t, p, env)
    ensures var t' := Process(t, p, env).0;
            && (p.conv != t.conv ==> t' == t)
            && (p.conv == t.conv && p.rst ==> t'.state == Closed)
            && (p.conv == t.conv && !p.rst && !Heeded(t, p) ==> t'.state == t.state && t'.sent == t.sent)
            && (Heeded(t, p) && t'.state != Closed ==> t'.state == NextState(t, p))
            && (Heeded(t, p) && t'.state == Closed ==> AsksAgain(t, p) && t'.sent == t.sent)
            && (Process(t, p, env).1 <==> Heeded(t, p) && t'.state != Closed)
  {
    hide AckStage, AckQueue, ReceiveData, AttemptSend, AckFlags, SendOk, Fits, CongestionOk, NewPackets;
    if Heeded(t, p) {
      HeededState(t, p, env);
    }
  }

  lemma HeededState(t: Tcb, p: Packet, env: Env)
    requires Ready(t) && Acceptable(t, p, env) && Heeded(t, p)
    ensures var t' := Process(t, p, env).0;
            && (if Process(t, p, env).1 then t'.state == NextState(t, p)
                else t'.state == Closed && AsksAgain(t, p) && t'.sent == t.sent)
  {
    hide AckStage, ReceiveData, AttemptSend, AckFlags, SendOk, Fits, CongestionOk, NewPackets, AtAck, AtSend,
      KeepsBoundaries, Process;
    ProcessIs(t, p, env);
    AtAckKeeps(t, p, env);
    AtAckIs(t, p, env);
    var t2 := AtAck(t, p, env);
    StageState(t2, p, env);
    if AckStage(t2, p, env).ok {
      AtSendIs(t, p, env);
    } else {
      FailedResend(t2, p, env);
    }
  }

  /** The stages of a packet that is looked at. */
  lemma ProcessIs(t: Tcb, p: Packet, env: Env)
    requires Ready(t) && Acceptable(t, p, env) && Heeded(t, p)
    ensures Ready(AtAck(t, p, env)) && Acceptable(AtAck(t, p, env), p, env)
    ensures var a := AckStage(AtAck(t, p, env), p, env);
            && Process(t, p, env).1 == a.ok
            && Process(t, p, env).0 ==
               if a.ok then AttemptSend(AtSend(t, p, env), env, AckFlags(t, p)) else Closedown(a.t)
  {
    hide AckStage, ReceiveData, AttemptSend, AckFlags, SendOk, Shape, SegmentFits, CongestionOk, Control, Timestamp,
      Establish, NewPackets, KeepsBoundaries;
    AtAckKeeps(t, p, env);
    var t2 := AtAck(t, p, env);
    StagesSame(t, p, env);
    SameFlags(t, Establish(t2, p, AckStage(t2, p, env).t), p);
  }

  /** The data half looks at nothing that the stages before it change. */
  lemma StagesSame(t: Tcb, p: Packet, env: Env)
    requires Ready(t) && Acceptable(t, p, env)
    ensures Ready(AtAck(t, p, env)) && Acceptable(AtAck(t, p, env), p, env)
    ensures var t3 := Establish(AtAck(t, p, env), p, AckStage(AtAck(t, p, env), p, env).t);
            t3.rcv == t.rcv && t3.shutdown == t.shutdown
  {
    hide AckStage, SendOk, Fits, CongestionOk, AtAck, NewPackets, KeepsBoundaries;
    AtAckKeeps(t, p, env);
    AtAckIs(t, p, env);
  }

  lemma SameFlags(t: Tcb, t': Tcb, p: Packet)
    requires Shape(t.rcv) && t'.rcv == t.rcv && t'.shutdown == t.shutdown && p.sn + |p.data| < TWO32
    ensures AckFlags(t', p) == AckFlags(t, p) && ReceiveData(t', p).rcv == ReceiveData(t, p).rcv
  {
    hide Store, Trim;
  }

  lemma AtSendIs(t: Tcb, p: Packet, env: Env)
    requires Ready(t) && Acceptable(t, p, env)
    ensures Ready(AtAck(t, p, env)) && Acceptable(AtAck(t, p, env), p, env)
    ensures var t2 := AtAck(t, p, env);
            AtSend(t, p, env) == Establish(t2, p, AckStage(t2, p, env).t).(rcv := ReceiveData(t, p).rcv)
  {
    hide AckStage, AckQueue, ReceiveData, AckFlags, SendOk, CongestionOk, NewPackets, AtAck, Establish;
    AtAckKeeps(t, p, env);
    var t2 := AtAck(t, p, env);
    StagesSame(t, p, env);
    var t3 := Establish(t2, p, AckStage(t2, p, env).t);
    SameFlags(t, t3, p);
    ReceivedState(t3, p);
  }

  lemma FailedResend(t: Tcb, p: Packet, env: Env)
    requires Ready(t) && Acceptable(t, p, env) && !AckStage(t, p, env).ok
    ensures AsksAgain(t, p) && AckStage(t, p, env).t.sent == t.sent
  {
    hide AckStage, ResendHead, SendOk, Fits;
    QueueBounds(t);
    StageResends(t, p, env);
    AckedCong(t, p, env);
    var t1 := AckQueue(t, p, env);
    var n := HeadResent(t1.(cong := if p.ack == t.snd.sndUna then t1.cong.(dupAcks := 3) else t1.cong), env);
  }

  lemma StageState(t: Tcb, p: Packet, env: Env)
    requires Ready(t) && Acceptable(t, p, env)
    ensures var a := AckStage(t, p, env); a.t.state == t.state && a.t.rcv == t.rcv && Ready(a.t)
  {
    hide AckStage, SendOk, Fits, CongestionOk, NewPackets;
  }

  lemma ReceivedState(t: Tcb, p: Packet)
    requires Shape(t.rcv) && p.sn + |p.data| < TWO32
    ensures ReceiveData(t, p) == t.(rcv := ReceiveData(t, p).rcv)
  {
  }

  // ---------------------------------------------------------------------
  // Resending on acknowledgements

  /** On a boundary whole segments are freed. */
  lemma {:induction false} FreesPrefix(l: seq<SSegment>, largest: nat, n: nat, from: nat, to: nat) returns (k: nat)
    requires Tiles(l, from, to) && Boundary(l, from + n) && n <= TotalLen(l)
    ensures k <= |l| && FreeSegments(l, largest, n).0 == l[k..]
    decreases |l|
  {
    if n == 0 {
      k := 0;
    } else {
      assert l[0] in l;
      forall e | e in l[1..] ensures e in l {
      }
      k := FreesPrefix(l[1..], Max(largest, l[0].len), n - l[0].len, l[0].End(), to);
      k := k + 1;
    }
  }

  /** No two segments with data start at the same position. */
  lemma OneAt(l: seq<SSegment>, from: nat, to: nat, d: SSegment, e: SSegment)
    requires Tiles(l, from, to) && d in l && e in l && d.sn == e.sn && d.len > 0 && e.len > 0
    ensures d == e
  {
    var i :| 0 <= i < |l| && l[i] == d;
    var j :| 0 <= j < |l| && l[j] == e;
    Neighbours(l, from, to, i);
    Neighbours(l, from, to, j);
  }

  /** What is resent on an acknowledgement: the segment that starts at its position. */
  lemma AskedHead(t: Tcb, p: Packet, env: Env)
    requires Ready(t) && Acceptable(t, p, env) && AsksAgain(t, p)
    ensures var t1 := AckQueue(t, p, env);
            && t1.snd.sndUna == p.ack < t1.snd.sndNxt && t1.snd.slist != [] && t1.snd.slist[0] in t.snd.slist
            && p.ack - t.snd.sndUna <= |t.snd.sbuf| && t1.snd.sbuf == t.snd.sbuf[p.ack - t.snd.sndUna..]
            && forall state :: SpentAt(t, p.ack, state) <==>
                 t1.snd.slist[0].xmit >= if state == Established then 15 else 30
  {
    hide Fits, CongestionOk, NonEmpty;
    var t1 := AckQueue(t, p, env);
    AckedCong(t, p, env);
    TilesOrdered(t.snd.slist, t.snd.sndUna, t.snd.End());
    var k := 0;
    if Valuable(t, p) {
      k := FreesPrefix(t.snd.slist, t.snd.largest, p.ack - t.snd.sndUna, t.snd.sndUna, t.snd.End());
    }
    HeadOk(t1);
    var h := t1.snd.slist[0];
    assert h == t.snd.slist[k..][0] == t.snd.slist[k];
    forall e | e in t.snd.slist && e.sn == p.ack && e.xmit >= 15 ensures e == h {
      assert SegmentOk(e, t.snd.sndNxt);
      OneAt(t.snd.slist, t.snd.sndUna, t.snd.End(), e, h);
    }
  }

  /** The control block whose first segment is resent. */
  ghost function Asked(t: Tcb, p: Packet, env: Env): (r: Tcb)
    requires Ready(t) && Acceptable(t, p, env)
    ensures Ready(r)
  {
    var t1 := AckQueue(t, p, env);
    if p.ack == t.snd.sndUna then t1.(cong := t1.cong.(dupAcks := 3)) else t1
  }

  lemma AskedIs(t: Tcb, p: Packet, env: Env)
    requires Ready(t) && Acceptable(t, p, env) && AsksAgain(t, p)
    ensures var r := Asked(t, p, env);
            && r.snd == AckQueue(t, p, env).snd && r.snd.sndUna == p.ack < r.snd.sndNxt == t.snd.sndNxt
            && r.state == t.state && r.sent == t.sent && r.rcv == t.rcv && r.calls == t.calls
            && r.conv == t.conv && r.tsRecent == t.tsRecent
            && r.cong.mss == t.cong.mss && r.cong.cwnd == t.cong.cwnd && r.cong.ssthresh == t.cong.ssthresh
            && r.cong.dupAcks == (if p.ack == t.snd.sndUna then 3 else t.cong.dupAcks)
            && r.cong.recover == t.cong.recover && RttOf(r.cong) == RttOf(AckQueue(t, p, env).cong)
  {
    hide AckQueue, SendOk, Fits, CongestionOk;
    AckedCong(t, p, env);
    AskedHead(t, p, env);
  }

  /** The first packet handed over after `t` carries the `n` queued bytes from `ack` on. */
  ghost predicate ResentAt(t: Tcb, t': Tcb, ack: nat, n: nat) {
    && t.snd.sndUna <= ack && 0 < n && ack - t.snd.sndUna + n <= |t.snd.sbuf|
    && |t.sent| < |t'.sent| && t'.sent[..|t.sent|] == t.sent
    && var p := t'.sent[|t.sent|];
       && p.sn == ack && p.data == t.snd.sbuf[ack - t.snd.sndUna..ack - t.snd.sndUna + n]
       && (p.ctl <==> ack == 0)
  }

  lemma StageResent(t: Tcb, p: Packet, env: Env) returns (n: nat)
    requires Ready(t) && Acceptable(t, p, env) && AsksAgain(t, p)
    ensures var a := AckStage(t, p, env);
            && (a.ok ==> ResentAt(t, a.t, p.ack, n) && |a.t.sent| == |t.sent| + 1)
            && (SpentAt(t, p.ack, t.state) ==> !a.ok)
            && (!SpentAt(t, p.ack, t.state) && env.write(t.calls) == Success ==> a.ok)
  {
    hide AckStage, ResendHead, AckQueue, SendOk, Fits, CongestionOk, SpentAt;
    StageResends(t, p, env);
    AskedHead(t, p, env);
    AskedIs(t, p, env);
    n := HeadResent(Asked(t, p, env), env);
  }

  /** A packet that asks for it makes the socket resend from the acknowledged position, or
      closes the connection; while writes succeed it closes exactly if that segment has been
      sent too often. Any other packet makes it send only what was never sent. */
  lemma AskedResends(t: Tcb, p: Packet, env: Env) returns (n: nat)
    requires Ready(t) && Acceptable(t, p, env) && Heeded(t, p)
    ensures var t' := Process(t, p, env).0;
            && (AsksAgain(t, p) && t'.state != Closed ==> ResentAt(t, t', p.ack, n))
            && (!AsksAgain(t, p) ==> t'.state != Closed)
            && (AsksAgain(t, p) && env.write(t.calls) == Success ==>
                  (t'.state == Closed <==> SpentAt(t, p.ack, if p.ctl then NextState(t, p) else t.state)))
  {
    hide AckStage, AttemptSend, AckFlags, SendOk, CongestionOk, AtAck, AtSend, Process, SpentAt,
      NewPackets, Emits, ResentAt, ReceiveData, AsksAgain;
    n := 0;
    ProcessIs(t, p, env);
    AtAckIs(t, p, env);
    SameAsks(t, AtAck(t, p, env), p);
    HeededState(t, p, env);
    var t2 := AtAck(t, p, env);
    if AsksAgain(t, p) {
      NotListening(t, p);
      n := StageResent(t2, p, env);
      SameSpent(t, t2, p.ack, t2.state);
      if AckStage(t2, p, env).ok {
        AtSendIs(t, p, env);
        StillResent(t, t2, AckStage(t2, p, env).t, AtSend(t, p, env), env, AckFlags(t, p), p.ack, n);
      }
    }
  }

  /** What was handed over stays handed over. */
  lemma StillResent(t: Tcb, t2: Tcb, a: Tcb, b: Tcb, env: Env, sflags: SendFlags, ack: nat, n: nat)
    requires ResentAt(t2, a, ack, n) && t2.snd == t.snd && t2.sent == t.sent && Ready(b) && b.sent == a.sent
    ensures ResentAt(t, AttemptSend(b, env, sflags), ack, n)
  {
    hide AttemptSend, SendOk, Fits, CongestionOk;
    var t' := AttemptSend(b, env, sflags);
    assert t'.sent[..|b.sent|] == b.sent;
    assert t'.sent[|t.sent|] == t'.sent[..|b.sent|][|t.sent|];
    assert t'.sent[..|t.sent|] == t'.sent[..|b.sent|][..|t.sent|];
  }

  lemma SameSpent(t: Tcb, t': Tcb, sn: nat, state: ConnState)
    requires t'.snd.slist == t.snd.slist
    ensures SpentAt(t', sn, state) == SpentAt(t, sn, state)
  {
  }

  lemma NotListening(t: Tcb, p: Packet)
    requires Ready(t) && AsksAgain(t, p)
    ensures t.state != Listen
  {
    QueueBounds(t);
  }

  lemma SameAsks(t: Tcb, t': Tcb, p: Packet)
    requires t'.snd.sndUna == t.snd.sndUna && t'.snd.sndNxt == t.snd.sndNxt && t'.cong.dupAcks == t.cong.dupAcks
    requires t'.cong.recover == t.cong.recover
    ensures AsksAgain(t', p) == AsksAgain(t, p)
  {
  }

  // ---------------------------------------------------------------------
  // Congestion control

  /** The congestion window and what goes with it. */
  datatype Windows = Windows(cwnd: nat, ssthresh: nat, dupAcks: nat, recover: nat)

  function WindowsOf(c: Congestion): Windows {
    Windows(c.cwnd, c.ssthresh, c.dupAcks, c.recover)
  }

  /** The estimate of the round-trip time. */
  datatype Rtt = Rtt(srtt: nat, rttvar: nat, rto: nat)

  function RttOf(c: Congestion): Rtt {
    Rtt(c.srtt, c.rttvar, c.rto)
  }

  /** A segment in slow start, a segment per window afterwards. */
  function RenoGrowth(c: Congestion): nat
    requires CongestionOk(c)
  {
    if c.cwnd < c.ssthresh then c.mss else Max(1, c.mss * c.mss / c.cwnd)
  }

  lemma GrowthIs(c: Congestion)
    requires CongestionOk(c)
    ensures WindowGrowth(c) == RenoGrowth(c)
  {
    WindowGrowthBounded(c);
  }

  /** Slow start and congestion avoidance of section 3.1 of RFC 5681, fast retransmit and
      fast recovery of section 3.2, with the partial acknowledgements of RFC 6582, in 32 bits. */
  ghost function Reno(t: Tcb, p: Packet): Windows
    requires Ready(t)
  {
    var c := t.cong;
    var k := WindowsOf(c);
    if t.snd.sndUna < p.ack <= t.snd.sndNxt then
      if c.dupAcks < 3 then
        k.(dupAcks := 0, cwnd := U32(c.cwnd + RenoGrowth(c)))
      else if p.ack >= c.recover then
        k.(dupAcks := 0, cwnd := Min(c.ssthresh, t.snd.sndNxt - p.ack + c.mss))
      else k.(cwnd := U32(c.cwnd + c.mss - Min(p.ack - t.snd.sndUna, c.cwnd)))
    else if p.ack == t.snd.sndUna && p.data == [] then
      if t.snd.sndUna == t.snd.sndNxt then k.(dupAcks := 0)
      else if c.dupAcks == 2 then
        var half := Max((t.snd.sndNxt - t.snd.sndUna) / 2, 2 * c.mss);
        Windows(half + 3 * c.mss, half, 3, t.snd.sndNxt)
      else
        var dups := (c.dupAcks + 1) % 256;
        k.(dupAcks := dups, cwnd := if dups > 3 then U32(c.cwnd + c.mss) else c.cwnd)
    else k
  }

  lemma AskedReno(t: Tcb, p: Packet, env: Env)
    requires Ready(t) && Acceptable(t, p, env) && env.write(t.calls) == Success && AckStage(t, p, env).ok
    requires AsksAgain(t, p)
    ensures var a := AckStage(t, p, env).t;
            && WindowsOf(a.cong) == Reno(t, p) && a.cong.mss == t.cong.mss && a.lastSend == Now(env)
            && RttOf(a.cong) == RttOf(AckQueue(t, p, env).cong)
  {
    hide ResendHead, AckQueue, SendOk, Fits, NewPackets, KeepsBoundaries, LevelOk, RenoGrowth, WindowGrowth;
    QueueBounds(t);
    AckedCong(t, p, env);
    StageResends(t, p, env);
    AskedHead(t, p, env);
    AskedIs(t, p, env);
    var n := HeadResent(Asked(t, p, env), env);
  }

  lemma PlainReno(t: Tcb, p: Packet, env: Env)
    requires Ready(t) && Acceptable(t, p, env) && !AsksAgain(t, p)
    ensures var a := AckStage(t, p, env).t;
            && WindowsOf(a.cong) == Reno(t, p) && a.cong.mss == t.cong.mss && a.lastSend == t.lastSend
            && RttOf(a.cong) == RttOf(AckQueue(t, p, env).cong)
  {
    hide ResendHead, AckQueue, SendOk, Fits, Emits, LevelOk, RenoGrowth, WindowGrowth;
    QueueBounds(t);
    AckedCong(t, p, env);
    GrowthIs(AckQueue(t, p, env).cong);
    SameGrowth(t.cong, AckQueue(t, p, env).cong);
  }

  lemma SameGrowth(c: Congestion, c': Congestion)
    requires CongestionOk(c) && CongestionOk(c') && c'.cwnd == c.cwnd && c'.ssthresh == c.ssthresh && c'.mss == c.mss
    ensures RenoGrowth(c') == RenoGrowth(c)
  {
  }

  /** Estimates so small that no product with them leaves 32 bits. */
  predicate Small(x: nat) {
    x < 0x1000_0000
  }

  /** The estimate after a sample, as in section 2 of RFC 6298: an eighth of the way to the
      sample, a quarter of the way to its deviation, up to rounding, and a timeout of the
      mean and four deviations between a quarter second and a minute. */
  predicate Sampled(e: Rtt, rtt: nat, e': Rtt) {
    Small(e.srtt) && Small(e.rttvar) && Small(rtt) ==>
      && (e.srtt == 0 ==> e'.srtt == rtt && e'.rttvar == rtt / 2)
      && (e.srtt > 0 ==>
            && 0 <= 7 * e.srtt + rtt - 8 * e'.srtt < 8
            && 0 <= 3 * e.rttvar + Abs(rtt - e.srtt) - 4 * e'.rttvar < 4)
      && e'.rto == Min(60000, Max(250, e'.srtt + Max(1, 4 * e'.rttvar)))
  }

  lemma RttSampled(c: Congestion, rtt: nat)
    ensures Sampled(RttOf(c), rtt, RttOf(UpdateRtt(c, rtt)))
  {
  }

  lemma AckSamples(t: Tcb, p: Packet, env: Env)
    requires Ready(t) && Acceptable(t, p, env)
    ensures var c := AckQueue(t, p, env).cong;
            if t.snd.sndUna < p.ack <= t.snd.sndNxt && p.tsecr != 0
            then Sampled(RttOf(t.cong), TimeDiff(Now(env), p.tsecr), RttOf(c))
            else RttOf(c) == RttOf(t.cong)
  {
    hide SendOk, Fits, CongestionOk, UpdateRtt, TimeDiff, Sampled;
    if Valuable(t, p) && p.tsecr != 0 {
      RttSampled(t.cong, TimeDiff(Now(env), p.tsecr));
    }
  }

  /** After a packet on an open connection, while writes succeed, the congestion window is
      that of the standards, or one segment if the socket was idle, and the round-trip time is
      estimated from the echoed timestamps. */
  lemma ReactsAsReno(t: Tcb, p: Packet, env: Env)
    requires Ready(t) && Acceptable(t, p, env) && Heeded(t, p) && t.state == Established && Working(env)
    requires Process(t, p, env).1
    ensures var t' := Process(t, p, env).0;
            var idle := !AsksAgain(t, p) && TimeDiff(Now(env), t.lastSend) > t'.cong.rto;
            && t'.cong.mss == t.cong.mss && t'.cong.rto < TWO32
            && WindowsOf(t'.cong) == (if idle then Reno(t, p).(cwnd := t.cong.mss) else Reno(t, p))
            && (t.snd.sndUna < p.ack <= t.snd.sndNxt && p.tsecr != 0 ==>
                  Sampled(RttOf(t.cong), TimeDiff(Now(env), p.tsecr), RttOf(t'.cong)))
            && (!(t.snd.sndUna < p.ack <= t.snd.sndNxt) || p.tsecr == 0 ==> RttOf(t'.cong) == RttOf(t.cong))
  {
    hide AckStage, AttemptSend, AckFlags, SendOk, AtAck, AtSend, Process, NewPackets, Emits, ReceiveData, AsksAgain,
      Reno, CongestionOk, TimeDiff, Sampled, AckQueue;
    ProcessIs(t, p, env);
    AtAckIs(t, p, env);
    AtSendIs(t, p, env);
    var t2, b := AtAck(t, p, env), AtSend(t, p, env);
    StageState(t2, p, env);
    AckSamples(t2, p, env);
    SameAsks(t, t2, p);
    SameReno(t, t2, p);
    RtoBounds(b);
    AttemptRested(b, env, AckFlags(t, p));
    if AsksAgain(t, p) {
      AskedReno(t2, p, env);
      NoTime(Now(env));
    } else {
      PlainReno(t2, p, env);
    }
  }

  lemma AttemptRested(t: Tcb, env: Env, sflags: SendFlags)
    requires Ready(t) && Working(env)
    ensures AttemptSend(t, env, sflags).cong ==
            if TimeDiff(Now(env), t.lastSend) > t.cong.rto then t.cong.(cwnd := t.cong.mss) else t.cong
  {
    hide AttemptSend, SendOk, Fits, CongestionOk, TimeDiff, Owed, InOrder, Waiting, Held;
    var _ := SendsAll(t, env, sflags);
  }

  lemma NoTime(now: nat)
    requires now < TWO32
    ensures TimeDiff(now, now) == 0
  {
  }

  lemma SameReno(t: Tcb, t': Tcb, p: Packet)
    requires Ready(t) && Ready(t') && t'.snd == t.snd && t'.cong == t.cong
    ensures Reno(t', p) == Reno(t, p)
  {
  }

  // ---------------------------------------------------------------------
  // Acknowledging

  /** The last packet handed over since `t` tells how far `t'` has received. */
  ghost predicate Tells(t: Tcb, t': Tcb) {
    && |t.sent| < |t'.sent|
    && var p := t'.sent[|t'.sent| - 1];
       p.ack == t'.rcv.rcvNxt && p.wnd == t'.rcv.rcvWnd % TWO16
  }

  lemma Pays(t: Tcb, env: Env, sflags: SendFlags)
    requires Ready(t) && Working(env)
    ensures var t' := AttemptSend(t, env, sflags);
            && |t.sent| <= |t'.sent| && t'.rcv == t.rcv
            && (sflags == ImmediateAck || (sflags == DelayedAck && t.tAck != 0) ==> Tells(t, t') || Held(t'))
            && (sflags == DelayedAck ==> Tells(t, t') || Held(t') || t'.tAck == Now(env))
            && (sflags == NoAck ==> forall i :: |t.sent| <= i < |t'.sent| ==> t'.sent[i].data != [])
  {
    hide AttemptSend, SendOk, Fits, CongestionOk, TimeDiff, Waiting, KeepsBoundaries;
    var t0, t' := Rested(t, env), AttemptSend(t, env, sflags);
    var ps := SendsAll(t, env, sflags);
    if ps == [] {
      SameRoom(t0, t');
    } else {
      assert t'.sent[|t'.sent| - 1] == ps[|ps| - 1];
      assert Emitted(t'.sent[|t'.sent| - 1], t', env);
      AllData(ps, t.snd, t.snd.sndNxt, t'.snd.sndNxt, t.cong.mss);
    }
  }

  lemma {:induction false} AllData(ps: seq<Packet>, s: Sender, from: nat, to: nat, mss: nat)
    requires InOrder(ps, s, from, to, mss)
    ensures forall i :: 0 <= i < |ps| ==> ps[i].data != []
    decreases |ps|
  {
    if ps != [] {
      AllData(ps[1..], s, from + |ps[0].data|, to, mss);
      assert forall i :: 1 <= i < |ps| ==> ps[i] == ps[1..][i - 1];
    }
  }

  /** While writes succeed, a packet that is old, early or fills a gap is answered at once
      with the position reached, and one with data at once or later; only data held back for
      a full segment can prevent it. A packet without data at the expected position is
      never answered by another. */
  lemma PacketAnswered(t: Tcb, p: Packet, env: Env)
    requires Ready(t) && Acceptable(t, p, env) && Heeded(t, p) && Working(env) && Process(t, p, env).1
    ensures var t' := Process(t, p, env).0;
            && (p.sn != t.rcv.rcvNxt || t'.rcv.rcvNxt > p.sn + |p.data| ==> Tells(t, t') || Held(t'))
            && (p.data != [] ==> Tells(t, t') || Held(t') || t'.tAck == Now(env))
            && (p.data != [] && t.tAck != 0 && !AsksAgain(t, p) ==> Tells(t, t') || Held(t'))
            && (p.data == [] && p.sn == t.rcv.rcvNxt && !AsksAgain(t, p) ==>
                  forall i :: |t.sent| <= i < |t'.sent| ==> t'.sent[i].data != [])
  {
    hide AckStage, AttemptSend, SendOk, AtAck, AtSend, Process, NewPackets, Emits, AsksAgain, CongestionOk, Held,
      Recovered, ReceiveData;
    ProcessIs(t, p, env);
    AtAckIs(t, p, env);
    AtSendIs(t, p, env);
    var t2, b := AtAck(t, p, env), AtSend(t, p, env);
    SameAsks(t, t2, p);
    StageGrows(t2, p, env);
    Pays(b, env, AckFlags(t, p));
    FilledGap(t, p);
  }

  lemma StageGrows(t: Tcb, p: Packet, env: Env)
    requires Ready(t) && Acceptable(t, p, env)
    ensures var a := AckStage(t, p, env);
            |t.sent| <= |a.t.sent| && (!AsksAgain(t, p) ==> a.t.sent == t.sent && a.t.tAck == t.tAck)
  {
    hide ResendHead, AckQueue, SendOk, Fits, MssOk, LevelOk, WindowGrowth, KeepsBoundaries;
    QueueBounds(t);
    AckedCong(t, p, env);
    StageResends(t, p, env);
  }

  /** More than the packet brought is now in order: saved segments followed. */
  lemma FilledGap(t: Tcb, p: Packet)
    requires Shape(t.rcv) && p.sn + |p.data| < TWO32
    ensures p.sn == t.rcv.rcvNxt && ReceiveData(t, p).rcv.rcvNxt > p.sn + |p.data| ==> Recovered(t, p)
    ensures p.data == [] ==> !Recovered(t, p)
  {
    hide Store;
    var (sn, data) := Trim(t.rcv, p.sn, p.data);
    if data != [] && p.sn == t.rcv.rcvNxt {
      assert sn - p.sn + |data| <= |p.data|;
    }
  }

  /** The socket after a packet that acknowledges nothing new, as far as sending goes. */
  function Offered(t: Tcb, p: Packet): Tcb {
    if p.ack == t.snd.sndUna then t.(snd := t.snd.(sndWnd := p.wnd)) else t
  }

  lemma OfferedReady(t: Tcb, p: Packet)
    requires Ready(t)
    ensures Ready(Offered(t, p))
  {
    hide Fits, CongestionOk, SegmentsOk, Tiles, NonEmpty;
  }

  /** An old or early packet with data that acknowledges nothing new is answered at once if
      and only if the socket holds nothing back: behind a part of a segment that waits for
      data in flight the answer is forgotten. */
  lemma AnsweredAtOnceIff(t: Tcb, p: Packet, env: Env)
    requires Ready(t) && Acceptable(t, p, env) && Heeded(t, p) && t.state == Established && Working(env)
    requires p.sn != t.rcv.rcvNxt && p.data != [] && p.ack <= t.snd.sndUna
    ensures Ready(Offered(t, p))
    ensures Tells(t, Process(t, p, env).0) <==> !Held(Rested(Offered(t, p), env))
    ensures Held(Rested(Offered(t, p), env)) ==> Process(t, p, env).0.sent == t.sent
  {
    hide AckStage, AttemptSend, SendOk, AtAck, AtSend, Process, NewPackets, CongestionOk, Held, ReceiveData, TimeDiff,
      Fits, Waiting, KeepsBoundaries, Sends, Recovered;
    OfferedReady(t, p);
    ProcessIs(t, p, env);
    AtAckIs(t, p, env);
    AtSendIs(t, p, env);
    var t2, b := AtAck(t, p, env), AtSend(t, p, env);
    StageOffered(t2, p, env);
    EstablishSame(t2, p, AckStage(t2, p, env).t);
    PaidAtOnceIff(b, env);
    SameRoom(Rested(Offered(t, p), env), Rested(b, env));
  }

  lemma PaidAtOnceIff(t: Tcb, env: Env)
    requires Ready(t) && Working(env)
    ensures var t' := AttemptSend(t, env, ImmediateAck);
            && (Tells(t, t') <==> !Held(Rested(t, env)))
            && (Held(Rested(t, env)) ==> t'.sent == t.sent)
  {
    hide AttemptSend, SendOk, Fits, CongestionOk, TimeDiff, Waiting, Held, KeepsBoundaries;
    var t0, t' := Rested(t, env), AttemptSend(t, env, ImmediateAck);
    var ps := SendsAll(t, env, ImmediateAck);
    if ps != [] {
      assert t'.sent[|t'.sent| - 1] == ps[|ps| - 1];
      assert Emitted(t'.sent[|t'.sent| - 1], t', env);
    }
  }

  lemma StageOffered(t: Tcb, p: Packet, env: Env)
    requires Ready(t) && Acceptable(t, p, env) && p.data != [] && p.ack <= t.snd.sndUna
    ensures var a := AckStage(t, p, env);
            && a.ok && a.t.snd == Offered(t, p).snd && a.t.cong == t.cong && a.t.sent == t.sent
            && a.t.lastSend == t.lastSend && a.t.state == t.state && a.t.rcv == t.rcv
  {
    hide ResendHead, SendOk, Fits, MssOk, LevelOk, WindowGrowth, KeepsBoundaries, Emits;
  }

  lemma EstablishSame(t: Tcb, p: Packet, u: Tcb)
    requires t.state == Established == u.state && CongestionOk(u.cong)
    ensures Establish(t, p, u) == u
  {
  }

  /** A socket with one byte in flight and one held back. */
  const Stalled: Tcb :=
    InitialTcb(1, 0).(state := Established, lastSend := 1,
      snd := Sender([7, 7], [SSegment(1, 1, 1, false), SSegment(2, 1, 0, false)], 1, 2, 1000, 0))

  const Early: Packet := Packet(1, 1, 1, false, false, 1000, 0, 0, [9])

  /** Such a socket does not answer a packet that came early. */
  lemma AnswerIsForgotten(env: Env)
    requires env.clock == 1 && Working(env)
    ensures Ready(Stalled) && Acceptable(Stalled, Early, env) && Heeded(Stalled, Early)
    ensures Early.sn > Stalled.rcv.rcvNxt && Process(Stalled, Early, env).0.sent == Stalled.sent
  {
    hide Process;
    StalledReady();
    assert Held(Rested(Offered(Stalled, Early), env));
    AnsweredAtOnceIff(Stalled, Early, env);
  }

  lemma StalledReady()
    ensures Ready(Stalled)
  {
    var l := Stalled.snd.slist;
    assert Tiles(l[1..][1..], 3, 3);
    assert Tiles(l[1..], 2, 3);
    assert Tiles(l, 1, 3);
  }

  /** Reading reopens a closed window once enough of the buffer is free, and tells the peer
      unless data is held back. */
  lemma ReadReopens(t: Tcb, len: nat, env: Env)
    requires Ready(t) && t.state == Established && t.rcv.rlen > 0 && t.rcv.rcvWnd == 0 && Working(env)
    requires Min(len, t.rcv.rlen) + (RCV_BUF_SIZE - t.rcv.rlen) >= Min(RCV_BUF_SIZE / 2, t.cong.mss)
    ensures var t' := Recv(t, len, env).0;
            t'.rcv.rcvWnd == RCV_BUF_SIZE - t'.rcv.rlen > 0 && (Tells(t, t') || Held(t'))
  {
    hide AttemptSend, SendOk, SegmentFits, Held, Tells, ReadBytes;
    var t1 := t.(rcv := ReadShift(t.rcv, len));
    var t2 := t1.(rcv := t1.rcv.(rcvWnd := U32(RCV_BUF_SIZE - t1.rcv.rlen)));
    ReadReady(t, len);
    Pays(t2, env, ImmediateAck);
    SameTells(t, t2, AttemptSend(t2, env, ImmediateAck));
  }

  lemma SameTells(t: Tcb, t2: Tcb, t': Tcb)
    requires t2.sent == t.sent
    ensures Tells(t2, t') == Tells(t, t')
  {
  }

  /** The timestamp echoed from now on is that of the packet if the packet covers the
      position last acknowledged, as section 4.3 of RFC 7323 has it. */
  lemma EchoesTimestamp(t: Tcb, p: Packet, env: Env)
    requires Ready(t) && Acceptable(t, p, env) && Heeded(t, p) && Process(t, p, env).1
    ensures Process(t, p, env).0.tsRecent ==
            if p.sn <= t.tsLastAck < p.sn + |p.data| then p.tsval else t.tsRecent
  {
    hide AckStage, AttemptSend, SendOk, AtAck, AtSend, Process, NewPackets, KeepsBoundaries, CongestionOk,
      ReceiveData, AckFlags;
    ProcessIs(t, p, env);
    AtAckIs(t, p, env);
    AtSendIs(t, p, env);
  }

  // ---------------------------------------------------------------------
  // A single segment

  /** With everything sent and nothing owed the send loop ends. */
  lemma LoopEnds(t: Tcb, env: Env)
    requires Ready(t) && t.snd.sndNxt == t.snd.End()
    ensures SendLoop(t, env, NoAck) == t
  {
    hide SendNext, SendOk, Fits, CongestionOk, Waiting;
    QueueBounds(t);
    AvailableIs(t);
    assert Waiting(t) by {
      NothingUnsent(t);
    }
  }

  lemma NothingUnsent(t: Tcb)
    requires t.snd.sndNxt == t.snd.End()
    ensures Waiting(t)
  {
  }

  /** The only queued segment, of `n` bytes at `k`, has not been sent. */
  ghost predicate OneQueued(t: Tcb, k: nat, n: nat, ctrl: bool) {
    && Ready(t) && 0 < n <= t.cong.mss && n <= Window(t) && |t.snd.sbuf| == n
    && t.snd.slist == [SSegment(k, n, 0, ctrl)] && t.snd.sndUna == k && t.snd.sndNxt == k
  }

  /** The same socket when it has been sent. */
  function OneSent(t: Tcb, env: Env, k: nat, n: nat, ctrl: bool): Tcb
    requires t.snd.sndUna == k && n <= |t.snd.sbuf|
  {
    t.(snd := t.snd.(slist := [SSegment(k, n, 1, ctrl)], sndNxt := k + n),
       rtoBase := if t.rtoBase == 0 then Now(env) else t.rtoBase, lastSend := Now(env), tAck := 0,
       tsLastAck := t.rcv.rcvNxt, calls := t.calls + 1, sent := t.sent + [Slice(t, env, k, ctrl, n)])
  }

  lemma OneTransmitted(t: Tcb, env: Env, k: nat, n: nat, ctrl: bool)
    requires OneQueued(t, k, n, ctrl) && Working(env)
    ensures MssOk(t.cong) && Transmit(t, env, 0) == Transmitted(OneSent(t, env, k, n, ctrl), true)
  {
    hide Fits, Tiles, SegmentsOk, NonEmpty, LevelOk, ReduceMss, Window;
    assert Replace(t.snd.slist, 0, [SSegment(k, n, 1, ctrl)]) == [SSegment(k, n, 1, ctrl)];
  }

  /** A single segment that fits the window is sent. */
  lemma SegmentSent(t: Tcb, env: Env, sflags: SendFlags, k: nat, n: nat, ctrl: bool)
    requires OneQueued(t, k, n, ctrl) && Working(env)
    ensures SendLoop(t, env, sflags) == OneSent(t, env, k, n, ctrl)
  {
    hide Fits, SendOk, CongestionOk, Transmit, Window, KeepsBoundaries, NewPackets;
    QueueBounds(t);
    AvailableIs(t);
    AvailableSmall(t);
    assert FirstUnsent(t.snd.slist) == 0;
    assert Available(t) == n;
    assert CutUnsent(t, n) == t;
    OneTransmitted(t, env, k, n, ctrl);
    assert SendNext(t, env) == Transmitted(OneSent(t, env, k, n, ctrl), true);
    LoopEnds(OneSent(t, env, k, n, ctrl), env);
  }

  /** With nothing queued only the acknowledgement owed is sent. */
  lemma NothingToSend(t: Tcb, env: Env, sflags: SendFlags)
    requires Ready(t) && t.snd.sbuf == [] && t.lastSend == Now(env)
    ensures AttemptSend(t, env, sflags) == FinishSend(t, env, sflags)
  {
    hide SendNext, SendOk, Fits, CongestionOk, Waiting, FinishSend, TimeDiff;
    QueueBounds(t);
    RtoBounds(t);
    NoTime(Now(env));
    AvailableIs(t);
    NothingUnsent(t);
  }

  /** A single segment is in flight. */
  ghost predicate InFlight(t: Tcb, k: nat, ctrl: bool) {
    && Ready(t) && t.snd.sbuf != [] && t.snd.slist == [SSegment(k, |t.snd.sbuf|, 1, ctrl)]
    && t.snd.sndUna == k && t.snd.sndNxt == k + |t.snd.sbuf| && t.cong.dupAcks == 0
  }

  lemma AllFreed(s: Sender, k: nat, ctrl: bool, wnd: nat)
    requires s.sbuf != [] && s.slist == [SSegment(k, |s.sbuf|, 1, ctrl)] && s.sndUna == k && s.sndNxt == k + |s.sbuf|
    ensures TotalLen(s.slist) == |s.sbuf|
    ensures var s' := Acknowledge(s, s.sndNxt, wnd);
            s' == Sender([], [], s.sndNxt, s.sndNxt, wnd, s'.largest)
  {
    assert s.slist[1..] == [] && TotalLen([]) == 0;
    assert s.sbuf[|s.sbuf|..] == [];
    assert FreeSegments(s.slist, s.largest, |s.sbuf|).0 == [];
  }

  lemma AckStageFrees(t: Tcb, p: Packet, env: Env, k: nat, ctrl: bool)
    requires InFlight(t, k, ctrl) && Acceptable(t, p, env) && p.ack == t.snd.sndNxt
    ensures var a := AckStage(t, p, env);
            && a.ok && a.t == t.(snd := a.t.snd, cong := a.t.cong, rtoBase := 0)
            && a.t.snd == Sender([], [], p.ack, p.ack, p.wnd, a.t.snd.largest)
            && WindowsOf(a.t.cong) == WindowsOf(t.cong).(cwnd := U32(t.cong.cwnd + RenoGrowth(t.cong)))
            && a.t.cong.mss == t.cong.mss && a.t.cong.mtuAdvise == t.cong.mtuAdvise
  {
    hide SendOk, Fits, LevelOk, Emits, RenoGrowth, WindowGrowth, TimeDiff, KeepsBoundaries;
    AllFreed(t.snd, k, ctrl, p.wnd);
    PlainReno(t, p, env);
  }

  lemma OnlyOwed(t: Tcb, env: Env, sflags: SendFlags)
    requires Ready(t)
    ensures var t' := FinishSend(t, env, sflags);
            && t' == t.(tAck := t'.tAck, tsLastAck := t'.tsLastAck, calls := t'.calls, sent := t'.sent) && Ready(t')
  {
    hide SendOk, Fits, CongestionOk;
  }

  lemma FinishNothing(t: Tcb, env: Env)
    ensures FinishSend(t, env, NoAck) == t
  {
  }

  lemma NothingReceived(t: Tcb, p: Packet)
    requires Shape(t.rcv) && p.data == [] && p.sn == t.rcv.rcvNxt
    ensures ReceiveData(t, p).rcv == t.rcv && AckFlags(t, p) == NoAck
  {
  }

  /** The connect byte moves the receive position and is acknowledged later. */
  lemma ConnectReceived(t: Tcb, p: Packet)
    requires t.rcv == InitialReceiver() && p.ctl && p.sn == 0 && p.data == [CTL_CONNECT]
    ensures Shape(t.rcv) && ReceiveData(t, p).rcv == t.rcv.(rcvNxt := 1) && AckFlags(t, p) == DelayedAck
  {
  }

  lemma ConnectOffered(t: Tcb, env: Env)
    requires Ready(t) && t == InitialTcb(t.conv, Now(env))
    ensures var t1 := t.(state := SynSent, snd := Sender([CTL_CONNECT], [SSegment(0, 1, 0, true)], 0, 0, 1, 0));
            OneQueued(t1, 0, 1, true) && Connect(t, env) == (SendLoop(t1, env, NoAck), true)
  {
    hide SendLoop, TimeDiff, InitialReceiver, Fits, SendOk;
    EnqueueKeeps(t.snd, [CTL_CONNECT], true);
    var s := Enqueue(t.snd, [CTL_CONNECT], true);
    assert s == Sender([CTL_CONNECT], [SSegment(0, 1, 0, true)], 0, 0, 1, 0);
    NoTime(Now(env));
  }
}
