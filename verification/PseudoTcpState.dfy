/** The control block of a pseudo-TCP socket and the functions that hand
    packets to the network. */
module PseudoTcpState {
  import opened Arith
  import opened PseudoTcpReceive
  import opened PseudoTcpSend

  datatype ConnState = Listen | SynSent | SynReceived | Established | Closed

  datatype WriteResult = Success | TooLarge | Fail

  datatype SendFlags = NoAck | DelayedAck | ImmediateAck

  datatype Packet = Packet(
    conv: nat, sn: nat, ack: nat, ctl: bool, rst: bool, wnd: nat,
    tsval: nat, tsecr: nat, data: seq<Byte>)

  /** Segment size, congestion window and retransmission timeout. */
  datatype Congestion = Congestion(
    mss: nat, msslevel: nat, mtuAdvise: nat,
    cwnd: nat, ssthresh: nat, dupAcks: nat, recover: nat,
    rto: nat, srtt: nat, rttvar: nat)

  /** `sent` is the history of the packets the network accepted; `calls` counts
      the calls of the `WritePacket` callback. */
  datatype Tcb = Tcb(
    state: ConnState, conv: nat, shutdown: bool,
    rcv: Receiver, snd: Sender, cong: Congestion,
    rtoBase: nat, lastSend: nat, lastRecv: nat,
    tAck: nat, tsRecent: nat, tsLastAck: nat,
    calls: nat, sent: seq<Packet>)

  /** What a call of the API sees of the outside: the clock, and the result of
      the n-th call of the `WritePacket` callback. */
  datatype Env = Env(clock: nat, write: nat -> WriteResult)

  function Now(env: Env): nat {
    U32(env.clock)
  }

  const PACKET_MAXIMUMS: seq<nat> :=
    [65535, 32000, 17914, 8166, 4352, 2002, 1492, 1006, 508, 296, 0]
  const MAX_PACKET: nat := 65535
  const MIN_PACKET: nat := 296
  const HEADER_SIZE: nat := 24
  const PACKET_OVERHEAD: nat := 116
  const MAX_MSS: nat := MAX_PACKET - PACKET_OVERHEAD
  const MIN_RTO: nat := 250
  const DEF_RTO: nat := 3000
  const MAX_RTO: nat := 60000
  const ACK_DELAY: nat := 100
  const CTL_CONNECT: Byte := 0

  function InitialCongestion(): Congestion {
    var mss := MIN_PACKET - PACKET_OVERHEAD;
    Congestion(mss, 0, MAX_PACKET, 2 * mss, RCV_BUF_SIZE, 0, 0, DEF_RTO, 0, 0)
  }

  function InitialTcb(conv: nat, now: nat): Tcb {
    Tcb(Listen, conv, false, InitialReceiver(), InitialSender, InitialCongestion(),
        0, now, now, 0, 0, 0, 0, [])
  }

  // ---------------------------------------------------------------------
  // Time

  predicate TimeIsBetween(later: nat, middle: nat, earlier: nat) {
    if earlier <= later then earlier <= middle <= later
    else !(later < middle < earlier)
  }

  /** The signed distance between two 32-bit clock readings. */
  function TimeDiff(later: nat, earlier: nat): int
    requires later < TWO32 && earlier < TWO32
  {
    if TimeIsBetween(U32(earlier + TWO31), later, earlier) then
      if earlier <= later then later - earlier else later + (TWO32 - 1 - earlier) + 1
    else
      if later <= earlier then -(earlier - later) else -(earlier + (TWO32 - 1 - later) + 1)
  }

  /** The difference is exact for readings less than 2^31 ms apart, across wrap-around. */
  lemma TimeDiffExact(t0: nat, t1: nat)
    requires -TWO31 < t1 - t0 <= TWO31
    ensures TimeDiff(U32(t1), U32(t0)) == t1 - t0
  {
    var q0, q1 := t0 / TWO32, t1 / TWO32;
    assert t0 == q0 * TWO32 + U32(t0) && t1 == q1 * TWO32 + U32(t1);
    assert q1 == q0 || q1 == q0 + 1 || q1 + 1 == q0;
  }

  // ---------------------------------------------------------------------
  // packet()

  /** Write one packet; `data` is absent for a bare acknowledgement. */
  function WritePacket(t: Tcb, env: Env, sn: nat, ctl: bool, data: seq<Byte>, bareAck: bool): (Tcb, WriteResult)
    requires HEADER_SIZE + |data| <= MAX_PACKET
  {
    var wres := env.write(t.calls);
    var pkt := Packet(t.conv, sn, t.rcv.rcvNxt, ctl, false, t.rcv.rcvWnd % TWO16,
                      Now(env), t.tsRecent, data);
    var t1 := t.(calls := t.calls + 1, tsLastAck := t.rcv.rcvNxt,
                 sent := if wres == Success then t.sent + [pkt] else t.sent);
    if wres != Success && !bareAck then (t1, wres)
    else (t1.(tAck := 0, lastSend := if |data| > 0 then Now(env) else t.lastSend), Success)
  }

  function SendAck(t: Tcb, env: Env, sn: nat): Tcb {
    WritePacket(t, env, sn, false, [], true).0
  }

  // ---------------------------------------------------------------------
  // transmit()

  /** Step the segment size down until `n` bytes are too many for it. */
  function ReduceMss(c: Congestion, n: nat): (r: (Congestion, bool))
    requires c.msslevel <= 9
    ensures c.msslevel <= r.0.msslevel <= 9
    ensures r.1 ==> c.msslevel < r.0.msslevel && 0 < r.0.mss < n
    ensures !r.1 ==> r.0.msslevel == 9
    ensures r.0 == c || (r.0.mss == PACKET_MAXIMUMS[r.0.msslevel] - PACKET_OVERHEAD && r.0.cwnd == 2 * r.0.mss)
    ensures r.0 == c.(msslevel := r.0.msslevel, mss := r.0.mss, cwnd := r.0.cwnd)
    decreases 9 - c.msslevel
  {
    if PACKET_MAXIMUMS[c.msslevel + 1] == 0 then (c, false)
    else
      var level := c.msslevel + 1;
      var mss := PACKET_MAXIMUMS[level] - PACKET_OVERHEAD;
      var c' := c.(msslevel := level, mss := mss, cwnd := 2 * mss);
      if mss < n then (c', true) else ReduceMss(c', n)
  }

  /** The segment size leaves room for all headers in the largest packet. */
  predicate MssOk(c: Congestion) {
    c.msslevel <= 9 && 0 < c.mss <= MAX_MSS
  }

  /** The level in the table of packet sizes is not above the segment size,
      except for the initial guess. */
  predicate LevelOk(c: Congestion)
    requires c.msslevel <= 9
  {
    || c.msslevel == 9
    || c.mss >= PACKET_MAXIMUMS[c.msslevel] - PACKET_OVERHEAD
    || (c.msslevel == 0 && c.mss == MIN_PACKET - PACKET_OVERHEAD)
  }

  predicate CongestionOk(c: Congestion) {
    && MssOk(c) && LevelOk(c)
    && PACKET_OVERHEAD < c.mtuAdvise <= MAX_PACKET
    && c.cwnd < TWO32
    && 2 * c.mss <= c.ssthresh <= 2 * MAX_MSS
    && MIN_RTO <= c.rto <= MAX_RTO
    && c.dupAcks < 256
  }

  datatype Written = Written(t: Tcb, n: nat, ok: bool)

  /** Offer a segment to the network, with fewer and fewer bytes. */
  function WriteSegment(t: Tcb, env: Env, seg: SSegment, n: nat): (w: Written)
    requires t.cong.msslevel <= 9
    requires HEADER_SIZE + n <= MAX_PACKET
    requires t.snd.sndUna <= seg.sn && seg.sn - t.snd.sndUna + n <= |t.snd.sbuf|
    ensures w.t.snd == t.snd && w.n <= n
    decreases 9 - t.cong.msslevel
  {
    var off := seg.sn - t.snd.sndUna;
    var (t1, wres) := WritePacket(t, env, seg.sn, seg.ctrl, t.snd.sbuf[off..off + n], false);
    if wres == Success then Written(t1, n, true)
    else if wres == Fail then Written(t1, n, false)
    else
      var (c, ok) := ReduceMss(t1.cong, n);
      if !ok then Written(t1.(cong := c), n, false)
      else WriteSegment(t1.(cong := c), env, seg, c.mss)
  }

  function MaxXmit(state: ConnState): nat {
    if state == Established then 15 else 30
  }

  datatype Transmitted = Transmitted(t: Tcb, ok: bool)

  function Transmit(t: Tcb, env: Env, i: nat): Transmitted
    requires MssOk(t.cong)
    requires i < |t.snd.slist|
    requires t.snd.sndUna <= t.snd.slist[i].sn && t.snd.slist[i].End() <= t.snd.End()
  {
    var seg := t.snd.slist[i];
    if seg.xmit >= MaxXmit(t.state) then Transmitted(t, false)
    else
      var w := WriteSegment(t, env, seg, Min(seg.len, t.cong.mss));
      if !w.ok then Transmitted(w.t, false)
      else
        Transmitted(w.t.(snd := RecordSent(w.t.snd, i, w.n),
                         rtoBase := if w.t.rtoBase == 0 then Now(env) else w.t.rtoBase), true)
  }
}
