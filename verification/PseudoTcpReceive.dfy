/** The receive side of the pseudo-TCP socket: one fixed buffer whose first
    `rlen` bytes are ready for the application, followed by bytes that arrived
    out of order and are described by `rlist`. */
module PseudoTcpReceive {
  import opened Arith

  const RCV_BUF_SIZE: nat := 61440

  datatype RSegment = RSegment(sn: nat, len: nat) {
    function End(): nat { sn + len }
  }

  datatype Receiver = Receiver(
    rbuf: seq<Byte>,
    rlen: nat,
    rcvNxt: nat,
    rcvWnd: nat,
    rlist: seq<RSegment>)

  function InitialReceiver(): Receiver {
    Receiver(seq(RCV_BUF_SIZE, _ => 0), 0, 0, RCV_BUF_SIZE, [])
  }

  /** The bounds every memory access of the receive path relies on. */
  predicate Shape(r: Receiver) {
    && |r.rbuf| == RCV_BUF_SIZE
    && r.rlen <= RCV_BUF_SIZE
    && r.rcvNxt < TWO32
  }

  /** Position `p` is one of the `len` positions that start at `sn`. */
  predicate Within(p: nat, sn: nat, len: nat) {
    sn <= p < sn + len
  }

  // ---------------------------------------------------------------------
  // Trimming an incoming segment

  function TrimFront(rcvNxt: nat, sn: nat, data: seq<Byte>): (nat, seq<Byte>) {
    if sn < rcvNxt then
      var nAdjust := rcvNxt - sn;
      if nAdjust < |data| then (sn + nAdjust, data[nAdjust..]) else (sn, [])
    else
      (sn, data)
  }

  function TrimBack(r: Receiver, sn: nat, data: seq<Byte>): seq<Byte>
    requires Shape(r)
  {
    var room := RCV_BUF_SIZE - r.rlen;
    var end := U32(sn + |data| - r.rcvNxt);
    if end > room then
      var nAdjust := U32(end - room);
      if nAdjust < |data| then data[..|data| - nAdjust] else []
    else
      data
  }

  /** A segment before and after trimming: what is left is exactly the part of
      the segment that lies in the window starting at `rcvNxt`. */
  function Trim(r: Receiver, sn: nat, data: seq<Byte>): (t: (nat, seq<Byte>))
    requires Shape(r)
    requires sn + |data| < TWO32
    ensures t.1 != [] ==> sn <= t.0 && t.0 - sn + |t.1| <= |data|
    ensures t.1 != [] ==> t.1 == data[t.0 - sn..t.0 - sn + |t.1|]
    ensures t.1 != [] ==> r.rcvNxt <= t.0 && t.0 - r.rcvNxt + |t.1| <= RCV_BUF_SIZE - r.rlen
    ensures forall p: nat :: Within(p, t.0, |t.1|) <==>
              Within(p, sn, |data|) && Within(p, r.rcvNxt, RCV_BUF_SIZE - r.rlen)
  {
    var (sn', front) := TrimFront(r.rcvNxt, sn, data);
    (sn', TrimBack(r, sn', front))
  }

  // ---------------------------------------------------------------------
  // Storing a trimmed segment

  /** memcpy into the middle of a buffer. */
  function Overwrite(buf: seq<Byte>, at: nat, data: seq<Byte>): (r: seq<Byte>)
    requires at + |data| <= |buf|
    ensures |r| == |buf|
    ensures forall k :: 0 <= k < |buf| ==>
              r[k] == if at <= k < at + |data| then data[k - at] else buf[k]
  {
    buf[..at] + data + buf[at + |data|..]
  }

  /** The first entry whose sequence number is not below `sn`. */
  function FindInsert(l: seq<RSegment>, sn: nat): (k: nat)
    ensures k <= |l|
    ensures forall i :: 0 <= i < k ==> l[i].sn < sn
    ensures k < |l| ==> l[k].sn >= sn
  {
    if l == [] || l[0].sn >= sn then 0 else 1 + FindInsert(l[1..], sn)
  }

  function InsertSorted(l: seq<RSegment>, e: RSegment): seq<RSegment> {
    var k := FindInsert(l, e.sn);
    l[..k] + [e] + l[k..]
  }

  /** Make `n` more bytes available in order. */
  function Advance(r: Receiver, n: nat): Receiver {
    r.(rlen := r.rlen + n, rcvNxt := U32(r.rcvNxt + n), rcvWnd := U32(r.rcvWnd - n))
  }

  /** One turn of the drain loop. */
  function DrainHead(r: Receiver): Receiver
    requires r.rlist != []
  {
    var head := r.rlist[0];
    var r' := if head.End() > r.rcvNxt then Advance(r, head.End() - r.rcvNxt) else r;
    r'.(rlist := r.rlist[1..])
  }

  /** Consume the saved segments that the in-order data has reached. */
  function Drain(r: Receiver): Receiver
    decreases |r.rlist|
  {
    if r.rlist == [] || r.rlist[0].sn > r.rcvNxt then r else Drain(DrainHead(r))
  }

  function Store(r: Receiver, sn: nat, data: seq<Byte>): Receiver
    requires Shape(r)
    requires data != [] ==> r.rcvNxt <= sn && sn - r.rcvNxt + |data| <= RCV_BUF_SIZE - r.rlen
  {
    if data == [] then r
    else
      var nOffset := sn - r.rcvNxt;
      var r1 := r.(rbuf := Overwrite(r.rbuf, r.rlen + nOffset, data));
      if sn == r.rcvNxt then Drain(Advance(r1, |data|))
      else r1.(rlist := InsertSorted(r.rlist, RSegment(sn, |data|)))
  }

  /** The arrival of a data segment that is not ignored. */
  function Accept(r: Receiver, sn: nat, data: seq<Byte>): Receiver
    requires Shape(r)
    requires sn + |data| < TWO32
  {
    var (sn', data') := Trim(r, sn, data);
    Store(r, sn', data')
  }

  /** The position of the next byte the application will read. */
  function NextRead(r: Receiver): int {
    r.rcvNxt - r.rlen
  }

  /** The application reads at most `len` bytes. */
  function ReadBytes(r: Receiver, len: nat): seq<Byte>
    requires Shape(r)
  {
    r.rbuf[..Min(len, r.rlen)]
  }

  function ReadShift(r: Receiver, len: nat): Receiver
    requires Shape(r)
  {
    var read := Min(len, r.rlen);
    r.(rbuf := r.rbuf[read..] + r.rbuf[RCV_BUF_SIZE - read..], rlen := r.rlen - read)
  }

  // ---------------------------------------------------------------------
  // Memory safety

  /** A saved segment ends inside the buffer and below 2^32. */
  predicate SegmentFits(r: Receiver, e: RSegment) {
    e.End() < TWO32 && e.End() - r.rcvNxt <= RCV_BUF_SIZE - r.rlen
  }

  ghost predicate Fits(r: Receiver) {
    Shape(r) && forall i :: 0 <= i < |r.rlist| ==> SegmentFits(r, r.rlist[i])
  }

  lemma {:induction false} DrainFits(r: Receiver)
    requires Fits(r)
    ensures Fits(Drain(r))
    decreases |r.rlist|
  {
    if r.rlist != [] && r.rlist[0].sn <= r.rcvNxt {
      assert SegmentFits(r, r.rlist[0]);
      assert forall i :: 0 <= i < |r.rlist| - 1 ==> r.rlist[1..][i] == r.rlist[i + 1];
      DrainFits(DrainHead(r));
    }
  }

  /** Storing any segment that was trimmed to the window stays in bounds. */
  lemma StoreFits(r: Receiver, sn: nat, data: seq<Byte>)
    requires Fits(r) && data != []
    requires r.rcvNxt <= sn && sn - r.rcvNxt + |data| <= RCV_BUF_SIZE - r.rlen && sn + |data| < TWO32
    ensures Fits(Store(r, sn, data))
  {
    if sn == r.rcvNxt {
      DrainFits(Advance(r.(rbuf := Overwrite(r.rbuf, r.rlen, data)), |data|));
    }
  }

  // ---------------------------------------------------------------------
  // The receive invariant

  ghost predicate Sorted(l: seq<RSegment>) {
    forall i, j :: 0 <= i < j < |l| ==> l[i].sn <= l[j].sn
  }

  ghost predicate Covers(l: seq<RSegment>, p: nat) {
    exists i :: 0 <= i < |l| && Within(p, l[i].sn, l[i].len)
  }

  /** Every byte that `rlist` covers sits at its offset from `rcvNxt`. */
  ghost predicate Placed(r: Receiver, stream: seq<Byte>)
    requires Shape(r)
  {
    forall p: nat :: Covers(r.rlist, p) ==>
      && r.rcvNxt < p < |stream|
      && r.rlen + (p - r.rcvNxt) < RCV_BUF_SIZE
      && r.rbuf[r.rlen + (p - r.rcvNxt)] == stream[p]
  }

  ghost predicate InOrderBytes(r: Receiver, stream: seq<Byte>)
    requires Shape(r)
  {
    && r.rlen <= r.rcvNxt <= |stream|
    && r.rbuf[..r.rlen] == stream[r.rcvNxt - r.rlen..r.rcvNxt]
  }

  ghost predicate Pending(r: Receiver) {
    forall i :: 0 <= i < |r.rlist| ==> r.rlist[i].len > 0 && r.rlist[i].sn > r.rcvNxt
  }

  ghost predicate ReceiveOk(r: Receiver, stream: seq<Byte>) {
    && Shape(r)
    && |stream| < TWO32
    && InOrderBytes(r, stream)
    && Sorted(r.rlist)
    && Pending(r)
    && Placed(r, stream)
  }
}
