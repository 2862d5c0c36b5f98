/** Reassembly is exact: whatever the arrival order, overlap and duplication of
    the segments, the buffer holds the stream and `rcvNxt` is the first missing
    position. */
module PseudoTcpReassembly {
  import opened Arith
  import opened PseudoTcpReceive

  /** The positions of the stream the receiver has taken in. */
  ghost predicate Known(r: Receiver, p: nat) {
    p < r.rcvNxt || Covers(r.rlist, p)
  }

  /** Like `Placed`, for saved segments the in-order data may already have reached. */
  ghost predicate PlacedAhead(r: Receiver, stream: seq<Byte>)
    requires Shape(r)
  {
    forall p: nat :: p >= r.rcvNxt && Covers(r.rlist, p) ==>
      && p < |stream|
      && r.rlen + (p - r.rcvNxt) < RCV_BUF_SIZE
      && r.rbuf[r.rlen + (p - r.rcvNxt)] == stream[p]
  }

  ghost predicate Draining(r: Receiver, stream: seq<Byte>) {
    && Shape(r)
    && |stream| < TWO32
    && InOrderBytes(r, stream)
    && Sorted(r.rlist)
    && (forall i :: 0 <= i < |r.rlist| ==> r.rlist[i].len > 0)
    && PlacedAhead(r, stream)
  }

  lemma InsertSortedKeeps(l: seq<RSegment>, e: RSegment)
    requires Sorted(l)
    ensures Sorted(InsertSorted(l, e))
    ensures forall i :: 0 <= i < |l| + 1 ==> InsertSorted(l, e)[i] == e || InsertSorted(l, e)[i] in l
  {
    var k := FindInsert(l, e.sn);
    var l' := InsertSorted(l, e);
    forall i, j | 0 <= i < j < |l'|
      ensures l'[i].sn <= l'[j].sn
    {
      if j < k || i > k {
      } else if i == k {
        assert l[k].sn <= l[j - 1].sn;
      }
    }
  }

  lemma InsertCovers(l: seq<RSegment>, e: RSegment, p: nat)
    ensures Covers(InsertSorted(l, e), p) <==> Covers(l, p) || Within(p, e.sn, e.len)
  {
    var k := FindInsert(l, e.sn);
    var l' := InsertSorted(l, e);
    if Covers(l, p) {
      var i :| 0 <= i < |l| && Within(p, l[i].sn, l[i].len);
      assert l'[if i < k then i else i + 1] == l[i];
    }
    assert l'[k] == e;
  }

  lemma CoversHeadOrTail(l: seq<RSegment>, p: nat)
    requires l != []
    ensures Covers(l, p) <==> Within(p, l[0].sn, l[0].len) || Covers(l[1..], p)
  {
    if Covers(l[1..], p) {
      var i :| 0 <= i < |l[1..]| && Within(p, l[1..][i].sn, l[1..][i].len);
      assert l[i + 1] == l[1..][i];
    }
    if Covers(l, p) {
      var i :| 0 <= i < |l| && Within(p, l[i].sn, l[i].len);
      assert i > 0 ==> l[1..][i - 1] == l[i];
    }
  }

  /** Moving `rcvNxt` over bytes that are already in place. */
  lemma AdvanceKeeps(r: Receiver, stream: seq<Byte>, n: nat)
    requires Draining(r, stream)
    requires r.rlen + n <= RCV_BUF_SIZE && r.rcvNxt + n <= |stream|
    requires r.rbuf[r.rlen..r.rlen + n] == stream[r.rcvNxt..r.rcvNxt + n]
    ensures Draining(Advance(r, n), stream)
    ensures NextRead(Advance(r, n)) == NextRead(r)
  {
    var r' := Advance(r, n);
    var from := r.rcvNxt - r.rlen;
    assert r'.rbuf[..r'.rlen] == r.rbuf[..r.rlen] + r.rbuf[r.rlen..r.rlen + n];
    assert stream[from..r'.rcvNxt] == stream[from..r.rcvNxt] + stream[r.rcvNxt..r'.rcvNxt];
  }

  /** The bytes of a saved segment the in-order data has reached are in place. */
  lemma HeadIsReady(r: Receiver, stream: seq<Byte>)
    requires Draining(r, stream)
    requires r.rlist != [] && r.rlist[0].sn <= r.rcvNxt < r.rlist[0].End()
    ensures var n := r.rlist[0].End() - r.rcvNxt;
            && r.rlen + n <= RCV_BUF_SIZE && r.rcvNxt + n <= |stream|
            && r.rbuf[r.rlen..r.rlen + n] == stream[r.rcvNxt..r.rcvNxt + n]
  {
    var head := r.rlist[0];
    forall p | r.rcvNxt <= p < head.End()
      ensures Covers(r.rlist, p)
    {
      assert Within(p, head.sn, head.len);
    }
    assert Covers(r.rlist, head.End() - 1);
  }

  lemma DrainHeadKeeps(r: Receiver, stream: seq<Byte>)
    requires Draining(r, stream)
    requires r.rlist != [] && r.rlist[0].sn <= r.rcvNxt
    ensures Draining(DrainHead(r), stream)
    ensures NextRead(DrainHead(r)) == NextRead(r)
    ensures forall p: nat :: Known(DrainHead(r), p) <==> Known(r, p)
  {
    forall p: nat
      ensures Covers(r.rlist, p) <==>
              Within(p, r.rlist[0].sn, r.rlist[0].len) || Covers(r.rlist[1..], p)
    {
      CoversHeadOrTail(r.rlist, p);
    }
    if r.rlist[0].End() > r.rcvNxt {
      HeadIsReady(r, stream);
      AdvanceKeeps(r, stream, r.rlist[0].End() - r.rcvNxt);
    }
  }

  /** Draining loses no position and leaves only segments beyond `rcvNxt`. */
  lemma {:induction false} DrainKeeps(r: Receiver, stream: seq<Byte>)
    requires Draining(r, stream)
    ensures ReceiveOk(Drain(r), stream)
    ensures NextRead(Drain(r)) == NextRead(r)
    ensures forall p: nat :: Known(Drain(r), p) <==> Known(r, p)
    decreases |r.rlist|
  {
    if r.rlist == [] || r.rlist[0].sn > r.rcvNxt {
    } else {
      DrainHeadKeeps(r, stream);
      DrainKeeps(DrainHead(r), stream);
    }
  }

  /** One segment of the stream arrives. The invariant is kept, and the known
      positions grow by exactly the part of the segment that fits the buffer. */
  lemma AcceptKeeps(r: Receiver, stream: seq<Byte>, sn: nat, data: seq<Byte>)
    requires ReceiveOk(r, stream)
    requires sn + |data| <= |stream| && data == stream[sn..sn + |data|]
    ensures ReceiveOk(Accept(r, sn, data), stream)
    ensures NextRead(Accept(r, sn, data)) == NextRead(r)
    ensures var t := Trim(r, sn, data);
            forall p: nat :: Known(Accept(r, sn, data), p) <==> Known(r, p) || Within(p, t.0, |t.1|)
  {
    var (sn', data') := Trim(r, sn, data);
    if data' != [] {
      assert data' == stream[sn'..sn' + |data'|];
      if sn' == r.rcvNxt {
        StoreInOrder(r, stream, data');
      } else {
        StoreAhead(r, stream, sn', data');
      }
    }
  }

  lemma OverwriteKeeps(r: Receiver, stream: seq<Byte>, sn: nat, data: seq<Byte>)
    requires ReceiveOk(r, stream)
    requires r.rcvNxt <= sn && sn - r.rcvNxt + |data| <= RCV_BUF_SIZE - r.rlen
    requires sn + |data| <= |stream| && data == stream[sn..sn + |data|]
    ensures var r1 := r.(rbuf := Overwrite(r.rbuf, r.rlen + (sn - r.rcvNxt), data));
            && ReceiveOk(r1, stream)
            && forall p: nat :: Within(p, sn, |data|) ==> r1.rbuf[r.rlen + (p - r.rcvNxt)] == stream[p]
  {
    var r1 := r.(rbuf := Overwrite(r.rbuf, r.rlen + (sn - r.rcvNxt), data));
    assert r1.rbuf[..r.rlen] == r.rbuf[..r.rlen];
  }

  lemma StoreInOrder(r: Receiver, stream: seq<Byte>, data: seq<Byte>)
    requires ReceiveOk(r, stream)
    requires data != [] && |data| <= RCV_BUF_SIZE - r.rlen
    requires r.rcvNxt + |data| <= |stream| && data == stream[r.rcvNxt..r.rcvNxt + |data|]
    ensures ReceiveOk(Store(r, r.rcvNxt, data), stream)
    ensures NextRead(Store(r, r.rcvNxt, data)) == NextRead(r)
    ensures forall p: nat :: Known(Store(r, r.rcvNxt, data), p) <==>
                             Known(r, p) || Within(p, r.rcvNxt, |data|)
  {
    hide Drain, Draining, Covers, Placed;
    var r1 := r.(rbuf := Overwrite(r.rbuf, r.rlen, data));
    var r2 := Advance(r1, |data|);
    assert Store(r, r.rcvNxt, data) == Drain(r2);
    AppendKeeps(r, stream, data);
    DrainKeeps(r2, stream);
  }

  /** In-order data copied behind the ready bytes and made ready. */
  lemma AppendKeeps(r: Receiver, stream: seq<Byte>, data: seq<Byte>)
    requires ReceiveOk(r, stream)
    requires |data| <= RCV_BUF_SIZE - r.rlen
    requires r.rcvNxt + |data| <= |stream| && data == stream[r.rcvNxt..r.rcvNxt + |data|]
    ensures var r2 := Advance(r.(rbuf := Overwrite(r.rbuf, r.rlen, data)), |data|);
            Draining(r2, stream) && NextRead(r2) == NextRead(r)
  {
    var r1 := r.(rbuf := Overwrite(r.rbuf, r.rlen, data));
    OverwriteKeeps(r, stream, r.rcvNxt, data);
    OkIsDraining(r1, stream);
    assert r1.rbuf[r.rlen..r.rlen + |data|] == data;
    hide ReceiveOk, Draining;
    AdvanceKeeps(r1, stream, |data|);
  }

  lemma OkIsDraining(r: Receiver, stream: seq<Byte>)
    requires ReceiveOk(r, stream)
    ensures Draining(r, stream)
  {
  }

  lemma StoreAhead(r: Receiver, stream: seq<Byte>, sn: nat, data: seq<Byte>)
    requires ReceiveOk(r, stream)
    requires data != [] && r.rcvNxt < sn && sn - r.rcvNxt + |data| <= RCV_BUF_SIZE - r.rlen
    requires sn + |data| <= |stream| && data == stream[sn..sn + |data|]
    ensures ReceiveOk(Store(r, sn, data), stream)
    ensures NextRead(Store(r, sn, data)) == NextRead(r)
    ensures forall p: nat :: Known(Store(r, sn, data), p) <==> Known(r, p) || Within(p, sn, |data|)
  {
    OverwriteKeeps(r, stream, sn, data);
    var r1 := r.(rbuf := Overwrite(r.rbuf, r.rlen + (sn - r.rcvNxt), data));
    SaveKeeps(r1, stream, RSegment(sn, |data|));
  }

  /** Recording a segment whose bytes are already in the buffer. */
  lemma SaveKeeps(r: Receiver, stream: seq<Byte>, e: RSegment)
    requires ReceiveOk(r, stream)
    requires e.len > 0 && r.rcvNxt < e.sn && e.End() <= |stream|
    requires e.End() - r.rcvNxt <= RCV_BUF_SIZE - r.rlen
    requires forall p: nat :: Within(p, e.sn, e.len) ==> r.rbuf[r.rlen + (p - r.rcvNxt)] == stream[p]
    ensures var r' := r.(rlist := InsertSorted(r.rlist, e));
            && ReceiveOk(r', stream)
            && forall p: nat :: Known(r', p) <==> Known(r, p) || Within(p, e.sn, e.len)
  {
    var r' := r.(rlist := InsertSorted(r.rlist, e));
    InsertSortedKeeps(r.rlist, e);
    forall p: nat
      ensures Covers(r'.rlist, p) <==> Covers(r.rlist, p) || Within(p, e.sn, e.len)
    {
      InsertCovers(r.rlist, e, p);
    }
  }

  /** A read returns the next bytes of the stream and keeps the invariant. */
  lemma ReadKeeps(r: Receiver, stream: seq<Byte>, len: nat)
    requires ReceiveOk(r, stream)
    ensures ReceiveOk(ReadShift(r, len), stream)
    ensures var next := NextRead(r);
            var read := ReadBytes(r, len);
            next + |read| <= r.rcvNxt && read == stream[next..next + |read|]
    ensures NextRead(ReadShift(r, len)) == NextRead(r) + |ReadBytes(r, len)|
  {
    var read := Min(len, r.rlen);
    var r' := ReadShift(r, len);
    var next := NextRead(r);
    assert r.rbuf[..read] == r.rbuf[..r.rlen][..read];
    assert stream[next..next + read] == stream[next..r.rcvNxt][..read];
    assert r'.rbuf[..r'.rlen] == r.rbuf[..r.rlen][read..];
    assert stream[next + read..r.rcvNxt] == stream[next..r.rcvNxt][read..];
  }

  // ---------------------------------------------------------------------
  // Whole runs

  datatype Event = Arrive(sn: nat, len: nat) | Read(max: nat)

  /** Segments are cut from the stream; they may overlap, repeat and come in any order. */
  predicate CutFrom(e: Event, stream: seq<Byte>) {
    e.Arrive? ==> e.sn + e.len <= |stream|
  }

  datatype History = History(r: Receiver, delivered: seq<Byte>, accepted: iset<nat>)

  ghost function Step(h: History, stream: seq<Byte>, e: Event): History
    requires Shape(h.r) && |stream| < TWO32 && CutFrom(e, stream)
  {
    match e
    case Arrive(sn, len) =>
      var (sn', data') := Trim(h.r, sn, stream[sn..sn + len]);
      History(Accept(h.r, sn, stream[sn..sn + len]), h.delivered,
              h.accepted + iset p: nat | Within(p, sn', |data'|))
    case Read(max) =>
      History(ReadShift(h.r, max), h.delivered + ReadBytes(h.r, max), h.accepted)
  }

  ghost predicate Exact(h: History, stream: seq<Byte>) {
    && ReceiveOk(h.r, stream)
    && h.delivered == stream[..NextRead(h.r)]
    && (forall p: nat :: p in h.accepted <==> Known(h.r, p))
  }

  lemma ArriveKeeps(h: History, stream: seq<Byte>, sn: nat, len: nat)
    requires Exact(h, stream) && sn + len <= |stream|
    ensures Exact(Step(h, stream, Arrive(sn, len)), stream)
  {
    hide Accept, Trim, Known, ReceiveOk, NextRead;
    AcceptKeeps(h.r, stream, sn, stream[sn..sn + len]);
  }

  lemma ReadStepKeeps(h: History, stream: seq<Byte>, max: nat)
    requires Exact(h, stream)
    ensures Exact(Step(h, stream, Read(max)), stream)
  {
    var next := NextRead(h.r);
    var n := |ReadBytes(h.r, max)|;
    ReadKeeps(h.r, stream, max);
    assert stream[..next] + stream[next..next + n] == stream[..next + n];
    assert forall p: nat :: Known(ReadShift(h.r, max), p) == Known(h.r, p);
  }

  lemma StepKeeps(h: History, stream: seq<Byte>, e: Event)
    requires Exact(h, stream) && CutFrom(e, stream)
    ensures Exact(Step(h, stream, e), stream)
  {
    match e
    case Arrive(sn, len) => ArriveKeeps(h, stream, sn, len);
    case Read(max) => ReadStepKeeps(h, stream, max);
  }

  ghost function Run(h: History, stream: seq<Byte>, events: seq<Event>): History
    requires Exact(h, stream)
    requires forall e :: e in events ==> CutFrom(e, stream)
    decreases |events|
  {
    if events == [] then h
    else
      StepKeeps(h, stream, events[0]);
      Run(Step(h, stream, events[0]), stream, events[1..])
  }

  lemma {:induction false} RunExact(h: History, stream: seq<Byte>, events: seq<Event>)
    requires Exact(h, stream)
    requires forall e :: e in events ==> CutFrom(e, stream)
    ensures Exact(Run(h, stream, events), stream)
    decreases |events|
  {
    if events == [] {
    } else {
      StepKeeps(h, stream, events[0]);
      RunExact(Step(h, stream, events[0]), stream, events[1..]);
    }
  }

  function Start(): History {
    History(InitialReceiver(), [], iset{})
  }

  /** Main theorem: after any arrivals and reads, the bytes read are the stream's
      prefix, the ready bytes continue it, every saved byte is in its place, and
      `rcvNxt` is the least position no accepted segment has covered. */
  lemma ReassemblyIsExact(stream: seq<Byte>, events: seq<Event>)
    requires |stream| < TWO32
    requires forall e :: e in events ==> CutFrom(e, stream)
    ensures Exact(Start(), stream)
    ensures var h := Run(Start(), stream, events);
            && ReceiveOk(h.r, stream)
            && h.delivered + h.r.rbuf[..h.r.rlen] == stream[..h.r.rcvNxt]
            && h.r.rcvNxt !in h.accepted
            && (forall p: nat :: p < h.r.rcvNxt ==> p in h.accepted)
            && (forall p: nat :: p > h.r.rcvNxt ==> (p in h.accepted <==> Covers(h.r.rlist, p)))
  {
    assert Exact(Start(), stream);
    RunExact(Start(), stream, events);
  }
}
