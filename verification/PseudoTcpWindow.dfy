/** A receiver whose peer respects the advertised window: the window's right
    edge never moves while data arrives, and nothing is cut off. */
module PseudoTcpWindow {
  import opened Arith
  import opened PseudoTcpReceive

  function Edge(r: Receiver): nat {
    r.rcvNxt + r.rcvWnd
  }

  /** Saved data ends inside the advertised window, which fits the buffer. */
  ghost predicate WindowOk(r: Receiver) {
    && r.rcvNxt < TWO32
    && r.rlen + r.rcvWnd <= RCV_BUF_SIZE
    && forall e :: e in r.rlist ==> e.End() <= Edge(r) && e.End() < TWO32
  }

  /** `x` is where the in-order data or a saved segment of `r` ends. */
  ghost predicate Landing(r: Receiver, x: nat) {
    x == r.rcvNxt || exists e :: e in r.rlist && e.End() == x
  }

  /** `r'` has the same window edge and free space, and no new landing place but `x`. */
  ghost predicate SameWindow(r: Receiver, r': Receiver, x: nat) {
    && Edge(r') == Edge(r)
    && r'.rlen + r'.rcvWnd == r.rlen + r.rcvWnd
    && r.rcvNxt <= r'.rcvNxt
    && (r'.rcvNxt == x || Landing(r, r'.rcvNxt))
    && forall e :: e in r'.rlist ==> e in r.rlist || e.End() == x
  }

  lemma {:induction false} DrainWindow(r: Receiver)
    requires WindowOk(r)
    ensures SameWindow(r, Drain(r), r.rcvNxt) && WindowOk(Drain(r))
    ensures Landing(r, Drain(r).rcvNxt) && forall e :: e in Drain(r).rlist ==> e in r.rlist
    decreases |r.rlist|
  {
    if r.rlist != [] && r.rlist[0].sn <= r.rcvNxt {
      assert r.rlist[0] in r.rlist;
      var r2 := DrainHead(r);
      assert forall e :: e in r2.rlist ==> e in r.rlist;
      DrainWindow(r2);
      assert Landing(r, r2.rcvNxt);
    }
  }

  lemma StoreWindow(r: Receiver, sn: nat, data: seq<Byte>)
    requires Shape(r) && WindowOk(r) && data != [] && r.rcvNxt <= sn && sn + |data| <= Edge(r)
    requires sn + |data| < TWO32
    ensures sn - r.rcvNxt + |data| <= RCV_BUF_SIZE - r.rlen
    ensures SameWindow(r, Store(r, sn, data), sn + |data|) && WindowOk(Store(r, sn, data))
  {
    var r1 := r.(rbuf := Overwrite(r.rbuf, r.rlen + (sn - r.rcvNxt), data));
    if sn == r.rcvNxt {
      var r2 := Advance(r1, |data|);
      DrainWindow(r2);
      assert Landing(r2, Drain(r2).rcvNxt);
    } else {
      var e := RSegment(sn, |data|);
      var k := FindInsert(r.rlist, e.sn);
      forall f | f in InsertSorted(r.rlist, e) ensures f in r.rlist || f == e {
        assert f in r.rlist[..k] || f == e || f in r.rlist[k..];
      }
    }
  }

  /** A segment inside the window keeps its end when it is trimmed. */
  lemma TrimKeepsEnd(r: Receiver, sn: nat, data: seq<Byte>)
    requires Shape(r) && WindowOk(r) && sn + |data| <= Edge(r) && sn + |data| < TWO32
    ensures var t := Trim(r, sn, data);
            t.1 != [] ==> t.0 + |t.1| == sn + |data|
    ensures Trim(r, sn, data).1 == [] <==> data == [] || sn + |data| <= r.rcvNxt
  {
    var t := Trim(r, sn, data);
    if data != [] && sn + |data| > r.rcvNxt {
      assert Within(sn + |data| - 1, sn, |data|);
      assert Within(sn + |data| - 1, r.rcvNxt, RCV_BUF_SIZE - r.rlen);
      assert Within(sn + |data| - 1, t.0, |t.1|);
    }
  }

  lemma AcceptWindow(r: Receiver, sn: nat, data: seq<Byte>)
    requires Shape(r) && WindowOk(r) && sn + |data| <= Edge(r) && sn + |data| < TWO32
    ensures SameWindow(r, Accept(r, sn, data), sn + |data|) && WindowOk(Accept(r, sn, data))
  {
    TrimKeepsEnd(r, sn, data);
    var (sn', data') := Trim(r, sn, data);
    if data' != [] {
      StoreWindow(r, sn', data');
    }
  }
}
