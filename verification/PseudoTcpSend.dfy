/** The send side of the pseudo-TCP socket: a buffer of unacknowledged bytes
    starting at `sndUna`, cut into the segments of `slist`. */
module PseudoTcpSend {
  import opened Arith

  const SND_BUF_SIZE: nat := 92160

  datatype SSegment = SSegment(sn: nat, len: nat, xmit: nat, ctrl: bool) {
    function End(): nat { sn + len }
  }

  /** `sbuf` is the first `slen` bytes of the C buffer of the same name. */
  datatype Sender = Sender(
    sbuf: seq<Byte>,
    slist: seq<SSegment>,
    sndUna: nat,
    sndNxt: nat,
    sndWnd: nat,
    largest: nat)
  {
    function End(): nat { sndUna + |sbuf| }
  }

  const InitialSender: Sender := Sender([], [], 0, 0, 1, 0)

  // ---------------------------------------------------------------------
  // Operations

  /** Append to the last segment if it is of the same kind and unsent. */
  function Enqueue(s: Sender, data: seq<Byte>, ctrl: bool): Sender
    requires |s.sbuf| + |data| <= SND_BUF_SIZE
  {
    var n := |s.slist|;
    var slist' :=
      if n > 0 && s.slist[n - 1].ctrl == ctrl && s.slist[n - 1].xmit == 0 then
        s.slist[..n - 1] + [s.slist[n - 1].(len := s.slist[n - 1].len + |data|)]
      else
        s.slist + [SSegment(U32(s.End()), |data|, 0, ctrl)];
    s.(slist := slist', sbuf := s.sbuf + data)
  }

  /** Drop `nFree` acknowledged bytes from the front. A partly acknowledged
      segment is shortened but keeps its sequence number. */
  function FreeSegments(l: seq<SSegment>, largest: nat, nFree: nat): (seq<SSegment>, nat)
    requires nFree <= TotalLen(l)
    decreases |l|
  {
    if nFree == 0 then (l, largest)
    else if nFree < l[0].len then ([l[0].(len := l[0].len - nFree)] + l[1..], largest)
    else FreeSegments(l[1..], Max(largest, l[0].len), nFree - l[0].len)
  }

  function TotalLen(l: seq<SSegment>): nat {
    if l == [] then 0 else l[0].len + TotalLen(l[1..])
  }

  function FirstUnsent(l: seq<SSegment>): (k: nat)
    ensures k <= |l|
    ensures forall i :: 0 <= i < k ==> l[i].xmit > 0
    ensures k < |l| ==> l[k].xmit == 0
  {
    if l == [] || l[0].xmit == 0 then 0 else 1 + FirstUnsent(l[1..])
  }

  // ---------------------------------------------------------------------
  // Tiling

  /** The segments cover `[from, to)` without gap or overlap. */
  ghost predicate Tiles(l: seq<SSegment>, from: nat, to: nat)
    decreases |l|
  {
    if l == [] then from == to
    else l[0].sn == from && Tiles(l[1..], l[0].End(), to)
  }

  /** A sent segment lies below `nxt`, an unsent one at or above it, no segment
      was sent too often, and the connection byte is the one at sequence number 0. */
  predicate SegmentOk(s: SSegment, nxt: nat) {
    && (if s.xmit > 0 then s.len > 0 && s.End() <= nxt else nxt <= s.sn)
    && s.xmit <= 30
    && (s.ctrl <==> s.sn == 0)
    && (s.ctrl ==> s.len == 1)
  }

  ghost predicate SegmentsOk(l: seq<SSegment>, nxt: nat) {
    forall s :: s in l ==> SegmentOk(s, nxt)
  }

  /** Only the last segment may be empty. */
  ghost predicate NonEmpty(l: seq<SSegment>) {
    forall i :: 0 <= i < |l| - 1 ==> l[i].len > 0
  }

  /** No segment has `x` strictly inside. */
  ghost predicate Boundary(l: seq<SSegment>, x: nat) {
    forall s :: s in l ==> x <= s.sn || s.End() <= x
  }

  ghost predicate SendOk(s: Sender) {
    && |s.sbuf| <= SND_BUF_SIZE
    && s.sndUna <= s.sndNxt <= s.End() < TWO32
    && Tiles(s.slist, s.sndUna, s.End())
    && SegmentsOk(s.slist, s.sndNxt)
    && NonEmpty(s.slist)
  }

  // ---------------------------------------------------------------------
  // Lemmas on tilings

  lemma {:induction false} TilesConcat(a: seq<SSegment>, b: seq<SSegment>, from: nat, mid: nat, to: nat)
    requires Tiles(a, from, mid)
    ensures Tiles(a + b, from, to) <==> Tiles(b, mid, to)
  {
    if a == [] {
      assert a + b == b;
    } else {
      TilesConcat(a[1..], b, a[0].End(), mid, to);
      assert (a + b)[1..] == a[1..] + b;
    }
  }

  lemma {:induction false} TilesAt(l: seq<SSegment>, from: nat, to: nat, i: nat)
    requires Tiles(l, from, to) && i <= |l|
    ensures var mid := if i < |l| then l[i].sn else to;
            from <= mid <= to && Tiles(l[..i], from, mid) && Tiles(l[i..], mid, to)
  {
    if i == 0 {
      assert l[..0] == [] && l[0..] == l;
      TilesOrdered(l, from, to);
    } else {
      TilesAt(l[1..], l[0].End(), to, i - 1);
      assert l[1..][i - 1..] == l[i..];
      assert l[..i][1..] == l[1..][..i - 1];
    }
  }

  lemma {:induction false} TilesOrdered(l: seq<SSegment>, from: nat, to: nat)
    requires Tiles(l, from, to)
    ensures from <= to
    ensures forall s :: s in l ==> from <= s.sn && s.End() <= to
    ensures TotalLen(l) == to - from
  {
    if l != [] {
      TilesOrdered(l[1..], l[0].End(), to);
      forall s | s in l
        ensures from <= s.sn && s.End() <= to
      {
        assert s == l[0] || s in l[1..];
      }
    }
  }

  /** `l` with segment `i` replaced by `mid`. */
  function Replace(l: seq<SSegment>, i: nat, mid: seq<SSegment>): seq<SSegment>
    requires i < |l|
  {
    l[..i] + mid + l[i + 1..]
  }

  lemma TilesReplace(l: seq<SSegment>, from: nat, to: nat, i: nat, mid: seq<SSegment>)
    requires Tiles(l, from, to) && i < |l|
    requires Tiles(mid, l[i].sn, l[i].End())
    ensures Tiles(Replace(l, i, mid), from, to)
  {
    TilesAt(l, from, to, i);
    assert l[i..][1..] == l[i + 1..];
    TilesConcat(mid, l[i + 1..], l[i].sn, l[i].End(), to);
    TilesConcat(l[..i], mid + l[i + 1..], from, l[i].sn, to);
    assert l[..i] + mid + l[i + 1..] == l[..i] + (mid + l[i + 1..]);
  }

  lemma InReplace(l: seq<SSegment>, i: nat, mid: seq<SSegment>, e: SSegment)
    requires i < |l|
    ensures e in Replace(l, i, mid) <==> e in l[..i] || e in mid || e in l[i + 1..]
    ensures e in l <==> e in l[..i] || e == l[i] || e in l[i + 1..]
  {
    assert l == l[..i] + [l[i]] + l[i + 1..];
  }

  lemma BoundaryReplace(l: seq<SSegment>, i: nat, mid: seq<SSegment>, x: nat)
    requires i < |l| && Boundary(l, x) && Boundary(mid, x)
    ensures Boundary(Replace(l, i, mid), x)
  {
    forall e | e in Replace(l, i, mid)
      ensures x <= e.sn || e.End() <= x
    {
      InReplace(l, i, mid, e);
    }
  }

  // ---------------------------------------------------------------------
  // What the operations keep

  /** Every position already a segment boundary below `nxt` stays one. */
  ghost predicate KeepsBoundaries(l: seq<SSegment>, l': seq<SSegment>, nxt: nat) {
    forall x: nat :: x <= nxt && Boundary(l, x) ==> Boundary(l', x)
  }

  lemma EnqueueKeeps(s: Sender, data: seq<Byte>, ctrl: bool)
    requires SendOk(s)
    requires |s.sbuf| + |data| <= SND_BUF_SIZE && s.End() + |data| < TWO32
    requires if ctrl then s.End() == 0 && |data| == 1 else s.End() > 0
    ensures SendOk(Enqueue(s, data, ctrl))
    ensures KeepsBoundaries(s.slist, Enqueue(s, data, ctrl).slist, s.sndNxt)
  {
    var n := |s.slist|;
    TilesOrdered(s.slist, s.sndUna, s.End());
    assert n > 0 ==> s.slist[n - 1] in s.slist;
    if n > 0 && s.slist[n - 1].ctrl == ctrl && s.slist[n - 1].xmit == 0 {
      ExtendLastKeeps(s, data);
    } else {
      AppendKeeps(s, data, ctrl);
    }
  }

  lemma ExtendLastKeeps(s: Sender, data: seq<Byte>)
    requires SendOk(s) && s.End() + |data| < TWO32 && |s.sbuf| + |data| <= SND_BUF_SIZE
    requires s.slist != [] && !s.slist[|s.slist| - 1].ctrl && s.slist[|s.slist| - 1].xmit == 0
    ensures var last := s.slist[|s.slist| - 1];
            var l' := s.slist[..|s.slist| - 1] + [last.(len := last.len + |data|)];
            SendOk(s.(slist := l', sbuf := s.sbuf + data)) && KeepsBoundaries(s.slist, l', s.sndNxt)
  {
    var n := |s.slist|;
    var last := s.slist[n - 1];
    TilesAt(s.slist, s.sndUna, s.End(), n - 1);
    assert s.slist[n - 1..] == [last];
    TilesConcat(s.slist[..n - 1], [last.(len := last.len + |data|)], s.sndUna, last.sn, s.End() + |data|);
    assert last in s.slist;
    assert forall e :: e in s.slist[..n - 1] ==> e in s.slist;
  }

  lemma AppendKeeps(s: Sender, data: seq<Byte>, ctrl: bool)
    requires SendOk(s) && s.End() + |data| < TWO32 && |s.sbuf| + |data| <= SND_BUF_SIZE
    requires if ctrl then s.End() == 0 && |data| == 1 else s.End() > 0
    requires s.slist != [] ==>
               s.slist[|s.slist| - 1].ctrl != ctrl || s.slist[|s.slist| - 1].xmit > 0
    ensures var l' := s.slist + [SSegment(s.End(), |data|, 0, ctrl)];
            SendOk(s.(slist := l', sbuf := s.sbuf + data)) && KeepsBoundaries(s.slist, l', s.sndNxt)
  {
    var tail := SSegment(s.End(), |data|, 0, ctrl);
    TilesOrdered(s.slist, s.sndUna, s.End());
    TilesConcat(s.slist, [tail], s.sndUna, s.End(), s.End() + |data|);
    if s.slist != [] {
      assert s.slist[|s.slist| - 1] in s.slist;
    }
  }

  /** The two parts of a segment cut after `n` bytes. */
  function Parts(seg: SSegment, n: nat): seq<SSegment>
    requires n <= seg.len
  {
    [seg.(len := n), SSegment(seg.sn + n, seg.len - n, seg.xmit, seg.ctrl)]
  }

  /** Cut segment `i` in two after `n` bytes. */
  function Split(l: seq<SSegment>, i: nat, n: nat): seq<SSegment>
    requires i < |l| && n <= l[i].len
  {
    Replace(l, i, Parts(l[i], n))
  }

  /** Cutting a data segment in two removes no boundary. */
  lemma SplitKeeps(s: Sender, i: nat, n: nat)
    requires SendOk(s) && i < |s.slist| && 0 < n < s.slist[i].len
    ensures SendOk(s.(slist := Split(s.slist, i, n)))
    ensures KeepsBoundaries(s.slist, Split(s.slist, i, n), s.sndNxt)
  {
    var seg := s.slist[i];
    var parts := Parts(seg, n);
    var l' := Split(s.slist, i, n);
    assert seg in s.slist;
    assert Tiles(l', s.sndUna, s.End()) by {
      assert Tiles(parts[1..], seg.sn + n, seg.End());
      TilesReplace(s.slist, s.sndUna, s.End(), i, parts);
    }
    forall e | e in l' ensures SegmentOk(e, s.sndNxt) {
      InReplace(s.slist, i, parts, e);
    }
    forall x: nat | Boundary(s.slist, x) ensures Boundary(l', x) {
      BoundaryReplace(s.slist, i, parts, x);
    }
  }

  /** What `transmit` records for a segment that was handed to the network. */
  function MarkSent(s: Sender, i: nat): Sender
    requires i < |s.slist|
  {
    var seg := s.slist[i];
    s.(slist := Replace(s.slist, i, [seg.(xmit := seg.xmit + 1)]),
       sndNxt := if seg.xmit == 0 then U32(s.sndNxt + seg.len) else s.sndNxt)
  }

  lemma MarkSentKeeps(s: Sender, i: nat)
    requires SendOk(s) && i < |s.slist|
    requires s.slist[i].len > 0 && s.slist[i].xmit < 30
    requires s.slist[i].xmit > 0 || s.slist[i].sn == s.sndNxt
    ensures SendOk(MarkSent(s, i))
    ensures MarkSent(s, i).sndNxt == Max(s.sndNxt, s.slist[i].End())
  {
    var seg := s.slist[i];
    var sent := seg.(xmit := seg.xmit + 1);
    var s' := MarkSent(s, i);
    assert seg in s.slist;
    Neighbours(s.slist, s.sndUna, s.End(), i);
    assert s'.sndNxt == Max(s.sndNxt, seg.End());
    assert Tiles(s'.slist, s.sndUna, s.End()) by {
      TilesReplace(s.slist, s.sndUna, s.End(), i, [sent]);
    }
    forall e | e in s'.slist ensures SegmentOk(e, s'.sndNxt) {
      InReplace(s.slist, i, [sent], e);
    }
  }

  /** The ends of a transmitted segment are boundaries, and no boundary is lost. */
  lemma MarkSentBoundaries(s: Sender, i: nat)
    requires SendOk(s) && i < |s.slist|
    ensures KeepsBoundaries(s.slist, MarkSent(s, i).slist, s.sndNxt)
    ensures Boundary(MarkSent(s, i).slist, s.slist[i].sn) && Boundary(MarkSent(s, i).slist, s.slist[i].End())
  {
    var seg := s.slist[i];
    var sent := seg.(xmit := seg.xmit + 1);
    Neighbours(s.slist, s.sndUna, s.End(), i);
    forall e | e in Replace(s.slist, i, [sent])
      ensures seg.sn <= e.sn || e.End() <= seg.sn
      ensures seg.End() <= e.sn || e.End() <= seg.End()
    {
      InReplace(s.slist, i, [sent], e);
    }
    assert seg in s.slist;
    forall x: nat | Boundary(s.slist, x) ensures Boundary(MarkSent(s, i).slist, x) {
      BoundaryReplace(s.slist, i, [sent], x);
    }
  }

  /** The first `n` bytes of segment `i` were sent: the rest becomes a segment of its own. */
  function RecordSent(s: Sender, i: nat, n: nat): Sender
    requires i < |s.slist| && n <= s.slist[i].len
  {
    MarkSent(if n < s.slist[i].len then s.(slist := Split(s.slist, i, n)) else s, i)
  }

  lemma RecordSentKeeps(s: Sender, i: nat, n: nat)
    requires SendOk(s) && i < |s.slist| && 0 < n <= s.slist[i].len && s.slist[i].xmit < 30
    requires s.slist[i].xmit > 0 || s.slist[i].sn == s.sndNxt
    ensures var s' := RecordSent(s, i, n);
            && SendOk(s') && KeepsBoundaries(s.slist, s'.slist, s.sndNxt)
            && s'.sndNxt == Max(s.sndNxt, s.slist[i].sn + n)
            && Boundary(s'.slist, s.slist[i].sn) && Boundary(s'.slist, s.slist[i].sn + n)
  {
    var s1 := s;
    if n < s.slist[i].len {
      SplitKeeps(s, i, n);
      s1 := s.(slist := Split(s.slist, i, n));
    }
    assert s1.slist[i] == s.slist[i].(len := n);
    MarkSentKeeps(s1, i);
    MarkSentBoundaries(s1, i);
  }

  /** Everything before segment `i` ends by its start, everything after starts by its end. */
  lemma Neighbours(l: seq<SSegment>, from: nat, to: nat, i: nat)
    requires Tiles(l, from, to) && i < |l|
    ensures from <= l[i].sn && l[i].End() <= to
    ensures forall e :: e in l[..i] ==> e.End() <= l[i].sn
    ensures forall e :: e in l[i + 1..] ==> l[i].End() <= e.sn
  {
    TilesAt(l, from, to, i);
    TilesOrdered(l[..i], from, l[i].sn);
    assert l[i..][1..] == l[i + 1..];
    TilesOrdered(l[i + 1..], l[i].End(), to);
  }

  /** There is an unsent segment right at `sndNxt` whenever bytes are unsent. */
  lemma UnsentAtNext(s: Sender)
    requires SendOk(s) && s.sndNxt < s.End()
    ensures FirstUnsent(s.slist) < |s.slist|
    ensures s.slist[FirstUnsent(s.slist)].sn == s.sndNxt
    ensures s.slist[FirstUnsent(s.slist)].len > 0
  {
    var k := FirstUnsent(s.slist);
    TilesAt(s.slist, s.sndUna, s.End(), k);
    if k > 0 {
      LastTile(s.slist[..k], s.sndUna, if k < |s.slist| then s.slist[k].sn else s.End());
      assert s.slist[k - 1] in s.slist;
    }
    if k < |s.slist| {
      assert s.slist[k] in s.slist;
      if k == |s.slist| - 1 {
        LastTile(s.slist, s.sndUna, s.End());
      }
    }
  }

  lemma LastTile(l: seq<SSegment>, from: nat, to: nat)
    requires Tiles(l, from, to) && l != []
    ensures l[|l| - 1].End() == to
  {
    TilesAt(l, from, to, |l| - 1);
    assert l[|l| - 1..] == [l[|l| - 1]];
  }

  /** With data in flight, the first segment is one that was sent. */
  lemma HeadInFlight(s: Sender)
    requires SendOk(s) && s.sndUna < s.sndNxt
    ensures s.slist != [] && s.slist[0].xmit > 0 && s.slist[0].len > 0
  {
    if s.slist != [] {
      assert s.slist[0] in s.slist;
    }
  }

  // ---------------------------------------------------------------------
  // Acknowledgements

  /** Freeing acknowledged bytes leaves a tiling exactly when the
      acknowledgement falls on a segment boundary. */
  lemma {:induction false} FreeTilesIff(l: seq<SSegment>, largest: nat, from: nat, to: nat, n: nat)
    requires Tiles(l, from, to) && n <= TotalLen(l)
    ensures Tiles(FreeSegments(l, largest, n).0, from + n, to) <==> Boundary(l, from + n)
    decreases |l|
  {
    TilesOrdered(l, from, to);
    if n == 0 {
    } else if n < l[0].len {
      assert l[0] in l;
    } else {
      FreeTilesIff(l[1..], Max(largest, l[0].len), l[0].End(), to, n - l[0].len);
      assert l == [l[0]] + l[1..];
      assert Boundary(l, from + n) <==> Boundary(l[1..], from + n);
    }
  }

  lemma {:induction false} FreeIsSuffix(l: seq<SSegment>, largest: nat, from: nat, to: nat, n: nat)
    requires Tiles(l, from, to) && n <= TotalLen(l) && Boundary(l, from + n)
    ensures exists k :: 0 <= k <= |l| && FreeSegments(l, largest, n).0 == l[k..]
    decreases |l|
  {
    assert l != [] ==> l[0] in l;
    if n == 0 {
      assert l[0..] == l;
    } else {
      assert forall e :: e in l[1..] ==> e in l;
      FreeIsSuffix(l[1..], Max(largest, l[0].len), l[0].End(), to, n - l[0].len);
      var k :| 0 <= k <= |l| - 1 && FreeSegments(l, largest, n).0 == l[1..][k..];
      assert l[1..][k..] == l[k + 1..];
    }
  }

  /** The effect of an acknowledgement on the send queue. */
  function Acknowledge(s: Sender, ack: nat, wnd: nat): Sender
    requires s.sndUna <= ack && ack - s.sndUna <= |s.sbuf| && ack - s.sndUna <= TotalLen(s.slist)
  {
    var nAcked := ack - s.sndUna;
    var (slist', largest') := FreeSegments(s.slist, s.largest, nAcked);
    s.(sbuf := s.sbuf[nAcked..], slist := slist', sndUna := ack, sndWnd := wnd, largest := largest')
  }

  lemma AcknowledgeKeeps(s: Sender, ack: nat, wnd: nat)
    requires SendOk(s) && s.sndUna < ack <= s.sndNxt
    requires Boundary(s.slist, ack)
    ensures ack - s.sndUna <= TotalLen(s.slist)
    ensures SendOk(Acknowledge(s, ack, wnd))
    ensures KeepsBoundaries(s.slist, Acknowledge(s, ack, wnd).slist, s.sndNxt)
  {
    var n := ack - s.sndUna;
    TilesOrdered(s.slist, s.sndUna, s.End());
    var l' := FreeSegments(s.slist, s.largest, n).0;
    assert Tiles(l', ack, s.End()) by {
      FreeTilesIff(s.slist, s.largest, s.sndUna, s.End(), n);
    }
    FreeIsSuffix(s.slist, s.largest, s.sndUna, s.End(), n);
    var k :| 0 <= k <= |s.slist| && l' == s.slist[k..];
    SuffixKeeps(s.slist, k, s.sndNxt);
  }

  lemma SuffixKeeps(l: seq<SSegment>, k: nat, nxt: nat)
    requires SegmentsOk(l, nxt) && NonEmpty(l) && k <= |l|
    ensures SegmentsOk(l[k..], nxt) && NonEmpty(l[k..]) && KeepsBoundaries(l, l[k..], nxt)
  {
    assert forall e :: e in l[k..] ==> e in l;
  }
}
