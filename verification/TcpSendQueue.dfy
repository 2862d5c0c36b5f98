/** The bounded send queue of the TCP socket. The kernel's answer to each write
    is a parameter. */
module TcpSendQueue {
  import opened Arith
  import opened Sequences

  type Message = seq<Byte>

  datatype Entry = Entry(buf: Message, canDrop: bool)

  /** `Wrote(n)`: the kernel took n bytes. `Failed` and `Broken` are errors;
      the first is treated like a full socket buffer when a message is sent. */
  datatype WriteResult = Wrote(n: nat) | WouldBlock | Failed | Broken

  const MAX_QUEUE_LENGTH: nat := 20

  /** The queue with its history: the bytes the kernel took, the messages sent
      completely, and the message the queue's head belongs to. */
  datatype Socket = Socket(queue: seq<Entry>, written: seq<Byte>, done: seq<Message>, head: Message)

  function Bufs(q: seq<Entry>): (r: seq<Message>)
    ensures |r| == |q| && forall i :: 0 <= i < |q| ==> r[i] == q[i].buf
  {
    if q == [] then [] else [q[0].buf] + Bufs(q[1..])
  }

  /** The accepted messages that were not dropped, oldest first. */
  function Kept(s: Socket): seq<Message> {
    if s.queue == [] then s.done else s.done + [s.head] + Bufs(s.queue[1..])
  }

  /** How much of the head's message the kernel already has. */
  function Sent(s: Socket): int
    requires s.queue != []
  {
    |s.head| - |s.queue[0].buf|
  }

  // ---------------------------------------------------------------------
  // Operations

  /** Put the rest of the message being written back at the front. */
  function PushHead(s: Socket, buf: Message): Socket {
    if buf == [] then s else s.(queue := [Entry(buf, false)] + s.queue)
  }

  function PushTail(s: Socket, buf: Message): Socket {
    if buf == [] then s
    else s.(queue := s.queue + [Entry(buf, true)], head := if s.queue == [] then buf else s.head)
  }

  function FirstDroppable(q: seq<Entry>): (k: nat)
    ensures k <= |q|
    ensures forall i :: 0 <= i < k ==> !q[i].canDrop
    ensures k < |q| ==> q[k].canDrop
  {
    if q == [] || q[0].canDrop then 0 else 1 + FirstDroppable(q[1..])
  }

  /** Remove entry `k`; if it is the head, the next entry becomes the head. */
  function Remove(s: Socket, k: nat): Socket
    requires k < |s.queue|
  {
    s.(queue := s.queue[..k] + s.queue[k + 1..],
       head := if k == 0 && |s.queue| > 1 then s.queue[1].buf else s.head)
  }

  function MakeRoom(s: Socket): Socket {
    var k := FirstDroppable(s.queue);
    if |s.queue| >= MAX_QUEUE_LENGTH && k < |s.queue| then Remove(s, k) else s
  }

  /** Send a message; the second result is the return value. */
  function Send(s: Socket, buf: Message, res: WriteResult): (Socket, bool) {
    if s.queue != [] then (PushTail(MakeRoom(s), buf), true)
    else
      match res
      case Wrote(n) =>
        var n' := Min(n, |buf|);
        var s1 := s.(written := s.written + buf[..n']);
        if n' < |buf| then (PushHead(s1.(head := buf), buf[n'..]), true)
        else (if buf == [] then s1 else s1.(done := s.done + [buf]), true)
      case Broken => (s, false)
      case _ => (PushTail(s, buf), true)
  }

  /** The head entry was taken off the queue without being written. */
  function DropHead(s: Socket): Socket
    requires s.queue != []
  {
    s.(queue := s.queue[1..], head := if |s.queue| > 1 then s.queue[1].buf else s.head)
  }

  /** The head entry was written completely. */
  function FinishHead(s: Socket): Socket
    requires s.queue != []
  {
    DropHead(s.(written := s.written + s.queue[0].buf, done := s.done + [s.head]))
  }

  /** The kernel took `n` bytes of the head, fewer than all. */
  function Shorten(s: Socket, n: nat): Socket
    requires s.queue != [] && n <= |s.queue[0].buf|
  {
    var buf := s.queue[0].buf;
    s.(written := s.written + buf[..n], queue := [Entry(buf[n..], false)] + s.queue[1..])
  }

  /** The socket is writable: write until the kernel takes no more. */
  function Flush(s: Socket, results: nat -> WriteResult, i: nat): Socket
    decreases |s.queue|
  {
    if s.queue == [] then s
    else
      match results(i)
      case Wrote(n) =>
        if n < |s.queue[0].buf| then Shorten(s, n)
        else Flush(FinishHead(s), results, i + 1)
      case WouldBlock => Shorten(s, 0)
      case _ => Flush(DropHead(s), results, i + 1)
  }

  // ---------------------------------------------------------------------
  // The invariant

  /** The kernel has whole messages in order and then the first part of the
      head's message; a partly written head cannot be dropped. */
  ghost predicate Ordered(s: Socket) {
    && |s.queue| <= MAX_QUEUE_LENGTH
    && (forall i :: 0 <= i < |s.queue| ==> s.queue[i].buf != [])
    && (forall i :: 1 <= i < |s.queue| ==> s.queue[i].canDrop)
    && (if s.queue == [] then s.written == Flatten(s.done)
        else
          && 0 <= Sent(s)
          && s.queue[0].buf == s.head[Sent(s)..]
          && (Sent(s) > 0 ==> !s.queue[0].canDrop)
          && s.written == Flatten(s.done) + s.head[..Sent(s)])
  }

  lemma FinishKeeps(s: Socket)
    requires Ordered(s) && s.queue != []
    ensures Ordered(FinishHead(s)) && Kept(FinishHead(s)) == Kept(s)
  {
    FinishOrdered(s);
    hide Ordered;
    FinishKept(s);
  }

  lemma FinishOrdered(s: Socket)
    requires Ordered(s) && s.queue != []
    ensures Ordered(FinishHead(s))
  {
    FlattenAppend(s.done, s.head);
    hide Flatten, Bufs;
    var s' := FinishHead(s);
    assert s'.written == Flatten(s.done) + (s.head[..Sent(s)] + s.head[Sent(s)..]);
    assert s.head == s.head[..Sent(s)] + s.head[Sent(s)..];
    assert forall i :: 0 <= i < |s'.queue| ==> s'.queue[i] == s.queue[i + 1];
    assert s'.head[0..] == s'.head && s'.head[..0] == [];
  }

  lemma BufsCons(q: seq<Entry>)
    requires q != []
    ensures Bufs(q) == [q[0].buf] + Bufs(q[1..])
  {
  }

  lemma Assoc(a: seq<Message>, x: Message, rest: seq<Message>)
    ensures a + [x] + rest == a + ([x] + rest)
  {
  }

  lemma FinishKept(s: Socket)
    requires s.queue != []
    ensures Kept(FinishHead(s)) == Kept(s)
  {
    var q := s.queue[1..];
    if q == [] {
      assert Bufs(q) == [];
    } else {
      BufsCons(q);
      hide Bufs;
      Assoc(s.done + [s.head], q[0].buf, Bufs(q[1..]));
    }
  }

  lemma ShortenKeeps(s: Socket, n: nat)
    requires Ordered(s) && s.queue != [] && n < |s.queue[0].buf|
    ensures Ordered(Shorten(s, n)) && Kept(Shorten(s, n)) == Kept(s)
  {
    hide Flatten, Bufs;
    var s' := Shorten(s, n);
    assert s'.queue[1..] == s.queue[1..];
    assert forall i :: 1 <= i < |s.queue| ==> s'.queue[i] == s.queue[i];
    CutHead(s.head, Sent(s), n);
    assert s'.written == Flatten(s.done) + (s.head[..Sent(s)] + s.head[Sent(s)..][..n]);
  }

  lemma CutHead(m: Message, k: nat, n: nat)
    requires k + n <= |m|
    ensures m[k..][n..] == m[k + n..] && m[..k] + m[k..][..n] == m[..k + n]
  {
  }

  /** Writing on while the kernel takes bytes or blocks keeps the order and
      loses nothing. */
  lemma {:induction false} FlushKeeps(s: Socket, results: nat -> WriteResult, i: nat)
    requires Ordered(s)
    requires forall j :: results(j).Wrote? || results(j).WouldBlock?
    ensures Ordered(Flush(s, results, i)) && Kept(Flush(s, results, i)) == Kept(s)
    decreases |s.queue|
  {
    if s.queue != [] {
      match results(i)
      case Wrote(n) =>
        if n < |s.queue[0].buf| {
          ShortenKeeps(s, n);
        } else {
          FinishKeeps(s);
          FlushKeeps(FinishHead(s), results, i + 1);
        }
      case WouldBlock =>
        ShortenKeeps(s, 0);
    }
  }

  /** An error on the head keeps the order exactly when none of its message has
      been written yet: otherwise the stream is left with a torn message. */
  lemma ErrorKeepsOrderIff(s: Socket)
    requires Ordered(s) && s.queue != []
    ensures Ordered(DropHead(s)) <==> Sent(s) == 0
  {
    var s' := DropHead(s);
    if |s.queue| > 1 {
      assert s'.head[0..] == s'.head && s'.head[..0] == [];
      assert Sent(s') == 0;
      assert s.written == Flatten(s.done) + s.head[..Sent(s)];
      if Ordered(s') {
        assert |s'.written| == |Flatten(s.done)|;
      }
    }
  }

  lemma RemoveOrdered(s: Socket, k: nat)
    requires Ordered(s) && k < |s.queue| && s.queue[k].canDrop
    ensures Ordered(Remove(s, k))
  {
    hide Flatten, Bufs;
    var s' := Remove(s, k);
    if k == 0 {
      assert s'.queue == s.queue[1..];
      assert s.head[..0] == [] && s.written == Flatten(s.done);
      assert s'.head[0..] == s'.head && s'.head[..0] == [];
    } else {
      assert s'.queue[0] == s.queue[0];
      assert forall i :: 0 <= i < |s'.queue| ==> s'.queue[i] == s.queue[if i < k then i else i + 1];
    }
  }

  lemma RemoveHeadKept(s: Socket)
    requires s.queue != []
    ensures Kept(Remove(s, 0)) == s.done + Bufs(s.queue[1..])
  {
    var q := s.queue[1..];
    assert Remove(s, 0).queue == q;
    if q == [] {
      assert Bufs(q) == [];
    } else {
      BufsCons(q);
      hide Bufs;
      Assoc(s.done, q[0].buf, Bufs(q[1..]));
    }
  }

  lemma RemoveTailKept(s: Socket, k: nat)
    requires 0 < k < |s.queue|
    ensures var tail := Bufs(s.queue[1..]);
            Kept(Remove(s, k)) == s.done + [s.head] + (tail[..k - 1] + tail[k..])
  {
    var s' := Remove(s, k);
    assert s'.queue[1..] == s.queue[1..][..k - 1] + s.queue[1..][k..];
    assert Bufs(s'.queue[1..]) == Bufs(s.queue[1..])[..k - 1] + Bufs(s.queue[1..])[k..];
  }

  lemma LeaveOut(a: seq<Message>, x: Message, tail: seq<Message>, k: nat)
    requires k <= |tail|
    ensures var all := a + [x] + tail;
            all[..|a| + k] + all[|a| + k + 1..] ==
            if k == 0 then a + tail else a + [x] + (tail[..k - 1] + tail[k..])
  {
  }

  /** Removing an entry removes exactly its message from the kept ones. */
  lemma RemoveKeeps(s: Socket, k: nat)
    requires Ordered(s) && k < |s.queue| && s.queue[k].canDrop
    ensures Ordered(Remove(s, k))
    ensures var d := |s.done|;
            d + k < |Kept(s)| && Kept(Remove(s, k)) == Kept(s)[..d + k] + Kept(s)[d + k + 1..]
  {
    RemoveOrdered(s, k);
    hide Ordered, Remove, Bufs;
    LeaveOut(s.done, s.head, Bufs(s.queue[1..]), k);
    if k == 0 {
      RemoveHeadKept(s);
    } else {
      RemoveTailKept(s, k);
    }
  }

  lemma PushTailKeeps(s: Socket, buf: Message)
    requires Ordered(s) && |s.queue| < MAX_QUEUE_LENGTH
    ensures Ordered(PushTail(s, buf))
    ensures Kept(PushTail(s, buf)) == if buf == [] then Kept(s) else Kept(s) + [buf]
  {
    if buf != [] {
      var s' := PushTail(s, buf);
      if s.queue == [] {
        assert s'.queue[1..] == [] && buf[0..] == buf && buf[..0] == [];
      } else {
        assert s'.queue[1..] == s.queue[1..] + [Entry(buf, true)];
        assert Bufs(s'.queue[1..]) == Bufs(s.queue[1..]) + [buf];
      }
    }
  }

  /** At most one entry, the head, cannot be dropped: there is always room. */
  lemma RoomIsMade(s: Socket)
    requires Ordered(s)
    ensures Ordered(MakeRoom(s)) && |MakeRoom(s).queue| < MAX_QUEUE_LENGTH
  {
    var k := FirstDroppable(s.queue);
    if |s.queue| >= MAX_QUEUE_LENGTH {
      assert s.queue[1].canDrop && k <= 1;
      RemoveKeeps(s, k);
    }
  }

  lemma SendDirectKeeps(s: Socket, buf: Message, n: nat)
    requires Ordered(s) && s.queue == []
    ensures Ordered(Send(s, buf, Wrote(n)).0)
    ensures Kept(Send(s, buf, Wrote(n)).0) == if buf == [] then Kept(s) else Kept(s) + [buf]
  {
    var n' := Min(n, |buf|);
    var s' := Send(s, buf, Wrote(n)).0;
    if n' < |buf| {
      assert s'.queue == [Entry(buf[n'..], false)] && s'.queue[1..] == [];
      assert Sent(s') == n';
    } else {
      assert buf[..n'] == buf;
      FlattenAppend(s.done, buf);
    }
  }

  // ---------------------------------------------------------------------
  // Runs

  datatype Event = DoSend(buf: Message, res: WriteResult) | DoFlush(results: nat -> WriteResult)

  /** Write results that leave the connection usable. */
  ghost predicate NonFatal(e: Event) {
    match e
    case DoSend(_, res) => !res.Broken?
    case DoFlush(results) => forall j :: results(j).Wrote? || results(j).WouldBlock?
  }

  function Step(s: Socket, e: Event): Socket {
    match e
    case DoSend(buf, res) => Send(s, buf, res).0
    case DoFlush(results) => Flush(s, results, 0)
  }

  function Run(s: Socket, events: seq<Event>): Socket
    decreases |events|
  {
    if events == [] then s else Run(Step(s, events[0]), events[1..])
  }

  function OfferedBy(e: Event): seq<Message> {
    if e.DoSend? && e.buf != [] then [e.buf] else []
  }

  /** The non-empty messages handed to `Send` in a run. */
  function Offered(events: seq<Event>): seq<Message> {
    if events == [] then [] else OfferedBy(events[0]) + Offered(events[1..])
  }

  /** `a` is `b` with some elements left out. */
  ghost predicate Within<T>(a: seq<T>, b: seq<T>)
    decreases |b|
  {
    if b == [] then a == []
    else Within(a, b[1..]) || (a != [] && a[0] == b[0] && Within(a[1..], b[1..]))
  }

  lemma {:induction false} WithinRefl<T>(a: seq<T>)
    ensures Within(a, a)
  {
    if a != [] {
      WithinRefl(a[1..]);
    }
  }

  lemma {:induction false} WithinDrop<T>(a: seq<T>, b: seq<T>, k: nat)
    requires Within(a, b) && k < |a|
    ensures Within(a[..k] + a[k + 1..], b)
    decreases |b|
  {
    var a' := a[..k] + a[k + 1..];
    if Within(a, b[1..]) {
      WithinDrop(a, b[1..], k);
    } else if k == 0 {
      assert a' == a[1..];
    } else {
      WithinDrop(a[1..], b[1..], k - 1);
      assert a'[1..] == a[1..][..k - 1] + a[1..][k..];
    }
  }

  lemma {:induction false} WithinAppend<T>(a: seq<T>, b: seq<T>, x: T)
    requires Within(a, b)
    ensures Within(a + [x], b + [x])
    decreases |b|
  {
    if b == [] {
      WithinRefl([x]);
      assert a + [x] == [x] && b + [x] == [x];
    } else {
      assert (b + [x])[1..] == b[1..] + [x];
      if Within(a, b[1..]) {
        WithinAppend(a, b[1..], x);
      } else {
        WithinAppend(a[1..], b[1..], x);
        assert (a + [x])[1..] == a[1..] + [x];
      }
    }
  }

  lemma SendKeeps(s: Socket, buf: Message, res: WriteResult, offered: seq<Message>)
    requires Ordered(s) && !res.Broken? && Within(Kept(s), offered)
    ensures var s' := Send(s, buf, res).0;
            Ordered(s') && Within(Kept(s'), if buf == [] then offered else offered + [buf])
  {
    if s.queue != [] {
      RoomIsMade(s);
      var s1 := MakeRoom(s);
      var k := FirstDroppable(s.queue);
      if s1 != s {
        RemoveKeeps(s, k);
        WithinDrop(Kept(s), offered, |s.done| + k);
      }
      PushTailKeeps(s1, buf);
      WithinAppend(Kept(s1), offered, buf);
    } else {
      if res.Wrote? {
        SendDirectKeeps(s, buf, res.n);
      } else {
        PushTailKeeps(s, buf);
      }
      WithinAppend(Kept(s), offered, buf);
    }
  }

  lemma StepKeeps(s: Socket, e: Event, before: seq<Message>)
    requires Ordered(s) && Within(Kept(s), before) && NonFatal(e)
    ensures Ordered(Step(s, e)) && Within(Kept(Step(s, e)), before + OfferedBy(e))
  {
    hide Ordered, Kept, Send, Flush, Within;
    assert before + [] == before;
    match e
    case DoSend(buf, res) => SendKeeps(s, buf, res, before);
    case DoFlush(results) => FlushKeeps(s, results, 0);
  }

  lemma {:induction false} RunKeeps(s: Socket, events: seq<Event>, before: seq<Message>)
    requires Ordered(s) && Within(Kept(s), before)
    requires forall e :: e in events ==> NonFatal(e)
    ensures Ordered(Run(s, events)) && Within(Kept(Run(s, events)), before + Offered(events))
    decreases |events|
  {
    hide Ordered, Kept, Step, Within, OfferedBy, NonFatal;
    if events == [] {
      assert before + [] == before;
    } else {
      var e := events[0];
      assert e in events;
      StepKeeps(s, e, before);
      assert forall e' :: e' in events[1..] ==> e' in events;
      RunKeeps(Step(s, e), events[1..], before + OfferedBy(e));
      assert before + OfferedBy(e) + Offered(events[1..]) == before + (OfferedBy(e) + Offered(events[1..]));
    }
  }

  const Empty: Socket := Socket([], [], [], [])

  /** Main theorem. For every interleaving of sends and writable events without
      fatal write errors, the bytes the kernel took are whole messages in the
      order they were sent, some left out, followed by the first part of at most
      one message, whose rest is the undroppable head of the queue; and the
      queue never holds more than 20 entries. */
  lemma WholeMessagesInOrder(events: seq<Event>)
    requires forall e :: e in events ==> NonFatal(e)
    ensures var s := Run(Empty, events);
            && |s.queue| <= MAX_QUEUE_LENGTH
            && Within(Kept(s), Offered(events))
            && (if s.queue == [] then s.written == Flatten(s.done)
                else
                  && 0 <= Sent(s) && s.written == Flatten(s.done) + s.head[..Sent(s)]
                  && s.queue[0].buf == s.head[Sent(s)..]
                  && (Sent(s) > 0 ==> !s.queue[0].canDrop))
  {
    RunKeeps(Empty, events, []);
    assert [] + Offered(events) == Offered(events);
  }

  // ---------------------------------------------------------------------
  // What is dropped

  /** A message is dropped only for a send that finds twenty entries queued, and then it is
      the oldest one that has not been written in part. */
  lemma DroppedOnlyWhenFull(s: Socket, buf: Message, res: WriteResult)
    requires Ordered(s) && !res.Broken?
    ensures var k := |s.done| + (if s.queue != [] && !s.queue[0].canDrop then 1 else 0);
            var kept := if |s.queue| < 20 || k >= |Kept(s)| then Kept(s) else Kept(s)[..k] + Kept(s)[k + 1..];
            && (|s.queue| == 20 ==> k < |Kept(s)|)
            && Kept(Send(s, buf, res).0) == kept + OfferedBy(DoSend(buf, res))
  {
    if s.queue != [] {
      RoomIsMade(s);
      var k := FirstDroppable(s.queue);
      if |s.queue| == 20 {
        assert s.queue[1].canDrop && k == if s.queue[0].canDrop then 0 else 1;
        RemoveKeeps(s, k);
      }
      hide Ordered, Kept, Remove;
      PushTailKeeps(MakeRoom(s), buf);
    } else if res.Wrote? {
      SendDirectKeeps(s, buf, res.n);
    } else {
      PushTailKeeps(s, buf);
    }
  }

  /** Every send of the run finds room. */
  ghost predicate Roomy(s: Socket, events: seq<Event>)
    decreases |events|
  {
    events == [] || ((events[0].DoSend? ==> |s.queue| < 20) && Roomy(Step(s, events[0]), events[1..]))
  }

  /** While there is room every message offered is kept, and with an empty queue at the end
      all of them have been written. */
  lemma {:induction false} NothingDroppedWithRoom(s: Socket, events: seq<Event>)
    requires Ordered(s) && Roomy(s, events) && forall e :: e in events ==> NonFatal(e)
    ensures Kept(Run(s, events)) == Kept(s) + Offered(events)
    ensures Run(s, events).queue == [] ==> Run(s, events).written == Flatten(Kept(s) + Offered(events))
    decreases |events|
  {
    hide Ordered, Kept, Step, OfferedBy, NonFatal, Flatten;
    if events == [] {
      assert Kept(s) + [] == Kept(s);
      EmptyWritten(s);
    } else {
      var e := events[0];
      assert e in events;
      StepRoomy(s, e);
      assert forall e' :: e' in events[1..] ==> e' in events;
      NothingDroppedWithRoom(Step(s, e), events[1..]);
      assert Kept(s) + OfferedBy(e) + Offered(events[1..]) == Kept(s) + (OfferedBy(e) + Offered(events[1..]));
    }
  }

  lemma EmptyWritten(s: Socket)
    requires Ordered(s)
    ensures s.queue == [] ==> s.written == Flatten(Kept(s))
  {
  }

  lemma StepRoomy(s: Socket, e: Event)
    requires Ordered(s) && NonFatal(e) && (e.DoSend? ==> |s.queue| < 20)
    ensures Ordered(Step(s, e)) && Kept(Step(s, e)) == Kept(s) + OfferedBy(e)
  {
    WithinRefl(Kept(s));
    StepKeeps(s, e, Kept(s));
    hide Ordered, Kept, Send, Flush;
    match e
    case DoSend(buf, res) => DroppedOnlyWhenFull(s, buf, res);
    case DoFlush(results) => FlushKeeps(s, results, 0);
  }

  // ---------------------------------------------------------------------
  // The socket object

  class TcpSocket {
    var queue: seq<Entry>
    ghost var written: seq<Byte>
    ghost var done: seq<Message>
    ghost var head: Message

    ghost function Model(): Socket
      reads this
    {
      Socket(queue, written, done, head)
    }

    method AddToBeSent(buf: Message, atHead: bool)
      modifies this
      ensures Model() == if atHead then PushHead(old(Model()), buf) else PushTail(old(Model()), buf)
    {
      if |buf| == 0 {
        return;
      }
      if atHead {
        queue := [Entry(buf, false)] + queue;
      } else {
        if queue == [] {
          head := buf;
        }
        queue := queue + [Entry(buf, true)];
      }
    }

    /** Drop the oldest entry that may be dropped, if the queue is full. */
    method DropOne()
      modifies this
      ensures Model() == MakeRoom(old(Model()))
    {
      if |queue| < MAX_QUEUE_LENGTH {
        return;
      }
      var k := 0;
      while k < |queue| && !queue[k].canDrop
        invariant k <= |queue|
        invariant FirstDroppable(queue) == k + FirstDroppable(queue[k..])
        invariant Model() == old(Model())
      {
        assert queue[k..][1..] == queue[k + 1..];
        k := k + 1;
      }
      if k < |queue| {
        if k == 0 && |queue| > 1 {
          head := queue[1].buf;
        }
        queue := queue[..k] + queue[k + 1..];
      }
    }

    method Write(buf: Message, res: WriteResult) returns (ok: bool)
      modifies this
      ensures (Model(), ok) == Send(old(Model()), buf, res)
    {
      ok := true;
      if queue != [] {
        DropOne();
        AddToBeSent(buf, false);
        return;
      }
      match res {
        case Wrote(n) =>
          var taken := Min(n, |buf|);
          written := written + buf[..taken];
          if taken < |buf| {
            head := buf;
            AddToBeSent(buf[taken..], true);
          } else if buf != [] {
            done := done + [buf];
          }
        case Broken =>
          ok := false;
        case _ =>
          AddToBeSent(buf, false);
      }
    }

    /** The socket became writable. */
    method SendMore(results: nat -> WriteResult)
      modifies this
      ensures Model() == Flush(old(Model()), results, 0)
    {
      var i := 0;
      while queue != []
        invariant Flush(Model(), results, i) == Flush(old(Model()), results, 0)
        decreases |queue|
      {
        var tbs := queue[0];
        var res := results(i);
        if res == WouldBlock || (res.Wrote? && res.n < |tbs.buf|) {
          var n := if res.Wrote? then res.n else 0;
          queue := [Entry(tbs.buf[n..], false)] + queue[1..];
          written := written + tbs.buf[..n];
          return;
        }
        if res.Wrote? {
          written := written + tbs.buf;
          done := done + [head];
        }
        if |queue| > 1 {
          head := queue[1].buf;
        }
        queue := queue[1..];
        i := i + 1;
      }
    }
  }
}
