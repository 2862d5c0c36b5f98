/** Without inbound traffic a controlling agent's checks come to an end. */
module ConncheckTermination {
  import opened Arith
  import opened Candidates
  import opened Conncheck
  import opened ConncheckSteps
  import opened ConncheckOps
  import opened ConncheckTicks
  import T = StunTimer

  // ---------------------------------------------------------------------
  // Ranks

  /** How many requests can still be sent for a pair. */
  function Budget(p: Pair): nat {
    match p.state
    case Frozen | Waiting | Succeeded | Discovered => 1 + RETRANSMISSIONS
    case InProgress => if p.message.Some? then Left(p.timer) else 0
    case Failed | Cancelled => 0
  }

  /** How far a pair is from its end. */
  function Rank(p: Pair): nat {
    match p.state
    case Frozen => 4 + RETRANSMISSIONS
    case Waiting | Succeeded | Discovered => 3 + RETRANSMISSIONS
    case InProgress => if p.message.Some? then 2 + Left(p.timer) else 1
    case Failed | Cancelled => 0
  }

  /** How many requests have been sent for the pair `uid`. */
  function Requests(log: seq<Event>, uid: nat): nat {
    if log == [] then 0
    else
      var e := log[|log| - 1];
      Requests(log[..|log| - 1], uid) + (if e.Sent? && e.uid == uid then 1 else 0)
  }

  /** The pair pays for its requests and comes no farther from its end, and strictly
      closer with every change of its state. */
  ghost predicate PairFalls(p: Pair, q: Pair, log: seq<Event>, log': seq<Event>) {
    && q.uid == p.uid && Rank(q) <= Rank(p)
    && (q.state != p.state ==> Rank(q) < Rank(p))
    && Requests(log', p.uid) + Budget(q) <= Requests(log, p.uid) + Budget(p)
  }

  ghost predicate Falls(a: Agent, b: Agent) {
    && Same(a, b) && b.controlling == a.controlling
    && forall s, i :: 0 <= s < |a.streams| && 0 <= i < |a.streams[s].checks| ==>
         PairFalls(a.streams[s].checks[i], b.streams[s].checks[i], a.log, b.log)
  }

  /** Some pair comes closer to its end. */
  ghost predicate Strict(a: Agent, b: Agent) {
    exists s, i :: 0 <= s < |a.streams| && 0 <= i < |a.streams[s].checks|
                   && s < |b.streams| && i < |b.streams[s].checks|
                   && Rank(b.streams[s].checks[i]) < Rank(a.streams[s].checks[i])
  }

  // ---------------------------------------------------------------------
  // Deadlines

  predicate IsOut(p: Pair) {
    p.state == InProgress && p.message.Some?
  }

  /** Milliseconds from the next deadline to the last one. */
  function Rest(timer: T.Timer): nat {
    match timer.retransmissions
    case 0 => 14 * TIMEOUT
    case 1 => 12 * TIMEOUT
    case 2 => 8 * TIMEOUT
    case _ => 0
  }

  /** No later than this the pair's request has been given up. */
  function Limit(p: Pair): int {
    Max(T.Micros(p.timer.deadline) + 1000 * Rest(p.timer) + 1000, p.nextTick)
  }

  /** Microseconds from the start of a check to its last deadline, and one tick. */
  const SPAN: int := 9001000

  ghost predicate Timed(p: Pair) {
    IsOut(p) ==> TimerOk(p.timer)
  }

  /** A pair whose rank stays gets no later limit; one whose rank falls may get a new one. */
  ghost predicate Later(p: Pair, q: Pair, now: T.Instant) {
    IsOut(q) ==>
      || (Rank(q) < Rank(p) && Limit(q) <= T.Micros(now) + SPAN)
      || (IsOut(p) && Limit(q) <= Limit(p))
  }

  ghost predicate PairTimely(p: Pair, q: Pair, now: T.Instant) {
    Timed(p) ==> Timed(q) && Later(p, q, now)
  }

  ghost predicate Timely(a: Agent, b: Agent, now: T.Instant) {
    && Same(a, b)
    && forall s, i :: 0 <= s < |a.streams| && 0 <= i < |a.streams[s].checks| ==>
         PairTimely(a.streams[s].checks[i], b.streams[s].checks[i], now)
  }

  /** What a part of a tick at time `now` does. */
  ghost predicate Moves(a: Agent, b: Agent, now: T.Instant) {
    Falls(a, b) && Timely(a, b, now)
  }

  // ---------------------------------------------------------------------
  // Composition

  lemma PairFallsTrans(p: Pair, q: Pair, r: Pair, l0: seq<Event>, l1: seq<Event>, l2: seq<Event>)
    requires PairFalls(p, q, l0, l1) && PairFalls(q, r, l1, l2)
    ensures PairFalls(p, r, l0, l2)
  {
    hide Rank, Budget, Requests;
  }

  lemma FallsTrans(a: Agent, b: Agent, c: Agent)
    requires Falls(a, b) && Falls(b, c)
    ensures Falls(a, c)
    ensures Strict(a, b) || Strict(b, c) ==> Strict(a, c)
  {
    hide PairFalls, Rank;
    forall s, i | 0 <= s < |a.streams| && 0 <= i < |a.streams[s].checks|
      ensures PairFalls(a.streams[s].checks[i], c.streams[s].checks[i], a.log, c.log)
      ensures Rank(c.streams[s].checks[i]) <= Rank(b.streams[s].checks[i]) <= Rank(a.streams[s].checks[i])
    {
      var p, q, r := a.streams[s].checks[i], b.streams[s].checks[i], c.streams[s].checks[i];
      assert PairFalls(p, q, a.log, b.log);
      assert PairFalls(q, r, b.log, c.log);
      PairFallsTrans(p, q, r, a.log, b.log, c.log);
      RankFallsOne(p, q, a.log, b.log);
      RankFallsOne(q, r, b.log, c.log);
    }
    if Strict(a, b) || Strict(b, c) {
      StrictTrans(a, b, c);
    }
  }

  lemma RankFallsOne(p: Pair, q: Pair, log: seq<Event>, log': seq<Event>)
    requires PairFalls(p, q, log, log')
    ensures Rank(q) <= Rank(p) && q.uid == p.uid
  {
  }

  lemma StrictTrans(a: Agent, b: Agent, c: Agent)
    requires Same(a, b) && Same(b, c)
    requires forall s, i :: 0 <= s < |a.streams| && 0 <= i < |a.streams[s].checks| ==>
               Rank(c.streams[s].checks[i]) <= Rank(b.streams[s].checks[i]) <= Rank(a.streams[s].checks[i])
    requires Strict(a, b) || Strict(b, c)
    ensures Strict(a, c)
  {
    hide Rank;
    if Strict(a, b) {
      var s, i :| 0 <= s < |a.streams| && 0 <= i < |a.streams[s].checks|
                  && s < |b.streams| && i < |b.streams[s].checks|
                  && Rank(b.streams[s].checks[i]) < Rank(a.streams[s].checks[i]);
      assert Rank(c.streams[s].checks[i]) < Rank(a.streams[s].checks[i]);
    } else {
      var s, i :| 0 <= s < |b.streams| && 0 <= i < |b.streams[s].checks|
                  && s < |c.streams| && i < |c.streams[s].checks|
                  && Rank(c.streams[s].checks[i]) < Rank(b.streams[s].checks[i]);
      assert Rank(c.streams[s].checks[i]) < Rank(a.streams[s].checks[i]);
    }
  }

  lemma PairTimelyTrans(p: Pair, q: Pair, r: Pair, now: T.Instant)
    requires PairTimely(p, q, now) && PairTimely(q, r, now) && Rank(r) <= Rank(q) <= Rank(p)
    ensures PairTimely(p, r, now)
  {
    hide Rank, Limit, TimerOk;
  }

  lemma MovesTrans(a: Agent, b: Agent, c: Agent, now: T.Instant)
    requires Moves(a, b, now) && Moves(b, c, now)
    ensures Moves(a, c, now)
    ensures Strict(a, b) || Strict(b, c) ==> Strict(a, c)
  {
    hide PairFalls, PairTimely, Rank, Strict;
    FallsTrans(a, b, c);
    forall s, i | 0 <= s < |a.streams| && 0 <= i < |a.streams[s].checks|
      ensures PairTimely(a.streams[s].checks[i], c.streams[s].checks[i], now)
    {
      var p, q, r := a.streams[s].checks[i], b.streams[s].checks[i], c.streams[s].checks[i];
      RankFallsOne(p, q, a.log, b.log);
      RankFallsOne(q, r, b.log, c.log);
      PairTimelyTrans(p, q, r, now);
    }
  }

  lemma FallsDistinct(a: Agent, b: Agent)
    requires Falls(a, b) && Distinct(a)
    ensures Distinct(b)
  {
    hide PairFalls;
    forall s, i, t, j | 0 <= s < |b.streams| && 0 <= i < |b.streams[s].checks|
                        && 0 <= t < |b.streams| && 0 <= j < |b.streams[t].checks|
                        && b.streams[s].checks[i].uid == b.streams[t].checks[j].uid
      ensures s == t && i == j
    {
      RankFallsOne(a.streams[s].checks[i], b.streams[s].checks[i], a.log, b.log);
      RankFallsOne(a.streams[t].checks[j], b.streams[t].checks[j], a.log, b.log);
    }
  }

  lemma RequestsAppend(log: seq<Event>, e: Event, uid: nat)
    ensures Requests(log + [e], uid) == Requests(log, uid) + (if e.Sent? && e.uid == uid then 1 else 0)
  {
    assert (log + [e])[..|log|] == log;
  }

  /** How a single pair may change in a tick. */
  ghost predicate Lowers(p: Pair, q: Pair, now: T.Instant) {
    && q.uid == p.uid && Rank(q) <= Rank(p) && Budget(q) <= Budget(p)
    && (q.state != p.state ==> Rank(q) < Rank(p))
    && PairTimely(p, q, now)
  }

  lemma LowersRefl(p: Pair, now: T.Instant)
    ensures Lowers(p, p, now)
  {
  }

  /** One pair changes and may send a request. */
  lemma OneMoves(a: Agent, b: Agent, s: nat, i: nat, q: Pair, now: T.Instant)
    requires Distinct(a) && s < |a.streams| && i < |a.streams[s].checks|
    requires b.streams == SetPair(a, s, i, q).streams && b.controlling == a.controlling
    requires Lowers(a.streams[s].checks[i], q, now)
    requires || b.log == a.log
             || (exists r :: b.log == a.log + [Sent(q.uid, r)] && Budget(q) < Budget(a.streams[s].checks[i]))
    ensures Moves(a, b, now)
    ensures Rank(q) < Rank(a.streams[s].checks[i]) ==> Strict(a, b)
  {
    hide Rank, Budget, Requests, PairTimely;
    forall t, j | 0 <= t < |a.streams| && 0 <= j < |a.streams[t].checks|
      ensures PairFalls(a.streams[t].checks[j], b.streams[t].checks[j], a.log, b.log)
      ensures PairTimely(a.streams[t].checks[j], b.streams[t].checks[j], now)
    {
      LowersRefl(a.streams[t].checks[j], now);
      if b.log != a.log {
        var r :| b.log == a.log + [Sent(q.uid, r)];
        RequestsAppend(a.log, Sent(q.uid, r), a.streams[t].checks[j].uid);
      }
    }
    if Rank(q) < Rank(a.streams[s].checks[i]) {
      assert Rank(b.streams[s].checks[i]) < Rank(a.streams[s].checks[i]);
    }
  }

  /** Many pairs change and at most a signal is emitted. */
  lemma AllMove(a: Agent, b: Agent, now: T.Instant)
    requires Same(a, b) && b.controlling == a.controlling
    requires b.log == a.log || exists c, state, at :: b.log == a.log + [Signalled(c, state, at)]
    requires forall s, i :: 0 <= s < |a.streams| && 0 <= i < |a.streams[s].checks| ==>
               Lowers(a.streams[s].checks[i], b.streams[s].checks[i], now)
    ensures Moves(a, b, now)
  {
    hide Rank, Budget, Requests, PairTimely;
    forall s, i | 0 <= s < |a.streams| && 0 <= i < |a.streams[s].checks|
      ensures PairFalls(a.streams[s].checks[i], b.streams[s].checks[i], a.log, b.log)
      ensures PairTimely(a.streams[s].checks[i], b.streams[s].checks[i], now)
    {
      assert Lowers(a.streams[s].checks[i], b.streams[s].checks[i], now);
      if b.log != a.log {
        var c, state, at :| b.log == a.log + [Signalled(c, state, at)];
        RequestsAppend(a.log, Signalled(c, state, at), a.streams[s].checks[i].uid);
      }
    }
  }

  lemma MovesRefl(a: Agent, now: T.Instant)
    ensures Moves(a, a, now)
  {
    hide Lowers, Moves;
    forall s, i | 0 <= s < |a.streams| && 0 <= i < |a.streams[s].checks|
      ensures Lowers(a.streams[s].checks[i], a.streams[s].checks[i], now)
    {
      LowersRefl(a.streams[s].checks[i], now);
    }
    AllMove(a, a, now);
  }

  lemma MovesDistinct(a: Agent, b: Agent, now: T.Instant)
    requires Moves(a, b, now) && Distinct(a)
    ensures Distinct(b)
  {
    hide Falls, Timely, Distinct;
    FallsDistinct(a, b);
  }

  // ---------------------------------------------------------------------
  // Timers

  /** When a check is looked at next is bounded by its deadline. */
  lemma NextTickBound(timer: T.Timer, now: T.Instant)
    requires T.Normal(timer.deadline)
    ensures T.Micros(now) + U32(1000 * T.Remainder(timer, now)) <= Max(T.Micros(now), T.Micros(timer.deadline) + 1000)
  {
    hide T.Remainder;
    var rem: int := T.Remainder(timer, now);
    if rem != 0 && T.Near(timer, now) {
      NearRemainder(timer, now);
      assert U32(1000 * rem) <= 1000 * rem;
    }
    if rem == 0 {
      assert U32(0) == 0;
    }
  }

  lemma NearRemainder(timer: T.Timer, now: T.Instant)
    requires T.Normal(timer.deadline) && T.Near(timer, now) && T.Remainder(timer, now) != 0
    ensures 1000 * T.Remainder(timer, now) < T.Micros(timer.deadline) - T.Micros(now) + 1000
  {
    T.RemainderExact(timer, now);
  }

  /** With time left on the timer, the deadline is ahead. */
  lemma TimeLeft(timer: T.Timer, now: T.Instant)
    requires T.Normal(timer.deadline) && T.Remainder(timer, now) != 0
    ensures T.Micros(now) < T.Micros(timer.deadline)
  {
    if T.Micros(timer.deadline) <= T.Micros(now) {
      T.RemainderZeroIff(timer, now);
    }
  }

  lemma StartLimit(p: Pair, now: T.Instant)
    requires p.timer == T.Start(now, TIMEOUT, RETRANSMISSIONS)
    requires p.nextTick == T.Micros(now) + U32(1000 * T.Remainder(p.timer, now))
    ensures TimerOk(p.timer) && Limit(p) <= T.Micros(now) + SPAN
  {
    hide T.Remainder, T.AddDelay, T.Micros;
    StartOk(now);
    T.AddDelaySigned(now, TIMEOUT);
    NextTickBound(p.timer, now);
  }

  /** A retransmission leaves the last deadline where it was. */
  lemma RefreshLimit(p: Pair, q: Pair, now: T.Instant)
    requires TimerOk(p.timer) && q.timer == T.Refresh(p.timer, now).0
    requires q.nextTick == T.Micros(now) + U32(1000 * T.Remainder(q.timer, now))
    ensures TimerOk(q.timer) && Limit(q) <= Max(T.Micros(now) + SPAN, Limit(p))
    ensures T.Refresh(p.timer, now).1 == T.Success ==> Limit(q) <= Limit(p)
  {
    hide T.Remainder, T.AddDelay, T.Micros;
    RefreshOk(p.timer, now);
    NextTickBound(q.timer, now);
    T.AddDelaySigned(p.timer.deadline, U32(2 * p.timer.delay));
    if T.Refresh(p.timer, now).1 == T.Success {
      TimeLeft(p.timer, now);
    }
  }

  // ---------------------------------------------------------------------
  // Operations

  lemma SendLowers(p: Pair, a: Agent, env: Env)
    requires p.state == Waiting || IsValid(p)
    ensures var p1 := p.(state := InProgress, nextTick := T.Micros(env.now) + 1000 * a.ta);
            var q := SendCheck(p1, a.controlling, a.tie, a.ids, env);
            Lowers(p, q, env.now) && Rank(q) < Rank(p) && Budget(q) < Budget(p)
  {
    hide T.Start, T.Remainder, T.Micros, RoleRequest, TimerOk, Limit;
    var p1 := p.(state := InProgress, nextTick := T.Micros(env.now) + 1000 * a.ta);
    var q := SendCheck(p1, a.controlling, a.tie, a.ids, env);
    if env.able(a.ids) {
      StartLimit(q, env.now);
      StartFields(env.now);
    }
  }

  lemma StartFields(now: T.Instant)
    ensures Left(T.Start(now, TIMEOUT, RETRANSMISSIONS)) == RETRANSMISSIONS
  {
  }

  lemma InitiateMoves(a: Agent, s: nat, i: nat, env: Env)
    requires Distinct(a) && s < |a.streams| && i < |a.streams[s].checks|
    requires a.streams[s].checks[i].state == Waiting || IsValid(a.streams[s].checks[i])
    ensures Moves(a, Initiate(a, s, i, env), env.now) && Strict(a, Initiate(a, s, i, env))
  {
    hide Moves, Strict, Rank, Budget, SendCheck, Lowers;
    var p := a.streams[s].checks[i];
    SendLowers(p, a, env);
    var q := SendCheck(p.(state := InProgress, nextTick := T.Micros(env.now) + 1000 * a.ta),
                       a.controlling, a.tie, a.ids, env);
    LowersUid(p, q, env.now);
    OneMoves(a, Initiate(a, s, i, env), s, i, q, env.now);
  }

  lemma LowersUid(p: Pair, q: Pair, now: T.Instant)
    requires Lowers(p, q, now)
    ensures q.uid == p.uid
  {
  }

  lemma NominateLowers(p: Pair, now: T.Instant)
    ensures Lowers(p, p.(nominated := true), now)
  {
  }

  lemma UnfreezeLowers(p: Pair, now: T.Instant)
    requires p.state == Frozen
    ensures Lowers(p, p.(state := Waiting), now) && Rank(p.(state := Waiting)) < Rank(p)
  {
  }

  lemma UnfreezeNextMoves(a: Agent, now: T.Instant)
    requires Distinct(a)
    ensures Moves(a, UnfreezeNext(a).0, now)
    ensures UnfreezeNext(a).1 ==> Strict(a, UnfreezeNext(a).0)
    ensures !UnfreezeNext(a).1 ==> UnfreezeNext(a).0 == a
  {
    hide Moves, Strict, BestFrozen, FrozenPriority, Lowers, Rank;
    var s := First(a.streams, HasFrozen());
    if s < |a.streams| {
      BestFrozenIs(a.streams[s].checks);
      var i := BestFrozen(a.streams[s].checks).value;
      UnfreezeLowers(a.streams[s].checks[i], now);
      OneMoves(a, UnfreezeNext(a).0, s, i, a.streams[s].checks[i].(state := Waiting), now);
    } else {
      MovesRefl(a, now);
    }
  }

  lemma AdvanceMoves(a: Agent, env: Env)
    requires Distinct(a)
    ensures Moves(a, Advance(a, env).0, env.now)
    ensures Advance(a, env).1 ==> Strict(a, Advance(a, env).0)
    ensures !Advance(a, env).1 ==> Advance(a, env).0 == a
  {
    hide Moves, Strict, Initiate, UnfreezeNext;
    var s := First(a.streams, HasWaiting());
    if s < |a.streams| {
      InitiateMoves(a, s, First(a.streams[s].checks, IsWaiting()), env);
    } else {
      UnfreezeNextMoves(a, env.now);
    }
  }

  lemma TickLowers(p: Pair, now: T.Instant)
    ensures var (q, again) := TickPair(p, now);
            && Lowers(p, q, now)
            && (again ==> q.message.Some? && Budget(q) < Budget(p))
  {
    hide T.Refresh, T.Remainder, T.Micros, TimerOk, Limit;
    if IsOut(p) && T.Micros(now) >= p.nextTick {
      RefreshLeft(p.timer, now);
      if TimerOk(p.timer) {
        RefreshLimit(p, Rescheduled(p, T.Refresh(p.timer, now).0, now), now);
      }
    }
  }

  lemma RefreshLeft(timer: T.Timer, now: T.Instant)
    ensures var (timer', outcome) := T.Refresh(timer, now);
            && (outcome == T.Success ==> timer' == timer)
            && (outcome == T.Retransmit ==> Left(timer') < Left(timer))
  {
    hide T.Remainder, T.AddDelay;
  }

  lemma TickAtMoves(a: Agent, s: nat, i: nat, now: T.Instant)
    requires Distinct(a) && s < |a.streams| && i < |a.streams[s].checks|
    ensures Moves(a, TickAt(a, s, i, now), now)
  {
    hide Moves, Strict, Rank, Budget, TickPair, Lowers;
    TickLowers(a.streams[s].checks[i], now);
    var (q, again) := TickPair(a.streams[s].checks[i], now);
    LowersUid(a.streams[s].checks[i], q, now);
    OneMoves(a, TickAt(a, s, i, now), s, i, q, now);
  }

  lemma {:induction false} TickPairsMove(a: Agent, s: nat, i: nat, now: T.Instant)
    requires Distinct(a) && s < |a.streams| && i <= |a.streams[s].checks|
    ensures Moves(a, TickPairs(a, s, i, now), now)
    ensures forall j :: 0 <= j < |a.streams[s].checks| ==>
              TickPairs(a, s, i, now).streams[s].checks[j] ==
              if j < i then a.streams[s].checks[j] else TickPair(a.streams[s].checks[j], now).0
    ensures TickPairs(a, s, i, now).streams[s].components == a.streams[s].components
    decreases |a.streams[s].checks| - i
  {
    hide Moves, Strict, TickPair, Distinct;
    if i == |a.streams[s].checks| {
      MovesRefl(a, now);
    } else {
      var b := TickAt(a, s, i, now);
      TickAtMoves(a, s, i, now);
      MovesDistinct(a, b, now);
      TickPairsMove(b, s, i + 1, now);
      MovesTrans(a, b, TickPairs(b, s, i + 1, now), now);
    }
  }

  lemma RestartMoves(a: Agent, s: nat, i: nat, env: Env)
    requires Distinct(a) && s < |a.streams| && i < |a.streams[s].checks| && IsValid(a.streams[s].checks[i])
    ensures var b := Initiate(SetPair(a, s, i, a.streams[s].checks[i].(nominated := true)), s, i, env);
            Moves(a, b, env.now) && Strict(a, b)
  {
    hide Moves, Strict, Rank, Budget, Initiate, Lowers, Distinct;
    var p := a.streams[s].checks[i].(nominated := true);
    NominateLowers(a.streams[s].checks[i], env.now);
    var b := SetPair(a, s, i, p);
    OneMoves(a, b, s, i, p, env.now);
    MovesDistinct(a, b, env.now);
    InitiateMoves(b, s, i, env);
    MovesTrans(a, b, Initiate(b, s, i, env), env.now);
  }

  lemma {:induction false} RenominateMoves(a: Agent, s: nat, n: nat, env: Env)
    requires Distinct(a) && s < |a.streams|
    ensures Moves(a, Renominate(a, s, n, env), env.now)
    ensures n > 0 && First(a.streams[s].checks, ValidPairs()) < |a.streams[s].checks| ==>
              Strict(a, Renominate(a, s, n, env))
    decreases n
  {
    hide Moves, Strict, Initiate, Distinct;
    if n == 0 {
      MovesRefl(a, env.now);
    } else {
      var checks := a.streams[s].checks;
      var i := First(checks, ValidPairs());
      if i == |checks| {
        RenominateMoves(a, s, n - 1, env);
      } else {
        var b := Initiate(SetPair(a, s, i, checks[i].(nominated := true)), s, i, env);
        RestartMoves(a, s, i, env);
        MovesDistinct(a, b, env.now);
        RenominateMoves(b, s, n - 1, env);
        MovesTrans(a, b, Renominate(b, s, n - 1, env), env.now);
      }
    }
  }

  lemma TickStreamMoves(a: Agent, s: nat, env: Env)
    requires Distinct(a) && s < |a.streams|
    ensures Moves(a, TickStream(a, s, env).0, env.now)
  {
    hide Moves, Strict, Distinct, TickPairs, Renominate, AwaitsNomination, AnyInProgress;
    var b := TickPairs(a, s, 0, env.now);
    TickPairsMove(a, s, 0, env.now);
    MovesDistinct(a, b, env.now);
    RenominateMoves(b, s, |b.streams[s].components|, env);
    MovesTrans(a, b, Renominate(b, s, |b.streams[s].components|, env), env.now);
  }

  lemma {:induction false} TickStreamsMove(a: Agent, s: nat, env: Env)
    requires Distinct(a) && s <= |a.streams|
    ensures Moves(a, TickStreams(a, s, env).0, env.now)
    decreases |a.streams| - s
  {
    hide Moves, Strict, Distinct, TickStream;
    if s == |a.streams| {
      MovesRefl(a, env.now);
    } else {
      var b := TickStream(a, s, env).0;
      TickStreamMoves(a, s, env);
      MovesDistinct(a, b, env.now);
      TickStreamsMove(b, s + 1, env);
      MovesTrans(a, b, TickStreams(b, s + 1, env).0, env.now);
    }
  }

  lemma SignalMoves(a: Agent, s: nat, c: nat, state: ComponentState, now: T.Instant)
    requires s < |a.streams| && c < |a.streams[s].components|
    ensures Moves(a, Signal(a, s, c, state), now)
  {
    hide Moves, Lowers;
    var b := Signal(a, s, c, state);
    forall t, i | 0 <= t < |a.streams| && 0 <= i < |a.streams[t].checks|
      ensures Lowers(a.streams[t].checks[i], b.streams[t].checks[i], now)
    {
      LowersRefl(a.streams[t].checks[i], now);
    }
    AllMove(a, b, now);
  }

  lemma PrunedLowers(p: Pair, c: nat, h: nat, now: T.Instant)
    ensures Lowers(p, Pruned(p, c, h), now)
  {
    hide TimerOk, Limit;
  }

  lemma PruneMoves(a: Agent, s: nat, c: nat, h: nat, now: T.Instant)
    requires s < |a.streams|
    ensures Moves(a, SetChecks(a, s, PruneAll(a.streams[s].checks, c, h)), now)
  {
    hide Moves, Lowers, Pruned;
    var b := SetChecks(a, s, PruneAll(a.streams[s].checks, c, h));
    forall t, i | 0 <= t < |a.streams| && 0 <= i < |a.streams[t].checks|
      ensures Lowers(a.streams[t].checks[i], b.streams[t].checks[i], now)
    {
      PrunedLowers(a.streams[t].checks[i], c, h, now);
      LowersRefl(a.streams[t].checks[i], now);
    }
    AllMove(a, b, now);
  }

  lemma UpdateReadyMoves(a: Agent, s: nat, c: nat, now: T.Instant)
    requires s < |a.streams| && c < |a.streams[s].components|
    ensures Moves(a, UpdateReady(a, s, c), now)
  {
    hide Moves, Strict, AnyNominated, AnyPending, HighestNominated, Signal;
    var checks := a.streams[s].checks;
    if !AnyNominated(checks, c) {
      MovesRefl(a, now);
    } else {
      var b := SetChecks(a, s, PruneAll(checks, c, HighestNominated(checks, c)));
      PruneMoves(a, s, c, HighestNominated(checks, c), now);
      SignalMoves(b, s, c, Ready, now);
      MovesTrans(a, b, Signal(b, s, c, Ready), now);
    }
  }

  lemma {:induction false} SignalFailedMoves(a: Agent, s: nat, c: nat, now: T.Instant)
    requires s < |a.streams| && c <= |a.streams[s].components|
    ensures Moves(a, SignalFailed(a, s, c), now)
    decreases |a.streams[s].components| - c
  {
    hide Moves, Strict, Signal;
    MovesRefl(a, now);
    if c < |a.streams[s].components| {
      var st := a.streams[s];
      var failed := First(st.checks, AllFailed(c)) == |st.checks| && st.components[c].remotes != [];
      var b := if failed then Signal(a, s, c, Broken) else a;
      SignalMoves(a, s, c, Broken, now);
      SignalFailedMoves(b, s, c + 1, now);
      MovesTrans(a, b, SignalFailed(b, s, c + 1), now);
    }
  }

  lemma {:induction false} ReadyComponentsMove(a: Agent, s: nat, c: nat, now: T.Instant)
    requires s < |a.streams| && c <= |a.streams[s].components|
    ensures Moves(a, ReadyComponents(a, s, c), now)
    decreases |a.streams[s].components| - c
  {
    hide Moves, Strict, UpdateReady;
    if c == |a.streams[s].components| {
      MovesRefl(a, now);
    } else {
      var b := UpdateReady(a, s, c);
      UpdateReadyMoves(a, s, c, now);
      ReadyComponentsMove(b, s, c + 1, now);
      MovesTrans(a, b, ReadyComponents(b, s, c + 1), now);
    }
  }

  lemma {:induction false} SettleMoves(a: Agent, s: nat, now: T.Instant)
    requires s <= |a.streams|
    ensures Moves(a, Settle(a, s), now)
    decreases |a.streams| - s
  {
    hide Moves, Strict, ReadyComponents, SignalFailed;
    if s == |a.streams| {
      MovesRefl(a, now);
    } else {
      var b := SignalFailed(a, s, 0);
      SignalFailedMoves(a, s, 0, now);
      var c := ReadyComponents(b, s, 0);
      ReadyComponentsMove(b, s, 0, now);
      MovesTrans(a, b, c, now);
      SettleMoves(c, s + 1, now);
      MovesTrans(a, c, Settle(c, s + 1), now);
    }
  }

  /** The three parts of a tick. */
  lemma TickParts(a: Agent, env: Env)
    requires Distinct(a)
    ensures var (b, moved) := Advance(a, env);
            var c := TickStreams(b, 0, env).0;
            && Moves(a, b, env.now) && Moves(b, c, env.now) && Moves(c, Tick(a, env).0, env.now)
            && Moves(a, Tick(a, env).0, env.now) && Distinct(b)
            && (Strict(a, b) || Strict(b, c) ==> Strict(a, Tick(a, env).0))
  {
    hide Moves, Strict, Distinct, Advance, TickStreams, Settle;
    var b := Advance(a, env).0;
    AdvanceMoves(a, env);
    MovesDistinct(a, b, env.now);
    var c := TickStreams(b, 0, env).0;
    TickStreamsMove(b, 0, env);
    MovesTrans(a, b, c, env.now);
    SettleMoves(c, 0, env.now);
    MovesRefl(c, env.now);
    MovesTrans(a, c, Settle(c, 0), env.now);
  }

  /** In every tick each pair pays for its requests, comes strictly closer to its end with
      every change of its state and no farther otherwise. */
  lemma TickFalls(a: Agent, env: Env)
    requires Distinct(a)
    ensures Falls(a, Tick(a, env).0)
  {
    hide Falls, Timely, Strict, Distinct, Tick;
    TickParts(a, env);
  }

  // ---------------------------------------------------------------------
  // Work

  /** The pair's check is over or due to be looked at and out of time. */
  predicate IsDue(p: Pair, now: T.Instant) {
    p.state == InProgress &&
    (p.message.None? || (p.nextTick <= T.Micros(now) && T.Remainder(p.timer, now) == 0))
  }

  /** The request is outstanding and its time has not come. */
  predicate IsAhead(p: Pair, now: T.Instant) {
    IsOut(p) && (T.Micros(now) < p.nextTick || T.Remainder(p.timer, now) != 0)
  }

  /** A pair that a tick has something to do for. */
  predicate Asks(p: Pair, now: T.Instant) {
    p.state == Waiting || p.state == Frozen || IsDue(p, now)
  }

  /** There is something to do: one pair asks, or one stream awaits nomination. */
  ghost predicate Work(a: Agent, now: T.Instant) {
    || (exists s, i :: 0 <= s < |a.streams| && 0 <= i < |a.streams[s].checks| && Asks(a.streams[s].checks[i], now))
    || (exists s :: 0 <= s < |a.streams| && AwaitsNomination(a.streams[s]))
  }

  ghost predicate Ahead(a: Agent, now: T.Instant) {
    exists s, i :: 0 <= s < |a.streams| && 0 <= i < |a.streams[s].checks| && IsAhead(a.streams[s].checks[i], now)
  }

  /** A due check comes closer to its end. */
  lemma DueFalls(p: Pair, now: T.Instant)
    requires IsDue(p, now)
    ensures Rank(TickPair(p, now).0) < Rank(p)
  {
    hide T.AddDelay, T.Micros;
  }

  lemma AdvanceWorks(a: Agent, env: Env, s: nat, i: nat)
    requires Sound(a) && s < |a.streams| && i < |a.streams[s].checks|
    requires a.streams[s].checks[i].state == Waiting || a.streams[s].checks[i].state == Frozen
    ensures Advance(a, env).1
  {
    hide Initiate, BestFrozen, FrozenPriority;
    var p := a.streams[s].checks[i];
    if p.state == Waiting {
      assert IsWaiting()(p);
      assert HasWaiting()(a.streams[s]);
    } else {
      FrozenFound(a, s, i);
    }
  }

  // Other streams are left alone.

  lemma {:induction false} TickPairsElsewhere(a: Agent, s: nat, i: nat, now: T.Instant, t: nat)
    requires s < |a.streams| && i <= |a.streams[s].checks| && t < |a.streams| && t != s
    ensures TickPairs(a, s, i, now).streams[t] == a.streams[t]
    decreases |a.streams[s].checks| - i
  {
    hide TickPair;
    if i < |a.streams[s].checks| {
      TickPairsElsewhere(TickAt(a, s, i, now), s, i + 1, now, t);
    }
  }

  lemma {:induction false} RenominateElsewhere(a: Agent, s: nat, n: nat, env: Env, t: nat)
    requires s < |a.streams| && t < |a.streams| && t != s
    ensures Renominate(a, s, n, env).streams[t] == a.streams[t]
    ensures Renominate(a, s, n, env).controlling == a.controlling
    decreases n
  {
    hide SendCheck;
    if n > 0 {
      var checks := a.streams[s].checks;
      var i := First(checks, ValidPairs());
      if i == |checks| {
        RenominateElsewhere(a, s, n - 1, env, t);
      } else {
        RenominateElsewhere(Initiate(SetPair(a, s, i, checks[i].(nominated := true)), s, i, env), s, n - 1, env, t);
      }
    }
  }

  lemma TickStreamElsewhere(a: Agent, s: nat, env: Env, t: nat)
    requires s < |a.streams| && t < |a.streams| && t != s
    ensures TickStream(a, s, env).0.streams[t] == a.streams[t]
  {
    hide TickPairs, Renominate, AwaitsNomination, AnyInProgress;
    var b := TickPairs(a, s, 0, env.now);
    TickPairsElsewhere(a, s, 0, env.now, t);
    RenominateElsewhere(b, s, |b.streams[s].components|, env, t);
  }

  // A tick decides nothing about nomination.

  lemma {:induction false} CountSame(x: seq<Pair>, y: seq<Pair>)
    requires |x| == |y|
    requires forall j :: 0 <= j < |x| ==> (IsValid(x[j]) && x[j].nominated <==> IsValid(y[j]) && y[j].nominated)
    ensures NominatedCount(x) == NominatedCount(y)
  {
    if x != [] {
      CountSame(x[..|x| - 1], y[..|y| - 1]);
    }
  }

  lemma TickValid(p: Pair, now: T.Instant)
    ensures var q := TickPair(p, now).0;
            q.nominated == p.nominated && (IsValid(q) <==> IsValid(p))
  {
    hide T.Refresh, T.Remainder, T.Micros;
  }

  lemma TickAwaits(a: Agent, s: nat, now: T.Instant)
    requires Distinct(a) && s < |a.streams|
    ensures AwaitsNomination(TickPairs(a, s, 0, now).streams[s]) <==> AwaitsNomination(a.streams[s])
  {
    hide TickPairs, TickPair, Moves, Distinct;
    TickPairsMove(a, s, 0, now);
    var b := TickPairs(a, s, 0, now);
    var x, y := a.streams[s].checks, b.streams[s].checks;
    forall j | 0 <= j < |x|
      ensures y[j].nominated == x[j].nominated && (IsValid(y[j]) <==> IsValid(x[j]))
    {
      TickValid(x[j], now);
    }
    CountSame(x, y);
    AnySame(x, y);
  }

  lemma AnySame(x: seq<Pair>, y: seq<Pair>)
    requires |x| == |y|
    requires forall j :: 0 <= j < |x| ==> y[j].nominated == x[j].nominated && (IsValid(y[j]) <==> IsValid(x[j]))
    ensures AnyUnnominated(x) <==> AnyUnnominated(y)
  {
    if AnyUnnominated(x) {
      var j :| 0 <= j < |x| && IsValid(x[j]) && !x[j].nominated;
      assert IsValid(y[j]) && !y[j].nominated;
    }
    if AnyUnnominated(y) {
      var j :| 0 <= j < |y| && IsValid(y[j]) && !y[j].nominated;
      assert IsValid(x[j]) && !x[j].nominated;
    }
  }

  /** The stream has a due check, or awaits nomination by a controlling agent. */
  ghost predicate StreamWork(a: Agent, s: nat, now: T.Instant)
    requires s < |a.streams|
  {
    || (exists i :: 0 <= i < |a.streams[s].checks| && IsDue(a.streams[s].checks[i], now))
    || (a.controlling && AwaitsNomination(a.streams[s]))
  }

  lemma StreamWorks(a: Agent, s: nat, env: Env)
    requires Distinct(a) && s < |a.streams| && StreamWork(a, s, env.now)
    ensures Strict(a, TickStream(a, s, env).0)
  {
    hide Strict, Distinct, TickPairs, Renominate, NominatedCount, PairFalls, PairTimely, Rank, IsDue, TickPair;
    var b := TickPairs(a, s, 0, env.now);
    TickPairsMove(a, s, 0, env.now);
    MovesDistinct(a, b, env.now);
    TickAwaits(a, s, env.now);
    var n := |b.streams[s].components|;
    RenominateMoves(b, s, n, env);
    MovesTrans(a, b, Renominate(b, s, n, env), env.now);
    if a.controlling && AwaitsNomination(a.streams[s]) {
      var i :| 0 <= i < |b.streams[s].checks| && IsValid(b.streams[s].checks[i]);
      assert ValidPairs()(b.streams[s].checks[i]);
    } else {
      var i :| 0 <= i < |a.streams[s].checks| && IsDue(a.streams[s].checks[i], env.now);
      DueFalls(a.streams[s].checks[i], env.now);
      StrictAt(a, b, s, i);
    }
  }

  lemma StrictAt(a: Agent, b: Agent, s: nat, i: nat)
    requires s < |a.streams| && i < |a.streams[s].checks| && s < |b.streams| && i < |b.streams[s].checks|
    requires Rank(b.streams[s].checks[i]) < Rank(a.streams[s].checks[i])
    ensures Strict(a, b)
  {
  }

  lemma {:induction false} StreamsWork(a: Agent, s: nat, env: Env, t: nat)
    requires Distinct(a) && s <= t < |a.streams| && StreamWork(a, t, env.now)
    ensures Strict(a, TickStreams(a, s, env).0)
    decreases |a.streams| - s
  {
    hide Strict, Distinct, TickStream, IsDue, AwaitsNomination, PairFalls, PairTimely;
    var b := TickStream(a, s, env).0;
    TickStreamMoves(a, s, env);
    MovesDistinct(a, b, env.now);
    TickStreamsMove(b, s + 1, env);
    MovesTrans(a, b, TickStreams(b, s + 1, env).0, env.now);
    if s == t {
      StreamWorks(a, s, env);
    } else {
      TickStreamElsewhere(a, s, env, t);
      StreamsWork(b, s + 1, env, t);
    }
  }

  /** Whenever there is something to do, a tick of a controlling agent brings some pair
      strictly closer to its end: one due check is enough. */
  lemma WorkIsDone(a: Agent, env: Env)
    requires Sound(a) && Distinct(a) && a.controlling && Work(a, env.now)
    ensures Strict(a, Tick(a, env).0)
  {
    hide Sound, Strict, Distinct, Tick, Advance, TickStreams, Moves, AwaitsNomination, IsDue;
    TickParts(a, env);
    AdvanceMoves(a, env);
    if !Advance(a, env).1 {
      var t := WorkingStream(a, env);
      StreamsWork(a, 0, env, t);
    }
  }

  /** With nothing to start or unfreeze, the work is in some stream. */
  lemma WorkingStream(a: Agent, env: Env) returns (t: nat)
    requires Sound(a) && a.controlling && Work(a, env.now) && !Advance(a, env).1
    ensures t < |a.streams| && StreamWork(a, t, env.now)
  {
    hide Sound, Advance, AwaitsNomination, IsDue;
    if s: nat :| s < |a.streams| && AwaitsNomination(a.streams[s]) {
      t := s;
    } else {
      var s, i :| 0 <= s < |a.streams| && 0 <= i < |a.streams[s].checks| && Asks(a.streams[s].checks[i], env.now);
      if !IsDue(a.streams[s].checks[i], env.now) {
        AdvanceWorks(a, env, s, i);
      }
      t := s;
    }
  }

  // ---------------------------------------------------------------------
  // A tick that keeps the timer has a reason

  lemma InProgressReason(p: Pair, now: T.Instant)
    requires TickPair(p, now).0.state == InProgress
    ensures IsDue(p, now) || IsAhead(p, now)
  {
    hide T.Refresh, T.Remainder, T.Micros;
  }

  lemma StreamReason(a: Agent, s: nat, env: Env)
    requires Distinct(a) && s < |a.streams| && TickStream(a, s, env).1
    ensures || AwaitsNomination(a.streams[s])
            || exists i :: 0 <= i < |a.streams[s].checks|
                           && (IsDue(a.streams[s].checks[i], env.now) || IsAhead(a.streams[s].checks[i], env.now))
  {
    hide Distinct, TickPairs, Renominate, AwaitsNomination, Moves, TickPair, IsDue, IsAhead;
    var b := TickPairs(a, s, 0, env.now);
    TickPairsMove(a, s, 0, env.now);
    TickAwaits(a, s, env.now);
    if AnyInProgress(b.streams[s].checks) {
      var i :| 0 <= i < |b.streams[s].checks| && b.streams[s].checks[i].state == InProgress;
      InProgressReason(a.streams[s].checks[i], env.now);
    }
  }

  lemma {:induction false} StreamsReason(a: Agent, s: nat, env: Env) returns (t: nat)
    requires Distinct(a) && s <= |a.streams| && TickStreams(a, s, env).1
    ensures s <= t < |a.streams|
    ensures || AwaitsNomination(a.streams[t])
            || exists i :: 0 <= i < |a.streams[t].checks|
                           && (IsDue(a.streams[t].checks[i], env.now) || IsAhead(a.streams[t].checks[i], env.now))
    decreases |a.streams| - s
  {
    hide Distinct, TickStream, AwaitsNomination, IsDue, IsAhead, Moves;
    var b := TickStream(a, s, env).0;
    if TickStream(a, s, env).1 {
      StreamReason(a, s, env);
      t := s;
    } else {
      TickStreamMoves(a, s, env);
      MovesDistinct(a, b, env.now);
      t := StreamsReason(b, s + 1, env);
      TickStreamElsewhere(a, s, env, t);
    }
  }

  /** A tick keeps the timer only if there was something to do or a deadline lies ahead. */
  lemma KeptForReason(a: Agent, env: Env)
    requires Distinct(a) && Tick(a, env).1
    ensures Work(a, env.now) || Ahead(a, env.now)
  {
    hide Distinct, Initiate, TickStreams, Settle, AwaitsNomination, IsDue, IsAhead, BestFrozen, FrozenPriority;
    if Advance(a, env).1 {
      AdvanceReason(a, env);
    } else {
      AdvanceMoves(a, env);
      var t := StreamsReason(a, 0, env);
      if !AwaitsNomination(a.streams[t]) {
        var i :| 0 <= i < |a.streams[t].checks|
                 && (IsDue(a.streams[t].checks[i], env.now) || IsAhead(a.streams[t].checks[i], env.now));
        assert IsDue(a.streams[t].checks[i], env.now) ==> Asks(a.streams[t].checks[i], env.now);
      }
    }
  }

  lemma AdvanceReason(a: Agent, env: Env)
    requires Advance(a, env).1
    ensures Work(a, env.now)
  {
    hide Initiate, AwaitsNomination, IsDue, BestFrozen, FrozenPriority;
    var s := First(a.streams, HasWaiting());
    if s < |a.streams| {
      var i := First(a.streams[s].checks, IsWaiting());
      assert IsWaiting()(a.streams[s].checks[i]);
      assert Asks(a.streams[s].checks[i], env.now);
    } else {
      var t := First(a.streams, HasFrozen());
      assert HasFrozen()(a.streams[t]);
      BestFrozenIs(a.streams[t].checks);
      assert Asks(a.streams[t].checks[BestFrozen(a.streams[t].checks).value], env.now);
    }
  }

  /** A tick of a controlling agent that keeps the timer has moved a pair, or a deadline of
      an outstanding request lies ahead. */
  lemma KeptMovesOrWaits(a: Agent, env: Env)
    requires Sound(a) && Distinct(a) && a.controlling && Tick(a, env).1
    ensures Strict(a, Tick(a, env).0) || Ahead(a, env.now)
  {
    hide Sound, Distinct, Tick, Strict, Work, Ahead;
    KeptForReason(a, env);
    if Work(a, env.now) {
      WorkIsDone(a, env);
    }
  }

  // ---------------------------------------------------------------------
  // Runs of ticks

  function ChecksRank(checks: seq<Pair>): nat {
    if checks == [] then 0 else ChecksRank(checks[..|checks| - 1]) + Rank(checks[|checks| - 1])
  }

  function StreamsRank(streams: seq<Stream>): nat {
    if streams == [] then 0
    else StreamsRank(streams[..|streams| - 1]) + ChecksRank(streams[|streams| - 1].checks)
  }

  ghost predicate ChecksFall(x: seq<Pair>, y: seq<Pair>) {
    |x| == |y| && forall i :: 0 <= i < |x| ==> Rank(y[i]) <= Rank(x[i])
  }

  lemma {:induction false} ChecksRankFalls(x: seq<Pair>, y: seq<Pair>)
    requires ChecksFall(x, y)
    ensures ChecksRank(y) <= ChecksRank(x)
    ensures (exists i :: 0 <= i < |x| && Rank(y[i]) < Rank(x[i])) ==> ChecksRank(y) < ChecksRank(x)
  {
    hide Rank;
    if x != [] {
      var n := |x| - 1;
      ChecksRankFalls(x[..n], y[..n]);
      if i :| 0 <= i < |x| && Rank(y[i]) < Rank(x[i]) {
        if i < n {
          assert x[..n][i] == x[i] && y[..n][i] == y[i];
        }
      }
    }
  }

  lemma {:induction false} StreamsRankFalls(x: seq<Stream>, y: seq<Stream>)
    requires |x| == |y| && forall s :: 0 <= s < |x| ==> ChecksFall(x[s].checks, y[s].checks)
    ensures StreamsRank(y) <= StreamsRank(x)
    ensures (exists s :: 0 <= s < |x| && ChecksRank(y[s].checks) < ChecksRank(x[s].checks)) ==>
              StreamsRank(y) < StreamsRank(x)
  {
    hide ChecksRank;
    if x != [] {
      var n := |x| - 1;
      StreamsRankFalls(x[..n], y[..n]);
      ChecksRankFalls(x[n].checks, y[n].checks);
      if s :| 0 <= s < |x| && ChecksRank(y[s].checks) < ChecksRank(x[s].checks) {
        if s < n {
          assert x[..n][s] == x[s] && y[..n][s] == y[s];
        }
      }
    }
  }

  lemma RankFalls(a: Agent, b: Agent)
    requires Falls(a, b)
    ensures StreamsRank(b.streams) <= StreamsRank(a.streams)
    ensures Strict(a, b) ==> StreamsRank(b.streams) < StreamsRank(a.streams)
  {
    hide Rank, PairFalls, ChecksRank, StreamsRank;
    forall s | 0 <= s < |a.streams|
      ensures ChecksFall(a.streams[s].checks, b.streams[s].checks)
    {
      forall i | 0 <= i < |a.streams[s].checks|
        ensures Rank(b.streams[s].checks[i]) <= Rank(a.streams[s].checks[i])
      {
        RankFallsOne(a.streams[s].checks[i], b.streams[s].checks[i], a.log, b.log);
      }
    }
    StreamsRankFalls(a.streams, b.streams);
    if Strict(a, b) {
      var s, i :| 0 <= s < |a.streams| && 0 <= i < |a.streams[s].checks|
                  && s < |b.streams| && i < |b.streams[s].checks|
                  && Rank(b.streams[s].checks[i]) < Rank(a.streams[s].checks[i]);
      ChecksRankFalls(a.streams[s].checks, b.streams[s].checks);
    }
  }

  /** Only ticks happen. */
  ghost predicate TickRun(states: seq<Agent>, envs: seq<Env>) {
    && |states| == |envs| + 1 && Sound(states[0]) && Distinct(states[0])
    && forall k :: 0 <= k < |envs| ==> states[k + 1] == Tick(states[k], envs[k]).0
  }

  lemma {:induction false} RunFalls(states: seq<Agent>, envs: seq<Env>, n: nat)
    requires TickRun(states, envs) && n < |states|
    ensures Falls(states[0], states[n]) && Distinct(states[n]) && Sound(states[n])
    ensures states[n].controlling == states[0].controlling
  {
    hide Tick, Distinct, Sound, Strict, PairFalls;
    if n == 0 {
      MovesFall(states[0]);
    } else {
      RunFalls(states, envs, n - 1);
      TickFalls(states[n - 1], envs[n - 1]);
      FallsTrans(states[0], states[n - 1], states[n]);
      FallsDistinct(states[n - 1], states[n]);
      TickSound(states[n - 1], envs[n - 1]);
    }
  }

  lemma MovesFall(a: Agent)
    ensures Falls(a, a)
  {
    hide PairFalls, PairTimely;
    MovesRefl(a, T.Timeval(0, 0));
  }

  lemma TickSound(a: Agent, env: Env)
    requires Sound(a)
    ensures Sound(Tick(a, env).0)
  {
    hide Tick, Sound, Evolves, Distinct, Ranked;
    TickStep(a, env);
  }

  /** Ticks alone send at most four requests for a pair, and no more than its state and
      timer leave. */
  lemma RequestsAreBounded(states: seq<Agent>, envs: seq<Env>, n: nat, s: nat, i: nat)
    requires TickRun(states, envs) && n < |states|
    requires s < |states[0].streams| && i < |states[0].streams[s].checks|
    ensures var p := states[0].streams[s].checks[i];
            && Requests(states[n].log, p.uid) <= Requests(states[0].log, p.uid) + Budget(p)
            && Budget(p) <= 4
  {
    hide Tick, Distinct, Requests, Rank;
    RunFalls(states, envs, n);
    var p := states[0].streams[s].checks[i];
    assert PairFalls(p, states[n].streams[s].checks[i], states[0].log, states[n].log);
    SoundTimed(states[0], s, i);
  }

  lemma SoundTimed(a: Agent, s: nat, i: nat)
    requires Sound(a) && s < |a.streams| && i < |a.streams[s].checks|
    ensures Timed(a.streams[s].checks[i])
    ensures IsOut(a.streams[s].checks[i]) ==> Left(a.streams[s].checks[i].timer) <= RETRANSMISSIONS
  {
    assert PairOk(a.streams[s].checks[i], a.controlling, a.ids, a.uids, |a.streams[s].components|);
  }

  /** How many of the first `n` ticks had something to do. */
  ghost function WorkTicks(states: seq<Agent>, envs: seq<Env>, n: nat): nat
    requires |states| == |envs| + 1 && n < |states|
  {
    if n == 0 then 0
    else WorkTicks(states, envs, n - 1) + (if Work(states[n - 1], envs[n - 1].now) then 1 else 0)
  }

  /** In every run of a controlling agent's ticks, the number of ticks that have something to
      do is at most the rank of its pairs at the start. */
  lemma {:induction false} WorkIsBounded(states: seq<Agent>, envs: seq<Env>, n: nat)
    requires TickRun(states, envs) && n < |states| && states[0].controlling
    ensures WorkTicks(states, envs, n) + StreamsRank(states[n].streams) <= StreamsRank(states[0].streams)
  {
    hide Tick, Distinct, Sound, Strict, StreamsRank, PairFalls, Work;
    if n > 0 {
      WorkIsBounded(states, envs, n - 1);
      RunFalls(states, envs, n - 1);
      TickFalls(states[n - 1], envs[n - 1]);
      if Work(states[n - 1], envs[n - 1].now) {
        WorkIsDone(states[n - 1], envs[n - 1]);
      }
      RankFalls(states[n - 1], states[n]);
    }
  }

  // ---------------------------------------------------------------------
  // The timer stops in time

  /** No outstanding request lasts beyond `e`. */
  ghost predicate Within(a: Agent, e: int) {
    forall s, i :: 0 <= s < |a.streams| && 0 <= i < |a.streams[s].checks| && IsOut(a.streams[s].checks[i]) ==>
      Limit(a.streams[s].checks[i]) <= e
  }

  /** A deadline ahead lies within the limit. */
  lemma AheadWithin(a: Agent, now: T.Instant, e: int)
    requires Sound(a) && Within(a, e) && Ahead(a, now)
    ensures T.Micros(now) < e
  {
    hide Sound, T.Remainder, T.Micros;
    var s, i :| 0 <= s < |a.streams| && 0 <= i < |a.streams[s].checks| && IsAhead(a.streams[s].checks[i], now);
    var p := a.streams[s].checks[i];
    SoundTimed(a, s, i);
    if T.Remainder(p.timer, now) != 0 {
      TimeLeft(p.timer, now);
    }
  }

  /** A tick that moves no pair sets no later limit; any tick sets none beyond its span. */
  lemma TickWithin(a: Agent, env: Env, e: int)
    requires Sound(a) && Distinct(a) && Within(a, e)
    ensures Within(Tick(a, env).0, Max(e, T.Micros(env.now) + SPAN))
    ensures !Strict(a, Tick(a, env).0) ==> Within(Tick(a, env).0, e)
  {
    hide Sound, Distinct, Tick, Limit, Rank, Falls, T.Micros, Timed, PairTimely, Advance, TickStreams, Strict, IsOut;
    TickParts(a, env);
    var b := Tick(a, env).0;
    forall s, i | 0 <= s < |b.streams| && 0 <= i < |b.streams[s].checks| && IsOut(b.streams[s].checks[i])
      ensures Limit(b.streams[s].checks[i]) <= Max(e, T.Micros(env.now) + SPAN)
      ensures !Strict(a, b) ==> Limit(b.streams[s].checks[i]) <= e
    {
      var p, q := a.streams[s].checks[i], b.streams[s].checks[i];
      SoundTimed(a, s, i);
      LimitOf(p, q, env.now, e);
      if Rank(q) < Rank(p) {
        StrictAt(a, b, s, i);
      }
    }
  }

  lemma LimitOf(p: Pair, q: Pair, now: T.Instant, e: int)
    requires PairTimely(p, q, now) && Timed(p) && IsOut(q) && (IsOut(p) ==> Limit(p) <= e)
    ensures Limit(q) <= Max(e, T.Micros(now) + SPAN)
    ensures !(Rank(q) < Rank(p)) ==> Limit(q) <= e
  {
    hide Limit, Rank, T.Micros, TimerOk;
  }

  /** Successive ticks are at most `gap` microseconds apart. */
  ghost predicate Paced(envs: seq<Env>, gap: nat) {
    forall k :: 0 < k < |envs| ==> T.Micros(envs[k].now) <= T.Micros(envs[k - 1].now) + gap
  }

  /** By when the pairs that have fallen by `fallen` ranks are given up. */
  function By(e: int, gap: nat, fallen: int): int {
    e + fallen * (SPAN + gap)
  }

  lemma ByNext(e: int, gap: nat, f: int, f': int)
    requires f <= f'
    ensures By(e, gap, f) <= By(e, gap, f')
    ensures f < f' ==> By(e, gap, f) + SPAN + gap <= By(e, gap, f')
  {
    assert (f' - f) * (SPAN + gap) >= 0;
    assert f' * (SPAN + gap) == f * (SPAN + gap) + (f' - f) * (SPAN + gap);
    if f < f' {
      assert (f' - f - 1) * (SPAN + gap) >= 0;
      assert (f' - f) * (SPAN + gap) == (f' - f - 1) * (SPAN + gap) + (SPAN + gap);
    }
  }

  /** While the timer is kept, time does not run ahead of the falling rank. */
  lemma {:induction false} TimeFollowsRank(states: seq<Agent>, envs: seq<Env>, n: nat, e: int, gap: nat)
    requires TickRun(states, envs) && n < |states| && states[0].controlling
    requires Within(states[0], e) && Paced(envs, gap) && (envs != [] ==> T.Micros(envs[0].now) <= e + gap)
    requires forall k :: 0 <= k < n ==> Tick(states[k], envs[k]).1
    ensures var fallen := StreamsRank(states[0].streams) - StreamsRank(states[n].streams);
            && 0 <= fallen
            && Within(states[n], By(e, gap, fallen))
            && (n < |envs| ==> T.Micros(envs[n].now) <= By(e, gap, fallen) + gap)
  {
    hide Tick, Distinct, Sound, Strict, StreamsRank, PairFalls, Within, By, T.Micros;
    if n == 0 {
      ByZero(e, gap);
    } else {
      TimeFollowsRank(states, envs, n - 1, e, gap);
      var a, b, env := states[n - 1], states[n], envs[n - 1];
      var f := StreamsRank(states[0].streams) - StreamsRank(a.streams);
      var f' := StreamsRank(states[0].streams) - StreamsRank(b.streams);
      RunFalls(states, envs, n - 1);
      TickFalls(a, env);
      RankFalls(a, b);
      ByNext(e, gap, f, f');
      TickWithin(a, env, By(e, gap, f));
      if Strict(a, b) {
        WithinMore(b, Max(By(e, gap, f), T.Micros(env.now) + SPAN), By(e, gap, f'));
      } else {
        KeptMovesOrWaits(a, env);
        AheadWithin(a, env.now, By(e, gap, f));
        WithinMore(b, By(e, gap, f), By(e, gap, f'));
      }
    }
  }

  lemma ByZero(e: int, gap: nat)
    ensures By(e, gap, 0) == e
  {
  }

  lemma WithinMore(a: Agent, e: int, e': int)
    requires Within(a, e) && e <= e'
    ensures Within(a, e')
  {
    hide Limit;
  }

  /** From any check-list state, a controlling agent whose ticks come at most `gap` apart
      has stopped its timer by the time the last deadline, `e`, and a span for each rank of
      its pairs have passed. */
  lemma TimerStopsInTime(states: seq<Agent>, envs: seq<Env>, e: int, gap: nat) returns (k: nat)
    requires TickRun(states, envs) && envs != [] && states[0].controlling
    requires Within(states[0], e) && Paced(envs, gap) && T.Micros(envs[0].now) <= e + gap
    requires T.Micros(envs[|envs| - 1].now) > By(e, gap, StreamsRank(states[0].streams)) + gap
    ensures k < |envs| && !Tick(states[k], envs[k]).1
  {
    hide Tick, Distinct, Sound, StreamsRank, Within, By, T.Micros;
    var n := |envs| - 1;
    if forall j :: 0 <= j < n ==> Tick(states[j], envs[j]).1 {
      TimeFollowsRank(states, envs, n, e, gap);
      var fallen := StreamsRank(states[0].streams) - StreamsRank(states[n].streams);
      ByNext(e, gap, fallen, StreamsRank(states[0].streams));
      assert false;
    }
    k :| 0 <= k < n && !Tick(states[k], envs[k]).1;
  }

  // ---------------------------------------------------------------------
  // The controlled role

  predicate Done(p: Pair) {
    p.state == Failed || p.state == Cancelled || IsValid(p)
  }

  ghost predicate AllDone(a: Agent) {
    forall s, i :: 0 <= s < |a.streams| && 0 <= i < |a.streams[s].checks| ==> Done(a.streams[s].checks[i])
  }

  lemma {:induction false} NoneFrozen(checks: seq<Pair>)
    requires forall i :: 0 <= i < |checks| ==> Done(checks[i])
    ensures BestFrozen(checks).None?
  {
    if checks != [] {
      NoneFrozen(checks[..|checks| - 1]);
    }
  }

  lemma DoneAdvance(a: Agent, env: Env)
    requires AllDone(a)
    ensures Advance(a, env) == (a, false)
  {
    hide Initiate;
    var s := First(a.streams, HasWaiting());
    if s < |a.streams| {
      assert false;
    }
    var t := First(a.streams, HasFrozen());
    if t < |a.streams| {
      NoneFrozen(a.streams[t].checks);
      assert false;
    }
  }

  lemma {:induction false} DonePairs(a: Agent, s: nat, i: nat, now: T.Instant)
    requires AllDone(a) && s < |a.streams| && i <= |a.streams[s].checks|
    ensures TickPairs(a, s, i, now) == a
    decreases |a.streams[s].checks| - i
  {
    if i < |a.streams[s].checks| {
      var p := a.streams[s].checks[i];
      assert Done(p);
      assert TickPair(p, now) == (p, false);
      assert a.streams[s].checks[i := p] == a.streams[s].checks;
      assert SetPair(a, s, i, p).streams == a.streams;
      assert TickAt(a, s, i, now) == a;
      DonePairs(a, s, i + 1, now);
    }
  }

  lemma {:induction false} DoneStreams(a: Agent, s: nat, env: Env)
    requires AllDone(a) && !a.controlling && s <= |a.streams|
    ensures TickStreams(a, s, env) ==
            (a, exists t :: s <= t < |a.streams| && AwaitsNomination(a.streams[t]))
    decreases |a.streams| - s
  {
    hide AwaitsNomination, TickPairs;
    if s < |a.streams| {
      DonePairs(a, s, 0, env.now);
      assert !AnyInProgress(a.streams[s].checks);
      DoneStreams(a, s + 1, env);
    }
  }

  /** In the controlled role it is otherwise: when every check has ended, the timer goes
      on, without ever changing anything, exactly while a stream awaits nomination. */
  lemma ControlledWaitsIff(a: Agent, env: Env)
    requires AllDone(a) && !a.controlling
    ensures var waits := exists s :: 0 <= s < |a.streams| && AwaitsNomination(a.streams[s]);
            && (Tick(a, env).1 <==> waits)
            && (waits ==> Tick(a, env).0 == a)
  {
    hide AwaitsNomination, Advance, TickStreams, Settle;
    DoneAdvance(a, env);
    DoneStreams(a, 0, env);
  }
}
