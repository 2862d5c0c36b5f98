/** How many requests the ticks send: exactly one for every check that is started and one
    for every retransmission, and four for a check that is given up. */
module ConncheckRequests {
  import opened Options
  import opened Conncheck
  import opened ConncheckSteps
  import opened ConncheckOps
  import opened ConncheckEntries
  import opened ConncheckTicks
  import opened ConncheckTermination
  import opened ConncheckOutcome
  import T = StunTimer

  /** How often the event occurs. */
  function Count(log: seq<Event>, e: Event): nat {
    if log == [] then 0 else Count(log[..|log| - 1], e) + (if log[|log| - 1] == e then 1 else 0)
  }

  lemma CountAppend(log: seq<Event>, f: Event, e: Event)
    ensures Count(log + [f], e) == Count(log, e) + (if f == e then 1 else 0)
  {
    assert (log + [f])[..|log|] == log;
  }

  /** How often request `r` was sent for the pair `uid` between two logs. */
  function Gain(log: seq<Event>, log': seq<Event>, uid: nat, r: Request): int {
    Count(log', Sent(uid, r)) - Count(log, Sent(uid, r))
  }

  /** The pair sent `r` as often as its timer tells. A request that is no longer outstanding
      was sent for every retransmission there is. Another request was sent only if it is
      new and the pair's own did not stay outstanding. */
  ghost predicate Ledger(p: Pair, q: Pair, log: seq<Event>, log': seq<Event>, ids: nat, ids': nat) {
    && q.uid == p.uid && ids <= ids'
    && (p.message.Some? ==> p.message.value.id < ids)
    && (q.message.Some? && q.message != p.message ==> ids <= q.message.value.id < ids')
    && forall r :: Balanced(p, q, r, Gain(log, log', p.uid, r), ids, ids')
  }

  predicate Balanced(p: Pair, q: Pair, r: Request, gain: int, ids: nat, ids': nat) {
    if p.message == Some(r) then
      gain == (if q.message == Some(r) then q.timer.retransmissions else RETRANSMISSIONS) - p.timer.retransmissions
    else if q.message == Some(r) then gain == 1 + q.timer.retransmissions
    else gain == 0 || (ids <= r.id < ids' && (p.message.None? || q.message != p.message))
  }

  ghost predicate AllBalanced(a: Agent, b: Agent) {
    && Same(a, b)
    && forall s, i :: 0 <= s < |a.streams| && 0 <= i < |a.streams[s].checks| ==>
         Ledger(a.streams[s].checks[i], b.streams[s].checks[i], a.log, b.log, a.ids, b.ids)
  }

  lemma LedgerTrans(p: Pair, q: Pair, w: Pair, l0: seq<Event>, l1: seq<Event>, l2: seq<Event>,
                    ids0: nat, ids1: nat, ids2: nat)
    requires Ledger(p, q, l0, l1, ids0, ids1) && Ledger(q, w, l1, l2, ids1, ids2)
    ensures Ledger(p, w, l0, l2, ids0, ids2)
  {
    hide Count;
    forall r ensures Balanced(p, w, r, Gain(l0, l2, p.uid, r), ids0, ids2) {
      assert Balanced(p, q, r, Gain(l0, l1, p.uid, r), ids0, ids1);
      assert Balanced(q, w, r, Gain(l1, l2, q.uid, r), ids1, ids2);
    }
  }

  lemma BalancedTrans(a: Agent, b: Agent, c: Agent)
    requires AllBalanced(a, b) && AllBalanced(b, c)
    ensures AllBalanced(a, c)
  {
    hide Ledger;
    forall s, i | 0 <= s < |a.streams| && 0 <= i < |a.streams[s].checks|
      ensures Ledger(a.streams[s].checks[i], c.streams[s].checks[i], a.log, c.log, a.ids, c.ids)
    {
      LedgerTrans(a.streams[s].checks[i], b.streams[s].checks[i], c.streams[s].checks[i],
                  a.log, b.log, c.log, a.ids, b.ids, c.ids);
    }
  }

  /** A pair that sends nothing and keeps its request and timer. */
  lemma QuietLedger(p: Pair, q: Pair, a: Agent, log: seq<Event>, n: nat)
    requires PairOk(p, a.controlling, a.ids, a.uids, n)
    requires q.uid == p.uid && q.message == p.message && q.timer == p.timer
    requires forall r :: Gain(a.log, log, p.uid, r) == 0
    ensures forall ids :: a.ids <= ids ==> Ledger(p, q, a.log, log, a.ids, ids)
  {
    hide Count, Gain, TimerOk;
  }

  /** One pair changes in place; what is logged is its request, if anything. */
  lemma OneBalanced(a: Agent, b: Agent, s: nat, i: nat, q: Pair)
    requires Sound(a) && Distinct(a) && s < |a.streams| && i < |a.streams[s].checks| && a.ids <= b.ids
    requires b.streams == SetPair(a, s, i, q).streams
    requires b.log == a.log || exists r :: b.log == a.log + [Sent(a.streams[s].checks[i].uid, r)]
    requires Ledger(a.streams[s].checks[i], q, a.log, b.log, a.ids, b.ids)
    ensures AllBalanced(a, b)
  {
    hide Ledger, Count, PairOk;
    forall t, j | 0 <= t < |a.streams| && 0 <= j < |a.streams[t].checks|
      ensures Ledger(a.streams[t].checks[j], b.streams[t].checks[j], a.log, b.log, a.ids, b.ids)
    {
      if t != s || j != i {
        var p := a.streams[t].checks[j];
        forall r ensures Gain(a.log, b.log, p.uid, r) == 0 {
          if b.log != a.log {
            var e :| b.log == a.log + [Sent(a.streams[s].checks[i].uid, e)];
            CountAppend(a.log, Sent(a.streams[s].checks[i].uid, e), Sent(p.uid, r));
          }
        }
        SoundPair(a, t, j);
        QuietLedger(p, p, a, b.log, |a.streams[t].components|);
      }
    }
  }

  lemma SoundPair(a: Agent, s: nat, i: nat)
    requires Sound(a) && s < |a.streams| && i < |a.streams[s].checks|
    ensures PairOk(a.streams[s].checks[i], a.controlling, a.ids, a.uids, |a.streams[s].components|)
  {
  }

  lemma BalancedRefl(a: Agent)
    requires Sound(a)
    ensures AllBalanced(a, a)
  {
    hide Ledger, PairOk, Count;
    forall s, i | 0 <= s < |a.streams| && 0 <= i < |a.streams[s].checks|
      ensures Ledger(a.streams[s].checks[i], a.streams[s].checks[i], a.log, a.log, a.ids, a.ids)
    {
      SoundPair(a, s, i);
      QuietLedger(a.streams[s].checks[i], a.streams[s].checks[i], a, a.log, |a.streams[s].components|);
    }
  }

  // ---------------------------------------------------------------------
  // The parts of a tick

  /** One pair changes and sends nothing. */
  lemma SetPairBalanced(a: Agent, s: nat, i: nat, q: Pair)
    requires Sound(a) && Distinct(a) && s < |a.streams| && i < |a.streams[s].checks|
    requires var p := a.streams[s].checks[i]; q.uid == p.uid && q.message == p.message && q.timer == p.timer
    ensures AllBalanced(a, SetPair(a, s, i, q))
  {
    hide AllBalanced, Ledger, PairOk, Sound, Distinct, Count;
    SoundPair(a, s, i);
    QuietLedger(a.streams[s].checks[i], q, a, a.log, |a.streams[s].components|);
    OneBalanced(a, SetPair(a, s, i, q), s, i, q);
  }

  /** A check that starts sends its request once. */
  lemma InitiateBalanced(a: Agent, s: nat, i: nat, env: Env)
    requires Sound(a) && Distinct(a) && s < |a.streams| && i < |a.streams[s].checks|
    requires a.streams[s].checks[i].state != InProgress
    ensures AllBalanced(a, Initiate(a, s, i, env))
  {
    hide AllBalanced, Sound, Distinct, Count, T.Remainder, T.Micros;
    var b := Initiate(a, s, i, env);
    var p, q := a.streams[s].checks[i], b.streams[s].checks[i];
    SoundPair(a, s, i);
    assert p.message.None? && (q.message.Some? ==> q.message.value.id == a.ids && q.timer.retransmissions == 0);
    forall r ensures Balanced(p, q, r, Gain(a.log, b.log, p.uid, r), a.ids, b.ids) {
      if q.message.None? {
        assert b.log == a.log;
      } else {
        CountAppend(a.log, Sent(q.uid, q.message.value), Sent(p.uid, r));
      }
    }
    OneBalanced(a, b, s, i, q);
  }

  /** What a tick makes of a request that is outstanding. */
  lemma TickPairCounts(p: Pair, now: T.Instant)
    requires p.message.Some? ==> p.state == InProgress && TimerOk(p.timer)
    ensures var (q, again) := TickPair(p, now);
            && q.uid == p.uid && (again ==> p.message.Some?)
            && (p.message.None? ==> q.message.None?)
            && (p.message.Some? ==>
                  if q.message.Some? then
                    q.message == p.message
                    && q.timer.retransmissions == p.timer.retransmissions + (if again then 1 else 0)
                  else p.timer.retransmissions == RETRANSMISSIONS && !again)
  {
    hide T.Remainder, T.AddDelay, T.Micros;
  }

  lemma TickAtBalanced(a: Agent, s: nat, i: nat, now: T.Instant)
    requires Sound(a) && Distinct(a) && s < |a.streams| && i < |a.streams[s].checks|
    ensures AllBalanced(a, TickAt(a, s, i, now))
  {
    hide AllBalanced, Sound, Distinct, Count, TickPair;
    var b := TickAt(a, s, i, now);
    var p, q := a.streams[s].checks[i], b.streams[s].checks[i];
    SoundPair(a, s, i);
    TickPairCounts(p, now);
    forall r ensures Balanced(p, q, r, Gain(a.log, b.log, p.uid, r), a.ids, b.ids) {
      if b.log != a.log {
        CountAppend(a.log, Sent(q.uid, q.message.value), Sent(p.uid, r));
      }
    }
    OneBalanced(a, b, s, i, q);
  }

  lemma {:induction false} TickPairsBalanced(a: Agent, s: nat, i: nat, now: T.Instant)
    requires Sound(a) && Distinct(a) && s < |a.streams| && i <= |a.streams[s].checks|
    ensures AllBalanced(a, TickPairs(a, s, i, now))
    decreases |a.streams[s].checks| - i
  {
    hide AllBalanced, Sound, Distinct, TickAt, Step, Moves;
    if i == |a.streams[s].checks| {
      BalancedRefl(a);
    } else {
      var b := TickAt(a, s, i, now);
      TickAtBalanced(a, s, i, now);
      TickAtStep(a, s, i, now);
      StepSound(a, b, Quiet);
      TickAtMoves(a, s, i, now);
      MovesDistinct(a, b, now);
      TickPairsBalanced(b, s, i + 1, now);
      BalancedTrans(a, b, TickPairs(b, s, i + 1, now));
    }
  }

  lemma RestartBalanced(a: Agent, s: nat, i: nat, env: Env)
    requires Sound(a) && Distinct(a) && s < |a.streams| && i < |a.streams[s].checks|
    requires IsValid(a.streams[s].checks[i])
    ensures AllBalanced(a, Initiate(SetPair(a, s, i, a.streams[s].checks[i].(nominated := true)), s, i, env))
  {
    hide AllBalanced, Sound, Distinct, Initiate, Step, Moves, StreamStep, PairOk, PairEvolves, Strict, Lowers;
    var p := a.streams[s].checks[i].(nominated := true);
    var b := SetPair(a, s, i, p);
    SetPairBalanced(a, s, i, p);
    NominatedSound(a, s, i);
    NominateLowers(a.streams[s].checks[i], env.now);
    OneMoves(a, b, s, i, p, env.now);
    MovesDistinct(a, b, env.now);
    InitiateBalanced(b, s, i, env);
    BalancedTrans(a, b, Initiate(b, s, i, env));
  }

  lemma NominatedSound(a: Agent, s: nat, i: nat)
    requires Sound(a) && s < |a.streams| && i < |a.streams[s].checks|
    ensures Sound(SetPair(a, s, i, a.streams[s].checks[i].(nominated := true)))
  {
    hide PairOk;
    SoundPair(a, s, i);
    NominatedOk(a.streams[s].checks[i], a, |a.streams[s].components|);
  }

  lemma {:induction false} RenominateBalanced(a: Agent, s: nat, n: nat, env: Env)
    requires Sound(a) && Distinct(a) && s < |a.streams|
    ensures AllBalanced(a, Renominate(a, s, n, env))
    decreases n
  {
    hide AllBalanced, Sound, Distinct, Initiate, Step, Moves, Strict;
    if n == 0 {
      BalancedRefl(a);
    } else {
      var checks := a.streams[s].checks;
      var i := First(checks, ValidPairs());
      if i == |checks| {
        RenominateBalanced(a, s, n - 1, env);
      } else {
        var b := Initiate(SetPair(a, s, i, checks[i].(nominated := true)), s, i, env);
        RestartBalanced(a, s, i, env);
        RestartNominated(a, s, i, env);
        StepSound(a, b, Quiet);
        RestartMoves(a, s, i, env);
        MovesDistinct(a, b, env.now);
        RenominateBalanced(b, s, n - 1, env);
        BalancedTrans(a, b, Renominate(b, s, n - 1, env));
      }
    }
  }

  lemma TickStreamBalanced(a: Agent, s: nat, env: Env)
    requires Sound(a) && Distinct(a) && s < |a.streams|
    ensures AllBalanced(a, TickStream(a, s, env).0)
  {
    hide AllBalanced, Sound, Distinct, TickPairs, Renominate, AwaitsNomination, AnyInProgress, Step, Moves;
    var b := TickPairs(a, s, 0, env.now);
    TickPairsBalanced(a, s, 0, env.now);
    TickPairsStep(a, s, 0, env.now);
    StepSound(a, b, Quiet);
    TickPairsMove(a, s, 0, env.now);
    MovesDistinct(a, b, env.now);
    RenominateBalanced(b, s, |b.streams[s].components|, env);
    BalancedTrans(a, b, Renominate(b, s, |b.streams[s].components|, env));
  }

  lemma {:induction false} TickStreamsBalanced(a: Agent, s: nat, env: Env)
    requires Sound(a) && Distinct(a) && s <= |a.streams|
    ensures AllBalanced(a, TickStreams(a, s, env).0)
    decreases |a.streams| - s
  {
    hide AllBalanced, Sound, Distinct, TickStream, Step, Moves;
    if s == |a.streams| {
      BalancedRefl(a);
    } else {
      var b := TickStream(a, s, env).0;
      TickStreamBalanced(a, s, env);
      TickStreamStep(a, s, env);
      StepSound(a, b, Quiet);
      TickStreamMoves(a, s, env);
      MovesDistinct(a, b, env.now);
      TickStreamsBalanced(b, s + 1, env);
      BalancedTrans(a, b, TickStreams(b, s + 1, env).0);
    }
  }

  lemma AdvanceBalanced(a: Agent, env: Env)
    requires Sound(a) && Distinct(a)
    ensures AllBalanced(a, Advance(a, env).0)
  {
    hide AllBalanced, Sound, Distinct, Initiate, BestFrozen, FrozenPriority;
    var s := First(a.streams, HasWaiting());
    var t := First(a.streams, HasFrozen());
    if s < |a.streams| {
      InitiateBalanced(a, s, First(a.streams[s].checks, IsWaiting()), env);
    } else if t < |a.streams| {
      BestFrozenIs(a.streams[t].checks);
      var i := BestFrozen(a.streams[t].checks).value;
      SetPairBalanced(a, t, i, a.streams[t].checks[i].(state := Waiting));
    } else {
      BalancedRefl(a);
    }
  }

  // ---------------------------------------------------------------------
  // Settling

  /** Nothing is sent and no pair has a request that it did not have. */
  ghost predicate Silent(a: Agent, b: Agent) {
    && Same(a, b) && b.ids == a.ids
    && (forall e: Event :: e.Sent? ==> Count(b.log, e) == Count(a.log, e))
    && forall s, i :: 0 <= s < |a.streams| && 0 <= i < |a.streams[s].checks| ==>
         var p, q := a.streams[s].checks[i], b.streams[s].checks[i];
         q.uid == p.uid && (q.message == p.message || q.message.None?)
  }

  lemma SilentTrans(a: Agent, b: Agent, c: Agent)
    requires Silent(a, b) && Silent(b, c)
    ensures Silent(a, c)
  {
    hide Count;
    forall s, i | 0 <= s < |a.streams| && 0 <= i < |a.streams[s].checks|
      ensures var p, q := a.streams[s].checks[i], c.streams[s].checks[i];
              q.uid == p.uid && (q.message == p.message || q.message.None?)
    {
      var q := b.streams[s].checks[i];
    }
  }

  lemma SignalSilent(a: Agent, s: nat, c: nat, state: ComponentState)
    requires s < |a.streams| && c < |a.streams[s].components|
    ensures Silent(a, Signal(a, s, c, state))
  {
    hide Count;
    forall e: Event | e.Sent?
      ensures Count(Signal(a, s, c, state).log, e) == Count(a.log, e)
    {
      if Signal(a, s, c, state).log != a.log {
        CountAppend(a.log, Signal(a, s, c, state).log[|a.log|], e);
      }
    }
  }

  lemma UpdateReadySilent(a: Agent, s: nat, c: nat)
    requires s < |a.streams| && c < |a.streams[s].components|
    ensures Silent(a, UpdateReady(a, s, c))
  {
    hide AnyNominated, AnyPending, HighestNominated, Signal, Count;
    var checks := a.streams[s].checks;
    if AnyNominated(checks, c) {
      var b := SetChecks(a, s, PruneAll(checks, c, HighestNominated(checks, c)));
      assert Silent(a, b);
      SignalSilent(b, s, c, Ready);
      SilentTrans(a, b, Signal(b, s, c, Ready));
    }
  }

  lemma {:induction false} SignalFailedSilent(a: Agent, s: nat, c: nat)
    requires s < |a.streams| && c <= |a.streams[s].components|
    ensures Silent(a, SignalFailed(a, s, c))
    decreases |a.streams[s].components| - c
  {
    hide Signal, Count;
    if c < |a.streams[s].components| {
      var st := a.streams[s];
      var failed := First(st.checks, AllFailed(c)) == |st.checks| && st.components[c].remotes != [];
      var b := if failed then Signal(a, s, c, Broken) else a;
      SignalSilent(a, s, c, Broken);
      SignalFailedSilent(b, s, c + 1);
      SilentTrans(a, b, SignalFailed(b, s, c + 1));
    }
  }

  lemma {:induction false} ReadyComponentsSilent(a: Agent, s: nat, c: nat)
    requires s < |a.streams| && c <= |a.streams[s].components|
    ensures Silent(a, ReadyComponents(a, s, c))
    decreases |a.streams[s].components| - c
  {
    hide UpdateReady, Count;
    if c < |a.streams[s].components| {
      var b := UpdateReady(a, s, c);
      UpdateReadySilent(a, s, c);
      ReadyComponentsSilent(b, s, c + 1);
      SilentTrans(a, b, ReadyComponents(b, s, c + 1));
    }
  }

  lemma {:induction false} SettleSilent(a: Agent, s: nat)
    requires s <= |a.streams|
    ensures Silent(a, Settle(a, s))
    decreases |a.streams| - s
  {
    hide ReadyComponents, SignalFailed, Count;
    if s < |a.streams| {
      var b := SignalFailed(a, s, 0);
      SignalFailedSilent(a, s, 0);
      var c := ReadyComponents(b, s, 0);
      ReadyComponentsSilent(b, s, 0);
      SilentTrans(a, b, c);
      SettleSilent(c, s + 1);
      SilentTrans(a, c, Settle(c, s + 1));
    }
  }

  /** With no check in progress no request is outstanding. */
  lemma SilentBalanced(a: Agent, b: Agent)
    requires Sound(a) && Silent(a, b) && forall s :: 0 <= s < |a.streams| ==> NoneRuns(a.streams[s])
    ensures AllBalanced(a, b)
  {
    hide Count;
    forall s, i | 0 <= s < |a.streams| && 0 <= i < |a.streams[s].checks|
      ensures Ledger(a.streams[s].checks[i], b.streams[s].checks[i], a.log, b.log, a.ids, b.ids)
    {
      SoundPair(a, s, i);
      assert NoneRuns(a.streams[s]);
      var p := a.streams[s].checks[i];
      assert forall r :: Gain(a.log, b.log, p.uid, r) == 0;
    }
  }

  // ---------------------------------------------------------------------
  // Ticks

  /** In a tick every pair sends its request exactly as often as its timer tells. */
  lemma TickBalanced(a: Agent, env: Env)
    requires Sound(a) && Distinct(a)
    ensures AllBalanced(a, Tick(a, env).0)
  {
    hide AllBalanced, Sound, Distinct, Advance, TickStreams, Settle, Step, Moves, Strict, Silent, NoneRuns;
    if !Tick(a, env).1 {
      StoppedIs(a, env);
      var b := TickStreams(a, 0, env).0;
      TickStreamsBalanced(a, 0, env);
      StreamsIdle(a, 0, env);
      TickStreamsStep(a, 0, env);
      StepSound(a, b, Quiet);
      SettleSilent(b, 0);
      SilentBalanced(b, Settle(b, 0));
      BalancedTrans(a, b, Settle(b, 0));
    } else {
      var b := Advance(a, env).0;
      AdvanceBalanced(a, env);
      AdvanceStep(a, env);
      StepSound(a, b, Quiet);
      TickParts(a, env);
      TickStreamsBalanced(b, 0, env);
      BalancedTrans(a, b, TickStreams(b, 0, env).0);
    }
  }

  lemma {:induction false} RunBalanced(states: seq<Agent>, envs: seq<Env>, m: nat, n: nat)
    requires TickRun(states, envs) && m <= n < |states|
    ensures AllBalanced(states[m], states[n])
    decreases n
  {
    hide Tick, Distinct, Sound, AllBalanced, Falls;
    if n == m {
      RunFalls(states, envs, n);
      BalancedRefl(states[n]);
    } else {
      RunBalanced(states, envs, m, n - 1);
      RunFalls(states, envs, n - 1);
      TickBalanced(states[n - 1], envs[n - 1]);
      BalancedTrans(states[m], states[n - 1], states[n]);
    }
  }

  /** Between any two moments of a run of ticks, a pair whose request stays outstanding
      sends exactly that request, once for every retransmission its timer has counted. */
  lemma OutstandingIsCounted(states: seq<Agent>, envs: seq<Env>, m: nat, n: nat, s: nat, i: nat)
    requires TickRun(states, envs) && m <= n < |states|
    requires s < |states[m].streams| && i < |states[m].streams[s].checks|
    requires s < |states[n].streams| && i < |states[n].streams[s].checks|
    requires states[m].streams[s].checks[i].message.Some?
    requires states[n].streams[s].checks[i].message == states[m].streams[s].checks[i].message
    ensures var p, q := states[m].streams[s].checks[i], states[n].streams[s].checks[i];
            && q.uid == p.uid
            && forall r :: Gain(states[m].log, states[n].log, p.uid, r) ==
                 if r == p.message.value then q.timer.retransmissions - p.timer.retransmissions else 0
  {
    hide TickRun, Count;
    RunBalanced(states, envs, m, n);
    assert AllBalanced(states[m], states[n]);
  }

  /** A check that was started after `m`, was outstanding at `k` and is given up at `n` has
      been sent exactly four times: once, and once for each of the three retransmissions. */
  lemma GivenUpAfterFour(states: seq<Agent>, envs: seq<Env>, m: nat, k: nat, n: nat, s: nat, i: nat, r: Request)
    requires TickRun(states, envs) && m <= k <= n < |states|
    requires s < |states[m].streams| && i < |states[m].streams[s].checks|
    requires s < |states[k].streams| && i < |states[k].streams[s].checks|
    requires s < |states[n].streams| && i < |states[n].streams[s].checks|
    requires states[m].streams[s].checks[i].message != Some(r)
    requires states[k].streams[s].checks[i].message == Some(r)
    requires states[n].streams[s].checks[i].message != Some(r)
    ensures Gain(states[m].log, states[n].log, states[m].streams[s].checks[i].uid, r) == 1 + RETRANSMISSIONS
  {
    hide TickRun, Count;
    RunBalanced(states, envs, m, k);
    RunBalanced(states, envs, k, n);
    var p, q, w := states[m].streams[s].checks[i], states[k].streams[s].checks[i], states[n].streams[s].checks[i];
    assert Balanced(p, q, r, Gain(states[m].log, states[k].log, p.uid, r), states[m].ids, states[k].ids);
    assert Balanced(q, w, r, Gain(states[k].log, states[n].log, q.uid, r), states[k].ids, states[n].ids);
  }
}
