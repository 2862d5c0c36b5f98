/** Every operation of the check logic in a fixed role is a `Step`. */
module ConncheckOps {
  import opened Arith
  import opened Candidates
  import opened Conncheck
  import opened ConncheckSteps
  import T = StunTimer

  // ---------------------------------------------------------------------
  // Single updates

  /** Replacing one pair. */
  lemma SetPairStep(a: Agent, s: nat, i: nat, q: Pair, cause: Cause)
    requires Sound(a) && s < |a.streams| && i < |a.streams[s].checks|
    requires PairOk(q, a.controlling, a.ids, a.uids, |a.streams[s].components|)
    requires PairEvolves(a.streams[s].checks[i], q, a, a.ids, cause) && Fewer(a.streams[s].checks[i], q)
    ensures Step(a, SetPair(a, s, i, q), cause)
  {
    hide Step, StreamStep, PairOk, PairEvolves, Fewer;
    var st := a.streams[s];
    PairStep(st, i, q, a, a.ids, a.uids, cause);
    NoRequest(q, a, |st.components|, []);
    PairTold(st, i, q, a, []);
    StreamKeeps(a, s, st.(checks := st.checks[i := q]), SetPair(a, s, i, q), cause);
  }

  lemma SetComponentStep(a: Agent, s: nat, c: nat, k: Component)
    requires Sound(a) && s < |a.streams| && c < |a.streams[s].components|
    requires ComponentOk(k, c) && SelectionRises(a.streams[s].components[c], k)
    requires k.state == a.streams[s].components[c].state
    ensures Step(a, SetComponent(a, s, c, k), Quiet)
  {
    hide Step, ComponentOk, SelectionRises, StreamEvolves, StreamOk, Dominated, SameUids;
    var st := a.streams[s];
    ComponentStep(st, c, k, a, a.uids);
    QuietTold(st, st.(components := st.components[c := k]), a, a.uids, []);
    StreamKeeps(a, s, st.(components := st.components[c := k]), SetComponent(a, s, c, k), Quiet);
  }

  lemma StartOk(now: T.Instant)
    ensures TimerOk(T.Start(now, TIMEOUT, RETRANSMISSIONS))
  {
    T.AddDelaySigned(now, TIMEOUT);
  }

  lemma RefreshOk(timer: T.Timer, now: T.Instant)
    requires TimerOk(timer)
    ensures TimerOk(T.Refresh(timer, now).0)
  {
    hide T.AddDelay, T.Remainder;
    T.AddDelaySigned(timer.deadline, U32(2 * timer.delay));
  }

  /** The pair that a check is started for. */
  lemma SendCheckOk(p: Pair, a: Agent, env: Env, n: nat)
    requires PairOk(p, a.controlling, a.ids, a.uids, n) && p.state != Cancelled
    ensures var p1 := p.(state := InProgress, nextTick := T.Micros(env.now) + 1000 * a.ta);
            var q := SendCheck(p1, a.controlling, a.tie, a.ids, env);
            && PairOk(q, a.controlling, a.ids + 1, a.uids, n)
            && PairEvolves(p, q, a, a.ids + 1, Quiet) && Fewer(p, q)
            && (q.message.Some? ==> Made(q.message.value, a, a.ids + 1))
  {
    hide RolePriority, IcePriority, T.AddDelay, T.Remainder, T.Micros, TimerOk;
    StartOk(env.now);
  }

  lemma InitiateStep(a: Agent, s: nat, i: nat, env: Env)
    requires Sound(a) && s < |a.streams| && i < |a.streams[s].checks|
    requires a.streams[s].checks[i].state != Cancelled
    ensures Step(a, Initiate(a, s, i, env), Quiet)
  {
    hide Step, StreamStep, PairOk, PairEvolves, Fewer, SendCheck, Made;
    var st := a.streams[s];
    SendCheckOk(st.checks[i], a, env, |st.components|);
    var p := st.checks[i].(state := InProgress, nextTick := T.Micros(env.now) + 1000 * a.ta);
    var q := SendCheck(p, a.controlling, a.tie, a.ids, env);
    PairStep(st, i, q, a, a.ids + 1, a.uids, Quiet);
    PairTold(st, i, q, a, Initiate(a, s, i, env).log[|a.log|..]);
    StreamKeeps(a, s, st.(checks := st.checks[i := q]), Initiate(a, s, i, env), Quiet);
  }

  // ---------------------------------------------------------------------
  // Unfreezing

  /** The best frozen pair is frozen, and no frozen pair has a higher priority. */
  lemma {:induction false} BestFrozenIs(checks: seq<Pair>)
    ensures var best := BestFrozen(checks);
            && (best.Some? ==> checks[best.value].state == Frozen && checks[best.value].priority > 0)
            && (forall i :: 0 <= i < |checks| && checks[i].state == Frozen ==>
                  checks[i].priority <= FrozenPriority(checks, best))
  {
    if checks != [] {
      var n := |checks| - 1;
      BestFrozenIs(checks[..n]);
      var best := BestFrozen(checks[..n]);
      assert FrozenPriority(checks, best) == FrozenPriority(checks[..n], best);
      forall i | 0 <= i < |checks| && checks[i].state == Frozen
        ensures checks[i].priority <= FrozenPriority(checks, BestFrozen(checks))
      {
        if i < n {
          assert checks[i] == checks[..n][i];
        }
      }
    }
  }

  /** A frozen pair is seen: its priority is positive. */
  lemma FrozenFound(a: Agent, s: nat, i: nat)
    requires Sound(a) && s < |a.streams| && i < |a.streams[s].checks| && a.streams[s].checks[i].state == Frozen
    ensures HasFrozen()(a.streams[s])
  {
    hide BestFrozen;
    var p := a.streams[s].checks[i];
    assert PairOk(p, a.controlling, a.ids, a.uids, |a.streams[s].components|);
    PairPriorityPositive(p.local.priority, p.remote.priority);
    PairPriorityPositive(p.remote.priority, p.local.priority);
    BestFrozenIs(a.streams[s].checks);
  }

  lemma UnfreezeNextStep(a: Agent)
    requires Sound(a)
    ensures Step(a, UnfreezeNext(a).0, Quiet)
  {
    hide Step, FrozenPriority, BestFrozen;
    var s := First(a.streams, HasFrozen());
    if s == |a.streams| {
      StepRefl(a);
    } else {
      BestFrozenIs(a.streams[s].checks);
      var i := BestFrozen(a.streams[s].checks).value;
      SetPairStep(a, s, i, a.streams[s].checks[i].(state := Waiting), Quiet);
    }
  }

  lemma UnfrozenOk(p: Pair, foundation: string, a: Agent, n: nat)
    requires PairOk(p, a.controlling, a.ids, a.uids, n)
    ensures var q := Unfrozen(p, foundation);
            && PairOk(q, a.controlling, a.ids, a.uids, n)
            && PairEvolves(p, q, a, a.ids, Quiet) && Fewer(p, q)
  {
  }

  /** All pairs of one stream change in their places. */
  lemma SetChecksStep(a: Agent, s: nat, checks: seq<Pair>)
    requires Sound(a) && s < |a.streams| && |checks| == |a.streams[s].checks|
    requires forall i :: 0 <= i < |checks| ==>
               && PairOk(checks[i], a.controlling, a.ids, a.uids, |a.streams[s].components|)
               && PairEvolves(a.streams[s].checks[i], checks[i], a, a.ids, Quiet)
               && Fewer(a.streams[s].checks[i], checks[i])
    ensures Step(a, SetChecks(a, s, checks), Quiet)
  {
    hide Step, PairOk, PairEvolves, Fewer, StreamEvolves, Dominated, SameUids;
    var st := a.streams[s];
    ChecksStep(st, checks, a, a.ids, a.uids, Quiet);
    QuietTold(st, st.(checks := checks), a, a.uids, []);
    StreamKeeps(a, s, st.(checks := checks), SetChecks(a, s, checks), Quiet);
  }

  lemma UnfreezeRelatedStep(a: Agent, s: nat, foundation: string)
    requires Sound(a) && s < |a.streams|
    ensures Step(a, UnfreezeRelated(a, s, foundation), Quiet)
  {
    hide Step, PairOk, PairEvolves, Fewer;
    var st := a.streams[s];
    var checks := UnfreezeAll(st.checks, foundation);
    if checks != st.checks {
      forall i | 0 <= i < |checks|
        ensures PairOk(checks[i], a.controlling, a.ids, a.uids, |st.components|)
        ensures PairEvolves(st.checks[i], checks[i], a, a.ids, Quiet) && Fewer(st.checks[i], checks[i])
      {
        UnfrozenOk(st.checks[i], foundation, a, |st.components|);
      }
      SetChecksStep(a, s, checks);
    } else {
      UnfreezeNextStep(a);
    }
  }

  // ---------------------------------------------------------------------
  // Selecting, pruning, signalling

  lemma SignalStep(a: Agent, s: nat, c: nat, state: ComponentState)
    requires Sound(a) && s < |a.streams| && c < |a.streams[s].components|
    requires state == Ready && Ranked(a) ==> Settled(a.streams[s], c)
    ensures Step(a, Signal(a, s, c, state), Quiet)
  {
    hide Step, StreamStep, Ranked;
    var st := a.streams[s];
    var k := st.components[c];
    if k.state == state {
      StepRefl(a);
    } else {
      var b := Signal(a, s, c, state);
      ComponentStep(st, c, k.(state := state), a, a.uids);
      SignalTold(a, s, c, state);
      StreamKeeps(a, s, st.(components := st.components[c := k.(state := state)]), b, Quiet);
    }
  }

  lemma SignalTold(a: Agent, s: nat, c: nat, state: ComponentState)
    requires s < |a.streams| && c < |a.streams[s].components|
    requires StreamOk(a.streams[s], a.controlling, a.ids, a.uids)
    ensures var b := Signal(a, s, c, state); Told(a.streams[s], b.streams[s], a.ids, b.log[|a.log|..])
  {
    hide StreamOk;
    var st, b := a.streams[s], Signal(a, s, c, state);
    var news := b.log[|a.log|..];
    QuietTold(st, st, a, a.uids, news);
    if st.components[c].state != state {
      assert Announces(news[0], c, state);
      forall d | 0 <= d < |st.components| ensures Announced(st, b.streams[s], d, news) {
      }
      forall j | 0 <= j < |st.checks| ensures Dispatched(st.checks[j], a.ids, news) {
      }
    }
  }

  lemma SelectStep(a: Agent, s: nat, c: nat, p: Pair)
    requires Sound(a) && s < |a.streams| && c < |a.streams[s].components|
    ensures Step(a, Select(a, s, c, p), Quiet)
  {
    hide Step;
    var k := a.streams[s].components[c];
    if p.priority > SelectedPriority(k) {
      SetComponentStep(a, s, c, k.(selected := Selected(p.local, p.remote, p.priority)));
    } else {
      StepRefl(a);
    }
  }

  lemma PrunedOk(p: Pair, c: nat, h: nat, a: Agent, n: nat)
    requires PairOk(p, a.controlling, a.ids, a.uids, n)
    ensures var q := Pruned(p, c, h);
            && PairOk(q, a.controlling, a.ids, a.uids, n)
            && PairEvolves(p, q, a, a.ids, Quiet) && Fewer(p, q)
            && q.component == p.component
            && (q.component == c ==> q.state != Frozen && q.state != Waiting)
            && (IsNominated(p, c) ==> IsNominated(q, c))
  {
    hide RolePriority;
  }

  lemma PruneStep(a: Agent, s: nat, c: nat, h: nat)
    requires Sound(a) && s < |a.streams|
    ensures Step(a, SetChecks(a, s, PruneAll(a.streams[s].checks, c, h)), Quiet)
  {
    hide Step, PairOk, PairEvolves, Fewer, Pruned;
    var st := a.streams[s];
    var checks := PruneAll(st.checks, c, h);
    forall i | 0 <= i < |checks|
      ensures PairOk(checks[i], a.controlling, a.ids, a.uids, |st.components|)
      ensures PairEvolves(st.checks[i], checks[i], a, a.ids, Quiet) && Fewer(st.checks[i], checks[i])
    {
      PrunedOk(st.checks[i], c, h, a, |st.components|);
    }
    SetChecksStep(a, s, checks);
  }

  /** A nominated valid pair means that something has been selected. */
  lemma NominatedSelects(a: Agent, s: nat, c: nat, i: nat)
    requires Sound(a) && Ranked(a) && s < |a.streams| && i < |a.streams[s].checks|
    requires c < |a.streams[s].components| && IsNominated(a.streams[s].checks[i], c)
    ensures a.streams[s].components[c].selected.Selected?
  {
    var p := a.streams[s].checks[i];
    assert PairDominated(p, a.streams[s]);
    assert PairOk(p, a.controlling, a.ids, a.uids, |a.streams[s].components|);
    PairPriorityPositive(p.local.priority, p.remote.priority);
    PairPriorityPositive(p.remote.priority, p.local.priority);
  }

  /** Pruned with nothing pending, the component is settled. */
  lemma PruneSettles(a: Agent, s: nat, c: nat, h: nat)
    requires Sound(a) && Ranked(a) && s < |a.streams| && c < |a.streams[s].components|
    requires AnyNominated(a.streams[s].checks, c)
    requires !AnyPending(PruneAll(a.streams[s].checks, c, h), c)
    ensures Settled(SetChecks(a, s, PruneAll(a.streams[s].checks, c, h)).streams[s], c)
  {
    var st := a.streams[s];
    var checks := PruneAll(st.checks, c, h);
    var i :| 0 <= i < |st.checks| && IsNominated(st.checks[i], c);
    NominatedSelects(a, s, c, i);
    forall j | 0 <= j < |checks| && checks[j].component == c
      ensures checks[j].state != Frozen && checks[j].state != Waiting && checks[j].state != InProgress
    {
      PrunedOk(st.checks[j], c, h, a, |st.components|);
      assert !IsPending(checks[j], c);
    }
  }

  lemma UpdateReadyStep(a: Agent, s: nat, c: nat)
    requires Sound(a) && s < |a.streams| && c < |a.streams[s].components|
    ensures Step(a, UpdateReady(a, s, c), Quiet)
  {
    hide Sound, Ranked, Evolves, ReadySince, AnyNominated, AnyPending, Settled, HighestNominated;
    var checks := a.streams[s].checks;
    if !AnyNominated(checks, c) {
      StepRefl(a);
    } else {
      var h := HighestNominated(checks, c);
      var b := SetChecks(a, s, PruneAll(checks, c, h));
      PruneStep(a, s, c, h);
      if !AnyPending(b.streams[s].checks, c) {
        SettledSignal(a, b, s, c, h);
      }
    }
  }

  lemma SettledSignal(a: Agent, b: Agent, s: nat, c: nat, h: nat)
    requires Sound(a) && s < |a.streams| && c < |a.streams[s].components|
    requires AnyNominated(a.streams[s].checks, c) && Step(a, b, Quiet)
    requires b == SetChecks(a, s, PruneAll(a.streams[s].checks, c, h)) && !AnyPending(b.streams[s].checks, c)
    ensures Step(a, Signal(b, s, c, Ready), Quiet)
  {
    hide Sound, Ranked, Evolves, ReadySince, AnyNominated, AnyPending, Settled, Signal;
    if Ranked(a) {
      PruneSettles(a, s, c, h);
      SignalStep(b, s, c, Ready);
      StepTrans(a, b, Signal(b, s, c, Ready), Quiet);
    } else {
      SignalUnranked(a, b, s, c);
    }
  }

  /** Without domination the signal still changes nothing but the component's state. */
  lemma SignalUnranked(a: Agent, b: Agent, s: nat, c: nat)
    requires Step(a, b, Quiet) && !Ranked(a) && s < |b.streams| && c < |b.streams[s].components|
    ensures Step(a, Signal(b, s, c, Ready), Quiet)
  {
    hide Ranked, StreamStep;
    var st := b.streams[s];
    var k := st.components[c];
    var d := Signal(b, s, c, Ready);
    if k.state != Ready {
      var st' := st.(components := st.components[c := k.(state := Ready)]);
      ComponentStep(st, c, k.(state := Ready), b, b.uids);
      SignalTold(b, s, c, Ready);
      SoundSignal(b, s, st', d);
      EvolvesTrans(a, b, d, Quiet);
    }
  }

  lemma SoundSignal(b: Agent, s: nat, st: Stream, d: Agent)
    requires Sound(b) && s < |b.streams| && StreamStep(b.streams[s], st, b, b.ids, b.uids, Quiet)
    requires d == b.(streams := b.streams[s := st], log := d.log) && b.log <= d.log
    requires forall k :: |b.log| <= k < |d.log| ==> d.log[k].Signalled?
    requires |st.components| == |b.streams[s].components| && Told(b.streams[s], st, b.ids, d.log[|b.log|..])
    ensures Sound(d) && Evolves(b, d, Quiet)
  {
    hide StreamOk, StreamEvolves, Told;
    forall t | 0 <= t < |b.streams|
      ensures StreamEvolves(b.streams[t], d.streams[t], b, b.ids, Quiet)
      ensures |d.streams[t].components| == |b.streams[t].components|
      ensures Told(b.streams[t], d.streams[t], b.ids, d.log[|b.log|..])
    {
      if t != s {
        StreamRefl(b.streams[t], b, b.ids);
        QuietTold(b.streams[t], b.streams[t], b, b.uids, d.log[|b.log|..]);
      }
    }
  }
}
