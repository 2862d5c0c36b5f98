/** Responses, ticks and role changes as steps. */
module ConncheckTicks {
  import opened Options
  import opened Candidates
  import opened Conncheck
  import opened ConncheckSteps
  import opened ConncheckOps
  import opened ConncheckEntries
  import T = StunTimer

  // ---------------------------------------------------------------------
  // Responses

  /** Nothing newly valid or nominated, no selection changed, no ready signal. */
  ghost predicate Calm(a: Agent, b: Agent) {
    && Same(a, b) && a.log <= b.log && ReadySince(a, b)
    && forall s :: 0 <= s < |a.streams| ==> CalmStream(a.streams[s], b.streams[s])
  }

  ghost predicate CalmStream(st: Stream, st': Stream) {
    && |st'.components| == |st.components| && |st'.checks| == |st.checks|
    && (forall c :: 0 <= c < |st.components| ==> st'.components[c].selected == st.components[c].selected)
    && (forall j :: 0 <= j < |st.checks| ==>
          st'.checks[j].component == st.checks[j].component && Fewer(st.checks[j], st'.checks[j]))
  }

  lemma CalmTrans(a: Agent, b: Agent, c: Agent)
    requires Calm(a, b) && Calm(b, c)
    ensures Calm(a, c)
  {
    hide ReadyOk;
    forall s | 0 <= s < |a.streams|
      ensures CalmStream(a.streams[s], c.streams[s])
    {
      assert CalmStream(a.streams[s], b.streams[s]) && CalmStream(b.streams[s], c.streams[s]);
    }
  }

  lemma UnfreezeNextCalm(a: Agent)
    ensures Calm(a, UnfreezeNext(a).0)
  {
    hide BestFrozen, FrozenPriority;
    var s := First(a.streams, HasFrozen());
    if s < |a.streams| {
      BestFrozenIs(a.streams[s].checks);
    }
  }

  lemma UnfreezeRelatedCalm(a: Agent, s: nat, foundation: string)
    requires s < |a.streams|
    ensures Calm(a, UnfreezeRelated(a, s, foundation))
  {
    hide UnfreezeNext;
    UnfreezeNextCalm(a);
  }

  lemma ProgressCalm(a: Agent, s: nat, c: nat)
    requires s < |a.streams| && c < |a.streams[s].components|
    ensures Calm(a, Progress(a, s, c))
  {
  }

  /** All pairs but one are dominated. */
  ghost predicate RankedBut(a: Agent, s: nat, i: nat) {
    forall t, j :: 0 <= t < |a.streams| && 0 <= j < |a.streams[t].checks| && (t != s || j != i) ==>
      PairDominated(a.streams[t].checks[j], a.streams[t])
  }

  lemma CalmRanked(a: Agent, b: Agent, s: nat, i: nat)
    requires Calm(a, b) && RankedBut(a, s, i)
    ensures RankedBut(b, s, i)
  {
    forall t, j | 0 <= t < |b.streams| && 0 <= j < |b.streams[t].checks| && (t != s || j != i)
      ensures PairDominated(b.streams[t].checks[j], b.streams[t])
    {
      assert CalmStream(a.streams[t], b.streams[t]);
      assert PairDominated(a.streams[t].checks[j], a.streams[t]);
    }
  }

  /** A success response for pair `p` on component `c` leaves the selection of the pair's
      component on top: it came in there, or the pair is not nominated, or is outranked
      already. */
  ghost predicate SuccessFits(p: Pair, st: Stream, c: nat) {
    p.component != c && p.nominated && p.component < |st.components| ==>
      p.priority <= SelectedPriority(st.components[p.component])
  }

  /** Selecting for the exempted pair restores domination. */
  lemma SelectRanked(b: Agent, s: nat, c: nat, i: nat, q: Pair)
    requires RankedBut(b, s, i) && s < |b.streams| && c < |b.streams[s].components| && i < |b.streams[s].checks|
    requires b.streams[s].checks[i].component == q.component
    requires Fewer(q, b.streams[s].checks[i]) && SuccessFits(q, b.streams[s], c)
    ensures Ranked(if q.nominated then Select(b, s, c, q) else b)
  {
    var d := if q.nominated then Select(b, s, c, q) else b;
    forall t, j | 0 <= t < |d.streams| && 0 <= j < |d.streams[t].checks|
      ensures PairDominated(d.streams[t].checks[j], d.streams[t])
    {
      if t != s || j != i {
        assert PairDominated(b.streams[t].checks[j], b.streams[t]);
      }
    }
  }

  lemma SucceededOk(p: Pair, a: Agent, n: nat, cause: Cause)
    requires PairOk(p, a.controlling, a.ids, a.uids, n) && Justified(p, cause)
    ensures var q := p.(message := None, state := Succeeded);
            PairOk(q, a.controlling, a.ids, a.uids, n) && PairEvolves(p, q, a, a.ids, cause)
    ensures var q := p.(message := None, state := Failed);
            PairOk(q, a.controlling, a.ids, a.uids, n) && PairEvolves(p, q, a, a.ids, Quiet) && Fewer(p, q)
  {
  }

  lemma RankedExempt(a: Agent, s: nat, i: nat, q: Pair)
    requires Ranked(a) && s < |a.streams| && i < |a.streams[s].checks|
    ensures RankedBut(SetPair(a, s, i, q), s, i)
  {
    var b := SetPair(a, s, i, q);
    forall t, j | 0 <= t < |b.streams| && 0 <= j < |b.streams[t].checks| && (t != s || j != i)
      ensures PairDominated(b.streams[t].checks[j], b.streams[t])
    {
      assert Dominated(a.streams[t]);
      assert PairDominated(a.streams[t].checks[j], a.streams[t]);
    }
  }

  /** The state before the final update after a success. */
  function Concluding(a: Agent, s: nat, c: nat, i: nat, q: Pair): (d: Agent)
    requires s < |a.streams| && c < |a.streams[s].components| && i < |a.streams[s].checks|
    ensures Same(a, d)
  {
    var b := Progress(UnfreezeRelated(SetPair(a, s, i, q), s, q.foundation), s, c);
    if q.nominated then Select(b, s, c, q) else b
  }

  lemma ConcludingSound(a: Agent, s: nat, c: nat, i: nat, cause: Cause)
    requires Sound(a) && s < |a.streams| && c < |a.streams[s].components| && i < |a.streams[s].checks|
    requires Justified(a.streams[s].checks[i], cause)
    ensures var q := a.streams[s].checks[i].(message := None, state := Succeeded);
            var d := Concluding(a, s, c, i, q);
            Sound(d) && Evolves(a, d, cause) && (Distinct(a) ==> Distinct(d))
  {
    hide Ranked, ReadySince, Evolves, Progress, UnfreezeRelated, Select, PairOk, PairEvolves, Justified, Distinct;
    var p := a.streams[s].checks[i];
    var q := p.(message := None, state := Succeeded);
    SucceededOk(p, a, |a.streams[s].components|, cause);
    var b0 := SetPair(a, s, i, q);
    SetPairChange(a, s, i, q, cause);
    var b1 := UnfreezeRelated(b0, s, q.foundation);
    UnfreezeRelatedStep(b0, s, q.foundation);
    EvolvesTrans(a, b0, b1, cause);
    var b2 := Progress(b1, s, c);
    ProgressStep(b1, s, c);
    EvolvesTrans(a, b1, b2, cause);
    if q.nominated {
      SelectStep(b2, s, c, q);
      EvolvesTrans(a, b2, Select(b2, s, c, q), cause);
    }
  }

  lemma ProgressStep(a: Agent, s: nat, c: nat)
    requires Sound(a) && s < |a.streams| && c < |a.streams[s].components|
    ensures Step(a, Progress(a, s, c), Quiet)
  {
    hide Step;
    if a.streams[s].components[c].state == Ready {
      StepRefl(a);
    } else {
      SignalStep(a, s, c, Connected);
    }
  }

  lemma ConcludingRanked(a: Agent, s: nat, c: nat, i: nat)
    requires Ranked(a) && s < |a.streams| && c < |a.streams[s].components| && i < |a.streams[s].checks|
    requires SuccessFits(a.streams[s].checks[i], a.streams[s], c)
    ensures var q := a.streams[s].checks[i].(message := None, state := Succeeded);
            var d := Concluding(a, s, c, i, q);
            Ranked(d) && ReadySince(a, d)
  {
    hide Ranked, RankedBut, UnfreezeRelated, Progress, Fewer;
    var q := a.streams[s].checks[i].(message := None, state := Succeeded);
    var b0 := SetPair(a, s, i, q);
    RankedExempt(a, s, i, q);
    var b1 := UnfreezeRelated(b0, s, q.foundation);
    UnfreezeRelatedCalm(b0, s, q.foundation);
    var b2 := Progress(b1, s, c);
    ProgressCalm(b1, s, c);
    CalmTrans(b0, b1, b2);
    CalmRanked(b0, b2, s, i);
    assert CalmStream(b0.streams[s], b2.streams[s]);
    SelectRanked(b2, s, c, i, q);
  }

  /** The agent after a success response that confirms a pair. */
  function Succeeding(a: Agent, s: nat, c: nat, i: nat): Agent
    requires s < |a.streams| && c < |a.streams[s].components| && i < |a.streams[s].checks|
  {
    var q := a.streams[s].checks[i].(message := None, state := Succeeded);
    Conclude(UnfreezeRelated(SetPair(a, s, i, q), s, q.foundation), s, c, q)
  }

  lemma SucceedStep(a: Agent, s: nat, c: nat, i: nat, cause: Cause)
    requires Sound(a) && s < |a.streams| && c < |a.streams[s].components| && i < |a.streams[s].checks|
    requires Justified(a.streams[s].checks[i], cause)
    ensures StepIf(a, Succeeding(a, s, c, i), cause, SuccessFits(a.streams[s].checks[i], a.streams[s], c))
  {
    hide Sound, Ranked, ReadySince, Evolves, Progress, UnfreezeRelated, Select, UpdateReady, Justified, Distinct,
      SuccessFits;
    var q := a.streams[s].checks[i].(message := None, state := Succeeded);
    var d := Concluding(a, s, c, i, q);
    var fits := SuccessFits(a.streams[s].checks[i], a.streams[s], c);
    ConcludingSound(a, s, c, i, cause);
    if Ranked(a) && fits {
      ConcludingRanked(a, s, c, i);
    }
    UpdateReadyStep(d, s, c);
    StepIs(d, UpdateReady(d, s, c), Quiet, true);
    StepIfTrans(a, d, UpdateReady(d, s, c), cause, fits, true, fits);
  }

  /** A success response leaves every selection on top if and only if it came in on the
      component of its pair, or the pair is not nominated, or is outranked already. */
  lemma SuccessRankedIff(a: Agent, s: nat, c: nat, i: nat, cause: Cause)
    requires Sound(a) && Ranked(a) && s < |a.streams| && c < |a.streams[s].components| && i < |a.streams[s].checks|
    requires Justified(a.streams[s].checks[i], cause)
    ensures Ranked(Succeeding(a, s, c, i)) <==> SuccessFits(a.streams[s].checks[i], a.streams[s], c)
  {
    hide Succeeding, Sound, Justified;
    SucceedStep(a, s, c, i, cause);
    var p := a.streams[s].checks[i];
    var b := Succeeding(a, s, c, i);
    if p.component != c && Ranked(b) {
      SucceedElsewhere(a, s, c, i);
      assert PairDominated(b.streams[s].checks[i], b.streams[s]);
    }
  }

  /** On another component, the pair is confirmed but its component learns nothing. */
  lemma SucceedElsewhere(a: Agent, s: nat, c: nat, i: nat)
    requires s < |a.streams| && c < |a.streams[s].components| && i < |a.streams[s].checks|
    requires a.streams[s].checks[i].component != c
    ensures var b := Succeeding(a, s, c, i);
            && |b.streams| == |a.streams| && |b.streams[s].components| == |a.streams[s].components|
            && i < |b.streams[s].checks|
            && b.streams[s].checks[i] == a.streams[s].checks[i].(message := None, state := Succeeded)
            && forall d :: 0 <= d < |a.streams[s].components| && d != c ==>
                 b.streams[s].components[d].selected == a.streams[s].components[d].selected
  {
    hide UnfreezeRelated, UpdateReady;
    var q := a.streams[s].checks[i].(message := None, state := Succeeded);
    var b0 := SetPair(a, s, i, q);
    var b1 := UnfreezeRelated(b0, s, q.foundation);
    UnfreezeElsewhere(b0, s, q.foundation, i);
    var b2 := Progress(b1, s, c);
    var b3 := if q.nominated then Select(b2, s, c, q) else b2;
    assert b3.streams[s].checks[i] == q;
    UpdateReadyPair(b3, s, c, i);
    UpdateReadyLocal(b3, s, c);
  }

  lemma UnfreezeElsewhere(a: Agent, s: nat, foundation: string, i: nat)
    requires s < |a.streams| && i < |a.streams[s].checks| && a.streams[s].checks[i].state == Succeeded
    ensures UnfreezeRelated(a, s, foundation).streams[s].checks[i] == a.streams[s].checks[i]
    ensures UnfreezeRelated(a, s, foundation).streams[s].components == a.streams[s].components
  {
    hide BestFrozen, FrozenPriority;
    var t := First(a.streams, HasFrozen());
    if t < |a.streams| {
      BestFrozenIs(a.streams[t].checks);
    }
  }

  /** A stream that gets a local candidate and, at its end, a discovered pair. */
  lemma DiscoverStream(st: Stream, c: nat, l: Candidate, p: Pair, a: Agent, uids: nat, cause: Cause)
    requires StreamOk(st, a.controlling, a.ids, a.uids) && a.uids <= uids
    requires c < |st.components| && CandidateOk(l, c)
    requires PairOk(p, a.controlling, a.ids, uids, |st.components|) && Newborn(p, a, a.ids, cause) && !p.nominated
    ensures var k := st.components[c];
            StreamStep(st, Stream(st.components[c := k.(locals := k.locals + [l])], st.checks + [p]),
                       a, a.ids, uids, cause)
  {
    hide PairEvolves, Newborn;
    var k := st.components[c];
    var st' := Stream(st.components[c := k.(locals := k.locals + [l])], st.checks + [p]);
    assert ComponentOk(k, c);
    PairsSameFor(st, a, cause);
    NewbornUid(p, a, a.ids, cause);
    forall j | 0 <= j < |st'.checks|
      ensures PairOk(st'.checks[j], a.controlling, a.ids, uids, |st.components|)
      ensures Newborn(st'.checks[j], a, a.ids, cause)
              || (j < |st.checks| && PairEvolves(st.checks[j], st'.checks[j], a, a.ids, cause))
    {
      if j < |st.checks| {
        assert st'.checks[j] == st.checks[j];
      }
    }
    if Dominated(st) {
      forall j | 0 <= j < |st'.checks| ensures PairDominated(st'.checks[j], st') {
        if j < |st.checks| {
          assert PairDominated(st.checks[j], st);
        }
      }
    }
  }

  lemma DiscoverStep(a: Agent, s: nat, c: nat, socket: nat, addr: Address, remote: Candidate, env: Env, cause: Cause)
    requires Sound(a) && s < |a.streams| && c < |a.streams[s].components| && c < 256
    requires remote.priority > 0 && (remote.component == c || (cause.Answered? && !cause.home))
    ensures Step(a, Discover(a, s, c, socket, addr, remote, env), cause)
  {
    hide Step, StreamStep;
    var l := ReflexiveLocal(a, c, socket, addr, env.foundation);
    IcePriorityRange(PEER_REFLEXIVE_PREFERENCE, 0, c + 1);
    var st := a.streams[s];
    var k := st.components[c];
    var b := SetComponent(a, s, c, k.(locals := k.locals + [l])).(uids := a.uids + 1);
    var p := NewPair(b, c, l, remote, Discovered, false);
    DiscoverStream(st, c, l, p, a, a.uids + 2, cause);
    var d := Discover(a, s, c, socket, addr, remote, env);
    var st' := Stream(st.components[c := k.(locals := k.locals + [l])], st.checks + [p]);
    assert d.streams == a.streams[s := st'];
    StreamKeeps(a, s, st', d, cause);
  }

  /** Failing a pair and discovering another one can be done in either order. */
  lemma FailDiscover(a: Agent, s: nat, c: nat, i: nat, q: Pair, socket: nat, addr: Address, remote: Candidate, env: Env)
    requires s < |a.streams| && c < |a.streams[s].components| && i < |a.streams[s].checks|
    ensures Same(SetPair(a, s, i, q), a) && i < |Discover(a, s, c, socket, addr, remote, env).streams[s].checks|
    ensures Discover(SetPair(a, s, i, q), s, c, socket, addr, remote, env) ==
            SetPair(Discover(a, s, c, socket, addr, remote, env), s, i, q)
    ensures Discover(a, s, c, socket, addr, remote, env).streams[s].checks[i] == a.streams[s].checks[i]
  {
    hide IcePriority, PairPriority;
    var x := Discover(SetPair(a, s, i, q), s, c, socket, addr, remote, env);
    var y := SetPair(Discover(a, s, c, socket, addr, remote, env), s, i, q);
    assert x.streams[s].checks == y.streams[s].checks;
    assert x.streams == y.streams;
  }

  lemma FailStep(a: Agent, s: nat, i: nat)
    requires Sound(a) && s < |a.streams| && i < |a.streams[s].checks|
    requires a.streams[s].checks[i].state != Cancelled
    ensures Step(a, SetPair(a, s, i, a.streams[s].checks[i].(message := None, state := Failed)), Quiet)
  {
    hide Step;
    SetPairStep(a, s, i, a.streams[s].checks[i].(message := None, state := Failed), Quiet);
  }

  lemma OnSuccessStep(a: Agent, s: nat, c: nat, socket: nat, from: Address, i: nat, outcome: Outcome, env: Env,
                      cause: Cause)
    requires Sound(a) && s < |a.streams| && c < |a.streams[s].components| && i < |a.streams[s].checks|
    requires outcome.Mapped? || outcome.NoAddress?
    requires Justified(a.streams[s].checks[i], cause) && c < 256
    requires a.streams[s].checks[i].remote.addr == from
    requires cause.Answered? && (cause.home ==> a.streams[s].checks[i].remote.component == c)
    ensures var st := a.streams[s];
            StepIf(a, OnSuccess(a, s, c, socket, i, outcome, env), cause,
                   Confirms(st.checks[i], st, c, from, outcome) ==> SuccessFits(st.checks[i], st, c))
  {
    hide Step, StepIf, UnfreezeRelated, Conclude, Discover, Progress, UpdateReady, SuccessFits;
    var p := a.streams[s].checks[i];
    var locals := a.streams[s].components[c].locals;
    if outcome.NoAddress? || First(locals, At(outcome.addr)) < |locals| {
      SucceedStep(a, s, c, i, cause);
    } else {
      assert PairOk(p, a.controlling, a.ids, a.uids, |a.streams[s].components|);
      var b0 := Discover(a, s, c, socket, outcome.addr, p.remote, env);
      DiscoverStep(a, s, c, socket, outcome.addr, p.remote, env, cause);
      StepSound(a, b0, cause);
      FailDiscover(a, s, c, i, p.(message := None, state := Failed), socket, outcome.addr, p.remote, env);
      FailStep(b0, s, i);
      var b1 := SetPair(b0, s, i, p.(message := None, state := Failed));
      StepTrans(a, b0, b1, cause);
      StepSound(b0, b1, Quiet);
      var b2 := Progress(b1, s, c);
      ProgressStep(b1, s, c);
      StepTrans(a, b1, b2, cause);
      StepSound(b1, b2, Quiet);
      UpdateReadyStep(b2, s, c);
      StepTrans(a, b2, UpdateReady(b2, s, c), cause);
      StepIs(a, UpdateReady(b2, s, c), cause, true);
    }
  }

  lemma StepWeaken(a: Agent, b: Agent, cause: Cause)
    requires Step(a, b, Quiet)
    ensures Step(a, b, cause)
  {
    forall s | 0 <= s < |a.streams|
      ensures StreamEvolves(a.streams[s], b.streams[s], a, b.ids, cause)
    {
      assert StreamEvolves(a.streams[s], b.streams[s], a, b.ids, Quiet);
    }
  }

  /** The response confirms pair `p`: a success from the right address whose mapped
      address, if any, is a local candidate of component `c`. */
  predicate Confirms(p: Pair, st: Stream, c: nat, from: Address, outcome: Outcome)
    requires c < |st.components|
  {
    && from == p.remote.addr && (outcome.Mapped? || outcome.NoAddress?)
    && (outcome.Mapped? ==> First(st.components[c].locals, At(outcome.addr)) < |st.components[c].locals|)
  }

  /** If the response confirms a pair, it leaves the selections on top. */
  ghost predicate ResponseFits(a: Agent, s: nat, c: nat, from: Address, id: nat, outcome: Outcome)
    requires s < |a.streams| && c < |a.streams[s].components|
  {
    var st := a.streams[s];
    var i := First(st.checks, Outstanding(id));
    i < |st.checks| && Confirms(st.checks[i], st, c, from, outcome) ==> SuccessFits(st.checks[i], st, c)
  }

  /** Only a success response lets a pair succeed. */
  function CauseOf(a: Agent, s: nat, c: nat, from: Address, id: nat, outcome: Outcome): Cause
    requires s < |a.streams|
  {
    var checks := a.streams[s].checks;
    var i := First(checks, Outstanding(id));
    if outcome.Mapped? || outcome.NoAddress? then
      Answered(id, from, i < |checks| ==> checks[i].remote.component == c)
    else Quiet
  }

  lemma OnResponseStep(a: Agent, s: nat, c: nat, socket: nat, from: Address, id: nat, outcome: Outcome, env: Env)
    requires Sound(a) && s < |a.streams| && c < |a.streams[s].components| && c < 256
    requires !outcome.RoleConflict?
    ensures StepIf(a, OnResponse(a, s, c, socket, from, id, outcome, env), CauseOf(a, s, c, from, id, outcome),
                   ResponseFits(a, s, c, from, id, outcome))
  {
    hide Step, StepIf, OnSuccess, SuccessFits;
    var checks := a.streams[s].checks;
    var i := First(checks, Outstanding(id));
    var cause, fits := CauseOf(a, s, c, from, id, outcome), ResponseFits(a, s, c, from, id, outcome);
    if i == |checks| {
      StepRefl(a);
      StepWeaken(a, a, cause);
      StepIs(a, a, cause, fits);
    } else {
      var p := checks[i];
      assert Outstanding(id)(p);
      assert PairOk(p, a.controlling, a.ids, a.uids, |a.streams[s].components|);
      if outcome.OtherError? {
        SetPairStep(a, s, i, p.(message := None), Quiet);
        StepIs(a, SetPair(a, s, i, p.(message := None)), cause, fits);
      } else if from != p.remote.addr {
        var b := SetPair(a, s, i, p.(message := None, state := Failed));
        FailStep(a, s, i);
        StepWeaken(a, b, cause);
        StepIs(a, b, cause, fits);
      } else {
        OnSuccessStep(a, s, c, socket, from, i, outcome, env, cause);
      }
    }
  }

  /** A response leaves every selection on top if and only if it fits. */
  lemma ResponseRankedIff(a: Agent, s: nat, c: nat, socket: nat, from: Address, id: nat, outcome: Outcome, env: Env)
    requires Sound(a) && Ranked(a) && s < |a.streams| && c < |a.streams[s].components| && c < 256
    requires !outcome.RoleConflict?
    ensures Ranked(OnResponse(a, s, c, socket, from, id, outcome, env)) <==>
            ResponseFits(a, s, c, from, id, outcome)
  {
    hide Sound, Ranked, Conclude, Discover, SuccessFits, StepIf, UnfreezeRelated, Progress, UpdateReady;
    OnResponseStep(a, s, c, socket, from, id, outcome, env);
    StepIfRanked(a, OnResponse(a, s, c, socket, from, id, outcome, env), CauseOf(a, s, c, from, id, outcome),
                 ResponseFits(a, s, c, from, id, outcome));
    var st := a.streams[s];
    var i := First(st.checks, Outstanding(id));
    if i < |st.checks| && Confirms(st.checks[i], st, c, from, outcome) {
      assert Outstanding(id)(st.checks[i]);
      SuccessRankedIff(a, s, c, i, Answered(id, from, false));
    }
  }

  // ---------------------------------------------------------------------
  // Ticks

  lemma TickPairOk(p: Pair, now: T.Instant, a: Agent, n: nat)
    requires PairOk(p, a.controlling, a.ids, a.uids, n)
    ensures var (q, again) := TickPair(p, now);
            && PairOk(q, a.controlling, a.ids, a.uids, n)
            && PairEvolves(p, q, a, a.ids, Quiet) && Fewer(p, q)
            && (again ==> q.message == p.message && p.message.Some?)
  {
    hide RolePriority, T.Refresh, T.Micros, T.Remainder, TimerOk;
    if p.message.Some? {
      RefreshOk(p.timer, now);
    }
  }

  lemma TickAtStep(a: Agent, s: nat, i: nat, now: T.Instant)
    requires Sound(a) && s < |a.streams| && i < |a.streams[s].checks|
    ensures Step(a, TickAt(a, s, i, now), Quiet)
  {
    hide Step, StreamStep, PairOk, PairEvolves, Fewer, TickPair;
    var st := a.streams[s];
    TickPairOk(st.checks[i], now, a, |st.components|);
    var q := TickPair(st.checks[i], now).0;
    PairStep(st, i, q, a, a.ids, a.uids, Quiet);
    NoRequest(q, a, |st.components|, TickAt(a, s, i, now).log[|a.log|..]);
    PairTold(st, i, q, a, TickAt(a, s, i, now).log[|a.log|..]);
    StreamKeeps(a, s, st.(checks := st.checks[i := q]), TickAt(a, s, i, now), Quiet);
  }

  lemma {:induction false} TickPairsStep(a: Agent, s: nat, i: nat, now: T.Instant)
    requires Sound(a) && s < |a.streams| && i <= |a.streams[s].checks|
    ensures Step(a, TickPairs(a, s, i, now), Quiet)
    decreases |a.streams[s].checks| - i
  {
    hide Step, TickAt;
    if i == |a.streams[s].checks| {
      StepRefl(a);
    } else {
      var b := TickAt(a, s, i, now);
      TickAtStep(a, s, i, now);
      StepSound(a, b, Quiet);
      TickPairsStep(b, s, i + 1, now);
      StepTrans(a, b, TickPairs(b, s, i + 1, now), Quiet);
    }
  }

  /** Nominating a valid pair and checking it again is one change of that pair. */
  lemma RestartNominated(a: Agent, s: nat, i: nat, env: Env)
    requires Sound(a) && s < |a.streams| && i < |a.streams[s].checks| && IsValid(a.streams[s].checks[i])
    ensures Step(a, Initiate(SetPair(a, s, i, a.streams[s].checks[i].(nominated := true)), s, i, env), Quiet)
  {
    hide Step, StreamStep, PairOk, PairEvolves, SendCheck, Made;
    var st := a.streams[s];
    var p := st.checks[i].(nominated := true);
    NominatedOk(st.checks[i], a, |st.components|);
    SendCheckOk(p, a, env, |st.components|);
    var q := SendCheck(p.(state := InProgress, nextTick := T.Micros(env.now) + 1000 * a.ta),
                       a.controlling, a.tie, a.ids, env);
    StaysInProgress(p, a, env);
    PairTrans(st.checks[i], p, q, a, a, a.ids + 1, Quiet);
    PairStep(st, i, q, a, a.ids + 1, a.uids, Quiet);
    var b := Initiate(SetPair(a, s, i, p), s, i, env);
    assert b.streams == a.streams[s := st.(checks := st.checks[i := q])] by {
      assert st.checks[i := p][i := q] == st.checks[i := q];
      assert b.streams[s] == st.(checks := st.checks[i := q]);
    }
    PairTold(st, i, q, a, b.log[|a.log|..]);
    StreamKeeps(a, s, st.(checks := st.checks[i := q]), b, Quiet);
  }

  lemma StaysInProgress(p: Pair, a: Agent, env: Env)
    ensures SendCheck(p.(state := InProgress, nextTick := T.Micros(env.now) + 1000 * a.ta),
                      a.controlling, a.tie, a.ids, env).state == InProgress
  {
  }

  lemma {:induction false} RenominateStep(a: Agent, s: nat, n: nat, env: Env)
    requires Sound(a) && s < |a.streams|
    ensures Step(a, Renominate(a, s, n, env), Quiet)
    decreases n
  {
    hide Step, Initiate;
    if n == 0 {
      StepRefl(a);
    } else {
      var checks := a.streams[s].checks;
      var i := First(checks, ValidPairs());
      if i == |checks| {
        RenominateStep(a, s, n - 1, env);
      } else {
        var b := Initiate(SetPair(a, s, i, checks[i].(nominated := true)), s, i, env);
        RestartNominated(a, s, i, env);
        StepSound(a, b, Quiet);
        RenominateStep(b, s, n - 1, env);
        StepTrans(a, b, Renominate(b, s, n - 1, env), Quiet);
      }
    }
  }

  lemma TickStreamStep(a: Agent, s: nat, env: Env)
    requires Sound(a) && s < |a.streams|
    ensures Step(a, TickStream(a, s, env).0, Quiet)
  {
    hide Step, TickPairs, Renominate, AwaitsNomination, AnyInProgress;
    var b := TickPairs(a, s, 0, env.now);
    TickPairsStep(a, s, 0, env.now);
    StepSound(a, b, Quiet);
    var n := |b.streams[s].components|;
    RenominateStep(b, s, n, env);
    StepTrans(a, b, Renominate(b, s, n, env), Quiet);
  }

  lemma {:induction false} TickStreamsStep(a: Agent, s: nat, env: Env)
    requires Sound(a) && s <= |a.streams|
    ensures Step(a, TickStreams(a, s, env).0, Quiet)
    decreases |a.streams| - s
  {
    hide Step, TickStream;
    if s == |a.streams| {
      StepRefl(a);
    } else {
      var b := TickStream(a, s, env).0;
      TickStreamStep(a, s, env);
      StepSound(a, b, Quiet);
      TickStreamsStep(b, s + 1, env);
      StepTrans(a, b, TickStreams(b, s + 1, env).0, Quiet);
    }
  }

  lemma AdvanceStep(a: Agent, env: Env)
    requires Sound(a)
    ensures Step(a, Advance(a, env).0, Quiet)
  {
    hide Step, Initiate, UnfreezeNext;
    var s := First(a.streams, HasWaiting());
    if s < |a.streams| {
      InitiateStep(a, s, First(a.streams[s].checks, IsWaiting()), env);
    } else {
      UnfreezeNextStep(a);
    }
  }

  lemma {:induction false} ReadyComponentsStep(a: Agent, s: nat, c: nat)
    requires Sound(a) && s < |a.streams| && c <= |a.streams[s].components|
    ensures Step(a, ReadyComponents(a, s, c), Quiet)
    decreases |a.streams[s].components| - c
  {
    hide Step, UpdateReady;
    if c == |a.streams[s].components| {
      StepRefl(a);
    } else {
      var b := UpdateReady(a, s, c);
      UpdateReadyStep(a, s, c);
      StepSound(a, b, Quiet);
      ReadyComponentsStep(b, s, c + 1);
      StepTrans(a, b, ReadyComponents(b, s, c + 1), Quiet);
    }
  }

  lemma {:induction false} SettleStep(a: Agent, s: nat)
    requires Sound(a) && s <= |a.streams|
    ensures Step(a, Settle(a, s), Quiet)
    decreases |a.streams| - s
  {
    hide Step, ReadyComponents, SignalFailed;
    if s == |a.streams| {
      StepRefl(a);
    } else {
      var b := SignalFailed(a, s, 0);
      SignalFailedStep(a, s, 0);
      StepSound(a, b, Quiet);
      var c := ReadyComponents(b, s, 0);
      ReadyComponentsStep(b, s, 0);
      StepTrans(a, b, c, Quiet);
      StepSound(b, c, Quiet);
      SettleStep(c, s + 1);
      StepTrans(a, c, Settle(c, s + 1), Quiet);
    }
  }

  lemma TickStep(a: Agent, env: Env)
    requires Sound(a)
    ensures Step(a, Tick(a, env).0, Quiet)
  {
    hide Step, Advance, TickStreams, Settle;
    var b := Advance(a, env).0;
    AdvanceStep(a, env);
    StepSound(a, b, Quiet);
    var c := TickStreams(b, 0, env).0;
    TickStreamsStep(b, 0, env);
    StepTrans(a, b, c, Quiet);
    StepSound(b, c, Quiet);
    SettleStep(c, 0);
    StepTrans(a, c, Settle(c, 0), Quiet);
  }

  lemma ScheduleNextStep(a: Agent, env: Env)
    requires Sound(a)
    ensures Step(a, ScheduleNext(a, env).0, Quiet)
  {
    hide Step, Tick, UnfreezeNext;
    var b := UnfreezeNext(a).0;
    UnfreezeNextStep(a);
    StepSound(a, b, Quiet);
    TickStep(b, env);
    StepTrans(a, b, Tick(b, env).0, Quiet);
  }
}
