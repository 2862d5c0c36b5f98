/** What the check logic is bound to bring about: components become ready or fail, pairs are
    formed, unfrozen, triggered, nominated and selected. */
module ConncheckOutcome {
  import opened Options
  import opened Candidates
  import opened Conncheck
  import opened ConncheckSteps
  import opened ConncheckOps
  import opened ConncheckEntries
  import opened ConncheckTicks
  import opened ConncheckRuns
  import T = StunTimer

  // ---------------------------------------------------------------------
  // Ready

  /** Some valid pair of the component is nominated. */
  ghost predicate HasNominee(st: Stream, c: nat) {
    exists i :: 0 <= i < |st.checks| && IsNominated(st.checks[i], c)
  }

  /** Some valid nominated pair of the component has a higher priority. */
  ghost predicate Outranked(st: Stream, c: nat, priority: nat) {
    exists i :: 0 <= i < |st.checks| && IsNominated(st.checks[i], c) && priority < st.checks[i].priority
  }

  /** A pair is nominated, and every check of the component still in progress is outranked. */
  ghost predicate Decided(st: Stream, c: nat) {
    && HasNominee(st, c)
    && forall j :: 0 <= j < |st.checks| && st.checks[j].component == c && st.checks[j].state == InProgress ==>
         Outranked(st, c, st.checks[j].priority)
  }

  lemma {:induction false} HighestIs(checks: seq<Pair>, c: nat)
    ensures forall i :: 0 <= i < |checks| && IsNominated(checks[i], c) ==>
              checks[i].priority <= HighestNominated(checks, c)
    ensures HighestNominated(checks, c) > 0 ==>
              exists i :: 0 <= i < |checks| && IsNominated(checks[i], c)
                          && checks[i].priority == HighestNominated(checks, c)
  {
    if checks != [] {
      var n := |checks| - 1;
      HighestIs(checks[..n], c);
      var h := HighestNominated(checks[..n], c);
      forall i | 0 <= i < |checks| && IsNominated(checks[i], c)
        ensures checks[i].priority <= HighestNominated(checks, c)
      {
        assert i < n ==> checks[..n][i] == checks[i];
      }
      if HighestNominated(checks, c) == h > 0 {
        var i :| 0 <= i < n && IsNominated(checks[..n][i], c) && checks[..n][i].priority == h;
        assert checks[i] == checks[..n][i];
      }
    }
  }

  lemma PriorityPositive(a: Agent, s: nat, i: nat)
    requires Sound(a) && s < |a.streams| && i < |a.streams[s].checks|
    ensures a.streams[s].checks[i].priority > 0
  {
    var p := a.streams[s].checks[i];
    assert PairOk(p, a.controlling, a.ids, a.uids, |a.streams[s].components|);
    PairPriorityPositive(p.local.priority, p.remote.priority);
    PairPriorityPositive(p.remote.priority, p.local.priority);
  }

  /** The highest priority is that of a nominee, and being outranked is being below it. */
  lemma HighestMeans(a: Agent, s: nat, c: nat, priority: nat)
    requires Sound(a) && s < |a.streams|
    ensures var h := HighestNominated(a.streams[s].checks, c);
            && (HasNominee(a.streams[s], c) <==> h != 0)
            && (Outranked(a.streams[s], c, priority) <==> priority < h)
  {
    hide HighestNominated, Sound;
    var st := a.streams[s];
    HighestIs(st.checks, c);
    if HasNominee(st, c) {
      var i :| 0 <= i < |st.checks| && IsNominated(st.checks[i], c);
      PriorityPositive(a, s, i);
    }
  }

  /** The pair still runs after pruning. */
  predicate Survives(p: Pair, c: nat, h: nat) {
    p.component == c && p.state == InProgress && h <= p.priority
  }

  lemma PendingIff(checks: seq<Pair>, c: nat, h: nat)
    requires h != 0
    ensures AnyPending(PruneAll(checks, c, h), c) <==>
            exists j :: 0 <= j < |checks| && Survives(checks[j], c, h)
  {
    var pruned := PruneAll(checks, c, h);
    if AnyPending(pruned, c) {
      var j :| 0 <= j < |pruned| && IsPending(pruned[j], c);
      assert Survives(checks[j], c, h);
    }
    if j :| 0 <= j < |checks| && Survives(checks[j], c, h) {
      assert IsPending(pruned[j], c);
    }
  }

  /** Concluding a component makes it ready if and only if it is decided, or it was ready
      before. */
  lemma ReadyIff(a: Agent, s: nat, c: nat)
    requires Sound(a) && s < |a.streams| && c < |a.streams[s].components|
    ensures UpdateReady(a, s, c).streams[s].components[c].state == Ready <==>
            Decided(a.streams[s], c) || a.streams[s].components[c].state == Ready
  {
    hide HighestNominated, Sound, AnyPending, PruneAll, Outranked;
    var st := a.streams[s];
    var h := HighestNominated(st.checks, c);
    HighestMeans(a, s, c, 0);
    if HasNominee(st, c) {
      PendingIff(st.checks, c, h);
      forall j | 0 <= j < |st.checks|
        ensures Outranked(st, c, st.checks[j].priority) <==> st.checks[j].priority < h
      {
        HighestMeans(a, s, c, st.checks[j].priority);
      }
    }
  }

  /** The component has drawn the conclusions from its nominees: nothing waits, no check
      in progress is outranked, and with no check in progress the component is ready. */
  ghost predicate Concluded(st: Stream, c: nat) {
    c < |st.components| && HasNominee(st, c) ==>
      && (forall j :: 0 <= j < |st.checks| && st.checks[j].component == c ==>
            && st.checks[j].state != Frozen && st.checks[j].state != Waiting
            && (st.checks[j].state == InProgress ==> !Outranked(st, c, st.checks[j].priority)))
      && ((forall j :: 0 <= j < |st.checks| && st.checks[j].component == c ==> st.checks[j].state != InProgress) ==>
            st.components[c].state == Ready)
  }

  lemma UpdateReadyIs(a: Agent, s: nat, c: nat)
    requires s < |a.streams| && c < |a.streams[s].components|
    ensures var st, st' := a.streams[s], UpdateReady(a, s, c).streams[s];
            if HasNominee(st, c) then
              && st'.checks == PruneAll(st.checks, c, HighestNominated(st.checks, c))
              && |st'.components| == |st.components|
              && (!AnyPending(st'.checks, c) ==> st'.components[c].state == Ready)
            else st' == st
  {
    hide HighestNominated, AnyPending;
  }

  lemma UpdateReadyConcludes(a: Agent, s: nat, c: nat)
    requires Sound(a) && s < |a.streams| && c < |a.streams[s].components|
    ensures Concluded(UpdateReady(a, s, c).streams[s], c)
  {
    hide HighestNominated, Sound, Outranked, UpdateReady, HasNominee;
    var st, st' := a.streams[s], UpdateReady(a, s, c).streams[s];
    var h := HighestNominated(st.checks, c);
    HighestMeans(a, s, c, 0);
    UpdateReadyIs(a, s, c);
    if HasNominee(st, c) {
      forall j | 0 <= j < |st'.checks| && st'.checks[j].component == c
        ensures st'.checks[j].state != Frozen && st'.checks[j].state != Waiting
        ensures st'.checks[j].state == InProgress ==> !Outranked(st', c, st'.checks[j].priority)
      {
        HighestMeans(a, s, c, st.checks[j].priority);
        PrunedOutranked(st, st', c, h, st.checks[j].priority);
      }
    }
  }

  /** What pruning makes of a pair. */
  lemma PrunedIs(checks: seq<Pair>, c: nat, h: nat, j: nat)
    requires j < |checks|
    ensures |PruneAll(checks, c, h)| == |checks|
    ensures var p, q := checks[j], PruneAll(checks, c, h)[j];
            && q == p.(state := q.state, message := q.message) && (IsValid(p) <==> IsValid(q))
            && (q.state != p.state ==> q.state == Cancelled && p.state != Failed)
            && (forall d: nat :: IsNominated(q, d) <==> IsNominated(p, d))
  {
    hide PruneAll;
    assert PruneAll(checks, c, h)[j] == Pruned(checks[j], c, h);
  }

  /** Pruning leaves the nominees alone. */
  lemma PrunedOutranked(st: Stream, st': Stream, c: nat, h: nat, priority: nat)
    requires st'.checks == PruneAll(st.checks, c, h)
    ensures Outranked(st', c, priority) ==> Outranked(st, c, priority)
  {
    hide PruneAll, IsNominated;
    if Outranked(st', c, priority) {
      var i :| 0 <= i < |st'.checks| && IsNominated(st'.checks[i], c) && priority < st'.checks[i].priority;
      PrunedIs(st.checks, c, h, i);
    }
  }

  // ---------------------------------------------------------------------
  // Responses

  /** No pair with the foundation is frozen. */
  predicate Thawed(st: Stream, foundation: string) {
    forall j :: 0 <= j < |st.checks| && st.checks[j].foundation == foundation ==> st.checks[j].state != Frozen
  }

  lemma UnfreezeThaws(a: Agent, s: nat, foundation: string)
    requires s < |a.streams|
    ensures Thawed(UnfreezeRelated(a, s, foundation).streams[s], foundation)
  {
    hide BestFrozen;
    var st := a.streams[s];
    var checks := UnfreezeAll(st.checks, foundation);
    if checks == st.checks {
      forall j | 0 <= j < |st.checks| && st.checks[j].foundation == foundation
        ensures st.checks[j].state != Frozen
      {
        assert checks[j] == Unfrozen(st.checks[j], foundation);
      }
    }
  }

  /** The rest of a response thaws nothing again: pairs only leave the frozen state. */
  lemma UpdateReadyThawed(a: Agent, s: nat, c: nat, foundation: string)
    requires s < |a.streams| && c < |a.streams[s].components| && Thawed(a.streams[s], foundation)
    ensures Thawed(UpdateReady(a, s, c).streams[s], foundation)
  {
    hide HighestNominated, AnyPending, AnyNominated;
  }

  /** The selection after pair `p` was confirmed on the component. */
  function SelectedAfter(k: Component, p: Pair): Selection {
    if p.nominated && p.priority > SelectedPriority(k) then Selected(p.local, p.remote, p.priority) else k.selected
  }

  /** A response that confirms a pair: the pair succeeds, nothing with its foundation stays
      frozen, the component selects it if it is nominated and better, and concludes. */
  lemma ConfirmedOutcome(a: Agent, s: nat, c: nat, i: nat, cause: Cause)
    requires Sound(a) && s < |a.streams| && c < |a.streams[s].components| && i < |a.streams[s].checks|
    requires Justified(a.streams[s].checks[i], cause)
    ensures var p, b := a.streams[s].checks[i], Succeeding(a, s, c, i);
            && Same(a, b) && b.streams[s].checks[i] == p.(message := None, state := Succeeded)
            && Thawed(b.streams[s], p.foundation)
            && b.streams[s].components[c].selected == SelectedAfter(a.streams[s].components[c], p)
            && (b.streams[s].components[c].state == Ready || b.streams[s].components[c].state == Connected)
            && Concluded(b.streams[s], c)
  {
    hide Sound, Evolves, UnfreezeRelated, UpdateReady, Concluded, Thawed, Distinct;
    var p := a.streams[s].checks[i];
    var q := p.(message := None, state := Succeeded);
    var d := Concluding(a, s, c, i, q);
    ConcludingSound(a, s, c, i, cause);
    UpdateReadyConcludes(d, s, c);
    var b0 := SetPair(a, s, i, q);
    var b1 := UnfreezeRelated(b0, s, q.foundation);
    UnfreezeThaws(b0, s, q.foundation);
    UnfreezeKeeps(b0, s, q.foundation, i);
    assert Thawed(d.streams[s], q.foundation) by {
      SameThawed(b1.streams[s], d.streams[s], q.foundation);
    }
    UpdateReadyThawed(d, s, c, q.foundation);
    UpdateReadyValid(d, s, c, i);
    UpdateReadyComponent(d, s, c);
  }

  lemma SameThawed(st: Stream, st': Stream, foundation: string)
    requires Thawed(st, foundation) && st'.checks == st.checks
    ensures Thawed(st', foundation)
  {
  }

  /** Unfreezing changes no component and no pair that is not frozen. */
  lemma UnfreezeKeeps(a: Agent, s: nat, foundation: string, i: nat)
    requires s < |a.streams| && i < |a.streams[s].checks| && a.streams[s].checks[i].state != Frozen
    ensures var b := UnfreezeRelated(a, s, foundation);
            b.streams[s].checks[i] == a.streams[s].checks[i] && b.streams[s].components == a.streams[s].components
  {
    hide BestFrozen;
    var t := First(a.streams, HasFrozen());
    if t < |a.streams| {
      BestFrozenIs(a.streams[t].checks);
    }
  }

  lemma UpdateReadyComponent(a: Agent, s: nat, c: nat)
    requires s < |a.streams| && c < |a.streams[s].components|
    ensures var k, k' := a.streams[s].components[c], UpdateReady(a, s, c).streams[s].components[c];
            k' == k.(state := k'.state) && (k'.state == k.state || k'.state == Ready)
  {
    hide HighestNominated, AnyPending, AnyNominated;
  }

  /** What a response brings about: one that confirms a pair has the outcome above, one from
      another address fails the pair, and one with an address that is no local candidate
      fails the pair and makes the address a candidate with a valid pair of its own. */
  lemma ResponseOutcome(a: Agent, s: nat, c: nat, socket: nat, from: Address, id: nat, outcome: Outcome, env: Env,
                        i: nat)
    requires Sound(a) && s < |a.streams| && c < |a.streams[s].components| && c < 256
    requires i == First(a.streams[s].checks, Outstanding(id)) < |a.streams[s].checks|
    requires outcome.Mapped? || outcome.NoAddress?
    ensures var st := a.streams[s];
            var p, b := st.checks[i], OnResponse(a, s, c, socket, from, id, outcome, env);
            && |b.streams| == |a.streams|
            && (from != p.remote.addr ==> b == SetPair(a, s, i, p.(message := None, state := Failed)))
            && (from == p.remote.addr ==> Concluded(b.streams[s], c))
            && (Confirms(p, st, c, from, outcome) ==> b == Succeeding(a, s, c, i))
            && (from == p.remote.addr && !Confirms(p, st, c, from, outcome) ==>
                  && |b.streams[s].checks| == |st.checks| + 1
                  && b.streams[s].checks[i].state == Failed && b.streams[s].checks[i].message.None?
                  && var q := b.streams[s].checks[|st.checks|];
                     && q.state == Discovered && q.component == c && q.remote == p.remote && !q.nominated
                     && q.local.addr == outcome.addr && q.local.socket == socket && q.local.kind == PeerReflexive
                     && |b.streams[s].components| == |st.components|
                     && b.streams[s].components[c].locals == st.components[c].locals + [q.local])
  {
    hide Sound, Succeeding, UpdateReady, Concluded, Discover, OnResponse, Thawed, Progress;
    var st := a.streams[s];
    var p := st.checks[i];
    assert Outstanding(id)(p);
    ResponseIs(a, s, c, socket, from, id, outcome, env, i);
    if from == p.remote.addr {
      if Confirms(p, st, c, from, outcome) {
        ConfirmedOutcome(a, s, c, i, Answered(id, from, true));
      } else {
        DiscoveredOutcome(a, s, c, socket, i, outcome.addr, env);
      }
    }
  }

  lemma ResponseIs(a: Agent, s: nat, c: nat, socket: nat, from: Address, id: nat, outcome: Outcome, env: Env, i: nat)
    requires s < |a.streams| && c < |a.streams[s].components|
    requires i == First(a.streams[s].checks, Outstanding(id)) < |a.streams[s].checks|
    requires outcome.Mapped? || outcome.NoAddress?
    ensures var p := a.streams[s].checks[i];
            var q := p.(message := None, state := Failed);
            && (from == p.remote.addr && !Confirms(p, a.streams[s], c, from, outcome) ==> outcome.Mapped?)
            && OnResponse(a, s, c, socket, from, id, outcome, env) ==
               if from != p.remote.addr then SetPair(a, s, i, q)
               else if Confirms(p, a.streams[s], c, from, outcome) then Succeeding(a, s, c, i)
               else
                 UpdateReady(Progress(Discover(SetPair(a, s, i, q), s, c, socket, outcome.addr, p.remote, env), s, c),
                             s, c)
  {
    hide UnfreezeRelated, UpdateReady, Progress, Discover, Conclude;
  }

  lemma DiscoveredOutcome(a: Agent, s: nat, c: nat, socket: nat, i: nat, addr: Address, env: Env)
    requires Sound(a) && s < |a.streams| && c < |a.streams[s].components| && c < 256 && i < |a.streams[s].checks|
    requires a.streams[s].checks[i].message.Some?
    ensures var st := a.streams[s];
            var p := st.checks[i];
            var q := p.(message := None, state := Failed);
            Same(a, SetPair(a, s, i, q)) &&
            var b0 := Discover(SetPair(a, s, i, q), s, c, socket, addr, p.remote, env);
            var b := UpdateReady(Progress(b0, s, c), s, c);
            && |b.streams| == |a.streams| && Concluded(b.streams[s], c)
            && |b.streams[s].checks| == |st.checks| + 1 && b.streams[s].checks[i] == q
            && var r := b.streams[s].checks[|st.checks|];
               && r.state == Discovered && r.component == c && r.remote == p.remote && !r.nominated
               && r.local.addr == addr && r.local.socket == socket && r.local.kind == PeerReflexive
               && |b.streams[s].components| == |st.components|
               && b.streams[s].components[c].locals == st.components[c].locals + [r.local]
  {
    hide Evolves, UpdateReady, Concluded, Step, IcePriority, PairPriority, Distinct, Ranked, ReadySince, PairOk;
    var p := a.streams[s].checks[i];
    var q := p.(message := None, state := Failed);
    var b1 := SetPair(a, s, i, q);
    NotCancelled(a, s, i);
    FailStep(a, s, i);
    StepSound(a, b1, Quiet);
    RemotePositive(a, s, i);
    var b2 := Discover(b1, s, c, socket, addr, p.remote, env);
    DiscoverStep(b1, s, c, socket, addr, p.remote, env, Answered(0, addr, false));
    StepSound(b1, b2, Answered(0, addr, false));
    var b3 := Progress(b2, s, c);
    ProgressStep(b2, s, c);
    StepSound(b2, b3, Quiet);
    UpdateReadyConcludes(b3, s, c);
    UpdateReadyComponent(b3, s, c);
    UpdateReadyValid(b3, s, c, |a.streams[s].checks|);
    UpdateReadyFailed(b3, s, c, i);
  }

  lemma NotCancelled(a: Agent, s: nat, i: nat)
    requires Sound(a) && s < |a.streams| && i < |a.streams[s].checks| && a.streams[s].checks[i].message.Some?
    ensures a.streams[s].checks[i].state == InProgress
  {
    assert PairOk(a.streams[s].checks[i], a.controlling, a.ids, a.uids, |a.streams[s].components|);
  }

  lemma RemotePositive(a: Agent, s: nat, i: nat)
    requires Sound(a) && s < |a.streams| && i < |a.streams[s].checks|
    ensures a.streams[s].checks[i].remote.priority > 0
  {
    assert PairOk(a.streams[s].checks[i], a.controlling, a.ids, a.uids, |a.streams[s].components|);
  }

  lemma UpdateReadyFailed(a: Agent, s: nat, c: nat, i: nat)
    requires s < |a.streams| && c < |a.streams[s].components| && i < |a.streams[s].checks|
    requires a.streams[s].checks[i].state == Failed
    ensures UpdateReady(a, s, c).streams[s].checks[i] == a.streams[s].checks[i]
  {
    hide HighestNominated, AnyNominated, AnyPending;
  }

  // ---------------------------------------------------------------------
  // The end of the checks

  /** There are remote candidates, and every check with them has failed. */
  ghost predicate AllFailedFor(st: Stream, c: nat)
    requires c < |st.components|
  {
    st.components[c].remotes != [] &&
    forall j :: 0 <= j < |st.checks| && st.checks[j].component == c ==> st.checks[j].state == Failed
  }

  /** The state in which the checks leave a component that was in `state`. */
  ghost function FinalState(st: Stream, c: nat, state: ComponentState): ComponentState
    requires c < |st.components|
  {
    if HasNominee(st, c) then Ready else if AllFailedFor(st, c) then Broken else state
  }

  predicate NoneRuns(st: Stream) {
    forall j :: 0 <= j < |st.checks| ==> st.checks[j].state != InProgress
  }

  /** The streams agree on what decides the final state of component `c`. */
  ghost predicate SameGrounds(st: Stream, st': Stream, c: nat) {
    && c < |st.components| && c < |st'.components|
    && (HasNominee(st', c) <==> HasNominee(st, c)) && (AllFailedFor(st', c) <==> AllFailedFor(st, c))
  }

  lemma {:induction false} SignalFailedOutcome(a: Agent, s: nat, c: nat, d: nat)
    requires s < |a.streams| && c <= |a.streams[s].components| && d < |a.streams[s].components|
    ensures var st, st' := a.streams[s], SignalFailed(a, s, c).streams[s];
            && st'.checks == st.checks && |st'.components| == |st.components|
            && st'.components[d] == st.components[d].(state :=
                 if d >= c && AllFailedFor(st, d) then Broken else st.components[d].state)
    ensures forall t :: 0 <= t < |a.streams| && t != s ==> SignalFailed(a, s, c).streams[t] == a.streams[t]
    decreases |a.streams[s].components| - c
  {
    hide Signal, AllFailedFor;
    var st := a.streams[s];
    if c < |st.components| {
      AllFailedIs(st, c);
      SignalIs(a, s, c, Broken);
      var b := if AllFailedFor(st, c) then Signal(a, s, c, Broken) else a;
      SignalFailedOutcome(b, s, c + 1, d);
      SameFailure(st, b.streams[s], d);
    }
  }

  lemma SameFailure(st: Stream, st': Stream, c: nat)
    requires c < |st.components| && c < |st'.components| && st'.checks == st.checks
    requires st'.components[c].remotes == st.components[c].remotes
    ensures AllFailedFor(st', c) <==> AllFailedFor(st, c)
  {
  }

  lemma SignalIs(a: Agent, s: nat, c: nat, state: ComponentState)
    requires s < |a.streams| && c < |a.streams[s].components|
    ensures var k, b := a.streams[s].components[c], Signal(a, s, c, state);
            b.streams == a.streams[s := a.streams[s].(components := a.streams[s].components[c := k.(state := state)])]
  {
    var st := a.streams[s];
    if st.components[c].state == state {
      assert st.components[c := st.components[c].(state := state)] == st.components;
    }
  }

  lemma AllFailedIs(st: Stream, c: nat)
    requires c < |st.components|
    ensures First(st.checks, AllFailed(c)) == |st.checks| && st.components[c].remotes != [] <==> AllFailedFor(st, c)
  {
    var f := AllFailed(c);
    var n := First(st.checks, f);
    if n == |st.checks| {
      forall j | 0 <= j < |st.checks| && st.checks[j].component == c ensures st.checks[j].state == Failed {
        assert !f(st.checks[j]);
      }
    } else {
      assert f(st.checks[n]);
    }
  }

  /** One component is concluded while no check runs. */
  lemma UpdateReadyFinal(a: Agent, s: nat, c: nat, d: nat)
    requires Sound(a) && s < |a.streams| && c < |a.streams[s].components| && d < |a.streams[s].components|
    requires NoneRuns(a.streams[s])
    ensures var st, st' := a.streams[s], UpdateReady(a, s, c).streams[s];
            && SameGrounds(st, st', d) && NoneRuns(st')
            && st'.components[d].state == if d == c && HasNominee(st, c) then Ready else st.components[d].state
    ensures forall t :: 0 <= t < |a.streams| && t != s ==> UpdateReady(a, s, c).streams[t] == a.streams[t]
  {
    hide Sound, HasNominee, AllFailedFor;
    UpdateReadyRest(a, s, c);
    UpdateReadyComponent(a, s, c);
    UpdateReadyIs(a, s, c);
    var st, st' := a.streams[s], UpdateReady(a, s, c).streams[s];
    if HasNominee(st, c) {
      PrunedGrounds(st, st', c, HighestNominated(st.checks, c), d);
      HighestMeans(a, s, c, 0);
      PendingIff(st.checks, c, HighestNominated(st.checks, c));
    }
  }

  lemma UpdateReadyRest(a: Agent, s: nat, c: nat)
    requires s < |a.streams| && c < |a.streams[s].components|
    ensures var b := UpdateReady(a, s, c);
            && (forall t :: 0 <= t < |a.streams| && t != s ==> b.streams[t] == a.streams[t])
            && (forall d :: 0 <= d < |a.streams[s].components| && d != c ==>
                  b.streams[s].components[d] == a.streams[s].components[d])
            && b.streams[s].components[c].remotes == a.streams[s].components[c].remotes
  {
    hide HighestNominated, AnyPending, AnyNominated;
  }

  lemma PrunedGrounds(st: Stream, st': Stream, c: nat, h: nat, d: nat)
    requires st'.checks == PruneAll(st.checks, c, h) && NoneRuns(st) && |st'.components| == |st.components|
    requires d < |st.components| && st'.components[d].remotes == st.components[d].remotes && HasNominee(st, c)
    ensures SameGrounds(st, st', d) && NoneRuns(st')
  {
    hide AllFailedFor, HasNominee;
    PrunedNominees(st, st', c, h, d);
    PrunedFailures(st, st', c, h, d);
  }

  lemma PrunedNominees(st: Stream, st': Stream, c: nat, h: nat, d: nat)
    requires st'.checks == PruneAll(st.checks, c, h)
    ensures HasNominee(st', d) <==> HasNominee(st, d)
  {
    hide PruneAll, IsNominated;
    if HasNominee(st, d) {
      var i :| 0 <= i < |st.checks| && IsNominated(st.checks[i], d);
      PrunedIs(st.checks, c, h, i);
    }
    if HasNominee(st', d) {
      var i :| 0 <= i < |st'.checks| && IsNominated(st'.checks[i], d);
      PrunedIs(st.checks, c, h, i);
    }
  }

  lemma PrunedFailures(st: Stream, st': Stream, c: nat, h: nat, d: nat)
    requires st'.checks == PruneAll(st.checks, c, h) && NoneRuns(st) && |st'.components| == |st.components|
    requires d < |st.components| && st'.components[d].remotes == st.components[d].remotes
    ensures (AllFailedFor(st', d) <==> AllFailedFor(st, d)) && NoneRuns(st')
  {
    hide PruneAll;
    forall j | 0 <= j < |st.checks|
      ensures |st'.checks| == |st.checks|
      ensures st'.checks[j].state == Failed <==> st.checks[j].state == Failed
      ensures st'.checks[j].component == st.checks[j].component && st'.checks[j].state != InProgress
    {
      PrunedIs(st.checks, c, h, j);
    }
  }

  lemma {:induction false} ReadyComponentsOutcome(a: Agent, s: nat, c: nat, d: nat)
    requires Sound(a) && s < |a.streams| && c <= |a.streams[s].components| && d < |a.streams[s].components|
    requires NoneRuns(a.streams[s])
    ensures var st, st' := a.streams[s], ReadyComponents(a, s, c).streams[s];
            && SameGrounds(st, st', d) && NoneRuns(st')
            && st'.components[d].state == if d >= c && HasNominee(st, d) then Ready else st.components[d].state
    ensures forall t :: 0 <= t < |a.streams| && t != s ==> ReadyComponents(a, s, c).streams[t] == a.streams[t]
    decreases |a.streams[s].components| - c
  {
    hide Sound, HasNominee, AllFailedFor, UpdateReady, NoneRuns, Step;
    if c < |a.streams[s].components| {
      var b := UpdateReady(a, s, c);
      UpdateReadyStep(a, s, c);
      StepSound(a, b, Quiet);
      UpdateReadyFinal(a, s, c, d);
      ReadyComponentsOutcome(b, s, c + 1, d);
    }
  }

  /** Settling one stream. */
  lemma SettledStream(a: Agent, s: nat, d: nat)
    requires Sound(a) && s < |a.streams| && d < |a.streams[s].components| && NoneRuns(a.streams[s])
    ensures var st, st' := a.streams[s], ReadyComponents(SignalFailed(a, s, 0), s, 0).streams[s];
            && SameGrounds(st, st', d) && NoneRuns(st')
            && st'.components[d].state == FinalState(st, d, st.components[d].state)
    ensures forall t :: 0 <= t < |a.streams| && t != s ==>
              ReadyComponents(SignalFailed(a, s, 0), s, 0).streams[t] == a.streams[t]
  {
    hide Sound, SignalFailed, ReadyComponents, Step;
    SignalFailedOutcome(a, s, 0, d);
    SignalFailedStep(a, s, 0);
    StepSound(a, SignalFailed(a, s, 0), Quiet);
    ReadyComponentsOutcome(SignalFailed(a, s, 0), s, 0, d);
  }

  lemma {:induction false} SettleOutcome(a: Agent, s: nat, t: nat, d: nat)
    requires Sound(a) && s <= |a.streams| && t < |a.streams| && d < |a.streams[t].components|
    requires forall u :: 0 <= u < |a.streams| ==> NoneRuns(a.streams[u])
    ensures var st, st' := a.streams[t], Settle(a, s).streams[t];
            && SameGrounds(st, st', d) && NoneRuns(st')
            && st'.components[d].state ==
               if t >= s then FinalState(st, d, st.components[d].state) else st.components[d].state
    decreases |a.streams| - s
  {
    hide Sound, NoneRuns, HasNominee, AllFailedFor, SignalFailed, ReadyComponents, Step;
    if s < |a.streams| {
      var b := ReadyComponents(SignalFailed(a, s, 0), s, 0);
      SettleSound(a, s);
      SettledRuns(a, s);
      if t == s {
        SettledStream(a, s, d);
      }
      SettleOutcome(b, s + 1, t, d);
    }
  }

  /** Settling a stream touches no other and starts no check. */
  lemma SettledRuns(a: Agent, s: nat)
    requires s < |a.streams| && NoneRuns(a.streams[s])
    ensures var b := ReadyComponents(SignalFailed(a, s, 0), s, 0);
            && NoneRuns(b.streams[s]) && forall t :: 0 <= t < |a.streams| && t != s ==> b.streams[t] == a.streams[t]
  {
    hide SignalFailed, ReadyComponents, NoneRuns;
    SignalFailedRuns(a, s, 0);
    ReadyComponentsRuns(SignalFailed(a, s, 0), s, 0);
  }

  lemma {:induction false} SignalFailedRuns(a: Agent, s: nat, c: nat)
    requires s < |a.streams| && c <= |a.streams[s].components| && NoneRuns(a.streams[s])
    ensures var b := SignalFailed(a, s, c);
            && NoneRuns(b.streams[s]) && forall t :: 0 <= t < |a.streams| && t != s ==> b.streams[t] == a.streams[t]
    decreases |a.streams[s].components| - c
  {
    hide Signal;
    if c < |a.streams[s].components| {
      SignalIs(a, s, c, Broken);
      var st := a.streams[s];
      var failed := First(st.checks, AllFailed(c)) == |st.checks| && st.components[c].remotes != [];
      SignalFailedRuns(if failed then Signal(a, s, c, Broken) else a, s, c + 1);
    }
  }

  lemma {:induction false} ReadyComponentsRuns(a: Agent, s: nat, c: nat)
    requires s < |a.streams| && c <= |a.streams[s].components| && NoneRuns(a.streams[s])
    ensures var b := ReadyComponents(a, s, c);
            && NoneRuns(b.streams[s]) && forall t :: 0 <= t < |a.streams| && t != s ==> b.streams[t] == a.streams[t]
    decreases |a.streams[s].components| - c
  {
    hide UpdateReady, HighestNominated, HasNominee;
    if c < |a.streams[s].components| {
      UpdateReadyRest(a, s, c);
      UpdateReadyIs(a, s, c);
      ReadyComponentsRuns(UpdateReady(a, s, c), s, c + 1);
    }
  }

  lemma SettleSound(a: Agent, s: nat)
    requires Sound(a) && s < |a.streams|
    ensures Sound(ReadyComponents(SignalFailed(a, s, 0), s, 0))
  {
    hide Sound, SignalFailed, ReadyComponents, Step;
    SignalFailedStep(a, s, 0);
    StepSound(a, SignalFailed(a, s, 0), Quiet);
    ReadyComponentsStep(SignalFailed(a, s, 0), s, 0);
    StepSound(SignalFailed(a, s, 0), ReadyComponents(SignalFailed(a, s, 0), s, 0), Quiet);
  }

  lemma {:induction false} TickPairsKeep(a: Agent, s: nat, i: nat, now: T.Instant)
    requires s < |a.streams| && i <= |a.streams[s].checks|
    ensures var b := TickPairs(a, s, i, now);
            && b.streams[s].components == a.streams[s].components
            && forall t :: 0 <= t < |a.streams| && t != s ==> b.streams[t] == a.streams[t]
    decreases |a.streams[s].checks| - i
  {
    hide TickPair;
    if i < |a.streams[s].checks| {
      TickPairsKeep(TickAt(a, s, i, now), s, i + 1, now);
    }
  }

  /** Ticks that keep nothing going leave no check in progress. */
  lemma {:induction false} StreamsIdle(a: Agent, s: nat, env: Env)
    requires s <= |a.streams| && !TickStreams(a, s, env).1
    ensures var b := TickStreams(a, s, env).0;
            forall t :: 0 <= t < |a.streams| ==>
              && b.streams[t].components == a.streams[t].components
              && (if t < s then b.streams[t] == a.streams[t] else NoneRuns(b.streams[t]))
    decreases |a.streams| - s
  {
    hide TickPairs, AwaitsNomination, Renominate;
    if s < |a.streams| {
      TickPairsKeep(a, s, 0, env.now);
      StreamsIdle(TickStream(a, s, env).0, s + 1, env);
    }
  }

  /** When the timer stops, no check is in progress, every component with a valid nominated
      pair is ready, every other one whose checks have all failed is failed, and no other
      component has changed its state. */
  lemma StopOutcome(a: Agent, env: Env, s: nat, c: nat)
    requires Sound(a) && !Tick(a, env).1 && s < |a.streams| && c < |a.streams[s].components|
    ensures var st := Tick(a, env).0.streams[s];
            && NoneRuns(st) && |st.components| == |a.streams[s].components|
            && st.components[c].state == FinalState(st, c, a.streams[s].components[c].state)
  {
    hide Sound, TickStreams, Settle, NoneRuns, HasNominee, AllFailedFor, Step;
    StoppedIs(a, env);
    var b := TickStreams(a, 0, env).0;
    StreamsIdle(a, 0, env);
    TickStreamsStep(a, 0, env);
    StepSound(a, b, Quiet);
    SettleOutcome(b, 0, s, c);
  }

  lemma StoppedIs(a: Agent, env: Env)
    requires !Tick(a, env).1
    ensures !TickStreams(a, 0, env).1 && Tick(a, env).0 == Settle(TickStreams(a, 0, env).0, 0)
  {
    hide TickStreams, Settle, Initiate;
  }

  /** In every run, whatever happened before: the tick that stops the timer leaves every
      component of every stream in its final state. */
  lemma EveryStopIsFinal(states: seq<Agent>, acts: seq<Action>, n: nat, s: nat, c: nat)
    requires Run(states, acts) && n < |acts| && acts[n].Ticking? && !Tick(states[n], acts[n].env).1
    requires s < |states[n].streams| && c < |states[n].streams[s].components|
    ensures s < |states[n + 1].streams| && c < |states[n + 1].streams[s].components|
    ensures var st, st' := states[n].streams[s], states[n + 1].streams[s];
            && st'.components[c].state == FinalState(st', c, st.components[c].state)
            && (HasNominee(st', c) ==> st'.components[c].state == Ready)
  {
    hide Sound, Tick, HasNominee, AllFailedFor, Permitted;
    RunSound(states, acts, n);
    StopOutcome(states[n], acts[n].env, s, c);
  }

  // ---------------------------------------------------------------------
  // New candidates

  /** A pair of the two candidates of component `c` is in the list from position `n` on. */
  ghost predicate Paired(st: Stream, n: nat, c: nat, local: Candidate, remote: Candidate) {
    exists j :: n <= j < |st.checks| && st.checks[j].component == c && st.checks[j].local == local
                && st.checks[j].remote == remote && st.checks[j].state == Frozen && !st.checks[j].nominated
  }

  lemma AddPairAppends(a: Agent, s: nat, c: nat, local: Candidate, remote: Candidate, state: CheckState,
                       nominated: bool)
    requires Sound(a) && s < |a.streams| && |a.streams[s].checks| < a.maxChecks
    ensures var b := AddPair(a, s, c, local, remote, state, nominated);
            && b.streams[s].checks == a.streams[s].checks + [NewPair(a, c, local, remote, state, nominated)]
            && b.maxChecks == a.maxChecks
  {
    hide PairPriority;
    InsertAppends(a.streams[s], a.controlling, a.ids, a.uids, NewPair(a, c, local, remote, state, nominated));
  }

  lemma FormPairOutcome(a: Agent, s: nat, c: nat, local: Candidate, remote: Candidate)
    requires Sound(a) && s < |a.streams| && c < |a.streams[s].components| && |a.streams[s].checks| < a.maxChecks
    ensures var b := FormPair(a, s, c, local, remote);
            && a.streams[s].checks <= b.streams[s].checks && |b.streams[s].checks| <= |a.streams[s].checks| + 1
            && b.maxChecks == a.maxChecks
            && (Pairable(local, remote) ==> Paired(b.streams[s], |a.streams[s].checks|, c, local, remote))
  {
    hide AddPair, Sound, PairPriority;
    AddPairAppends(a, s, c, local, remote, Frozen, false);
    var b := FormPair(a, s, c, local, remote);
    if Pairable(local, remote) {
      assert b.streams[s].checks == a.streams[s].checks + [NewPair(a, c, local, remote, Frozen, false)];
      assert b.streams[s].checks[|a.streams[s].checks|] == NewPair(a, c, local, remote, Frozen, false);
    }
  }

  lemma PairedLater(st: Stream, st': Stream, n: nat, m: nat, c: nat, local: Candidate, remote: Candidate)
    requires Paired(st, n, c, local, remote) && st.checks <= st'.checks && m <= n
    ensures Paired(st', m, c, local, remote)
  {
    var j :| n <= j < |st.checks| && st.checks[j].component == c && st.checks[j].local == local
             && st.checks[j].remote == remote && st.checks[j].state == Frozen && !st.checks[j].nominated;
    assert st'.checks[j] == st.checks[j];
  }

  lemma {:induction false} FormRemoteOutcome(a: Agent, s: nat, c: nat, remote: Candidate, i: nat, k: nat)
    requires Sound(a) && s < |a.streams| && c < |a.streams[s].components| && CandidateOk(remote, c)
    requires i <= k < |a.streams[s].components[c].locals|
    requires |a.streams[s].checks| + (|a.streams[s].components[c].locals| - i) <= a.maxChecks
    ensures var b := FormRemote(a, s, c, remote, i);
            && a.streams[s].checks <= b.streams[s].checks
            && (Pairable(a.streams[s].components[c].locals[k], remote) ==>
                  Paired(b.streams[s], |a.streams[s].checks|, c, a.streams[s].components[c].locals[k], remote))
    decreases |a.streams[s].components[c].locals| - i
  {
    hide FormPair, Step, Paired, Sound;
    var locals := a.streams[s].components[c].locals;
    var b := FormPair(a, s, c, locals[i], remote);
    SoundComponent(a, s, c);
    FormPairStep(a, s, c, locals[i], remote);
    StepSound(a, b, Quiet);
    FormPairOutcome(a, s, c, locals[i], remote);
    if i + 1 < |locals| {
      FormRemoteOutcome(b, s, c, remote, i + 1, if k == i then i + 1 else k);
    }
    var d := FormRemote(b, s, c, remote, i + 1);
    if Pairable(locals[k], remote) {
      if k == i {
        PairedLater(b.streams[s], d.streams[s], |a.streams[s].checks|, |a.streams[s].checks|, c, locals[k], remote);
      } else {
        PairedLater(d.streams[s], d.streams[s], |b.streams[s].checks|, |a.streams[s].checks|, c, locals[k], remote);
      }
    }
  }

  /** A new remote candidate is paired with every local one it can be paired with, as far as
      the list has room. */
  lemma RemotePaired(a: Agent, s: nat, c: nat, remote: Candidate, k: nat)
    requires Sound(a) && s < |a.streams| && c < |a.streams[s].components| && CandidateOk(remote, c)
    requires k < |a.streams[s].components[c].locals| && Pairable(a.streams[s].components[c].locals[k], remote)
    requires |a.streams[s].checks| + |a.streams[s].components[c].locals| <= a.maxChecks
    ensures var b := AddRemote(a, s, c, remote);
            && |b.streams| == |a.streams| && a.streams[s].checks <= b.streams[s].checks
            && Paired(b.streams[s], |a.streams[s].checks|, c, a.streams[s].components[c].locals[k], remote)
  {
    hide FormRemote, Step, Paired, Sound;
    var kk := a.streams[s].components[c];
    SoundComponent(a, s, c);
    var b := SetComponent(a, s, c, kk.(remotes := kk.remotes + [remote]));
    SetComponentStep(a, s, c, kk.(remotes := kk.remotes + [remote]));
    StepSound(a, b, Quiet);
    FormRemoteOutcome(b, s, c, remote, 0, k);
  }

  lemma {:induction false} FormLocalOutcome(a: Agent, s: nat, c: nat, local: Candidate, i: nat, k: nat)
    requires Sound(a) && s < |a.streams| && c < |a.streams[s].components| && CandidateOk(local, c)
    requires i <= k < |a.streams[s].components[c].remotes|
    requires |a.streams[s].checks| + (|a.streams[s].components[c].remotes| - i) <= a.maxChecks
    ensures var b := FormLocal(a, s, c, local, i);
            && a.streams[s].checks <= b.streams[s].checks
            && (Pairable(local, a.streams[s].components[c].remotes[k]) ==>
                  Paired(b.streams[s], |a.streams[s].checks|, c, local, a.streams[s].components[c].remotes[k]))
    decreases |a.streams[s].components[c].remotes| - i
  {
    hide FormPair, Step, Paired, Sound;
    var remotes := a.streams[s].components[c].remotes;
    var b := FormPair(a, s, c, local, remotes[i]);
    SoundComponent(a, s, c);
    FormPairStep(a, s, c, local, remotes[i]);
    StepSound(a, b, Quiet);
    FormPairOutcome(a, s, c, local, remotes[i]);
    if i + 1 < |remotes| {
      FormLocalOutcome(b, s, c, local, i + 1, if k == i then i + 1 else k);
    }
    var d := FormLocal(b, s, c, local, i + 1);
    if Pairable(local, remotes[k]) {
      if k == i {
        PairedLater(b.streams[s], d.streams[s], |a.streams[s].checks|, |a.streams[s].checks|, c, local, remotes[k]);
      } else {
        PairedLater(d.streams[s], d.streams[s], |b.streams[s].checks|, |a.streams[s].checks|, c, local, remotes[k]);
      }
    }
  }

  /** The same for a new local candidate. */
  lemma LocalPaired(a: Agent, s: nat, c: nat, local: Candidate, k: nat)
    requires Sound(a) && s < |a.streams| && c < |a.streams[s].components| && CandidateOk(local, c)
    requires k < |a.streams[s].components[c].remotes| && Pairable(local, a.streams[s].components[c].remotes[k])
    requires |a.streams[s].checks| + |a.streams[s].components[c].remotes| <= a.maxChecks
    ensures var b := AddLocal(a, s, c, local);
            && |b.streams| == |a.streams| && a.streams[s].checks <= b.streams[s].checks
            && Paired(b.streams[s], |a.streams[s].checks|, c, local, a.streams[s].components[c].remotes[k])
  {
    hide FormLocal, Step, Paired, Sound;
    var kk := a.streams[s].components[c];
    SoundComponent(a, s, c);
    var b := SetComponent(a, s, c, kk.(locals := kk.locals + [local]));
    SetComponentStep(a, s, c, kk.(locals := kk.locals + [local]));
    StepSound(a, b, Quiet);
    FormLocalOutcome(b, s, c, local, 0, k);
  }

  /** A pair of the list is an old one, or a new frozen one of two candidates that can be
      paired. */
  predicate OldOrPaired(q: Pair, checks: seq<Pair>, uids: nat, c: nat) {
    q in checks || (q.uid >= uids && q.component == c && q.state == Frozen && !q.nominated
                 && q.local.kind != ServerReflexive && q.local.addr.family == q.remote.addr.family)
  }

  lemma FormedFrom(a: Agent, s: nat, c: nat, local: Candidate, remote: Candidate, q: Pair)
    requires s < |a.streams| && c < |a.streams[s].components|
    requires q in FormPair(a, s, c, local, remote).streams[s].checks
    ensures q in a.streams[s].checks
            || (Pairable(local, remote) && q == NewPair(a, c, local, remote, Frozen, false))
    ensures FormPair(a, s, c, local, remote).uids >= a.uids
  {
    var p := NewPair(a, c, local, remote, Frozen, false);
    var all := Insert(a.streams[s].checks, p);
    assert forall x :: x in Limit(all, a.maxChecks) ==> x in all;
  }

  lemma {:induction false} FormRemoteOnly(a: Agent, s: nat, c: nat, remote: Candidate, i: nat, q: Pair)
    requires s < |a.streams| && c < |a.streams[s].components| && i <= |a.streams[s].components[c].locals|
    requires q in FormRemote(a, s, c, remote, i).streams[s].checks
    ensures OldOrPaired(q, a.streams[s].checks, a.uids, c)
    ensures q in a.streams[s].checks || (q.local in a.streams[s].components[c].locals && q.remote == remote)
    decreases |a.streams[s].components[c].locals| - i
  {
    hide FormPair;
    var locals := a.streams[s].components[c].locals;
    if i < |locals| {
      var b := FormPair(a, s, c, locals[i], remote);
      FormRemoteOnly(b, s, c, remote, i + 1, q);
      FormedGrows(a, s, c, locals[i], remote);
      if q in b.streams[s].checks {
        FormedFrom(a, s, c, locals[i], remote, q);
      }
    }
  }

  lemma {:induction false} FormLocalOnly(a: Agent, s: nat, c: nat, local: Candidate, i: nat, q: Pair)
    requires s < |a.streams| && c < |a.streams[s].components| && i <= |a.streams[s].components[c].remotes|
    requires q in FormLocal(a, s, c, local, i).streams[s].checks
    ensures OldOrPaired(q, a.streams[s].checks, a.uids, c)
    ensures q in a.streams[s].checks || (q.remote in a.streams[s].components[c].remotes && q.local == local)
    decreases |a.streams[s].components[c].remotes| - i
  {
    hide FormPair;
    var remotes := a.streams[s].components[c].remotes;
    if i < |remotes| {
      var b := FormPair(a, s, c, local, remotes[i]);
      FormLocalOnly(b, s, c, local, i + 1, q);
      FormedGrows(a, s, c, local, remotes[i]);
      if q in b.streams[s].checks {
        FormedFrom(a, s, c, local, remotes[i], q);
      }
    }
  }

  lemma FormedGrows(a: Agent, s: nat, c: nat, local: Candidate, remote: Candidate)
    requires s < |a.streams| && c < |a.streams[s].components|
    ensures FormPair(a, s, c, local, remote).uids >= a.uids
  {
  }

  /** Nothing else is paired: whatever the limit does, the list has only old pairs and new
      ones of the new candidate, none with a server-reflexive local candidate and none across
      address families. */
  lemma OnlyPairable(a: Agent, s: nat, c: nat, k: Candidate, q: Pair)
    requires s < |a.streams| && c < |a.streams[s].components|
    ensures q in AddRemote(a, s, c, k).streams[s].checks ==>
              OldOrPaired(q, a.streams[s].checks, a.uids, c) && (q in a.streams[s].checks || q.remote == k)
    ensures q in AddLocal(a, s, c, k).streams[s].checks ==>
              OldOrPaired(q, a.streams[s].checks, a.uids, c) && (q in a.streams[s].checks || q.local == k)
  {
    hide FormRemote, FormLocal, OldOrPaired;
    var kk := a.streams[s].components[c];
    if q in AddRemote(a, s, c, k).streams[s].checks {
      FormRemoteOnly(SetComponent(a, s, c, kk.(remotes := kk.remotes + [k])), s, c, k, 0, q);
    }
    if q in AddLocal(a, s, c, k).streams[s].checks {
      FormLocalOnly(SetComponent(a, s, c, kk.(locals := kk.locals + [k])), s, c, k, 0, q);
    }
  }

  // ---------------------------------------------------------------------
  // Nomination

  /** What concluding a component leaves of every pair. */
  lemma UpdateReadyPairs(a: Agent, s: nat, c: nat, j: nat)
    requires s < |a.streams| && c < |a.streams[s].components| && j < |a.streams[s].checks|
    ensures var p, q := a.streams[s].checks[j], UpdateReady(a, s, c).streams[s].checks[j];
            && q == p.(state := q.state, message := q.message) && (IsValid(p) <==> IsValid(q))
            && (q.state != p.state ==> q.state == Cancelled)
  {
    hide UpdateReady, HighestNominated, HasNominee, PruneAll;
    UpdateReadyIs(a, s, c);
    PrunedIs(a.streams[s].checks, c, HighestNominated(a.streams[s].checks, c), j);
  }

  lemma NominateTurn(a: Agent, s: nat, c: nat, i: nat)
    requires Sound(a) && s < |a.streams| && c < |a.streams[s].components| && i < |a.streams[s].checks|
    ensures var d := UpdateReady(NominateOne(a, s, c, i), s, c);
            && Sound(d) && Concluded(d.streams[s], c)
            && d.streams[s].components[c].selected ==
               (var p := a.streams[s].checks[i];
                if IsValid(p) then SelectedAfter(a.streams[s].components[c], p.(nominated := true))
                else a.streams[s].components[c].selected)
            && forall j :: 0 <= j < |a.streams[s].checks| ==>
                 var p, q := a.streams[s].checks[j], d.streams[s].checks[j];
                 && q == p.(state := q.state, message := q.message, nominated := p.nominated || j == i)
                 && (IsValid(p) <==> IsValid(q))
  {
    hide Sound, UpdateReady, Concluded, StepIf, Step, PairFits;
    var b := NominateOne(a, s, c, i);
    var d := UpdateReady(b, s, c);
    NominateOneStep(a, s, c, i);
    StepIfSound(a, b, Quiet, PairFits(a.streams[s].checks[i], a.streams[s], c));
    UpdateReadyStep(b, s, c);
    StepSound(b, d, Quiet);
    UpdateReadyConcludes(b, s, c);
    UpdateReadyComponent(b, s, c);
    forall j | 0 <= j < |a.streams[s].checks|
      ensures var p, q := a.streams[s].checks[j], d.streams[s].checks[j];
              && q == p.(state := q.state, message := q.message, nominated := p.nominated || j == i)
              && (IsValid(p) <==> IsValid(q))
    {
      UpdateReadyPairs(b, s, c, j);
    }
  }

  /** No pair of the candidate from position `i` on. */
  predicate NoneOf(st: Stream, r: Candidate, i: nat) {
    forall j :: i <= j < |st.checks| ==> st.checks[j].remote != r
  }

  lemma {:induction false} NominateNone(a: Agent, s: nat, c: nat, r: Candidate, i: nat)
    requires s < |a.streams| && c < |a.streams[s].components| && i <= |a.streams[s].checks|
    requires NoneOf(a.streams[s], r, i)
    ensures Nominate(a, s, c, r, i) == a
    decreases |a.streams[s].checks| - i
  {
    if i < |a.streams[s].checks| {
      NominateNone(a, s, c, r, i + 1);
    }
  }

  /** The selection is at least as good as every valid pair of the candidate from `i` on. */
  predicate BestOf(st: Stream, c: nat, r: Candidate, i: nat, selection: Component) {
    forall j :: i <= j < |st.checks| && st.checks[j].remote == r && IsValid(st.checks[j]) ==>
      st.checks[j].priority <= SelectedPriority(selection)
  }

  /** The selection is that of some valid pair of the candidate. */
  ghost predicate SelectedFrom(st: Stream, r: Candidate, selection: Selection) {
    exists j :: 0 <= j < |st.checks| && st.checks[j].remote == r && IsValid(st.checks[j])
                && selection == Selected(st.checks[j].local, st.checks[j].remote, st.checks[j].priority)
  }

  /** Exactly the pairs of the candidate from position `i` on become nominated; no pair
      becomes valid or ceases to be. */
  ghost predicate Marks(st: Stream, st': Stream, r: Candidate, i: nat) {
    && |st'.checks| == |st.checks|
    && forall j :: 0 <= j < |st.checks| ==>
         var p, q := st.checks[j], st'.checks[j];
         && q == p.(state := q.state, message := q.message,
                    nominated := p.nominated || (j >= i && p.remote == r))
         && (IsValid(p) <==> IsValid(q))
  }

  /** The component's selection is as good as all valid pairs of the candidate from `i` on;
      it is the old one or one of these. */
  ghost predicate Prefers(st: Stream, st': Stream, c: nat, r: Candidate, i: nat) {
    && c < |st.components| && c < |st'.components|
    && BestOf(st, c, r, i, st'.components[c])
    && SelectedPriority(st.components[c]) <= SelectedPriority(st'.components[c])
    && (st'.components[c].selected == st.components[c].selected
        || SelectedFrom(st, r, st'.components[c].selected))
  }

  /** Nominating the pairs of a remote candidate for component `c`: exactly these become
      nominated, the component selects a valid one of them if one is better, ends with a
      selection as good as all of them, and concludes. */
  lemma {:induction false} NominateOutcome(a: Agent, s: nat, c: nat, r: Candidate, i: nat)
    requires Sound(a) && s < |a.streams| && c < |a.streams[s].components| && i <= |a.streams[s].checks|
    ensures var st, st' := a.streams[s], Nominate(a, s, c, r, i).streams[s];
            && Marks(st, st', r, i) && Prefers(st, st', c, r, i)
            && (!NoneOf(st, r, i) ==> Concluded(st', c))
    decreases |a.streams[s].checks| - i
  {
    hide Sound, UpdateReady, Concluded, NominateOne, Marks, Prefers, NoneOf;
    var st := a.streams[s];
    NominateSkip(st, Nominate(a, s, c, r, i).streams[s], c, r, i);
    if i < |st.checks| {
      if st.checks[i].remote != r {
        NominateOutcome(a, s, c, r, i + 1);
      } else {
        var d := UpdateReady(NominateOne(a, s, c, i), s, c);
        NominateTurn(a, s, c, i);
        NominateOutcome(d, s, c, r, i + 1);
        if NoneOf(d.streams[s], r, i + 1) {
          NominateNone(d, s, c, r, i + 1);
        }
        NominateMarks(st, d.streams[s], Nominate(d, s, c, r, i + 1).streams[s], r, i);
        NominateRest(st, d.streams[s], Nominate(d, s, c, r, i + 1).streams[s], c, r, i);
      }
    }
  }

  /** Positions that are not the candidate's make no difference. */
  lemma NominateSkip(st: Stream, st': Stream, c: nat, r: Candidate, i: nat)
    requires i <= |st.checks| && c < |st.components|
    ensures i < |st.checks| && st.checks[i].remote != r ==>
              && (Marks(st, st', r, i + 1) ==> Marks(st, st', r, i))
              && (Prefers(st, st', c, r, i + 1) ==> Prefers(st, st', c, r, i))
              && (NoneOf(st, r, i + 1) ==> NoneOf(st, r, i))
    ensures i == |st.checks| && st' == st ==> Marks(st, st', r, i) && Prefers(st, st', c, r, i) && NoneOf(st, r, i)
  {
  }

  lemma NominateMarks(st: Stream, st1: Stream, st2: Stream, r: Candidate, i: nat)
    requires i < |st.checks| == |st1.checks| && st.checks[i].remote == r
    requires forall j :: 0 <= j < |st.checks| ==>
               var p, q := st.checks[j], st1.checks[j];
               && q == p.(state := q.state, message := q.message, nominated := p.nominated || j == i)
               && (IsValid(p) <==> IsValid(q))
    requires Marks(st1, st2, r, i + 1)
    ensures Marks(st, st2, r, i)
  {
    forall j | 0 <= j < |st.checks|
      ensures var p, q := st.checks[j], st2.checks[j];
              && q == p.(state := q.state, message := q.message,
                         nominated := p.nominated || (j >= i && p.remote == r))
              && (IsValid(p) <==> IsValid(q))
    {
      var p := st1.checks[j];
    }
  }

  lemma NominateRest(st: Stream, st1: Stream, st2: Stream, c: nat, r: Candidate, i: nat)
    requires i < |st.checks| == |st1.checks| && st.checks[i].remote == r
    requires c < |st.components| && c < |st1.components| && c < |st2.components|
    requires forall j :: 0 <= j < |st.checks| ==>
               var p, q := st.checks[j], st1.checks[j];
               && q == p.(state := q.state, message := q.message, nominated := p.nominated || j == i)
               && (IsValid(p) <==> IsValid(q))
    requires st1.components[c].selected ==
             if IsValid(st.checks[i]) then SelectedAfter(st.components[c], st.checks[i].(nominated := true))
             else st.components[c].selected
    requires Prefers(st1, st2, c, r, i + 1)
    ensures Prefers(st, st2, c, r, i)
  {
    forall j | i <= j < |st.checks| && st.checks[j].remote == r && IsValid(st.checks[j])
      ensures st.checks[j].priority <= SelectedPriority(st2.components[c])
    {
      assert st1.checks[j].priority == st.checks[j].priority;
    }
    if SelectedFrom(st1, r, st2.components[c].selected) {
      var j :| 0 <= j < |st1.checks| && st1.checks[j].remote == r && IsValid(st1.checks[j])
               && st2.components[c].selected ==
                  Selected(st1.checks[j].local, st1.checks[j].remote, st1.checks[j].priority);
      assert st.checks[j].local == st1.checks[j].local && st.checks[j].priority == st1.checks[j].priority;
    }
  }

  // ---------------------------------------------------------------------
  // Requests

  /** A check from the peer makes of pair `p`: a check of its own where there was none, a
      restarted timer where one is under way, a renomination by a controlling agent. */
  ghost predicate Reacts(p: Pair, q: Pair, a: Agent, env: Env) {
    && q.component == p.component && q.local == p.local && q.remote == p.remote
    && match p.state
       case Waiting | Frozen | Failed =>
         q.state == InProgress && (env.able(a.ids) ==> q.message.Some? && q.message.value.id == a.ids)
       case InProgress =>
         && q.state == InProgress && q.message == p.message
         && q.timer == (if p.restarted then p.timer else T.Start(env.now, TIMEOUT, RETRANSMISSIONS))
       case Succeeded | Discovered =>
         if a.controlling then q.state == InProgress && q.nominated else IsValid(q) && q.nominated == p.nominated
       case Cancelled => q == p
  }

  lemma TriggerPairOutcome(a: Agent, s: nat, c: nat, i: nat, env: Env)
    requires s < |a.streams| && c < |a.streams[s].components| && i < |a.streams[s].checks|
    ensures Reacts(a.streams[s].checks[i], TriggerPair(a, s, c, i, env).streams[s].checks[i], a, env)
  {
    hide UpdateReady, Initiate, T.Start, IcePriority;
    var p := a.streams[s].checks[i];
    InitiateStarts(a, s, i, env);
    if IsValid(p) {
      UpdateReadyValid(a, s, c, i);
      UpdateReadyRole(a, s, c);
      InitiateStarts(UpdateReady(a, s, c), s, i, env);
    }
  }

  lemma InitiateStarts(a: Agent, s: nat, i: nat, env: Env)
    requires s < |a.streams| && i < |a.streams[s].checks|
    ensures var p, q := a.streams[s].checks[i], Initiate(a, s, i, env).streams[s].checks[i];
            && q.component == p.component && q.local == p.local && q.remote == p.remote
            && q.state == InProgress && (a.controlling ==> q.nominated)
            && (env.able(a.ids) ==> q.message.Some? && q.message.value.id == a.ids)
  {
    hide T.Start, T.Remainder, T.Micros;
  }

  lemma UpdateReadyRole(a: Agent, s: nat, c: nat)
    requires s < |a.streams| && c < |a.streams[s].components|
    ensures var b := UpdateReady(a, s, c); b.controlling == a.controlling && b.tie == a.tie
  {
    hide HighestNominated, AnyPending, AnyNominated;
  }

  /** There is a pair of the remote candidate with a local one on the socket, whose check is
      no longer frozen and has not failed. */
  ghost predicate Served(st: Stream, c: nat, socket: nat, r: Candidate, use: bool) {
    exists j :: 0 <= j < |st.checks| && Matches(c, r, socket)(st.checks[j])
                && st.checks[j].state != Frozen && st.checks[j].state != Failed && (use ==> st.checks[j].nominated)
  }

  lemma TriggerOutcome(a: Agent, s: nat, c: nat, socket: nat, r: Candidate, use: bool, env: Env)
    requires Sound(a) && s < |a.streams| && c < |a.streams[s].components|
    requires First(a.streams[s].components[c].locals, OnSocket(socket)) < |a.streams[s].components[c].locals|
    requires |a.streams[s].checks| < a.maxChecks
    ensures Served(Trigger(a, s, c, socket, r, use, env).streams[s], c, socket, r, false)
  {
    hide TriggerPair, AddPair, Sound;
    var st := a.streams[s];
    var i := First(st.checks, Matches(c, r, socket));
    var b := Trigger(a, s, c, socket, r, use, env);
    if i < |st.checks| {
      assert Matches(c, r, socket)(st.checks[i]);
      TriggerPairOutcome(a, s, c, i, env);
      assert Matches(c, r, socket)(b.streams[s].checks[i]);
    } else {
      var locals := st.components[c].locals;
      var l := First(locals, OnSocket(socket));
      assert OnSocket(socket)(locals[l]);
      AddPairAppends(a, s, c, locals[l], r, Waiting, use);
      var j := |st.checks|;
      assert b.streams[s].checks[j] == NewPair(a, c, locals[l], r, Waiting, use);
      assert Matches(c, r, socket)(b.streams[s].checks[j]);
    }
  }

  lemma NominateServes(a: Agent, s: nat, c: nat, socket: nat, r: Candidate)
    requires Sound(a) && s < |a.streams| && c < |a.streams[s].components| && Served(a.streams[s], c, socket, r, false)
    ensures Served(Nominate(a, s, c, r, 0).streams[s], c, socket, r, true)
    ensures Concluded(Nominate(a, s, c, r, 0).streams[s], c)
  {
    hide Sound, Nominate, Concluded, BestOf, SelectedFrom;
    var st, st' := a.streams[s], Nominate(a, s, c, r, 0).streams[s];
    NominateOutcome(a, s, c, r, 0);
    var j :| 0 <= j < |st.checks| && Matches(c, r, socket)(st.checks[j])
             && st.checks[j].state != Frozen && st.checks[j].state != Failed;
    NominateStates(a, s, c, r, 0, j);
    assert st.checks[j].remote == r;
    assert Matches(c, r, socket)(st'.checks[j]);
  }

  /** Nominating cancels pairs and changes no state otherwise. */
  lemma {:induction false} NominateStates(a: Agent, s: nat, c: nat, r: Candidate, i: nat, j: nat)
    requires s < |a.streams| && c < |a.streams[s].components| && i <= |a.streams[s].checks|
    requires j < |a.streams[s].checks|
    ensures var p, q := a.streams[s].checks[j], Nominate(a, s, c, r, i).streams[s].checks[j];
            q.state == p.state || q.state == Cancelled
    decreases |a.streams[s].checks| - i
  {
    hide UpdateReady;
    if i < |a.streams[s].checks| {
      if a.streams[s].checks[i].remote == r {
        var b := NominateOne(a, s, c, i);
        UpdateReadyPairs(b, s, c, j);
        NominateStates(UpdateReady(b, s, c), s, c, r, i + 1, j);
      } else {
        NominateStates(a, s, c, r, i + 1, j);
      }
    }
  }

  /** An answered request on a socket of the component is served, as far as the list has
      room: its candidate is known afterwards, a check with it is under way or done, and if
      it nominates, that pair is nominated and the component has drawn the conclusions.
      While no remote candidate is known the request is stored, up to 25 of them. */
  lemma RequestOutcome(b: Agent, s: nat, c: nat, socket: nat, from: Address, request: Request, env: Env)
    requires Sound(b) && s < |b.streams| && c < |b.streams[s].components| && c < 256
    requires First(b.streams[s].components[c].locals, OnSocket(socket)) < |b.streams[s].components[c].locals|
    requires |b.streams[s].checks| + |b.streams[s].components[c].locals| < b.maxChecks
    ensures var k := b.streams[s].components[c];
            var use := b.controlling || request.useCandidate;
            var d := Serve(b, s, c, socket, from, request, env);
            && |d.streams| == |b.streams| && |d.streams[s].components| == |b.streams[s].components|
            && (k.remotes != [] ==>
                  && Served(d.streams[s], c, socket, Sender(b, s, c, from, request, env), use)
                  && (use ==> Concluded(d.streams[s], c)))
            && (k.remotes == [] ==>
                  d.streams[s].components[c].early ==
                  if |k.early| < 25 then k.early + [EarlyCheck(from, socket, request.priority, use)] else k.early)
  {
    hide Sound, Step, Served, Concluded, Nominate, Trigger, Learn, Learned, Local;
    var use := b.controlling || request.useCandidate;
    var remotes := b.streams[s].components[c].remotes;
    if remotes != [] {
      var r, t := Sender(b, s, c, from, request, env), Triggered(b, s, c, socket, from, request, env);
      TriggeredStep(b, s, c, socket, from, request, env);
      StepSound(b, t, Quiet);
      SoundComponent(b, s, c);
      if First(remotes, At(from)) < |remotes| {
        TriggerOutcome(b, s, c, socket, r, use, env);
      } else {
        LearnRoom(b, s, c, from, request, env);
        LearnStep(b, s, c, from, request, env);
        StepSound(b, Learn(b, s, c, from, request, env), Quiet);
        TriggerOutcome(Learn(b, s, c, from, request, env), s, c, socket, r, use, env);
      }
      if use {
        NominateServes(t, s, c, socket, r);
      }
    }
  }

  lemma {:induction false} FormRemoteRoom(a: Agent, s: nat, c: nat, remote: Candidate, i: nat)
    requires Sound(a) && s < |a.streams| && c < |a.streams[s].components| && CandidateOk(remote, c)
    requires i <= |a.streams[s].components[c].locals|
    requires |a.streams[s].checks| + (|a.streams[s].components[c].locals| - i) <= a.maxChecks
    ensures var b := FormRemote(a, s, c, remote, i);
            && |b.streams[s].checks| <= |a.streams[s].checks| + (|a.streams[s].components[c].locals| - i)
            && b.maxChecks == a.maxChecks
            && b.streams[s].components[c].locals == a.streams[s].components[c].locals
    decreases |a.streams[s].components[c].locals| - i
  {
    hide FormPair, Step, Sound, Paired;
    var locals := a.streams[s].components[c].locals;
    if i < |locals| {
      var b := FormPair(a, s, c, locals[i], remote);
      SoundComponent(a, s, c);
      FormPairStep(a, s, c, locals[i], remote);
      StepSound(a, b, Quiet);
      FormPairOutcome(a, s, c, locals[i], remote);
      FormRemoteRoom(b, s, c, remote, i + 1);
    }
  }

  /** Learning a candidate uses up at most one place in the list for each local one. */
  lemma LearnRoom(b: Agent, s: nat, c: nat, from: Address, request: Request, env: Env)
    requires Sound(b) && s < |b.streams| && c < |b.streams[s].components| && c < 256
    requires |b.streams[s].checks| + |b.streams[s].components[c].locals| <= b.maxChecks
    ensures var d := Learn(b, s, c, from, request, env);
            && |d.streams[s].checks| <= |b.streams[s].checks| + |b.streams[s].components[c].locals|
            && d.maxChecks == b.maxChecks && d.controlling == b.controlling
            && d.streams[s].components[c].locals == b.streams[s].components[c].locals
  {
    hide Sound, Step, FormRemote, Learned;
    LearnStep(b, s, c, from, request, env);
    StepSound(b, Learn(b, s, c, from, request, env), Quiet);
    var r := Learned(b, c, from, request.priority, env.foundation);
    var b1 := b.(uids := b.uids + 1);
    UidStep(b);
    StepSound(b, b1, Quiet);
    SoundComponent(b1, s, c);
    var k := b1.streams[s].components[c];
    SetComponentStep(b1, s, c, k.(remotes := k.remotes + [r]));
    var b2 := SetComponent(b1, s, c, k.(remotes := k.remotes + [r]));
    StepSound(b1, b2, Quiet);
    FormRemoteRoom(b2, s, c, r, 0);
  }

  // ---------------------------------------------------------------------
  // Refusals

  /** A response to an unknown request changes nothing. A role conflict sets the role to the
      opposite of the one the pair was made in and leaves the pair waiting, with the priority
      of the new role; any other error takes the request from the pair. */
  lemma RefusalOutcome(a: Agent, s: nat, c: nat, socket: nat, from: Address, id: nat, outcome: Outcome, env: Env,
                       i: nat)
    requires Sound(a) && s < |a.streams| && c < |a.streams[s].components|
    requires i == First(a.streams[s].checks, Outstanding(id))
    ensures var b := OnResponse(a, s, c, socket, from, id, outcome, env);
            if i == |a.streams[s].checks| then b == a
            else
              var p := a.streams[s].checks[i];
              && (outcome.RoleConflict? ==>
                    && |b.streams| == |a.streams| && i < |b.streams[s].checks| && b.controlling == !p.controlling
                    && b.streams[s].checks[i] ==
                       p.(message := None, state := Waiting,
                          priority := RolePriority(b.controlling, p.local.priority, p.remote.priority)))
              && (outcome.OtherError? ==> b == SetPair(a, s, i, p.(message := None)))
  {
    hide OnSuccess, RolePriority, TimerOk;
    if i < |a.streams[s].checks| {
      var p := a.streams[s].checks[i];
      assert PairOk(p, a.controlling, a.ids, a.uids, |a.streams[s].components|);
    }
  }

  // ---------------------------------------------------------------------
  // The next check

  /** Position `i` of stream `s` comes before position `j` of stream `t`. */
  predicate Before(s: nat, i: nat, t: nat, j: nat) {
    s < t || (s == t && i < j)
  }

  /** The pair at `i` of stream `s` is the first one that waits. */
  ghost predicate FirstWaiting(a: Agent, s: nat, i: nat) {
    && s < |a.streams| && i < |a.streams[s].checks| && a.streams[s].checks[i].state == Waiting
    && forall t, j :: 0 <= t < |a.streams| && 0 <= j < |a.streams[t].checks| && Before(t, j, s, i) ==>
         a.streams[t].checks[j].state != Waiting
  }

  ghost predicate AnyIn(a: Agent, state: CheckState) {
    exists s, i :: 0 <= s < |a.streams| && 0 <= i < |a.streams[s].checks| && a.streams[s].checks[i].state == state
  }

  /** The pair at `i` is frozen, with the highest priority of all frozen ones of its stream,
      and no earlier stream has a frozen one. */
  ghost predicate BestFrozenAt(a: Agent, s: nat, i: nat) {
    && s < |a.streams| && i < |a.streams[s].checks| && a.streams[s].checks[i].state == Frozen
    && (forall j :: 0 <= j < |a.streams[s].checks| && a.streams[s].checks[j].state == Frozen ==>
          a.streams[s].checks[j].priority <= a.streams[s].checks[i].priority)
    && forall t, j :: 0 <= t < s && 0 <= j < |a.streams[t].checks| ==> a.streams[t].checks[j].state != Frozen
  }

  /** Each tick begins with one step: the first waiting check is started, or, if none waits,
      the best frozen pair of the first stream that has one goes on waiting; otherwise
      nothing changes. */
  lemma AdvanceOutcome(a: Agent, env: Env)
    requires Sound(a)
    ensures AnyIn(a, Waiting) ==>
              exists s: nat, i: nat :: FirstWaiting(a, s, i) && Advance(a, env) == (Initiate(a, s, i, env), true)
    ensures !AnyIn(a, Waiting) && AnyIn(a, Frozen) ==>
              exists s: nat, i: nat ::
                BestFrozenAt(a, s, i)
                && Advance(a, env) == (SetPair(a, s, i, a.streams[s].checks[i].(state := Waiting)), true)
    ensures !AnyIn(a, Waiting) && !AnyIn(a, Frozen) ==> Advance(a, env) == (a, false)
  {
    hide Initiate, BestFrozen, FrozenPriority, Sound;
    var s := First(a.streams, HasWaiting());
    if AnyIn(a, Waiting) {
      WaitingFound(a);
      assert FirstWaiting(a, s, First(a.streams[s].checks, IsWaiting()));
    } else {
      NoneWaits(a);
      var t := First(a.streams, HasFrozen());
      if t < |a.streams| {
        BestFrozenIs(a.streams[t].checks);
        FrozenHere(a, t);
      } else if AnyIn(a, Frozen) {
        var u, j :| 0 <= u < |a.streams| && 0 <= j < |a.streams[u].checks| && a.streams[u].checks[j].state == Frozen;
        FrozenFound(a, u, j);
        assert false;
      }
    }
  }

  lemma WaitingFound(a: Agent)
    requires AnyIn(a, Waiting)
    ensures var s := First(a.streams, HasWaiting());
            s < |a.streams| && FirstWaiting(a, s, First(a.streams[s].checks, IsWaiting()))
  {
    var u, j :| 0 <= u < |a.streams| && 0 <= j < |a.streams[u].checks| && a.streams[u].checks[j].state == Waiting;
    assert IsWaiting()(a.streams[u].checks[j]);
    assert HasWaiting()(a.streams[u]);
    var s := First(a.streams, HasWaiting());
    assert HasWaiting()(a.streams[s]);
    forall t, k | 0 <= t < |a.streams| && 0 <= k < |a.streams[t].checks|
                  && Before(t, k, s, First(a.streams[s].checks, IsWaiting()))
      ensures a.streams[t].checks[k].state != Waiting
    {
      if t < s {
        assert !HasWaiting()(a.streams[t]);
      }
      assert !IsWaiting()(a.streams[t].checks[k]);
    }
  }

  lemma NoneWaits(a: Agent)
    requires !AnyIn(a, Waiting)
    ensures First(a.streams, HasWaiting()) == |a.streams|
  {
  }

  lemma FrozenHere(a: Agent, s: nat)
    requires Sound(a) && s == First(a.streams, HasFrozen()) < |a.streams|
    ensures BestFrozen(a.streams[s].checks).Some? && BestFrozenAt(a, s, BestFrozen(a.streams[s].checks).value)
  {
    hide BestFrozen, Sound;
    BestFrozenIs(a.streams[s].checks);
    assert HasFrozen()(a.streams[s]);
    forall t, j | 0 <= t < s && 0 <= j < |a.streams[t].checks|
      ensures a.streams[t].checks[j].state != Frozen
    {
      if a.streams[t].checks[j].state == Frozen {
        FrozenFound(a, t, j);
      }
    }
  }

  // ---------------------------------------------------------------------
  // Answers

  /** Every request is answered exactly once, whatever is made of it otherwise. It is refused
      exactly if it claims the agent's own role with a tie-breaker that is not larger; with
      a larger one, and only then, the agent changes its role. */
  lemma RequestAnswered(a: Agent, s: nat, c: nat, socket: nat, from: Address, request: Request, env: Env)
    requires Sound(a) && s < |a.streams| && c < |a.streams[s].components| && c < 256
    ensures var claim := if a.controlling then request.controlling else request.controlled;
            var refused := claim.Some? && claim.value <= a.tie;
            var d := OnRequest(a, s, c, socket, from, request, env);
            && a.log <= d.log
            && (d.controlling != a.controlling <==> claim.Some? && a.tie < claim.value)
            && exists n :: && |a.log| <= n < |d.log| && d.log[n] == Replied(request.id, refused)
                           && forall k :: |a.log| <= k < |d.log| && d.log[k].Replied? ==> k == n
  {
    hide Serve, Sound, ServeFits, RecalculateStreams, StreamEvolves, Told, Ranked, Distinct;
    var b := Answer(a, request);
    var d := Serve(b, s, c, socket, from, request, env);
    AnswerSound(a, request);
    ServeStep(b, s, c, socket, from, request, env);
    var n := |b.log| - 1;
    assert b.log[n].Replied? && d.log[n] == b.log[n];
    forall k | |a.log| <= k < |d.log| && d.log[k].Replied?
      ensures k == n
    {
      if k <= n {
        assert d.log[k] == b.log[k];
      }
    }
  }
}
