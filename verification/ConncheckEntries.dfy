/** The entry points of the check logic: requests, responses, new candidates and
    ticks. In a fixed role each of them is a `Step`. */
module ConncheckEntries {
  import opened Candidates
  import opened Conncheck
  import opened ConncheckSteps
  import opened ConncheckOps
  import T = StunTimer

  // ---------------------------------------------------------------------
  // Nomination

  /** A pair becomes nominated and its component selects at least as well. */
  lemma BothStep(st: Stream, i: nat, q: Pair, k: Component, a: Agent)
    requires StreamOk(st, a.controlling, a.ids, a.uids) && i < |st.checks|
    requires PairOk(q, a.controlling, a.ids, a.uids, |st.components|)
    requires PairEvolves(st.checks[i], q, a, a.ids, Quiet)
    requires ComponentOk(k, q.component) && SelectionRises(st.components[q.component], k)
    requires q.priority <= SelectedPriority(k)
    ensures StreamStep(st, Stream(st.components[q.component := k], st.checks[i := q]), a, a.ids, a.uids, Quiet)
  {
    hide PairEvolves;
    var st' := Stream(st.components[q.component := k], st.checks[i := q]);
    assert forall j :: 0 <= j < |st.checks| ==> PairEvolves(st.checks[j], st.checks[j], a, a.ids, Quiet) by {
      StreamSame(st, a, a.ids, Quiet);
      PairsSame(st, a);
    }
    EvolvesUid(st.checks[i], q, a, a.ids, Quiet);
    if Dominated(st) {
      forall j | 0 <= j < |st'.checks|
        ensures PairDominated(st'.checks[j], st')
      {
        assert PairDominated(st.checks[j], st);
      }
    }
  }

  lemma BothTold(st: Stream, i: nat, q: Pair, c: nat, k: Component, a: Agent)
    requires i < |st.checks| && c < |st.components| && k.state == st.components[c].state
    requires Told(st, st.(checks := st.checks[i := q]), a.ids, [])
    ensures Told(st, Stream(st.components[c := k], st.checks[i := q]), a.ids, [])
  {
    var st1, st2 := st.(checks := st.checks[i := q]), Stream(st.components[c := k], st.checks[i := q]);
    forall d | 0 <= d < |st.components| ensures Announced(st, st2, d, []) {
    }
    forall j | 0 <= j < |st2.checks| ensures Dispatched(st2.checks[j], a.ids, []) {
      assert st2.checks[j] == st1.checks[j];
    }
  }

  lemma PairsSame(st: Stream, a: Agent)
    ensures forall j :: 0 <= j < |st.checks| ==> PairEvolves(st.checks[j], st.checks[j], a, a.ids, Quiet)
  {
  }

  lemma NominatedOk(p: Pair, a: Agent, n: nat)
    requires PairOk(p, a.controlling, a.ids, a.uids, n)
    ensures PairOk(p.(nominated := true), a.controlling, a.ids, a.uids, n)
    ensures PairEvolves(p, p.(nominated := true), a, a.ids, Quiet)
    ensures !IsValid(p) ==> Fewer(p, p.(nominated := true))
  {
  }

  /** Nominating the pair for component `c` leaves the selection of its own component on
      top: it is a pair of `c`, is not valid, or is outranked already. */
  ghost predicate PairFits(p: Pair, st: Stream, c: nat) {
    IsValid(p) && p.component != c && p.component < |st.components| ==>
      p.priority <= SelectedPriority(st.components[p.component])
  }

  lemma NominateOneStep(a: Agent, s: nat, c: nat, i: nat)
    requires Sound(a) && s < |a.streams| && c < |a.streams[s].components| && i < |a.streams[s].checks|
    ensures StepIf(a, NominateOne(a, s, c, i), Quiet, PairFits(a.streams[s].checks[i], a.streams[s], c))
  {
    hide StepIf, StreamStep, PairOk, PairEvolves, Fewer;
    var st := a.streams[s];
    var q := st.checks[i].(nominated := true);
    NominatedOk(st.checks[i], a, |st.components|);
    if IsValid(q) && q.component == c {
      var b := NominateOne(a, s, c, i);
      var k := b.streams[s].components[c];
      assert st.components[c := k] == b.streams[s].components;
      BothStep(st, i, q, k, a);
      NoRequest(q, a, |st.components|, []);
      PairTold(st, i, q, a, []);
      BothTold(st, i, q, c, k, a);
      StreamKeeps(a, s, Stream(st.components[c := k], st.checks[i := q]), b, Quiet);
      StepIs(a, b, Quiet, PairFits(st.checks[i], st, c));
    } else if IsValid(q) {
      NominateOther(a, s, c, i);
    } else {
      SetPairStep(a, s, i, q, Quiet);
      StepIs(a, SetPair(a, s, i, q), Quiet, PairFits(st.checks[i], st, c));
    }
  }

  lemma StepIs(a: Agent, b: Agent, cause: Cause, fits: bool)
    requires Step(a, b, cause)
    ensures StepIf(a, b, cause, fits)
  {
    hide Sound, Evolves, Distinct, Ranked, ReadySince;
  }

  /** A valid pair of another component is nominated for `c`. */
  lemma NominateOther(a: Agent, s: nat, c: nat, i: nat)
    requires Sound(a) && s < |a.streams| && c < |a.streams[s].components| && i < |a.streams[s].checks|
    requires IsValid(a.streams[s].checks[i]) && a.streams[s].checks[i].component != c
    ensures StepIf(a, NominateOne(a, s, c, i), Quiet, PairFits(a.streams[s].checks[i], a.streams[s], c))
  {
    hide StepIf, StreamStep, PairOk, PairEvolves;
    var st := a.streams[s];
    var q := st.checks[i].(nominated := true);
    var b := SetPair(a, s, i, q);
    NominatedOk(st.checks[i], a, |st.components|);
    OtherNominated(a, s, i, c);
    StepIfSound(a, b, Quiet, PairFits(st.checks[i], st, c));
    SelectStep(b, s, c, q);
    StepIs(b, Select(b, s, c, q), Quiet, true);
    StepIfTrans(a, b, Select(b, s, c, q), Quiet, PairFits(st.checks[i], st, c), true,
                PairFits(st.checks[i], st, c));
  }

  lemma StepIfSound(a: Agent, b: Agent, cause: Cause, fits: bool)
    requires StepIf(a, b, cause, fits)
    ensures Sound(b) && SameAgent(a, b)
  {
  }

  lemma OtherNominated(a: Agent, s: nat, i: nat, c: nat)
    requires Sound(a) && s < |a.streams| && i < |a.streams[s].checks|
    requires IsValid(a.streams[s].checks[i]) && a.streams[s].checks[i].component != c
    ensures var st := a.streams[s];
            StepIf(a, SetPair(a, s, i, st.checks[i].(nominated := true)), Quiet, PairFits(st.checks[i], st, c))
  {
    hide StepIf, PairOk, PairEvolves;
    var st := a.streams[s];
    var q := st.checks[i].(nominated := true);
    NominatedOk(st.checks[i], a, |st.components|);
    SetPairRaw(a, s, i, q);
    if PairFits(st.checks[i], st, c) && Ranked(a) {
      var b := SetPair(a, s, i, q);
      forall t | 0 <= t < |b.streams| ensures Dominated(b.streams[t]) {
        FittingDominated(a, s, i, q, t);
      }
    }
    RawStep(a, SetPair(a, s, i, q), PairFits(st.checks[i], st, c));
  }

  lemma FittingDominated(a: Agent, s: nat, i: nat, q: Pair, t: nat)
    requires Ranked(a) && s < |a.streams| && i < |a.streams[s].checks| && t < |a.streams|
    requires q == a.streams[s].checks[i].(nominated := true) && q.component < |a.streams[s].components|
    requires q.priority <= SelectedPriority(a.streams[s].components[q.component])
    ensures Dominated(SetPair(a, s, i, q).streams[t])
  {
    var b := SetPair(a, s, i, q);
    forall j | 0 <= j < |b.streams[t].checks| ensures PairDominated(b.streams[t].checks[j], b.streams[t]) {
      assert PairDominated(a.streams[t].checks[j], a.streams[t]);
    }
  }

  /** One pair changes, whatever that does to the selection. */
  ghost predicate Raw(a: Agent, b: Agent) {
    Sound(b) && Evolves(a, b, Quiet) && (Distinct(a) ==> Distinct(b)) && b.log == a.log
  }

  lemma RawStep(a: Agent, b: Agent, fits: bool)
    requires Raw(a, b) && (fits && Ranked(a) ==> Ranked(b))
    ensures StepIf(a, b, Quiet, fits)
  {
    hide Sound, Evolves, Distinct, Ranked;
  }

  lemma SetPairRaw(a: Agent, s: nat, i: nat, q: Pair)
    requires Sound(a) && s < |a.streams| && i < |a.streams[s].checks|
    requires PairOk(q, a.controlling, a.ids, a.uids, |a.streams[s].components|)
    requires PairEvolves(a.streams[s].checks[i], q, a, a.ids, Quiet)
    ensures Raw(a, SetPair(a, s, i, q))
  {
    SetPairChange(a, s, i, q, Quiet);
  }

  /** Replacing one pair, whatever it does to the selection. */
  lemma SetPairChange(a: Agent, s: nat, i: nat, q: Pair, cause: Cause)
    requires Sound(a) && s < |a.streams| && i < |a.streams[s].checks|
    requires PairOk(q, a.controlling, a.ids, a.uids, |a.streams[s].components|)
    requires PairEvolves(a.streams[s].checks[i], q, a, a.ids, cause)
    ensures var b := SetPair(a, s, i, q);
            Sound(b) && Evolves(a, b, cause) && (Distinct(a) ==> Distinct(b))
  {
    hide PairOk, PairEvolves, Distinct;
    var b := SetPair(a, s, i, q);
    EvolvesUid(a.streams[s].checks[i], q, a, a.ids, cause);
    if Distinct(a) {
      StreamDistinct(a, s, b.streams[s], b);
    }
    forall t | 0 <= t < |a.streams|
      ensures StreamOk(b.streams[t], b.controlling, b.ids, b.uids)
      ensures StreamEvolves(a.streams[t], b.streams[t], a, b.ids, cause)
      ensures |b.streams[t].components| == |a.streams[t].components|
      ensures Told(a.streams[t], b.streams[t], a.ids, b.log[|a.log|..])
    {
      assert StreamOk(a.streams[t], a.controlling, a.ids, a.uids);
      StreamSame(a.streams[t], a, a.ids, cause);
      PairsSameFor(a.streams[t], a, cause);
      QuietTold(a.streams[t], b.streams[t], a, a.uids, b.log[|a.log|..]);
    }
  }

  lemma PairsSameFor(st: Stream, a: Agent, cause: Cause)
    ensures forall j :: 0 <= j < |st.checks| ==> PairEvolves(st.checks[j], st.checks[j], a, a.ids, cause)
  {
  }

  // ---------------------------------------------------------------------
  // What happens for one component stays there

  /** Pairs and selections of other components of stream `s` stay; pairs may be dropped. */
  ghost predicate Local(a: Agent, b: Agent, s: nat, c: nat) {
    && s < |a.streams| && |b.streams| == |a.streams|
    && |b.streams[s].components| == |a.streams[s].components|
    && (forall j :: 0 <= j < |b.streams[s].checks| ==>
          b.streams[s].checks[j].component == c
          || (j < |a.streams[s].checks| && b.streams[s].checks[j] == a.streams[s].checks[j]))
    && (forall d :: 0 <= d < |a.streams[s].components| && d != c ==>
          b.streams[s].components[d].selected == a.streams[s].components[d].selected)
  }

  lemma LocalTrans(a: Agent, b: Agent, d: Agent, s: nat, c: nat)
    requires Local(a, b, s, c) && Local(b, d, s, c)
    ensures Local(a, d, s, c)
  {
  }

  lemma UpdateReadyLocal(a: Agent, s: nat, c: nat)
    requires s < |a.streams| && c < |a.streams[s].components|
    ensures Local(a, UpdateReady(a, s, c), s, c)
  {
    hide AnyNominated, AnyPending, HighestNominated;
  }

  /** All pairs of remote candidate `r` from position `i` on fit. */
  ghost predicate NominationFits(st: Stream, c: nat, r: Candidate, i: nat) {
    forall j :: i <= j < |st.checks| && st.checks[j].remote == r ==> PairFits(st.checks[j], st, c)
  }

  lemma NextFits(a: Agent, s: nat, c: nat, r: Candidate, i: nat)
    requires s < |a.streams| && c < |a.streams[s].components| && i < |a.streams[s].checks|
    requires NominationFits(a.streams[s], c, r, i)
    ensures NominationFits(UpdateReady(NominateOne(a, s, c, i), s, c).streams[s], c, r, i + 1)
  {
    hide UpdateReady;
    var b := NominateOne(a, s, c, i);
    UpdateReadyLocal(b, s, c);
    var st := UpdateReady(b, s, c).streams[s];
    forall j | i + 1 <= j < |st.checks| && st.checks[j].remote == r ensures PairFits(st.checks[j], st, c) {
      if st.checks[j].component != c {
        assert st.checks[j] == a.streams[s].checks[j];
        assert PairFits(a.streams[s].checks[j], a.streams[s], c);
      }
    }
  }

  lemma {:induction false} NominateStep(a: Agent, s: nat, c: nat, r: Candidate, i: nat)
    requires Sound(a) && s < |a.streams| && c < |a.streams[s].components| && i <= |a.streams[s].checks|
    ensures StepIf(a, Nominate(a, s, c, r, i), Quiet, NominationFits(a.streams[s], c, r, i))
    decreases |a.streams[s].checks| - i
  {
    hide StepIf, NominateOne, UpdateReady, PairFits, Sound;
    var checks := a.streams[s].checks;
    var fits := NominationFits(a.streams[s], c, r, i);
    if i == |checks| {
      StepRefl(a);
      StepIs(a, a, Quiet, fits);
    } else if checks[i].remote != r {
      NominateStep(a, s, c, r, i + 1);
      assert NominationFits(a.streams[s], c, r, i + 1) == fits;
    } else {
      var b := NominateOne(a, s, c, i);
      NominateOneStep(a, s, c, i);
      StepIfSound(a, b, Quiet, PairFits(checks[i], a.streams[s], c));
      UpdateReadyStep(b, s, c);
      var d := UpdateReady(b, s, c);
      StepIs(b, d, Quiet, true);
      StepIfTrans(a, b, d, Quiet, PairFits(checks[i], a.streams[s], c), true, fits);
      StepIfSound(b, d, Quiet, true);
      NominateStep(d, s, c, r, i + 1);
      if fits {
        NextFits(a, s, c, r, i);
      }
      StepIfTrans(a, d, Nominate(d, s, c, r, i + 1), Quiet, fits,
                  NominationFits(d.streams[s], c, r, i + 1), fits);
    }
  }

  /** A pair of another component keeps its place; it is nominated if its remote candidate is. */
  lemma {:induction false} NominateElsewhere(a: Agent, s: nat, c: nat, r: Candidate, i: nat, j: nat)
    requires s < |a.streams| && c < |a.streams[s].components| && i <= |a.streams[s].checks|
    requires j < |a.streams[s].checks| && a.streams[s].checks[j].component != c
    ensures var p := a.streams[s].checks[j];
            Nominate(a, s, c, r, i).streams[s].checks[j] ==
            if i <= j && p.remote == r then p.(nominated := true) else p
    ensures forall d :: 0 <= d < |a.streams[s].components| && d != c ==>
              Nominate(a, s, c, r, i).streams[s].components[d].selected == a.streams[s].components[d].selected
    decreases |a.streams[s].checks| - i
  {
    hide UpdateReady;
    var checks := a.streams[s].checks;
    if i < |checks| {
      if checks[i].remote != r {
        NominateElsewhere(a, s, c, r, i + 1, j);
      } else {
        var b := NominateOne(a, s, c, i);
        UpdateReadyLocal(b, s, c);
        UpdateReadyPair(b, s, c, j);
        NominateElsewhere(UpdateReady(b, s, c), s, c, r, i + 1, j);
      }
    }
  }

  lemma UpdateReadyPair(a: Agent, s: nat, c: nat, j: nat)
    requires s < |a.streams| && c < |a.streams[s].components| && j < |a.streams[s].checks|
    requires a.streams[s].checks[j].component != c
    ensures UpdateReady(a, s, c).streams[s].checks[j] == a.streams[s].checks[j]
  {
    hide AnyNominated, AnyPending, HighestNominated;
  }

  /** Nominating the pairs of a remote candidate for a component leaves every selection on
      top if and only if all its valid pairs of other components are outranked already. */
  lemma NominateRankedIff(a: Agent, s: nat, c: nat, r: Candidate)
    requires Sound(a) && Ranked(a) && s < |a.streams| && c < |a.streams[s].components|
    ensures Ranked(Nominate(a, s, c, r, 0)) <==> NominationFits(a.streams[s], c, r, 0)
  {
    hide Nominate;
    NominateStep(a, s, c, r, 0);
    var b := Nominate(a, s, c, r, 0);
    var st := a.streams[s];
    if Ranked(b) {
      forall j | 0 <= j < |st.checks| && st.checks[j].remote == r ensures PairFits(st.checks[j], st, c) {
        if st.checks[j].component != c {
          NominateElsewhere(a, s, c, r, 0, j);
          assert PairDominated(b.streams[s].checks[j], b.streams[s]);
        }
      }
    }
  }

  lemma {:induction false} SignalFailedStep(a: Agent, s: nat, c: nat)
    requires Sound(a) && s < |a.streams| && c <= |a.streams[s].components|
    ensures Step(a, SignalFailed(a, s, c), Quiet)
    decreases |a.streams[s].components| - c
  {
    hide Sound, Evolves, Ranked, ReadySince, Signal;
    if c == |a.streams[s].components| {
      StepRefl(a);
    } else {
      var st := a.streams[s];
      var failed := First(st.checks, AllFailed(c)) == |st.checks| && st.components[c].remotes != [];
      var b := if failed then Signal(a, s, c, Broken) else a;
      StepRefl(a);
      SignalStep(a, s, c, Broken);
      SignalFailedStep(b, s, c + 1);
      StepTrans(a, b, SignalFailed(b, s, c + 1), Quiet);
    }
  }

  // ---------------------------------------------------------------------
  // New pairs

  /** With positive priorities a new pair goes to the end of the list. */
  lemma InsertAppends(st: Stream, controlling: bool, ids: nat, uids: nat, p: Pair)
    requires StreamOk(st, controlling, ids, uids)
    ensures Insert(st.checks, p) == st.checks + [p]
  {
    var n := First(st.checks, ZeroPriority());
    if n < |st.checks| {
      var q := st.checks[n];
      assert PairOk(q, controlling, ids, uids, |st.components|);
      PairPriorityPositive(q.local.priority, q.remote.priority);
      PairPriorityPositive(q.remote.priority, q.local.priority);
      assert false;
    }
  }

  /** A new pair at the end, and possibly some pairs dropped from there. */
  lemma AppendStep(st: Stream, p: Pair, n: nat, a: Agent, uids: nat)
    requires StreamOk(st, a.controlling, a.ids, a.uids) && a.uids <= uids && n <= |st.checks| + 1
    requires PairOk(p, a.controlling, a.ids, uids, |st.components|) && Newborn(p, a, a.ids, Quiet)
    requires !IsNominated(p, p.component)
    ensures StreamStep(st, st.(checks := (st.checks + [p])[..n]), a, a.ids, uids, Quiet)
  {
    hide PairEvolves, Newborn;
    var st' := st.(checks := (st.checks + [p])[..n]);
    PairsSame(st, a);
    NewbornUid(p, a, a.ids, Quiet);
    forall j | 0 <= j < n
      ensures PairOk(st'.checks[j], a.controlling, a.ids, uids, |st.components|)
      ensures Newborn(st'.checks[j], a, a.ids, Quiet)
              || (j < |st.checks| && PairEvolves(st.checks[j], st'.checks[j], a, a.ids, Quiet))
    {
      if j < |st.checks| {
        assert st'.checks[j] == st.checks[j];
      }
    }
    if Dominated(st) {
      forall j | 0 <= j < |st'.checks|
        ensures PairDominated(st'.checks[j], st')
      {
        if j < |st.checks| {
          assert PairDominated(st.checks[j], st);
        }
      }
    }
  }

  lemma NewbornUid(p: Pair, a: Agent, ids: nat, cause: Cause)
    requires Newborn(p, a, ids, cause)
    ensures p.uid >= a.uids
  {
  }

  lemma AddPairStep(a: Agent, s: nat, c: nat, local: Candidate, remote: Candidate,
                    state: CheckState, nominated: bool)
    requires Sound(a) && s < |a.streams| && c < |a.streams[s].components|
    requires CandidateOk(remote, c) && local.priority > 0 && (state == Frozen || state == Waiting)
    ensures Step(a, AddPair(a, s, c, local, remote, state, nominated), Quiet)
  {
    hide Step, StreamStep;
    var st := a.streams[s];
    var p := NewPair(a, c, local, remote, state, nominated);
    var b := AddPair(a, s, c, local, remote, state, nominated);
    InsertAppends(st, a.controlling, a.ids, a.uids, p);
    var all := st.checks + [p];
    var n := |b.streams[s].checks|;
    assert b.streams[s].checks == all[..n];
    AppendStep(st, p, n, a, a.uids + 1);
    QuietTold(st, st.(checks := all[..n]), a, a.uids + 1, []);
    StreamKeeps(a, s, st.(checks := all[..n]), b, Quiet);
  }

  lemma FormPairStep(a: Agent, s: nat, c: nat, local: Candidate, remote: Candidate)
    requires Sound(a) && s < |a.streams| && c < |a.streams[s].components|
    requires CandidateOk(remote, c) && local.priority > 0
    ensures Step(a, FormPair(a, s, c, local, remote), Quiet)
  {
    hide Sound, Evolves, Ranked, ReadySince, Signal, AddPair;
    if !Pairable(local, remote) {
      StepRefl(a);
    } else {
      var b := AddPair(a, s, c, local, remote, Frozen, false);
      AddPairStep(a, s, c, local, remote, Frozen, false);
      var state := if Established(b.streams[s].components[c].state) then Connected else Connecting;
      SignalStep(b, s, c, state);
      StepTrans(a, b, Signal(b, s, c, state), Quiet);
    }
  }

  lemma {:induction false} FormRemoteStep(a: Agent, s: nat, c: nat, remote: Candidate, i: nat)
    requires Sound(a) && s < |a.streams| && c < |a.streams[s].components|
    requires i <= |a.streams[s].components[c].locals| && CandidateOk(remote, c)
    ensures Step(a, FormRemote(a, s, c, remote, i), Quiet)
    decreases |a.streams[s].components[c].locals| - i
  {
    hide Evolves, Ranked, ReadySince, FormPair;
    var locals := a.streams[s].components[c].locals;
    if i == |locals| {
      StepRefl(a);
    } else {
      assert ComponentOk(a.streams[s].components[c], c);
      var b := FormPair(a, s, c, locals[i], remote);
      FormPairStep(a, s, c, locals[i], remote);
      FormRemoteStep(b, s, c, remote, i + 1);
      StepTrans(a, b, FormRemote(b, s, c, remote, i + 1), Quiet);
    }
  }

  lemma {:induction false} FormLocalStep(a: Agent, s: nat, c: nat, local: Candidate, i: nat)
    requires Sound(a) && s < |a.streams| && c < |a.streams[s].components|
    requires i <= |a.streams[s].components[c].remotes| && local.priority > 0
    ensures Step(a, FormLocal(a, s, c, local, i), Quiet)
    decreases |a.streams[s].components[c].remotes| - i
  {
    hide Evolves, Ranked, ReadySince, FormPair;
    var remotes := a.streams[s].components[c].remotes;
    if i == |remotes| {
      StepRefl(a);
    } else {
      assert ComponentOk(a.streams[s].components[c], c);
      var b := FormPair(a, s, c, local, remotes[i]);
      FormPairStep(a, s, c, local, remotes[i]);
      FormLocalStep(b, s, c, local, i + 1);
      StepTrans(a, b, FormLocal(b, s, c, local, i + 1), Quiet);
    }
  }

  lemma AddRemoteStep(a: Agent, s: nat, c: nat, r: Candidate)
    requires Sound(a) && s < |a.streams| && c < |a.streams[s].components| && CandidateOk(r, c)
    ensures Step(a, AddRemote(a, s, c, r), Quiet)
  {
    hide Step, FormRemote;
    var k := a.streams[s].components[c];
    assert ComponentOk(k, c);
    var b := SetComponent(a, s, c, k.(remotes := k.remotes + [r]));
    SetComponentStep(a, s, c, k.(remotes := k.remotes + [r]));
    StepSound(a, b, Quiet);
    FormRemoteStep(b, s, c, r, 0);
    StepTrans(a, b, FormRemote(b, s, c, r, 0), Quiet);
  }

  lemma StepSound(a: Agent, b: Agent, cause: Cause)
    requires Step(a, b, cause)
    ensures Sound(b) && SameAgent(a, b)
  {
  }

  lemma AddLocalStep(a: Agent, s: nat, c: nat, l: Candidate)
    requires Sound(a) && s < |a.streams| && c < |a.streams[s].components| && CandidateOk(l, c)
    ensures Step(a, AddLocal(a, s, c, l), Quiet)
  {
    hide Step, FormLocal;
    var k := a.streams[s].components[c];
    assert ComponentOk(k, c);
    var b := SetComponent(a, s, c, k.(locals := k.locals + [l]));
    SetComponentStep(a, s, c, k.(locals := k.locals + [l]));
    StepSound(a, b, Quiet);
    FormLocalStep(b, s, c, l, 0);
    StepTrans(a, b, FormLocal(b, s, c, l, 0), Quiet);
  }

  // ---------------------------------------------------------------------
  // Incoming requests

  lemma TriggerPairStep(a: Agent, s: nat, c: nat, i: nat, env: Env)
    requires Sound(a) && s < |a.streams| && c < |a.streams[s].components| && i < |a.streams[s].checks|
    ensures Step(a, TriggerPair(a, s, c, i, env), Quiet)
  {
    hide Step, Initiate, UpdateReady, T.Start, TimerOk;
    var p := a.streams[s].checks[i];
    match p.state
    case Waiting | Frozen | Failed => InitiateStep(a, s, i, env);
    case InProgress =>
      StepRefl(a);
      if !p.restarted {
        StartOk(env.now);
        RestartStep(a, s, i, T.Start(env.now, TIMEOUT, RETRANSMISSIONS));
      }
    case Succeeded | Discovered =>
      var b := UpdateReady(a, s, c);
      UpdateReadyStep(a, s, c);
      if a.controlling {
        StepSound(a, b, Quiet);
        UpdateReadyValid(a, s, c, i);
        InitiateStep(b, s, i, env);
        StepTrans(a, b, Initiate(b, s, i, env), Quiet);
      }
    case Cancelled => StepRefl(a);
  }

  lemma RestartStep(a: Agent, s: nat, i: nat, timer: T.Timer)
    requires Sound(a) && s < |a.streams| && i < |a.streams[s].checks|
    requires TimerOk(timer)
    ensures Step(a, SetPair(a, s, i, a.streams[s].checks[i].(timer := timer, restarted := true)), Quiet)
  {
    hide Step, TimerOk;
    SetPairStep(a, s, i, a.streams[s].checks[i].(timer := timer, restarted := true), Quiet);
  }

  /** Concluding a component leaves valid pairs alone. */
  lemma UpdateReadyValid(a: Agent, s: nat, c: nat, i: nat)
    requires s < |a.streams| && c < |a.streams[s].components| && i < |a.streams[s].checks|
    requires IsValid(a.streams[s].checks[i])
    ensures UpdateReady(a, s, c).streams[s].checks[i] == a.streams[s].checks[i]
  {
    hide HighestNominated, AnyNominated, AnyPending;
  }

  lemma TriggerStep(a: Agent, s: nat, c: nat, socket: nat, r: Candidate, use: bool, env: Env)
    requires Sound(a) && s < |a.streams| && c < |a.streams[s].components| && CandidateOk(r, c)
    ensures Step(a, Trigger(a, s, c, socket, r, use, env), Quiet)
  {
    hide Step, TriggerPair, AddPair;
    var st := a.streams[s];
    var i := First(st.checks, Matches(c, r, socket));
    if i < |st.checks| {
      TriggerPairStep(a, s, c, i, env);
    } else {
      var locals := st.components[c].locals;
      var l := First(locals, OnSocket(socket));
      if l < |locals| {
        assert ComponentOk(st.components[c], c);
        AddPairStep(a, s, c, locals[l], r, Waiting, use);
      } else {
        StepRefl(a);
      }
    }
  }

  // ---------------------------------------------------------------------
  // Requests stay local to their component

  /** Pair `j` of the stream has not been dropped. */
  ghost predicate Stays(a: Agent, b: Agent, s: nat, j: nat)
    requires s < |a.streams| && s < |b.streams| && j < |a.streams[s].checks|
  {
    j < |b.streams[s].checks| && b.streams[s].checks[j].uid == a.streams[s].checks[j].uid
  }

  /** The pairs of remote candidate `r` that have not been dropped can be nominated for `c`. */
  ghost predicate RestFits(a: Agent, b: Agent, s: nat, c: nat, r: Candidate)
    requires s < |a.streams| && s < |b.streams|
  {
    forall j :: 0 <= j < |a.streams[s].checks| && a.streams[s].checks[j].remote == r && Stays(a, b, s, j) ==>
      PairFits(a.streams[s].checks[j], a.streams[s], c)
  }

  lemma FitsKeptIff(a: Agent, b: Agent, s: nat, c: nat, r: Candidate)
    requires Sound(a) && Step(a, b, Quiet) && Local(a, b, s, c)
    ensures NominationFits(b.streams[s], c, r, 0) <==> RestFits(a, b, s, c, r)
  {
    hide Ranked, ReadySince, Distinct, EventOk;
    var st, st' := a.streams[s], b.streams[s];
    if NominationFits(st', c, r, 0) {
      forall j | 0 <= j < |st.checks| && st.checks[j].remote == r && Stays(a, b, s, j)
        ensures PairFits(st.checks[j], st, c)
      {
        assert PairOk(st.checks[j], a.controlling, a.ids, a.uids, |st.components|);
        assert PairEvolves(st.checks[j], st'.checks[j], a, b.ids, Quiet);
        assert PairFits(st'.checks[j], st', c);
      }
    }
    if RestFits(a, b, s, c, r) {
      forall j | 0 <= j < |st'.checks| && st'.checks[j].remote == r ensures PairFits(st'.checks[j], st', c) {
        if st'.checks[j].component != c {
          assert Stays(a, b, s, j);
        }
      }
    }
  }

  lemma InitiateLocal(a: Agent, s: nat, i: nat, env: Env)
    requires s < |a.streams| && i < |a.streams[s].checks|
    ensures Local(a, Initiate(a, s, i, env), s, a.streams[s].checks[i].component)
    ensures Initiate(a, s, i, env).streams[s].checks[i].component == a.streams[s].checks[i].component
  {
    hide RoleRequest, T.Start, T.Remainder, T.Micros;
  }

  lemma TriggerPairLocal(a: Agent, s: nat, c: nat, i: nat, env: Env)
    requires s < |a.streams| && c < |a.streams[s].components| && i < |a.streams[s].checks|
    requires a.streams[s].checks[i].component == c
    ensures Local(a, TriggerPair(a, s, c, i, env), s, c)
  {
    hide Initiate, UpdateReady, T.Start;
    InitiateLocal(a, s, i, env);
    var p := a.streams[s].checks[i];
    if p.state == Succeeded || p.state == Discovered {
      var b := UpdateReady(a, s, c);
      UpdateReadyLocal(a, s, c);
      UpdateReadyValid(a, s, c, i);
      InitiateLocal(b, s, i, env);
      LocalTrans(a, b, Initiate(b, s, i, env), s, c);
    }
  }

  lemma AddPairLocal(a: Agent, s: nat, c: nat, local: Candidate, remote: Candidate, state: CheckState, nominated: bool)
    requires Sound(a) && s < |a.streams|
    ensures Local(a, AddPair(a, s, c, local, remote, state, nominated), s, c)
  {
    var p := NewPair(a, c, local, remote, state, nominated);
    InsertAppends(a.streams[s], a.controlling, a.ids, a.uids, p);
  }

  lemma TriggerLocal(a: Agent, s: nat, c: nat, socket: nat, r: Candidate, use: bool, env: Env)
    requires Sound(a) && s < |a.streams| && c < |a.streams[s].components|
    ensures Local(a, Trigger(a, s, c, socket, r, use, env), s, c)
  {
    hide TriggerPair, AddPair, Sound;
    var st := a.streams[s];
    var i := First(st.checks, Matches(c, r, socket));
    if i < |st.checks| {
      assert Matches(c, r, socket)(st.checks[i]);
      TriggerPairLocal(a, s, c, i, env);
    } else {
      var locals := st.components[c].locals;
      var l := First(locals, OnSocket(socket));
      if l < |locals| {
        AddPairLocal(a, s, c, locals[l], r, Waiting, use);
      }
    }
  }

  lemma FormPairLocal(a: Agent, s: nat, c: nat, local: Candidate, remote: Candidate)
    requires Sound(a) && s < |a.streams| && c < |a.streams[s].components|
    ensures Local(a, FormPair(a, s, c, local, remote), s, c)
  {
    hide AddPair, Sound;
    AddPairLocal(a, s, c, local, remote, Frozen, false);
  }

  lemma {:induction false} FormRemoteLocal(a: Agent, s: nat, c: nat, remote: Candidate, i: nat)
    requires Sound(a) && s < |a.streams| && c < |a.streams[s].components|
    requires i <= |a.streams[s].components[c].locals| && CandidateOk(remote, c)
    ensures Local(a, FormRemote(a, s, c, remote, i), s, c)
    decreases |a.streams[s].components[c].locals| - i
  {
    hide FormPair, Step, Local;
    var locals := a.streams[s].components[c].locals;
    if i < |locals| {
      assert ComponentOk(a.streams[s].components[c], c);
      var b := FormPair(a, s, c, locals[i], remote);
      FormPairStep(a, s, c, locals[i], remote);
      StepSound(a, b, Quiet);
      FormPairLocal(a, s, c, locals[i], remote);
      FormRemoteLocal(b, s, c, remote, i + 1);
      LocalTrans(a, b, FormRemote(b, s, c, remote, i + 1), s, c);
    } else {
      LocalRefl(a, s, c);
    }
  }

  lemma LocalRefl(a: Agent, s: nat, c: nat)
    requires s < |a.streams|
    ensures Local(a, a, s, c)
  {
  }

  lemma LearnLocal(a: Agent, s: nat, c: nat, from: Address, request: Request, env: Env)
    requires Sound(a) && s < |a.streams| && c < |a.streams[s].components| && c < 256
    ensures Local(a, Learn(a, s, c, from, request, env), s, c)
  {
    hide FormRemote, Step, Sound, Local;
    var r := Learned(a, c, from, request.priority, env.foundation);
    LearnStep(a, s, c, from, request, env);
    var b := a.(uids := a.uids + 1);
    UidStep(a);
    StepSound(a, b, Quiet);
    var k := b.streams[s].components[c];
    SoundComponent(b, s, c);
    var d := SetComponent(b, s, c, k.(remotes := k.remotes + [r]));
    SetComponentStep(b, s, c, k.(remotes := k.remotes + [r]));
    StepSound(b, d, Quiet);
    FormRemoteLocal(d, s, c, r, 0);
    ComponentLocal(a, d, s, c);
    LocalTrans(a, d, FormRemote(d, s, c, r, 0), s, c);
  }

  lemma SoundComponent(a: Agent, s: nat, c: nat)
    requires Sound(a) && s < |a.streams| && c < |a.streams[s].components|
    ensures ComponentOk(a.streams[s].components[c], c)
  {
  }

  lemma ComponentLocal(a: Agent, b: Agent, s: nat, c: nat)
    requires s < |a.streams| && c < |a.streams[s].components| && |b.streams| == |a.streams|
    requires c < |b.streams[s].components|
    requires b.streams[s] == a.streams[s].(components := a.streams[s].components[c := b.streams[s].components[c]])
    ensures Local(a, b, s, c)
  {
  }

  lemma ReplayStep(a: Agent, s: nat, c: nat, socket: nat, r: Candidate, use: bool, env: Env)
    requires Sound(a) && s < |a.streams| && c < |a.streams[s].components| && CandidateOk(r, c)
    ensures StepIf(a, Replay(a, s, c, socket, r, use, env), Quiet, use ==> NominationFits(a.streams[s], c, r, 0))
  {
    hide Step, StepIf, Trigger, Nominate, NominationFits, Sound;
    var fits := use ==> NominationFits(a.streams[s], c, r, 0);
    var b := if use then Nominate(a, s, c, r, 0) else a;
    StepRefl(a);
    StepIs(a, a, Quiet, fits);
    NominateStep(a, s, c, r, 0);
    StepIfSound(a, b, Quiet, fits);
    TriggerStep(b, s, c, socket, r, use, env);
    var d := Trigger(b, s, c, socket, r, use, env);
    StepIs(b, d, Quiet, true);
    StepIfTrans(a, b, d, Quiet, fits, true, fits);
  }

  lemma UidStep(a: Agent)
    requires Sound(a)
    ensures Step(a, a.(uids := a.uids + 1), Quiet)
  {
    hide StreamOk, StreamEvolves, Dominated, Told;
    var b := a.(uids := a.uids + 1);
    forall t | 0 <= t < |a.streams|
      ensures StreamOk(b.streams[t], b.controlling, b.ids, b.uids)
      ensures StreamEvolves(a.streams[t], b.streams[t], a, b.ids, Quiet)
      ensures Told(a.streams[t], b.streams[t], a.ids, b.log[|a.log|..])
    {
      StreamGrows(a.streams[t], a.controlling, a.ids, a.uids, b.ids, b.uids);
      StreamSame(a.streams[t], a, b.ids, Quiet);
      QuietTold(a.streams[t], a.streams[t], a, a.uids, b.log[|a.log|..]);
    }
  }

  lemma LearnStep(a: Agent, s: nat, c: nat, from: Address, request: Request, env: Env)
    requires Sound(a) && s < |a.streams| && c < |a.streams[s].components| && c < 256
    ensures Step(a, Learn(a, s, c, from, request, env), Quiet)
    ensures CandidateOk(Learned(a, c, from, request.priority, env.foundation), c)
  {
    hide Step, AddRemote;
    var r := Learned(a, c, from, request.priority, env.foundation);
    IcePriorityRange(PEER_REFLEXIVE_PREFERENCE, 0, c + 1);
    var b := a.(uids := a.uids + 1);
    UidStep(a);
    StepSound(a, b, Quiet);
    AddRemoteStep(b, s, c, r);
    StepTrans(a, b, AddRemote(b, s, c, r), Quiet);
  }

  lemma StoreEarlyStep(a: Agent, s: nat, c: nat, check: EarlyCheck)
    requires Sound(a) && s < |a.streams| && c < |a.streams[s].components|
    ensures Step(a, StoreEarly(a, s, c, check), Quiet)
  {
    hide Step;
    var k := a.streams[s].components[c];
    assert ComponentOk(k, c);
    StepRefl(a);
    SetComponentStep(a, s, c, k.(early := k.early + [check]));
  }

  /** The remote candidate that a request comes from, known or learned. */
  function Sender(b: Agent, s: nat, c: nat, from: Address, request: Request, env: Env): Candidate
    requires s < |b.streams| && c < |b.streams[s].components|
  {
    var remotes := b.streams[s].components[c].remotes;
    var i := First(remotes, At(from));
    if i < |remotes| then remotes[i] else Learned(b, c, from, request.priority, env.foundation)
  }

  /** The agent when it has learned the candidate and triggered the check of a request. */
  function Triggered(b: Agent, s: nat, c: nat, socket: nat, from: Address, request: Request, env: Env): (t: Agent)
    requires s < |b.streams| && c < |b.streams[s].components|
    ensures |t.streams| == |b.streams| && |t.streams[s].components| == |b.streams[s].components|
  {
    var remotes := b.streams[s].components[c].remotes;
    var known := First(remotes, At(from)) < |remotes|;
    Trigger(if known then b else Learn(b, s, c, from, request, env), s, c, socket,
            Sender(b, s, c, from, request, env), b.controlling || request.useCandidate, env)
  }

  /** The pairs that an answered request nominates, less those that the list limit drops
      before, leave the selections on top. */
  ghost predicate ServeFits(b: Agent, s: nat, c: nat, socket: nat, from: Address, request: Request, env: Env)
    requires s < |b.streams| && c < |b.streams[s].components|
  {
    b.streams[s].components[c].remotes != [] && (b.controlling || request.useCandidate) ==>
      RestFits(b, Triggered(b, s, c, socket, from, request, env), s, c, Sender(b, s, c, from, request, env))
  }

  lemma TriggeredStep(b: Agent, s: nat, c: nat, socket: nat, from: Address, request: Request, env: Env)
    requires Sound(b) && s < |b.streams| && c < |b.streams[s].components| && c < 256
    ensures Step(b, Triggered(b, s, c, socket, from, request, env), Quiet)
    ensures Local(b, Triggered(b, s, c, socket, from, request, env), s, c)
  {
    hide Step, Learn, Learned, Trigger, Local, Sound;
    var use := b.controlling || request.useCandidate;
    var remotes := b.streams[s].components[c].remotes;
    var r := Sender(b, s, c, from, request, env);
    SoundComponent(b, s, c);
    if First(remotes, At(from)) < |remotes| {
      TriggerStep(b, s, c, socket, r, use, env);
      TriggerLocal(b, s, c, socket, r, use, env);
    } else {
      var d := Learn(b, s, c, from, request, env);
      LearnStep(b, s, c, from, request, env);
      LearnLocal(b, s, c, from, request, env);
      StepSound(b, d, Quiet);
      TriggerStep(d, s, c, socket, r, use, env);
      TriggerLocal(d, s, c, socket, r, use, env);
      StepTrans(b, d, Trigger(d, s, c, socket, r, use, env), Quiet);
      LocalTrans(b, d, Trigger(d, s, c, socket, r, use, env), s, c);
    }
  }

  /** What follows the answer to a request. */
  lemma ServeStep(b: Agent, s: nat, c: nat, socket: nat, from: Address, request: Request, env: Env)
    requires Sound(b) && s < |b.streams| && c < |b.streams[s].components| && c < 256
    ensures StepIf(b, Serve(b, s, c, socket, from, request, env), Quiet,
                   ServeFits(b, s, c, socket, from, request, env))
  {
    hide Step, StepIf, StoreEarly, Learn, Learned, Trigger, Nominate, NominationFits, RestFits, Local, Sound;
    var use := b.controlling || request.useCandidate;
    var fits := ServeFits(b, s, c, socket, from, request, env);
    if b.streams[s].components[c].remotes == [] {
      var check := EarlyCheck(from, socket, request.priority, use);
      StoreEarlyStep(b, s, c, check);
      StepIs(b, StoreEarly(b, s, c, check), Quiet, fits);
    } else {
      var r, t := Sender(b, s, c, from, request, env), Triggered(b, s, c, socket, from, request, env);
      TriggeredStep(b, s, c, socket, from, request, env);
      StepIs(b, t, Quiet, fits);
      if use {
        StepSound(b, t, Quiet);
        NominateStep(t, s, c, r, 0);
        FitsKeptIff(b, t, s, c, r);
        StepIfTrans(b, t, Nominate(t, s, c, r, 0), Quiet, fits, NominationFits(t.streams[s], c, r, 0), fits);
      }
    }
  }

  /** An answered request leaves every selection on top if and only if the valid pairs of
      its candidate in other components are outranked already or dropped by the list limit. */
  lemma ServeRankedIff(b: Agent, s: nat, c: nat, socket: nat, from: Address, request: Request, env: Env)
    requires Sound(b) && Ranked(b) && s < |b.streams| && c < |b.streams[s].components| && c < 256
    ensures Ranked(Serve(b, s, c, socket, from, request, env)) <==>
            ServeFits(b, s, c, socket, from, request, env)
  {
    hide Step, StepIf, StoreEarly, Learn, Learned, Trigger, Nominate, NominationFits, RestFits, Local, Sound, Ranked;
    ServeStep(b, s, c, socket, from, request, env);
    StepIfRanked(b, Serve(b, s, c, socket, from, request, env), Quiet,
                 ServeFits(b, s, c, socket, from, request, env));
    if b.streams[s].components[c].remotes != [] && (b.controlling || request.useCandidate) {
      var r, t := Sender(b, s, c, from, request, env), Triggered(b, s, c, socket, from, request, env);
      TriggeredStep(b, s, c, socket, from, request, env);
      StepSound(b, t, Quiet);
      StepRanked(b, t);
      FitsKeptIff(b, t, s, c, r);
      NominateRankedIff(t, s, c, r);
    }
  }

  lemma StepIfRanked(a: Agent, b: Agent, cause: Cause, fits: bool)
    requires StepIf(a, b, cause, fits)
    ensures fits && Ranked(a) ==> Ranked(b)
  {
    hide Sound, Evolves, Distinct, Ranked, ReadySince;
  }

  lemma StepRanked(a: Agent, b: Agent)
    requires Step(a, b, Quiet) && Ranked(a)
    ensures Ranked(b)
  {
    hide Sound, Evolves, Distinct, Ranked, ReadySince;
  }
}
