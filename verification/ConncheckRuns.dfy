/** Runs of one agent over all entry points. */
module ConncheckRuns {
  import opened Options
  import opened Candidates
  import opened Conncheck
  import opened ConncheckSteps
  import opened ConncheckOps
  import opened ConncheckEntries
  import opened ConncheckTicks
  import T = StunTimer

  datatype Action =
    | Ticking(env: Env)
    | Scheduling(env: Env)
    | Requested(s: nat, c: nat, socket: nat, from: Address, request: Request, env: Env)
    | Responded(s: nat, c: nat, socket: nat, from: Address, id: nat, outcome: Outcome, env: Env)
    | NewRemote(s: nat, c: nat, candidate: Candidate)
    | NewLocal(s: nat, c: nat, candidate: Candidate)
    | Replayed(s: nat, c: nat, socket: nat, candidate: Candidate, use: bool, env: Env)

  predicate InRange(a: Agent, act: Action) {
    act.Ticking? || act.Scheduling? ||
    (act.s < |a.streams| && act.c < |a.streams[act.s].components| && act.c < 256)
  }

  /** Candidates belong to the component they are given to and have a positive
      priority. Responses may come in on any component. */
  ghost predicate Permitted(a: Agent, act: Action) {
    && InRange(a, act)
    && (act.NewRemote? || act.NewLocal? || act.Replayed? ==> CandidateOk(act.candidate, act.c))
  }

  function Apply(a: Agent, act: Action): Agent
    requires InRange(a, act)
  {
    match act
    case Ticking(env) => Tick(a, env).0
    case Scheduling(env) => ScheduleNext(a, env).0
    case Requested(s, c, socket, from, request, env) => OnRequest(a, s, c, socket, from, request, env)
    case Responded(s, c, socket, from, id, outcome, env) => OnResponse(a, s, c, socket, from, id, outcome, env)
    case NewRemote(s, c, candidate) => AddRemote(a, s, c, candidate)
    case NewLocal(s, c, candidate) => AddLocal(a, s, c, candidate)
    case Replayed(s, c, socket, candidate, use, env) => Replay(a, s, c, socket, candidate, use, env)
  }

  // ---------------------------------------------------------------------
  // Role changes come first

  /** The pair a role conflict error is for. */
  predicate Refused(a: Agent, act: Action)
    requires InRange(a, act)
  {
    && act.Responded? && act.outcome.RoleConflict?
    && First(a.streams[act.s].checks, Outstanding(act.id)) < |a.streams[act.s].checks|
  }

  function RefusedPair(a: Agent, act: Action): Pair
    requires InRange(a, act) && Refused(a, act)
  {
    a.streams[act.s].checks[First(a.streams[act.s].checks, Outstanding(act.id))]
  }

  /** The agent after the part of an action that may change its role. */
  function Prelude(a: Agent, act: Action): (b: Agent)
    requires InRange(a, act)
    ensures Same(a, b)
  {
    if act.Requested? then Answer(a, act.request)
    else if Refused(a, act) then ChangeRole(a, !RefusedPair(a, act).controlling)
    else a
  }

  function ActionCause(a: Agent, act: Action): Cause
    requires InRange(a, act)
  {
    if act.Responded? then CauseOf(a, act.s, act.c, act.from, act.id, act.outcome) else Quiet
  }

  /** The action leaves every selection on top. */
  ghost predicate Fits(a: Agent, act: Action)
    requires InRange(a, act)
  {
    match act
    case Requested(s, c, socket, from, request, env) =>
      ServeFits(Answer(a, request), s, c, socket, from, request, env)
    case Responded(s, c, socket, from, id, outcome, env) => ResponseFits(a, s, c, from, id, outcome)
    case Replayed(s, c, socket, candidate, use, env) =>
      use ==> NominationFits(a.streams[s], c, candidate, 0)
    case _ => true
  }

  lemma RecalculatedOk(p: Pair, a: Agent, controlling: bool, n: nat)
    requires PairOk(p, a.controlling, a.ids, a.uids, n)
    ensures PairOk(Recalculated(p, controlling), controlling, a.ids, a.uids, n)
  {
  }

  lemma ChangeRoleSound(a: Agent, controlling: bool)
    requires Sound(a)
    ensures Sound(ChangeRole(a, controlling))
  {
    hide PairOk, Recalculated;
    var b := ChangeRole(a, controlling);
    if a.controlling != controlling {
      forall s | 0 <= s < |b.streams|
        ensures StreamOk(b.streams[s], b.controlling, b.ids, b.uids)
      {
        var st := a.streams[s];
        assert StreamOk(st, a.controlling, a.ids, a.uids);
        forall i | 0 <= i < |st.checks|
          ensures PairOk(b.streams[s].checks[i], controlling, a.ids, a.uids, |st.components|)
        {
          RecalculatedOk(st.checks[i], a, controlling, |st.components|);
        }
      }
    }
  }

  lemma LogSound(a: Agent, e: Event)
    requires Sound(a)
    ensures Sound(a.(log := a.log + [e]))
  {
  }

  lemma AnswerSound(a: Agent, request: Request)
    requires Sound(a)
    ensures Sound(Answer(a, request))
  {
    hide Sound, ChangeRole;
    LogSound(a, Replied(request.id, false));
    LogSound(a, Replied(request.id, true));
    ChangeRoleSound(a, !a.controlling);
    LogSound(ChangeRole(a, !a.controlling), Replied(request.id, false));
  }

  lemma RefusedStep(a: Agent, act: Action)
    requires Sound(a) && Permitted(a, act) && Refused(a, act)
    ensures Sound(Prelude(a, act)) && Step(Prelude(a, act), Apply(a, act), Quiet)
  {
    hide Step, ChangeRole;
    var i := First(a.streams[act.s].checks, Outstanding(act.id));
    var p := RefusedPair(a, act);
    var b := ChangeRole(a, !p.controlling);
    ChangeRoleSound(a, !p.controlling);
    ChangeRolePair(a, !p.controlling, act.s, i);
    SetPairStep(b, act.s, i, b.streams[act.s].checks[i].(message := None, state := Waiting), Quiet);
  }

  lemma ChangeRolePair(a: Agent, controlling: bool, s: nat, i: nat)
    requires Sound(a) && s < |a.streams| && i < |a.streams[s].checks|
    requires a.streams[s].checks[i].message.Some?
    ensures ChangeRole(a, controlling).streams[s].checks[i].state == InProgress
  {
    var p := a.streams[s].checks[i];
    assert PairOk(p, a.controlling, a.ids, a.uids, |a.streams[s].components|);
  }

  /** After a possible role change, every action is a step in a fixed role. */
  lemma ActionStep(a: Agent, act: Action)
    requires Sound(a) && Permitted(a, act)
    ensures Sound(Prelude(a, act)) && StepIf(Prelude(a, act), Apply(a, act), ActionCause(a, act), Fits(a, act))
  {
    hide Sound, Step, StepIf, Tick, ScheduleNext, Answer, Serve, AddRemote, AddLocal, Replay, ChangeRole, OnSuccess,
      ServeFits, ResponseFits, NominationFits;
    var a1, b := Prelude(a, act), Apply(a, act);
    match act
    case Ticking(env) =>
      TickStep(a, env);
      StepIs(a1, b, ActionCause(a, act), true);
    case Scheduling(env) =>
      ScheduleNextStep(a, env);
      StepIs(a1, b, ActionCause(a, act), true);
    case Requested(s, c, socket, from, request, env) =>
      AnswerSound(a, request);
      ServeStep(Answer(a, request), s, c, socket, from, request, env);
    case Responded(s, c, socket, from, id, outcome, env) =>
      if Refused(a, act) {
        RefusedStep(a, act);
        StepIs(a1, b, Quiet, Fits(a, act));
      } else if outcome.RoleConflict? {
        StepRefl(a);
        StepIs(a1, b, Quiet, Fits(a, act));
      } else {
        OnResponseStep(a, s, c, socket, from, id, outcome, env);
      }
    case NewRemote(s, c, candidate) =>
      AddRemoteStep(a, s, c, candidate);
      StepIs(a1, b, ActionCause(a, act), true);
    case NewLocal(s, c, candidate) =>
      AddLocalStep(a, s, c, candidate);
      StepIs(a1, b, ActionCause(a, act), true);
    case Replayed(s, c, socket, candidate, use, env) => ReplayStep(a, s, c, socket, candidate, use, env);
  }

  // ---------------------------------------------------------------------
  // Runs

  ghost predicate Run(states: seq<Agent>, acts: seq<Action>) {
    && |states| == |acts| + 1 && Sound(states[0])
    && forall k :: 0 <= k < |acts| ==> Permitted(states[k], acts[k]) && states[k + 1] == Apply(states[k], acts[k])
  }

  lemma {:induction false} RunSound(states: seq<Agent>, acts: seq<Action>, n: nat)
    requires Run(states, acts) && n < |states|
    ensures Sound(states[n])
  {
    hide Sound, StepIf, Apply, Prelude, Fits;
    if n > 0 {
      RunSound(states, acts, n - 1);
      var a, act := states[n - 1], acts[n - 1];
      ActionStep(a, act);
      StepIfSound(Prelude(a, act), states[n], ActionCause(a, act), Fits(a, act));
    }
  }

  // ---------------------------------------------------------------------
  // The life of a pair

  ghost predicate PairHistory(p: Pair, q: Pair, cause: Cause) {
    && q.uid == p.uid && q.remote == p.remote
    && (p.state == Cancelled ==> q.state == Cancelled)
    && (q.state == Succeeded ==> p.state == Succeeded || Justified(p, cause))
  }

  ghost predicate StreamHistory(st: Stream, st': Stream, uids: nat, cause: Cause) {
    forall j :: 0 <= j < |st'.checks| ==>
      || (st'.checks[j].uid >= uids && st'.checks[j].state != Succeeded)
      || (j < |st.checks| && PairHistory(st.checks[j], st'.checks[j], cause))
  }

  ghost predicate History(a: Agent, b: Agent, cause: Cause) {
    && |b.streams| == |a.streams| && a.uids <= b.uids
    && forall s :: 0 <= s < |a.streams| ==> StreamHistory(a.streams[s], b.streams[s], a.uids, cause)
  }

  /** A role change touches nothing of a pair but its priority. */
  ghost predicate Repriced(a: Agent, b: Agent) {
    && Same(a, b) && b.uids == a.uids && b.ids == a.ids && b.tie == a.tie && a.log <= b.log
    && forall s :: 0 <= s < |a.streams| ==>
         && b.streams[s].components == a.streams[s].components
         && forall j :: 0 <= j < |a.streams[s].checks| ==>
              b.streams[s].checks[j] == a.streams[s].checks[j].(priority := b.streams[s].checks[j].priority)
  }

  lemma ChangeRoleReprices(a: Agent, controlling: bool)
    ensures Repriced(a, ChangeRole(a, controlling))
  {
  }

  lemma PreludeReprices(a: Agent, act: Action)
    requires InRange(a, act)
    ensures Repriced(a, Prelude(a, act))
  {
    hide ChangeRole;
    ChangeRoleReprices(a, !a.controlling);
    if Refused(a, act) {
      ChangeRoleReprices(a, !RefusedPair(a, act).controlling);
    }
  }

  lemma StepHistory(a: Agent, b: Agent, c: Agent, cause: Cause)
    requires Repriced(a, b) && Evolves(b, c, cause)
    ensures History(a, c, cause)
  {
    forall s | 0 <= s < |a.streams|
      ensures StreamHistory(a.streams[s], c.streams[s], a.uids, cause)
    {
      assert StreamEvolves(b.streams[s], c.streams[s], b, c.ids, cause);
      forall j | 0 <= j < |c.streams[s].checks|
        ensures (c.streams[s].checks[j].uid >= a.uids && c.streams[s].checks[j].state != Succeeded)
                || (j < |a.streams[s].checks| && PairHistory(a.streams[s].checks[j], c.streams[s].checks[j], cause))
      {
        if !Newborn(c.streams[s].checks[j], b, c.ids, cause) {
          assert PairEvolves(b.streams[s].checks[j], c.streams[s].checks[j], b, c.ids, cause);
        }
      }
    }
  }

  lemma ActionHistory(a: Agent, act: Action)
    requires Sound(a) && Permitted(a, act)
    ensures History(a, Apply(a, act), ActionCause(a, act))
  {
    hide Sound, Apply, Prelude, History, Evolves, Repriced, Ranked, ReadySince;
    ActionStep(a, act);
    PreludeReprices(a, act);
    StepHistory(a, Prelude(a, act), Apply(a, act), ActionCause(a, act));
  }

  /** Action `k` is the success response to the request that the pair at `(s, j)` has
      outstanding, from the address that request went to. */
  ghost predicate Earned(states: seq<Agent>, acts: seq<Action>, k: nat, s: nat, j: nat, uid: nat)
    requires |states| == |acts| + 1
  {
    && k < |acts| && s < |states[k].streams| && j < |states[k].streams[s].checks|
    && var p := states[k].streams[s].checks[j];
       && p.uid == uid && p.state == InProgress && p.message.Some?
       && acts[k].Responded? && (acts[k].outcome.Mapped? || acts[k].outcome.NoAddress?)
       && acts[k].id == p.message.value.id && acts[k].from == p.remote.addr
  }

  /** A pair that has succeeded did so by its response. */
  lemma {:induction false} SuccessIsEarned(states: seq<Agent>, acts: seq<Action>, n: nat, s: nat, j: nat)
    requires Run(states, acts) && n < |states| && s < |states[n].streams| && j < |states[n].streams[s].checks|
    requires states[n].streams[s].checks[j].state == Succeeded
    requires forall t, i :: 0 <= t < |states[0].streams| && 0 <= i < |states[0].streams[t].checks| ==>
               states[0].streams[t].checks[i].state != Succeeded
    ensures exists k :: 0 <= k < n && Earned(states, acts, k, s, j, states[n].streams[s].checks[j].uid)
  {
    hide Apply, Sound;
    if n > 0 {
      RunSound(states, acts, n - 1);
      var a, b, act := states[n - 1], states[n], acts[n - 1];
      ActionHistory(a, act);
      assert StreamHistory(a.streams[s], b.streams[s], a.uids, ActionCause(a, act));
      var p, q := a.streams[s].checks[j], b.streams[s].checks[j];
      assert PairHistory(p, q, ActionCause(a, act));
      if p.state == Succeeded {
        SuccessIsEarned(states, acts, n - 1, s, j);
      } else {
        OutstandingInProgress(a, s, j);
        assert Earned(states, acts, n - 1, s, j, q.uid);
      }
    }
  }

  /** A request is outstanding only while its check is in progress. */
  lemma OutstandingInProgress(a: Agent, s: nat, j: nat)
    requires Sound(a) && s < |a.streams| && j < |a.streams[s].checks|
    ensures a.streams[s].checks[j].message.Some? ==> a.streams[s].checks[j].state == InProgress
    ensures a.streams[s].checks[j].uid < a.uids
  {
    assert PairOk(a.streams[s].checks[j], a.controlling, a.ids, a.uids, |a.streams[s].components|);
  }

  /** In every run a request is outstanding only while its check is in progress. */
  lemma OutstandingOnlyInProgress(states: seq<Agent>, acts: seq<Action>, n: nat, s: nat, j: nat)
    requires Run(states, acts) && n < |states| && s < |states[n].streams| && j < |states[n].streams[s].checks|
    ensures states[n].streams[s].checks[j].message.Some? ==> states[n].streams[s].checks[j].state == InProgress
  {
    RunSound(states, acts, n);
    OutstandingInProgress(states[n], s, j);
  }

  lemma {:induction false} UidsGrow(states: seq<Agent>, acts: seq<Action>, m: nat, n: nat)
    requires Run(states, acts) && m <= n < |states|
    ensures |states[n].streams| == |states[m].streams| && states[m].uids <= states[n].uids
    decreases n - m
  {
    hide Apply, Permitted, Sound, StreamHistory;
    if m < n {
      UidsGrow(states, acts, m, n - 1);
      RunSound(states, acts, n - 1);
      ActionHistory(states[n - 1], acts[n - 1]);
    }
  }

  /** A pair known at time `m` keeps its place in the list, and cancelled is final. */
  lemma {:induction false} CancelledIsFinal(states: seq<Agent>, acts: seq<Action>, m: nat, n: nat, s: nat, j: nat)
    requires Run(states, acts) && m <= n < |states| && s < |states[n].streams| && j < |states[n].streams[s].checks|
    requires states[n].streams[s].checks[j].uid < states[m].uids
    ensures s < |states[m].streams| && j < |states[m].streams[s].checks|
    ensures var p, q := states[m].streams[s].checks[j], states[n].streams[s].checks[j];
            q.uid == p.uid && q.remote == p.remote && (p.state == Cancelled ==> q.state == Cancelled)
    decreases n - m
  {
    hide Apply, Sound;
    if m < n {
      RunSound(states, acts, n - 1);
      UidsGrow(states, acts, m, n - 1);
      var a, b, act := states[n - 1], states[n], acts[n - 1];
      ActionHistory(a, act);
      assert StreamHistory(a.streams[s], b.streams[s], a.uids, ActionCause(a, act));
      assert PairHistory(a.streams[s].checks[j], b.streams[s].checks[j], ActionCause(a, act));
      CancelledIsFinal(states, acts, m, n - 1, s, j);
    }
  }

  // ---------------------------------------------------------------------
  // Selection and the ready signal, in a fixed role

  /** An action that ends in the role it began with did not change it on the way. */
  lemma PreludeRole(a: Agent, act: Action)
    requires Sound(a) && Permitted(a, act) && Apply(a, act).controlling == a.controlling
    ensures Prelude(a, act).streams == a.streams && Prelude(a, act).controlling == a.controlling
    ensures ReadySince(a, Prelude(a, act))
  {
    hide Sound, Apply, Permitted, Ranked, StreamEvolves;
    ActionStep(a, act);
  }

  ghost predicate SelectionsRise(a: Agent, b: Agent) {
    && |b.streams| == |a.streams|
    && forall s, c :: 0 <= s < |a.streams| && 0 <= c < |a.streams[s].components| ==>
         c < |b.streams[s].components| && SelectionRises(a.streams[s].components[c], b.streams[s].components[c])
  }

  lemma FixedRoleAction(a: Agent, act: Action)
    requires Sound(a) && Permitted(a, act) && Apply(a, act).controlling == a.controlling
    ensures SelectionsRise(a, Apply(a, act))
    ensures Fits(a, act) && Ranked(a) ==> Ranked(Apply(a, act)) && ReadySince(a, Apply(a, act))
  {
    hide Sound, Apply, Prelude, EventOk, ReadyOk, Dominated;
    var a1, b := Prelude(a, act), Apply(a, act);
    PreludeRole(a, act);
    ActionStep(a, act);
    PreludeReprices(a, act);
    forall s, c | 0 <= s < |a.streams| && 0 <= c < |a.streams[s].components|
      ensures c < |b.streams[s].components|
      ensures SelectionRises(a.streams[s].components[c], b.streams[s].components[c])
    {
      assert StreamEvolves(a1.streams[s], b.streams[s], a1, b.ids, ActionCause(a, act));
    }
  }

  /** Every action up to `n` leaves the selections on top. */
  ghost predicate FittingRun(states: seq<Agent>, acts: seq<Action>, n: nat)
    requires Run(states, acts) && n < |states|
  {
    forall k :: 0 <= k < n ==> Fits(states[k], acts[k])
  }

  ghost predicate FixedRole(states: seq<Agent>) {
    forall k :: 0 <= k < |states| ==> states[k].controlling == states[0].controlling
  }

  /** In a fixed role the selected pair of every component only ever improves. As long as
      every action fits, no valid nominated pair outranks it, and ready is signalled only
      for a settled component. */
  lemma {:induction false} SelectionIsBest(states: seq<Agent>, acts: seq<Action>, n: nat)
    requires Run(states, acts) && FixedRole(states) && n < |states| && Ranked(states[0]) && states[0].log == []
    ensures n > 0 ==> SelectionsRise(states[n - 1], states[n])
    ensures FittingRun(states, acts, n) ==> Ranked(states[n])
    ensures FittingRun(states, acts, n) ==>
              forall e :: e in states[n].log && e.Signalled? && e.state == Ready ==> Settled(e.at, e.component)
  {
    hide Sound, Apply, Permitted, Ranked, Settled, SelectionsRise, Fits;
    if n > 0 {
      SelectionIsBest(states, acts, n - 1);
      RunSound(states, acts, n - 1);
      FixedRoleAction(states[n - 1], acts[n - 1]);
      if FittingRun(states, acts, n) {
        LogGrows(states[n - 1], acts[n - 1]);
        forall e | e in states[n].log
          ensures ReadyOk(e)
        {
          var k :| 0 <= k < |states[n].log| && states[n].log[k] == e;
          if k < |states[n - 1].log| {
            assert e in states[n - 1].log;
          }
        }
      }
    }
  }

  /** The response, if it is one, came in on the component of its pair. */
  predicate Addressed(a: Agent, act: Action)
    requires InRange(a, act)
  {
    act.Responded? ==>
      (var checks := a.streams[act.s].checks;
       var i := First(checks, Outstanding(act.id));
       i < |checks| ==> checks[i].component == act.c)
  }

  lemma TidyNomination(st: Stream, c: nat, r: Candidate, i: nat)
    requires r.component == c && forall j :: 0 <= j < |st.checks| ==> Homed(st.checks[j])
    ensures NominationFits(st, c, r, i)
  {
  }

  /** On its own component every action fits, and no pair goes astray. */
  lemma TidyAction(a: Agent, act: Action)
    requires Sound(a) && Permitted(a, act) && Tidy(a) && Addressed(a, act)
    ensures Fits(a, act) && Tidy(Apply(a, act))
  {
    hide Sound, Apply, Answer, NominationFits, Learned, StepIf;
    PreludeReprices(a, act);
    var a1 := Prelude(a, act);
    RepricedTidy(a, a1);
    ActionStep(a, act);
    StepIfEvolves(a1, Apply(a, act), ActionCause(a, act), Fits(a, act));
    EvolvesTidy(a1, Apply(a, act), ActionCause(a, act));
    match act
    case Requested(s, c, socket, from, request, env) =>
      SoundComponent(a1, s, c);
      LearnedComponent(a1, c, from, request.priority, env.foundation);
      TidyNomination(a1.streams[s], c, Sender(a1, s, c, from, request, env), 0);
    case Replayed(s, c, socket, candidate, use, env) => TidyNomination(a.streams[s], c, candidate, 0);
    case _ =>
  }

  lemma LearnedComponent(a: Agent, c: nat, from: Candidates.Address, priority: nat, foundation: string)
    ensures Learned(a, c, from, priority, foundation).component == c
  {
  }

  lemma StepIfEvolves(a: Agent, b: Agent, cause: Cause, fits: bool)
    requires StepIf(a, b, cause, fits)
    ensures Evolves(a, b, cause)
  {
    hide Sound, Evolves, Distinct, Ranked, ReadySince;
  }

  lemma RepricedTidy(a: Agent, b: Agent)
    requires Repriced(a, b) && Tidy(a)
    ensures Tidy(b)
  {
    forall s, j | 0 <= s < |b.streams| && 0 <= j < |b.streams[s].checks|
      ensures Homed(b.streams[s].checks[j])
    {
      assert Homed(a.streams[s].checks[j]);
    }
  }

  /** A run in which every response comes in on the component of its pair fits. */
  lemma {:induction false} AddressedRunsFit(states: seq<Agent>, acts: seq<Action>, n: nat)
    requires Run(states, acts) && n < |states| && Tidy(states[0])
    requires forall k :: 0 <= k < n ==> Addressed(states[k], acts[k])
    ensures FittingRun(states, acts, n) && Tidy(states[n])
  {
    hide Sound, Apply, Tidy, Fits, Addressed;
    if n > 0 {
      AddressedRunsFit(states, acts, n - 1);
      RunSound(states, acts, n - 1);
      TidyAction(states[n - 1], acts[n - 1]);
    }
  }

  /** Pairs stay different objects in every run. */
  lemma {:induction false} PairsStayDistinct(states: seq<Agent>, acts: seq<Action>, n: nat)
    requires Run(states, acts) && n < |states| && Distinct(states[0])
    ensures Distinct(states[n])
  {
    hide Sound, Apply, Distinct, Fits, Prelude;
    if n > 0 {
      PairsStayDistinct(states, acts, n - 1);
      RunSound(states, acts, n - 1);
      var a, act := states[n - 1], acts[n - 1];
      ActionStep(a, act);
      PreludeReprices(a, act);
      RepricedDistinct(a, Prelude(a, act));
    }
  }

  lemma RepricedDistinct(a: Agent, b: Agent)
    requires Repriced(a, b) && Distinct(a)
    ensures Distinct(b)
  {
    forall s, i, t, j | 0 <= s < |b.streams| && 0 <= i < |b.streams[s].checks|
                        && 0 <= t < |b.streams| && 0 <= j < |b.streams[t].checks|
                        && b.streams[s].checks[i].uid == b.streams[t].checks[j].uid
      ensures s == t && i == j
    {
      assert a.streams[s].checks[i].uid == a.streams[t].checks[j].uid;
    }
  }

  lemma LogGrows(a: Agent, act: Action)
    requires Sound(a) && Permitted(a, act)
    ensures a.log <= Apply(a, act).log
  {
    hide Sound, Apply, Prelude, Ranked, StreamEvolves, EventOk;
    ActionStep(a, act);
    PreludeReprices(a, act);
  }

  // ---------------------------------------------------------------------
  // What the outside is told

  /** All that has happened since `a` was told: the state of every component is the old one
      or was signalled, and every outstanding request that is new was sent. */
  ghost predicate AllTold(a: Agent, b: Agent) {
    && |b.streams| == |a.streams| && a.log <= b.log
    && forall s :: 0 <= s < |a.streams| ==>
         && |b.streams[s].components| == |a.streams[s].components|
         && Told(a.streams[s], b.streams[s], a.ids, b.log[|a.log|..])
  }

  lemma RepricedTold(a: Agent, b: Agent, b': Agent)
    requires AllTold(a, b) && Repriced(b, b')
    ensures AllTold(a, b')
  {
    var news, more := b.log[|a.log|..], b'.log[|a.log|..];
    assert more[..|news|] == news;
    forall s | 0 <= s < |a.streams|
      ensures Told(a.streams[s], b'.streams[s], a.ids, more)
    {
      forall c | 0 <= c < |a.streams[s].components| ensures Announced(a.streams[s], b'.streams[s], c, more) {
        assert Announced(a.streams[s], b.streams[s], c, news);
        LaterAnnounced(a.streams[s], b.streams[s], b'.streams[s], c, news, more);
      }
      forall j | 0 <= j < |b'.streams[s].checks| ensures Dispatched(b'.streams[s].checks[j], a.ids, more) {
        assert Dispatched(b.streams[s].checks[j], a.ids, news);
      }
    }
  }

  lemma LaterAnnounced(st: Stream, st1: Stream, st2: Stream, c: nat, news: seq<Event>, more: seq<Event>)
    requires c < |st.components| && c < |st1.components| && st2.components == st1.components
    requires Announced(st, st1, c, news) && news <= more
    ensures Announced(st, st2, c, more)
  {
    if st1.components[c].state != st.components[c].state {
      var k :| 0 <= k < |news| && Announces(news[k], c, st1.components[c].state);
      assert more[k] == news[k];
    }
  }

  lemma EvolvesTold(a: Agent, b: Agent, c: Agent, cause: Cause)
    requires AllTold(a, b) && Evolves(b, c, cause) && a.ids <= b.ids
    ensures AllTold(a, c)
  {
    hide StreamEvolves, EventOk, Told;
    assert c.log[|a.log|..] == b.log[|a.log|..] + c.log[|b.log|..];
    forall s | 0 <= s < |a.streams|
      ensures |c.streams[s].components| == |a.streams[s].components|
      ensures Told(a.streams[s], c.streams[s], a.ids, c.log[|a.log|..])
    {
      SameCount(b.streams[s], c.streams[s], b, c.ids, cause);
      ToldTrans(a.streams[s], b.streams[s], c.streams[s], a, b, c.ids, b.log[|a.log|..], c.log[|b.log|..], cause);
    }
  }

  /** In every run the outside has been told all: no component changes its state without a
      signal, and no request is outstanding that was not sent. */
  lemma {:induction false} OutsideIsTold(states: seq<Agent>, acts: seq<Action>, n: nat)
    requires Run(states, acts) && n < |states|
    ensures AllTold(states[0], states[n]) && states[0].ids <= states[n].ids
  {
    hide Sound, Apply, Fits, Prelude, Told, Repriced, StreamEvolves, EventOk;
    if n == 0 {
      ToldNothing(states[0]);
    } else {
      OutsideIsTold(states, acts, n - 1);
      RunSound(states, acts, n - 1);
      var a, act := states[n - 1], acts[n - 1];
      ActionStep(a, act);
      PreludeReprices(a, act);
      RepricedTold(states[0], a, Prelude(a, act));
      RepricedIds(a, Prelude(a, act));
      StepIfEvolves(Prelude(a, act), states[n], ActionCause(a, act), Fits(a, act));
      EvolvesTold(states[0], Prelude(a, act), states[n], ActionCause(a, act));
    }
  }

  lemma RepricedIds(a: Agent, b: Agent)
    requires Repriced(a, b)
    ensures b.ids == a.ids
  {
  }

  lemma ToldNothing(a: Agent)
    requires Sound(a)
    ensures AllTold(a, a)
  {
    hide StreamOk;
    forall s | 0 <= s < |a.streams| ensures Told(a.streams[s], a.streams[s], a.ids, a.log[|a.log|..]) {
      QuietTold(a.streams[s], a.streams[s], a, a.uids, a.log[|a.log|..]);
    }
  }

  // ---------------------------------------------------------------------
  // A response on another component

  function SomeCandidate(id: nat, c: nat): Candidate {
    Candidate(id, Host, c, Candidates.Address(4, id, 1), id, 1, "1")
  }

  const OWN := SomeCandidate(0, 0)
  const PEER := SomeCandidate(1, 0)

  /** A controlling agent with one stream of two components and no candidates. */
  function NewAgent(): Agent {
    var k := Component(Gathering, Nothing, [], [], []);
    Agent(true, 0, 20, 100, [Stream([k, k], [])], 0, 0, [])
  }

  /** The first component gets a local and a remote candidate and a check from the peer. The
      response to the check that this triggers comes in on the second component. */
  function CrossedActions(env: Env): seq<Action> {
    [NewLocal(0, 0, OWN), NewRemote(0, 0, PEER),
     Requested(0, 0, OWN.socket, PEER.addr, Request(0, None, Some(1), false, 1), env),
     Responded(0, 1, 0, PEER.addr, 0, NoAddress, env)]
  }

  /** The one pair is of the first component, which has selected nothing. */
  ghost predicate OnePair(a: Agent) {
    && a.controlling && |a.streams| == 1 && |a.streams[0].components| == 2 && |a.streams[0].checks| == 1
    && a.streams[0].components[0].selected == Nothing
    && var p := a.streams[0].checks[0];
       p.component == 0 && p.local == OWN && p.remote == PEER
  }

  lemma OwnAdded()
    ensures var a := NewAgent();
            var k := a.streams[0].components[0];
            AddLocal(a, 0, 0, OWN) == SetComponent(a, 0, 0, k.(locals := [OWN]))
  {
    var a := NewAgent();
    var k := a.streams[0].components[0];
    assert k.locals + [OWN] == [OWN];
  }

  lemma PeerAdded()
    ensures var b := AddRemote(AddLocal(NewAgent(), 0, 0, OWN), 0, 0, PEER);
            && OnePair(b) && b.ids == 0 && b.streams[0].components[0].remotes == [PEER]
            && b.streams[0].checks[0].state == Frozen
  {
    hide PairPriority, AddLocal;
    OwnAdded();
    var a := AddLocal(NewAgent(), 0, 0, OWN);
    var k := a.streams[0].components[0];
    assert k.remotes + [PEER] == [PEER];
    var d := FormPair(SetComponent(a, 0, 0, k.(remotes := [PEER])), 0, 0, OWN, PEER);
    assert FormRemote(d, 0, 0, PEER, 1) == d;
  }

  lemma CheckTriggered(a: Agent, env: Env)
    requires OnePair(a) && a.ids == 0 && a.streams[0].components[0].remotes == [PEER] && env.able(0)
    requires a.streams[0].checks[0].state == Frozen
    ensures var b := Apply(a, CrossedActions(env)[2]);
            && OnePair(b)
            && var p := b.streams[0].checks[0];
               p.state == InProgress && p.nominated && p.message.Some? && p.message.value.id == 0
  {
    hide T.Start, T.Remainder, T.Micros;
    var b := Answer(a, Request(0, None, Some(1), false, 1));
    assert At(PEER.addr)(PEER) && Matches(0, PEER, OWN.socket)(b.streams[0].checks[0]);
    var d := Initiate(b, 0, 0, env);
    assert Trigger(b, 0, 0, OWN.socket, PEER, true, env) == d;
    var e := NominateOne(d, 0, 0, 0);
    assert UpdateReady(e, 0, 0) == e;
    assert Nominate(e, 0, 0, PEER, 1) == e;
  }

  /** A run from an agent without candidates ends with a pair that is valid and nominated,
      although its own component has selected nothing. */
  lemma OtherComponentFails(env: Env) returns (states: seq<Agent>)
    requires env.able(0)
    ensures Run(states, CrossedActions(env)) && states[0] == NewAgent()
    ensures Ranked(states[3]) && !Fits(states[3], CrossedActions(env)[3]) && !Ranked(states[4])
  {
    hide AddLocal, AddRemote, OnRequest, OnResponse, T.Start, T.Remainder, T.Micros;
    var acts := CrossedActions(env);
    var a := NewAgent();
    OwnAdded();
    PeerAdded();
    var b := Apply(a, acts[0]);
    var c := Apply(b, acts[1]);
    CheckTriggered(c, env);
    var d := Apply(c, acts[2]);
    states := [a, b, c, d, Apply(d, acts[3])];
    RunSound(states, acts, 3);
    CrossedResponse(d, env);
  }

  lemma CrossedResponse(a: Agent, env: Env)
    requires Sound(a) && OnePair(a)
    requires var p := a.streams[0].checks[0];
             p.state == InProgress && p.nominated && p.message.Some? && p.message.value.id == 0
    ensures Ranked(a) && !Fits(a, CrossedActions(env)[3]) && !Ranked(Apply(a, CrossedActions(env)[3]))
  {
    hide OnResponse;
    var p := a.streams[0].checks[0];
    PairPriorityPositive(1, 1);
    assert PairOk(p, a.controlling, a.ids, a.uids, 2);
    assert Outstanding(0)(p);
    ResponseRankedIff(a, 0, 1, 0, PEER.addr, 0, NoAddress, env);
  }
}
