/** Two agents that run the check logic against each other, over a network that may
    lose, repeat, delay and reorder their requests and replies. `larger` is the
    agent with the larger tie-breaker. */
module RoleConflict {
  import opened Arith
  import opened Options
  import opened Candidates
  import opened Conncheck
  import opened ConncheckSteps
  import opened ConncheckRuns

  datatype Duo = Duo(larger: Agent, smaller: Agent)

  datatype Move = Larger(act: Action) | Smaller(act: Action)

  /** Requests and role conflict errors come from the other agent; other replies may
      come from anywhere. */
  ghost predicate Delivered(peer: Agent, act: Action) {
    && (act.Requested? ==> exists uid: nat :: Sent(uid, act.request) in peer.log)
    && (act.Responded? && act.outcome.RoleConflict? ==> Replied(act.id, true) in peer.log)
  }

  ghost predicate Allowed(d: Duo, move: Move) {
    match move
    case Larger(act) => Permitted(d.larger, act) && Delivered(d.smaller, act)
    case Smaller(act) => Permitted(d.smaller, act) && Delivered(d.larger, act)
  }

  function Play(d: Duo, move: Move): Duo
    requires match move case Larger(act) => InRange(d.larger, act) case Smaller(act) => InRange(d.smaller, act)
  {
    match move
    case Larger(act) => d.(larger := Apply(d.larger, act))
    case Smaller(act) => d.(smaller := Apply(d.smaller, act))
  }

  /** An agent that has not yet formed a pair or sent anything. */
  ghost predicate Idle(a: Agent) {
    Sound(a) && a.log == [] && forall s :: 0 <= s < |a.streams| ==> a.streams[s].checks == []
  }

  ghost predicate DuoRun(states: seq<Duo>, moves: seq<Move>) {
    && |states| == |moves| + 1
    && Idle(states[0].larger) && Idle(states[0].smaller)
    && states[0].larger.tie > states[0].smaller.tie
    && forall k :: 0 <= k < |moves| ==>
         Allowed(states[k], moves[k]) && states[k + 1] == Play(states[k], moves[k])
  }

  // ---------------------------------------------------------------------
  // What an agent's requests and pairs say about its role

  /** The request claims the given role with the given tie-breaker. */
  ghost predicate Claims(r: Request, role: bool, tie: nat) {
    && r.controlling == (if role then Some(tie) else None)
    && r.controlled == (if role then None else Some(tie))
  }

  /** The role of the request with identifier `id`, if the role changed from `role`
      when `mark` was the next identifier. */
  function RoleAt(id: nat, role: bool, mark: nat): bool {
    if id < mark then role else !role
  }

  ghost predicate RequestOk(r: Request, a: Agent, role: bool, mark: nat) {
    r.id < a.ids && Claims(r, RoleAt(r.id, role, mark), a.tie)
  }

  ghost predicate PairRole(p: Pair, a: Agent, role: bool, mark: nat) {
    && (p.message.Some? ==> RequestOk(p.message.value, a, role, mark))
    && (p.message.Some? && p.message.value.id < mark ==> p.controlling == role)
    && (a.controlling == role ==> p.controlling == role)
  }

  ghost predicate EventRole(e: Event, a: Agent, role: bool, mark: nat) {
    e.Sent? ==> RequestOk(e.request, a, role, mark)
  }

  /** The agent began in `role` and changed it, if at all, at `mark`. */
  ghost predicate Speaks(a: Agent, role: bool, mark: nat) {
    && (a.controlling == role ==> a.ids <= mark) && (a.controlling != role ==> mark <= a.ids)
    && (forall s, j :: 0 <= s < |a.streams| && 0 <= j < |a.streams[s].checks| ==>
          PairRole(a.streams[s].checks[j], a, role, mark))
    && (forall e :: e in a.log ==> EventRole(e, a, role, mark))
  }

  lemma CarriedOk(a: Agent, r: Request, role: bool, mark: nat)
    requires Speaks(a, role, mark) && Carries(a, r)
    ensures RequestOk(r, a, role, mark)
  {
    var s, j :| 0 <= s < |a.streams| && 0 <= j < |a.streams[s].checks|
                && a.streams[s].checks[j].message == Some(r);
    assert PairRole(a.streams[s].checks[j], a, role, mark);
  }

  /** A step in a fixed role. While the first role lasts, the mark lies ahead of all
      identifiers used. */
  lemma StepSpeaks(a: Agent, b: Agent, role: bool, mark: nat, cause: Cause)
    requires Speaks(a, role, mark) && Evolves(a, b, cause)
    requires a.controlling == role ==> b.ids <= mark
    ensures Speaks(b, role, mark)
  {
    forall s, j | 0 <= s < |b.streams| && 0 <= j < |b.streams[s].checks|
      ensures PairRole(b.streams[s].checks[j], b, role, mark)
    {
      StepPairRole(a, b, role, mark, cause, s, j);
    }
    forall e | e in b.log
      ensures EventRole(e, b, role, mark)
    {
      StepEventRole(a, b, role, mark, cause, e);
    }
  }

  lemma StepPairRole(a: Agent, b: Agent, role: bool, mark: nat, cause: Cause, s: nat, j: nat)
    requires Speaks(a, role, mark) && Evolves(a, b, cause)
    requires a.controlling == role ==> b.ids <= mark
    requires s < |b.streams| && j < |b.streams[s].checks|
    ensures PairRole(b.streams[s].checks[j], b, role, mark)
  {
    hide EventOk, EventRole;
    assert StreamEvolves(a.streams[s], b.streams[s], a, b.ids, cause);
    var q := b.streams[s].checks[j];
    if !Newborn(q, a, b.ids, cause) {
      var p := a.streams[s].checks[j];
      assert PairEvolves(p, q, a, b.ids, cause) && PairRole(p, a, role, mark);
    }
  }

  lemma StepEventRole(a: Agent, b: Agent, role: bool, mark: nat, cause: Cause, e: Event)
    requires Speaks(a, role, mark) && Evolves(a, b, cause) && e in b.log
    requires a.controlling == role ==> b.ids <= mark
    ensures EventRole(e, b, role, mark)
  {
    hide StreamEvolves, PairRole, Carries;
    var k :| 0 <= k < |b.log| && b.log[k] == e;
    if k < |a.log| {
      assert e in a.log;
      assert EventRole(e, a, role, mark);
    } else {
      assert EventOk(e, a, b.ids);
      if e.Sent? && Carries(a, e.request) {
        CarriedOk(a, e.request, role, mark);
      }
    }
  }

  /** While the first role lasts the mark may be moved ahead. */
  lemma MarkMoves(a: Agent, role: bool, mark: nat, mark': nat)
    requires Speaks(a, role, mark) && a.controlling == role && a.ids <= mark'
    ensures Speaks(a, role, mark')
  {
    forall s, j | 0 <= s < |a.streams| && 0 <= j < |a.streams[s].checks|
      ensures PairRole(a.streams[s].checks[j], a, role, mark')
    {
      assert PairRole(a.streams[s].checks[j], a, role, mark);
    }
    forall e | e in a.log
      ensures EventRole(e, a, role, mark')
    {
      assert EventRole(e, a, role, mark);
    }
  }

  /** The change from the first role, with the mark where it happens. */
  lemma ChangeSpeaks(a: Agent, role: bool)
    requires Speaks(a, role, a.ids) && a.controlling == role
    ensures Speaks(ChangeRole(a, !role), role, a.ids)
  {
    var b := ChangeRole(a, !role);
    forall s, j | 0 <= s < |b.streams| && 0 <= j < |b.streams[s].checks|
      ensures PairRole(b.streams[s].checks[j], b, role, a.ids)
    {
      assert PairRole(a.streams[s].checks[j], a, role, a.ids);
    }
    forall e | e in b.log
      ensures EventRole(e, b, role, a.ids)
    {
      assert e in a.log ==> EventRole(e, a, role, a.ids);
    }
  }

  lemma ReplySpeaks(a: Agent, role: bool, mark: nat, id: nat, conflict: bool)
    requires Speaks(a, role, mark)
    ensures Speaks(a.(log := a.log + [Replied(id, conflict)]), role, mark)
  {
    var b := a.(log := a.log + [Replied(id, conflict)]);
    forall s, j | 0 <= s < |b.streams| && 0 <= j < |b.streams[s].checks|
      ensures PairRole(b.streams[s].checks[j], b, role, mark)
    {
      assert PairRole(a.streams[s].checks[j], a, role, mark);
    }
    forall e | e in b.log
      ensures EventRole(e, b, role, mark)
    {
      assert e in a.log ==> EventRole(e, a, role, mark);
    }
  }

  /** Everything after the possible role change. */
  lemma FinishSpeaks(a: Agent, act: Action, role: bool, mark: nat) returns (mark': nat)
    requires Sound(a) && Permitted(a, act) && Speaks(Prelude(a, act), role, mark)
    ensures Speaks(Apply(a, act), role, mark') && Apply(a, act).controlling == Prelude(a, act).controlling
    ensures Apply(a, act).controlling != role ==> mark' == mark
    ensures Prelude(a, act).ids <= Apply(a, act).ids && Apply(a, act).tie == Prelude(a, act).tie
    ensures Sound(Apply(a, act))
  {
    hide Sound, Apply, Prelude, Speaks, StreamEvolves, EventOk, Ranked;
    ActionStep(a, act);
    var a1, b := Prelude(a, act), Apply(a, act);
    mark' := mark;
    if a1.controlling == role {
      RolesMark(a1, role, mark);
      mark' := Max(mark, b.ids);
      MarkMoves(a1, role, mark, mark');
    }
    StepSpeaks(a1, b, role, mark', ActionCause(a, act));
  }

  lemma RolesMark(a: Agent, role: bool, mark: nat)
    requires Speaks(a, role, mark)
    ensures a.controlling == role ==> a.ids <= mark
  {
  }

  /** The log gains replies only in the prelude. */
  lemma RepliesOf(a: Agent, act: Action, id: nat)
    requires Sound(a) && Permitted(a, act)
    requires Replied(id, true) in Apply(a, act).log
    ensures Replied(id, true) in Prelude(a, act).log
  {
    hide Sound, Apply, Prelude, StreamEvolves, Ranked;
    ActionStep(a, act);
    var a1, b := Prelude(a, act), Apply(a, act);
    var k :| 0 <= k < |b.log| && b.log[k] == Replied(id, true);
    assert k < |a1.log|;
  }

  // ---------------------------------------------------------------------
  // The same role at both ends

  /** The larger agent keeps its role; the smaller one refuses no request; every
      refusal by the larger one concerns a request from before the change. */
  ghost predicate Repairing(d: Duo, role: bool, mark: nat) {
    && Sound(d.larger) && Sound(d.smaller)
    && d.larger.tie > d.smaller.tie && d.larger.controlling == role
    && (exists m: nat :: Speaks(d.larger, role, m)) && Speaks(d.smaller, role, mark)
    && (forall id: nat :: Replied(id, true) !in d.smaller.log)
    && (forall id: nat :: Replied(id, true) in d.larger.log ==> id < mark && id < d.smaller.ids)
  }

  lemma LargerMoves(d: Duo, act: Action, role: bool, mark: nat)
    requires Repairing(d, role, mark) && Permitted(d.larger, act) && Delivered(d.smaller, act)
    ensures Repairing(d.(larger := Apply(d.larger, act)), role, mark)
  {
    hide Apply, Sound, Speaks, Answer;
    var a := d.larger;
    var m: nat :| Speaks(a, role, m);
    LargerPrelude(d, act, role, mark, m);
    var m' := FinishSpeaks(a, act, role, m);
    forall id: nat | Replied(id, true) in Apply(a, act).log
      ensures id < mark && id < d.smaller.ids
    {
      RepliesOf(a, act, id);
    }
  }

  /** The larger agent answers, or learns of no refusal. */
  lemma LargerPrelude(d: Duo, act: Action, role: bool, mark: nat, m: nat)
    requires Repairing(d, role, mark) && Permitted(d.larger, act) && Delivered(d.smaller, act)
    requires Speaks(d.larger, role, m)
    ensures var b := Prelude(d.larger, act);
            && b.controlling == role && b.tie == d.larger.tie && Speaks(b, role, m)
            && forall id: nat :: Replied(id, true) in b.log ==> id < mark && id < d.smaller.ids
  {
    hide Sound, PairRole, ChangeRole;
    if act.Requested? {
      var uid: nat :| Sent(uid, act.request) in d.smaller.log;
      assert EventRole(Sent(uid, act.request), d.smaller, role, mark);
      assert Claims(act.request, RoleAt(act.request.id, role, mark), d.smaller.tie);
      ReplySpeaks(d.larger, role, m, act.request.id, false);
      ReplySpeaks(d.larger, role, m, act.request.id, true);
    }
  }

  /** The smaller agent has just learned that the roles clash. */
  ghost predicate Learns(a: Agent, act: Action) {
    InRange(a, act) && (act.Requested? || Refused(a, act))
  }

  lemma SmallerMoves(d: Duo, act: Action, role: bool, mark: nat) returns (mark': nat)
    requires Repairing(d, role, mark) && Permitted(d.smaller, act) && Delivered(d.larger, act)
    ensures Repairing(d.(smaller := Apply(d.smaller, act)), role, mark')
    ensures Apply(d.smaller, act).controlling == (if Learns(d.smaller, act) then !role else d.smaller.controlling)
  {
    hide Apply, Sound, Speaks, Answer, Refused;
    var a := d.smaller;
    var m := SmallerPrelude(d, act, role, mark);
    mark' := FinishSpeaks(a, act, role, m);
    RolesMark2(Apply(a, act), role, mark');
    forall id: nat
      ensures Replied(id, true) !in Apply(a, act).log
    {
      if Replied(id, true) in Apply(a, act).log {
        RepliesOf(a, act, id);
      }
    }
  }

  lemma RolesMark2(a: Agent, role: bool, mark: nat)
    requires Speaks(a, role, mark)
    ensures a.controlling == role ==> a.ids <= mark
    ensures a.controlling != role ==> mark <= a.ids
  {
  }

  lemma SmallerPrelude(d: Duo, act: Action, role: bool, mark: nat) returns (m: nat)
    requires Repairing(d, role, mark) && Permitted(d.smaller, act) && Delivered(d.larger, act)
    ensures var b := Prelude(d.smaller, act);
            && b.controlling == (if Learns(d.smaller, act) then !role else d.smaller.controlling)
            && b.tie == d.smaller.tie && b.ids == d.smaller.ids && Speaks(b, role, m)
            && (forall id: nat :: Replied(id, true) !in b.log)
            && (d.smaller.controlling == role ==> m == d.smaller.ids)
            && (d.smaller.controlling != role ==> m == mark)
  {
    var a := d.smaller;
    if a.controlling == role {
      RolesMark(a, role, mark);
      m := a.ids;
      MarkMoves(a, role, mark, m);
    } else {
      m := mark;
    }
    if act.Requested? {
      SmallerAnswers(d, act, role, mark, m);
    } else if Refused(a, act) {
      SmallerRefused(d, act, role, mark, m);
    }
  }

  lemma SmallerAnswers(d: Duo, act: Action, role: bool, mark: nat, m: nat)
    requires Repairing(d, role, mark) && Permitted(d.smaller, act) && Delivered(d.larger, act)
    requires act.Requested? && Speaks(d.smaller, role, m) && (d.smaller.controlling == role ==> m == d.smaller.ids)
    ensures var b := Prelude(d.smaller, act);
            && b.controlling == !role && b.tie == d.smaller.tie && b.ids == d.smaller.ids && Speaks(b, role, m)
            && forall id: nat :: Replied(id, true) !in b.log
  {
    hide Sound, PairRole;
    var a := d.smaller;
    var uid: nat :| Sent(uid, act.request) in d.larger.log;
    var n: nat :| Speaks(d.larger, role, n);
    assert EventRole(Sent(uid, act.request), d.larger, role, n);
    assert Claims(act.request, role, d.larger.tie);
    if a.controlling == role {
      ChangeSpeaks(a, role);
      ReplySpeaks(ChangeRole(a, !role), role, m, act.request.id, false);
    } else {
      ReplySpeaks(a, role, m, act.request.id, false);
    }
  }

  lemma SmallerRefused(d: Duo, act: Action, role: bool, mark: nat, m: nat)
    requires Repairing(d, role, mark) && Permitted(d.smaller, act) && Delivered(d.larger, act)
    requires Refused(d.smaller, act) && Speaks(d.smaller, role, m)
    requires d.smaller.controlling == role ==> m == d.smaller.ids
    requires d.smaller.controlling != role ==> m == mark
    ensures var b := Prelude(d.smaller, act);
            && b.controlling == !role && b.tie == d.smaller.tie && b.ids == d.smaller.ids && Speaks(b, role, m)
            && forall id: nat :: Replied(id, true) !in b.log
  {
    hide Sound;
    var a := d.smaller;
    var i := First(a.streams[act.s].checks, Outstanding(act.id));
    var p := RefusedPair(a, act);
    assert Outstanding(act.id)(p);
    assert PairRole(a.streams[act.s].checks[i], a, role, m);
    assert p.controlling == role;
    if a.controlling == role {
      ChangeSpeaks(a, role);
    }
  }

  lemma IdleSpeaks(a: Agent)
    requires Idle(a)
    ensures Speaks(a, a.controlling, a.ids)
  {
  }

  /** Has the smaller agent processed a conflicting message in the first `n` moves? Every
      request of the larger agent and every refusal matched to a check is one. */
  ghost predicate Heard(states: seq<Duo>, moves: seq<Move>, n: nat)
    requires |states| == |moves| + 1 && n < |states|
  {
    exists k :: 0 <= k < n && moves[k].Smaller? && Learns(states[k].smaller, moves[k].act)
  }

  lemma {:induction false} RunRepairs(states: seq<Duo>, moves: seq<Move>, n: nat) returns (mark: nat)
    requires DuoRun(states, moves) && n < |states|
    requires states[0].larger.controlling == states[0].smaller.controlling
    ensures var role := states[0].larger.controlling;
            && Repairing(states[n], role, mark)
            && states[n].smaller.controlling == (if Heard(states, moves, n) then !role else role)
  {
    hide Repairing, Apply, Delivered, Learns, Idle;
    var role := states[0].larger.controlling;
    if n == 0 {
      mark := Starting(states[0]);
    } else {
      var m := RunRepairs(states, moves, n - 1);
      var d, move := states[n - 1], moves[n - 1];
      assert Allowed(d, move) && states[n] == Play(d, move);
      match move {
        case Larger(act) =>
          LargerMoves(d, act, role, m);
          mark := m;
        case Smaller(act) =>
          mark := SmallerMoves(d, act, role, m);
      }
    }
  }

  lemma Starting(d: Duo) returns (mark: nat)
    requires Idle(d.larger) && Idle(d.smaller) && d.larger.tie > d.smaller.tie
    requires d.larger.controlling == d.smaller.controlling
    ensures Repairing(d, d.larger.controlling, mark)
  {
    hide Speaks;
    mark := d.smaller.ids;
    IdleSpeaks(d.larger);
    IdleSpeaks(d.smaller);
  }

  /** Agents that start in the same role repair it: the larger one never changes its
      role, and at every moment the smaller one has changed its own if and only if it
      has processed a conflicting message, so it changes once and never back. */
  lemma RolesAreRepaired(states: seq<Duo>, moves: seq<Move>, n: nat)
    requires DuoRun(states, moves) && n < |states|
    requires states[0].larger.controlling == states[0].smaller.controlling
    ensures states[n].larger.controlling == states[0].larger.controlling
    ensures states[n].smaller.controlling != states[0].smaller.controlling <==> Heard(states, moves, n)
  {
    hide DuoRun, Heard, Sound, Speaks;
    var mark := RunRepairs(states, moves, n);
  }

  /** Two pairs that see the same two candidates from the two ends. */
  predicate Mirrored(p: Pair, q: Pair) {
    p.local.priority == q.remote.priority && p.remote.priority == q.local.priority
  }

  /** Once repaired, both agents give mirrored pairs the same priority. */
  lemma MirroredAfterRepair(states: seq<Duo>, moves: seq<Move>, n: nat, s: nat, i: nat, t: nat, j: nat)
    requires DuoRun(states, moves) && n < |states| && Heard(states, moves, n)
    requires states[0].larger.controlling == states[0].smaller.controlling
    requires s < |states[n].larger.streams| && i < |states[n].larger.streams[s].checks|
    requires t < |states[n].smaller.streams| && j < |states[n].smaller.streams[t].checks|
    requires Mirrored(states[n].larger.streams[s].checks[i], states[n].smaller.streams[t].checks[j])
    ensures states[n].larger.streams[s].checks[i].priority == states[n].smaller.streams[t].checks[j].priority
  {
    hide DuoRun, Heard, Speaks;
    var mark := RunRepairs(states, moves, n);
    PriorityIs(states[n].larger, s, i);
    PriorityIs(states[n].smaller, t, j);
  }

  lemma PriorityIs(a: Agent, s: nat, i: nat)
    requires Sound(a) && s < |a.streams| && i < |a.streams[s].checks|
    ensures var p := a.streams[s].checks[i];
            p.priority == RolePriority(a.controlling, p.local.priority, p.remote.priority)
  {
    assert PairOk(a.streams[s].checks[i], a.controlling, a.ids, a.uids, |a.streams[s].components|);
  }

  // ---------------------------------------------------------------------
  // Different roles at the two ends

  /** Nobody has reason to change or refuse. */
  ghost predicate Harmless(a: Agent, role: bool) {
    && Sound(a) && a.controlling == role
    && (exists m: nat :: Speaks(a, role, m))
    && forall id: nat :: Replied(id, true) !in a.log
  }

  /** An agent whose peer has the other role. */
  lemma HarmlessMoves(a: Agent, peer: Agent, act: Action, role: bool)
    requires Harmless(a, role) && Harmless(peer, !role) && Permitted(a, act) && Delivered(peer, act)
    ensures Harmless(Apply(a, act), role)
  {
    hide Apply, Sound, Speaks, Prelude;
    var m: nat :| Speaks(a, role, m);
    HarmlessPrelude(a, peer, act, role, m);
    var m' := FinishSpeaks(a, act, role, m);
    forall id: nat
      ensures Replied(id, true) !in Apply(a, act).log
    {
      if Replied(id, true) in Apply(a, act).log {
        RepliesOf(a, act, id);
      }
    }
  }

  lemma HarmlessPrelude(a: Agent, peer: Agent, act: Action, role: bool, m: nat)
    requires Harmless(a, role) && Harmless(peer, !role) && Permitted(a, act) && Delivered(peer, act)
    requires Speaks(a, role, m)
    ensures var b := Prelude(a, act);
            b.controlling == role && Speaks(b, role, m) && forall id: nat :: Replied(id, true) !in b.log
  {
    hide Sound, PairRole, ChangeRole;
    if act.Requested? {
      var uid: nat :| Sent(uid, act.request) in peer.log;
      var n: nat :| Speaks(peer, !role, n);
      assert EventRole(Sent(uid, act.request), peer, !role, n);
      ReplySpeaks(a, role, m, act.request.id, false);
    }
  }

  /** Agents that start in different roles never change them. */
  lemma {:induction false} DifferentRolesStay(states: seq<Duo>, moves: seq<Move>, n: nat)
    requires DuoRun(states, moves) && n < |states|
    requires states[0].larger.controlling != states[0].smaller.controlling
    ensures Harmless(states[n].larger, states[0].larger.controlling)
    ensures Harmless(states[n].smaller, states[0].smaller.controlling)
  {
    hide Apply, Delivered, Sound, Speaks;
    var role := states[0].larger.controlling;
    if n == 0 {
      IdleSpeaks(states[0].larger);
      IdleSpeaks(states[0].smaller);
    } else {
      DifferentRolesStay(states, moves, n - 1);
      var d, move := states[n - 1], moves[n - 1];
      assert Allowed(d, move) && states[n] == Play(d, move);
      match move {
        case Larger(act) => HarmlessMoves(d.larger, d.smaller, act, role);
        case Smaller(act) => HarmlessMoves(d.smaller, d.larger, act, !role);
      }
    }
  }

  // ---------------------------------------------------------------------
  // The standard

  /** Section 7.2.1.1 of RFC 5245: the role after a request that claims the same role
      with tie-breaker `q`, and whether it is refused. */
  function RfcAnswer(controlling: bool, tie: nat, q: nat): (bool, bool) {
    if controlling then (if tie >= q then (true, true) else (false, false))
    else if tie >= q then (true, false) else (false, true)
  }

  /** A clash is resolved as the standard says exactly by controlling agents; of two
      controlled agents the standard lets the larger one take over, the code the smaller. */
  lemma AnswerIsStandardIff(a: Agent, request: Request)
    requires Claim(a.controlling, request).Some?
    ensures var b := Answer(a, request);
            var refused := b.log[|b.log| - 1] == Replied(request.id, true);
            (b.controlling, refused) == RfcAnswer(a.controlling, a.tie, Claim(a.controlling, request).value)
            <==> a.controlling
  {
  }
}
