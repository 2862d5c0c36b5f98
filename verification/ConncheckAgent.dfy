/** The agent as an object that updates its check lists in place. Each method does
    what the function of the same meaning in `Conncheck` says. */
module ConncheckAgents {
  import opened Arith
  import opened Options
  import opened Candidates
  import opened Conncheck
  import T = StunTimer

  lemma {:induction false} FirstIs<X>(s: seq<X>, f: X -> bool, r: nat)
    requires r <= |s| && (r < |s| ==> f(s[r])) && forall k :: 0 <= k < r ==> !f(s[k])
    ensures r == First(s, f)
  {
  }

  class XiceAgent {
    const tie: nat
    const ta: nat
    const maxChecks: nat
    var controlling: bool
    var streams: seq<Stream>
    var ids: nat
    var uids: nat
    var log: seq<Event>

    ghost function Model(): Agent
      reads this
    {
      Agent(controlling, tie, ta, maxChecks, streams, ids, uids, log)
    }

    constructor (controlling: bool, tie: nat, ta: nat, maxChecks: nat, streams: seq<Stream>)
      ensures Model() == Agent(controlling, tie, ta, maxChecks, streams, 0, 0, [])
    {
      this.controlling, this.tie, this.ta, this.maxChecks, this.streams := controlling, tie, ta, maxChecks, streams;
      ids, uids, log := 0, 0, [];
    }

    /** Overwrite one pair. */
    method PutPair(s: nat, i: nat, p: Pair)
      requires s < |streams| && i < |streams[s].checks|
      modifies this`streams
      ensures Model() == SetPair(old(Model()), s, i, p)
    {
      streams := streams[s := streams[s].(checks := streams[s].checks[i := p])];
    }

    // -------------------------------------------------------------------
    // Sending

    /** Send the check of a pair and start its timer. */
    method SendPair(s: nat, i: nat, env: Env)
      requires s < |streams| && i < |streams[s].checks|
      modifies this
      ensures var q := SendCheck(old(streams[s].checks[i]), old(controlling), tie, old(ids), env);
              Model() == SetPair(old(Model()), s, i, q).(
                ids := old(ids) + 1,
                log := old(log) + if q.message.Some? then [Sent(q.uid, q.message.value)] else [])
    {
      var p := streams[s].checks[i];
      if controlling {
        p := p.(nominated := true);
      }
      if env.able(ids) {
        var request := RoleRequest(ids, controlling, tie, p.component);
        var timer := T.Start(env.now, TIMEOUT, RETRANSMISSIONS);
        log := log + [Sent(p.uid, request)];
        var timeout: int := T.Remainder(timer, env.now);
        p := p.(message := Some(request), timer := timer, nextTick := T.Micros(env.now) + U32(1000 * timeout));
      } else {
        p := p.(message := None);
      }
      PutPair(s, i, p);
      ids := ids + 1;
    }

    method InitiatePair(s: nat, i: nat, env: Env)
      requires s < |streams| && i < |streams[s].checks|
      modifies this
      ensures Model() == Initiate(old(Model()), s, i, env)
    {
      hide SendCheck;
      ghost var a := Model();
      var p := streams[s].checks[i].(state := InProgress, nextTick := T.Micros(env.now) + 1000 * ta);
      PutPair(s, i, p);
      SendPair(s, i, env);
      assert a.streams[s].checks[i := p][i := streams[s].checks[i]] == a.streams[s].checks[i := streams[s].checks[i]];
      assert streams == Initiate(a, s, i, env).streams;
    }

    // -------------------------------------------------------------------
    // Unfreezing

    /** The frozen pair of the highest priority in one stream. */
    method FindFrozen(s: nat) returns (best: Option<nat>)
      requires s < |streams|
      ensures best == BestFrozen(streams[s].checks)
    {
      var checks := streams[s].checks;
      best := None;
      var max := 0;
      var j := 0;
      while j < |checks|
        invariant 0 <= j <= |checks|
        invariant best == BestFrozen(checks[..j]) && max == FrozenPriority(checks[..j], best)
      {
        assert checks[..j + 1][..j] == checks[..j] && checks[..j + 1][j] == checks[j];
        if checks[j].state == Frozen {
          if checks[j].priority > max {
            max := checks[j].priority;
            best := Some(j);
          }
        }
        j := j + 1;
      }
      assert checks[..|checks|] == checks;
    }

    method UnfreezeNextPair() returns (found: bool)
      modifies this`streams
      ensures (Model(), found) == UnfreezeNext(old(Model()))
    {
      hide BestFrozen;
      found := false;
      var s := 0;
      while s < |streams|
        invariant 0 <= s <= |streams| && streams == old(streams)
        invariant forall k :: 0 <= k < s ==> !HasFrozen()(streams[k])
      {
        var best := FindFrozen(s);
        if best.Some? {
          FirstIs(streams, HasFrozen(), s);
          PutPair(s, best.value, streams[s].checks[best.value].(state := Waiting));
          found := true;
          return;
        }
        s := s + 1;
      }
      FirstIs(streams, HasFrozen(), s);
    }

    method UnfreezeRelatedPairs(s: nat, foundation: string)
      requires s < |streams|
      modifies this`streams
      ensures Model() == UnfreezeRelated(old(Model()), s, foundation)
    {
      hide UnfreezeNext, Unfrozen;
      ghost var checks := streams[s].checks;
      var unfrozen := 0;
      var i := 0;
      while i < |streams[s].checks|
        invariant |streams| == |old(streams)| && 0 <= i <= |streams[s].checks| == |checks|
        invariant streams == old(streams)[s := old(streams)[s].(checks := streams[s].checks)]
        invariant forall k :: 0 <= k < i ==> streams[s].checks[k] == Unfrozen(checks[k], foundation)
        invariant forall k :: i <= k < |checks| ==> streams[s].checks[k] == checks[k]
        invariant unfrozen == 0 <==> forall k :: 0 <= k < i ==> streams[s].checks[k] == checks[k]
      {
        var p := streams[s].checks[i];
        UnfrozenWhen(p, foundation);
        if p.state == Frozen && p.foundation == foundation {
          PutPair(s, i, p.(state := Waiting));
          unfrozen := unfrozen + 1;
        }
        i := i + 1;
      }
      assert streams[s].checks == UnfreezeAll(checks, foundation);
      if unfrozen == 0 {
        assert streams[s].checks == checks;
        assert streams == old(streams);
        var _ := UnfreezeNextPair();
      }
    }

    // -------------------------------------------------------------------
    // Selecting, pruning, signalling

    method SignalState(s: nat, c: nat, state: ComponentState)
      requires s < |streams| && c < |streams[s].components|
      modifies this
      ensures Model() == Signal(old(Model()), s, c, state)
    {
      var k := streams[s].components[c];
      if k.state != state {
        streams := streams[s := streams[s].(components := streams[s].components[c := k.(state := state)])];
        log := log + [Signalled(c, state, streams[s])];
      }
    }

    method UpdateSelected(s: nat, c: nat, p: Pair)
      requires s < |streams| && c < |streams[s].components|
      modifies this`streams
      ensures Model() == Select(old(Model()), s, c, p)
    {
      var k := streams[s].components[c];
      if p.priority > SelectedPriority(k) {
        k := k.(selected := Selected(p.local, p.remote, p.priority));
        streams := streams[s := streams[s].(components := streams[s].components[c := k])];
      }
    }

    method FindHighest(s: nat, c: nat) returns (highest: nat)
      requires s < |streams|
      ensures highest == HighestNominated(streams[s].checks, c)
    {
      var checks := streams[s].checks;
      highest := 0;
      var i := 0;
      while i < |checks|
        invariant 0 <= i <= |checks| && highest == HighestNominated(checks[..i], c)
      {
        assert checks[..i + 1][..i] == checks[..i] && checks[..i + 1][i] == checks[i];
        if IsNominated(checks[i], c) && checks[i].priority > highest {
          highest := checks[i].priority;
        }
        i := i + 1;
      }
      assert checks[..|checks|] == checks;
    }

    /** Cancel one pair unless it outranks the nominated ones. */
    method PruneOne(s: nat, i: nat, c: nat, h: nat) returns (kept: bool)
      requires s < |streams| && i < |streams[s].checks|
      modifies this`streams
      ensures Model() == SetPair(old(Model()), s, i, Pruned(old(streams[s].checks[i]), c, h))
      ensures kept <==> IsPending(streams[s].checks[i], c)
    {
      var p := streams[s].checks[i];
      kept := false;
      if p.component == c {
        if p.state == Frozen || p.state == Waiting {
          p := p.(state := Cancelled);
        }
        if p.state == InProgress {
          if h != 0 && p.priority < h {
            p := p.(message := None, state := Cancelled);
          } else {
            kept := true;
          }
        }
      }
      PutPair(s, i, p);
    }

    /** Cancel what need not run any more; return how many checks are kept in progress. */
    method PrunePending(s: nat, c: nat) returns (inProgress: nat)
      requires s < |streams|
      modifies this`streams
      ensures Model() == SetChecks(old(Model()), s,
                                   PruneAll(old(streams[s].checks), c, HighestNominated(old(streams[s].checks), c)))
      ensures inProgress == 0 <==> !AnyPending(streams[s].checks, c)
    {
      hide HighestNominated, Pruned, IsPending;
      ghost var checks := streams[s].checks;
      var h := FindHighest(s, c);
      inProgress := 0;
      var i := 0;
      while i < |streams[s].checks|
        invariant |streams| == |old(streams)| && 0 <= i <= |streams[s].checks| == |checks|
        invariant streams == old(streams)[s := old(streams)[s].(checks := streams[s].checks)]
        invariant forall k :: 0 <= k < i ==> streams[s].checks[k] == Pruned(checks[k], c, h)
        invariant forall k :: i <= k < |checks| ==> streams[s].checks[k] == checks[k]
        invariant inProgress == 0 <==> forall k :: 0 <= k < i ==> !IsPending(streams[s].checks[k], c)
      {
        var kept := PruneOne(s, i, c, h);
        if kept {
          inProgress := inProgress + 1;
        }
        i := i + 1;
      }
      assert streams[s].checks == PruneAll(checks, c, h);
    }

    method UpdateReadyState(s: nat, c: nat)
      requires s < |streams| && c < |streams[s].components|
      modifies this
      ensures Model() == UpdateReady(old(Model()), s, c)
    {
      hide HighestNominated, AnyPending, Signal;
      ghost var a := Model();
      var checks := streams[s].checks;
      var nominated := 0;
      var i := 0;
      while i < |checks|
        invariant 0 <= i <= |checks| && Model() == a
        invariant nominated == 0 <==> forall k :: 0 <= k < i ==> !IsNominated(checks[k], c)
      {
        if checks[i].component == c {
          if checks[i].state == Succeeded || checks[i].state == Discovered {
            if checks[i].nominated {
              nominated := nominated + 1;
            }
          }
        }
        i := i + 1;
      }
      assert nominated > 0 <==> AnyNominated(checks, c);
      if nominated > 0 {
        var pending := PrunePending(s, c);
        if pending == 0 {
          SignalState(s, c, Ready);
        }
      }
    }

    method MarkNominated(s: nat, c: nat, r: Candidate)
      requires s < |streams| && c < |streams[s].components|
      modifies this
      ensures Model() == Nominate(old(Model()), s, c, r, 0)
    {
      hide UpdateReady, Select;
      ghost var a := Model();
      var i := 0;
      while i < |streams[s].checks|
        invariant Same(a, Model()) && s < |streams| && c < |streams[s].components|
        invariant 0 <= i <= |streams[s].checks| == |a.streams[s].checks|
        invariant Nominate(Model(), s, c, r, i) == Nominate(a, s, c, r, 0)
        decreases |a.streams[s].checks| - i
      {
        if streams[s].checks[i].remote == r {
          ghost var b := Model();
          var p := streams[s].checks[i].(nominated := true);
          PutPair(s, i, p);
          if p.state == Succeeded || p.state == Discovered {
            UpdateSelected(s, c, p);
          }
          assert Model() == NominateOne(b, s, c, i);
          UpdateReadyState(s, c);
        }
        i := i + 1;
      }
    }

    /** Have all checks of the component failed? */
    method AllChecksFailed(s: nat, c: nat) returns (failed: bool)
      requires s < |streams|
      ensures failed <==> First(streams[s].checks, AllFailed(c)) == |streams[s].checks|
    {
      var checks := streams[s].checks;
      var i := 0;
      while i < |checks|
        invariant 0 <= i <= |checks|
        invariant forall k :: 0 <= k < i ==> !AllFailed(c)(checks[k])
      {
        if checks[i].component == c && checks[i].state != Failed {
          break;
        }
        i := i + 1;
      }
      FirstIs(checks, AllFailed(c), i);
      failed := i == |checks|;
    }

    method UpdateFailedComponents(s: nat)
      requires s < |streams|
      modifies this
      ensures Model() == SignalFailed(old(Model()), s, 0)
    {
      hide Signal;
      ghost var a := Model();
      var n := |streams[s].components|;
      var c := 0;
      while c < n
        invariant Same(a, Model()) && 0 <= c <= n == |streams[s].components|
        invariant SignalFailed(Model(), s, c) == SignalFailed(a, s, 0)
      {
        var failed := AllChecksFailed(s, c);
        if failed && streams[s].components[c].remotes != [] {
          SignalState(s, c, Broken);
        }
        c := c + 1;
      }
    }

    // -------------------------------------------------------------------
    // New pairs

    /** Where a pair of priority zero belongs. */
    method FindPlace(s: nat) returns (n: nat)
      requires s < |streams|
      ensures n == First(streams[s].checks, ZeroPriority())
    {
      var checks := streams[s].checks;
      n := 0;
      while n < |checks| && checks[n].priority > 0
        invariant 0 <= n <= |checks|
        invariant forall k :: 0 <= k < n ==> !ZeroPriority()(checks[k])
      {
        n := n + 1;
      }
      FirstIs(checks, ZeroPriority(), n);
    }

    method AddNewPair(s: nat, c: nat, local: Candidate, remote: Candidate, state: CheckState, nominated: bool)
      requires s < |streams|
      modifies this
      ensures Model() == AddPair(old(Model()), s, c, local, remote, state, nominated)
    {
      hide PairPriority;
      var checks := streams[s].checks;
      var n := FindPlace(s);
      var priority := if controlling then PairPriority(local.priority, remote.priority)
      else PairPriority(remote.priority, local.priority);
      var p := Pair(uids, c, local, remote, local.foundation + ":" + remote.foundation, state, nominated,
                    controlling, false, priority, 0, T.Timer(T.Timeval(0, 0), 0, 0, 0), None);
      checks := checks[..n] + [p] + checks[n..];
      if |checks| > maxChecks {
        checks := if maxChecks == 0 then [] else checks[..|checks| - maxChecks];
      }
      streams := streams[s := streams[s].(checks := checks)];
      uids := uids + 1;
    }

    method AddForPair(s: nat, c: nat, local: Candidate, remote: Candidate)
      requires s < |streams| && c < |streams[s].components|
      modifies this
      ensures Model() == FormPair(old(Model()), s, c, local, remote)
    {
      hide AddPair, Signal;
      if local.kind == ServerReflexive {
        return;
      }
      if local.addr.family == remote.addr.family {
        AddNewPair(s, c, local, remote, Frozen, false);
        var state := streams[s].components[c].state;
        if state == Disconnected || state == Gathering || state == Connecting {
          SignalState(s, c, Connecting);
        } else {
          SignalState(s, c, Connected);
        }
      }
    }

    method AddForRemote(s: nat, c: nat, remote: Candidate)
      requires s < |streams| && c < |streams[s].components|
      modifies this
      ensures Model() == FormRemote(old(Model()), s, c, remote, 0)
    {
      hide FormPair;
      ghost var a := Model();
      var locals := streams[s].components[c].locals;
      var i := 0;
      while i < |locals|
        invariant |streams| == |a.streams| && c < |streams[s].components|
        invariant 0 <= i <= |locals| && streams[s].components[c].locals == locals
        invariant FormRemote(Model(), s, c, remote, i) == FormRemote(a, s, c, remote, 0)
      {
        AddForPair(s, c, locals[i], remote);
        i := i + 1;
      }
    }

    method AddForLocal(s: nat, c: nat, local: Candidate)
      requires s < |streams| && c < |streams[s].components|
      modifies this
      ensures Model() == FormLocal(old(Model()), s, c, local, 0)
    {
      hide FormPair;
      ghost var a := Model();
      var remotes := streams[s].components[c].remotes;
      var i := 0;
      while i < |remotes|
        invariant |streams| == |a.streams| && c < |streams[s].components|
        invariant 0 <= i <= |remotes| && streams[s].components[c].remotes == remotes
        invariant FormLocal(Model(), s, c, local, i) == FormLocal(a, s, c, local, 0)
      {
        AddForPair(s, c, local, remotes[i]);
        i := i + 1;
      }
    }

    /** Overwrite one component. */
    method PutComponent(s: nat, c: nat, k: Component)
      requires s < |streams| && c < |streams[s].components|
      modifies this`streams
      ensures Model() == SetComponent(old(Model()), s, c, k)
    {
      streams := streams[s := streams[s].(components := streams[s].components[c := k])];
    }

    method AddRemoteCandidate(s: nat, c: nat, r: Candidate)
      requires s < |streams| && c < |streams[s].components|
      modifies this
      ensures Model() == AddRemote(old(Model()), s, c, r)
    {
      hide FormRemote;
      var k := streams[s].components[c];
      PutComponent(s, c, k.(remotes := k.remotes + [r]));
      AddForRemote(s, c, r);
    }

    method AddLocalCandidate(s: nat, c: nat, l: Candidate)
      requires s < |streams| && c < |streams[s].components|
      modifies this
      ensures Model() == AddLocal(old(Model()), s, c, l)
    {
      hide FormLocal;
      var k := streams[s].components[c];
      PutComponent(s, c, k.(locals := k.locals + [l]));
      AddForLocal(s, c, l);
    }

    // -------------------------------------------------------------------
    // Requests

    method FindLocal(s: nat, c: nat, socket: nat) returns (i: nat)
      requires s < |streams| && c < |streams[s].components|
      ensures i == First(streams[s].components[c].locals, OnSocket(socket))
    {
      var locals := streams[s].components[c].locals;
      i := 0;
      while i < |locals| && locals[i].socket != socket
        invariant 0 <= i <= |locals| && forall k :: 0 <= k < i ==> !OnSocket(socket)(locals[k])
      {
        i := i + 1;
      }
      FirstIs(locals, OnSocket(socket), i);
    }

    method FindRemote(s: nat, c: nat, from: Address) returns (i: nat)
      requires s < |streams| && c < |streams[s].components|
      ensures i == First(streams[s].components[c].remotes, At(from))
    {
      var remotes := streams[s].components[c].remotes;
      i := 0;
      while i < |remotes| && remotes[i].addr != from
        invariant 0 <= i <= |remotes| && forall k :: 0 <= k < i ==> !At(from)(remotes[k])
      {
        i := i + 1;
      }
      FirstIs(remotes, At(from), i);
    }

    method FindMatch(s: nat, c: nat, r: Candidate, socket: nat) returns (i: nat)
      requires s < |streams|
      ensures i == First(streams[s].checks, Matches(c, r, socket))
    {
      var checks := streams[s].checks;
      i := 0;
      while i < |checks|
        invariant 0 <= i <= |checks| && forall k :: 0 <= k < i ==> !Matches(c, r, socket)(checks[k])
      {
        if checks[i].component == c && checks[i].remote == r && checks[i].local.socket == socket {
          break;
        }
        i := i + 1;
      }
      FirstIs(checks, Matches(c, r, socket), i);
    }

    method TriggerFound(s: nat, c: nat, i: nat, env: Env)
      requires s < |streams| && c < |streams[s].components| && i < |streams[s].checks|
      modifies this
      ensures Model() == TriggerPair(old(Model()), s, c, i, env)
    {
      hide Initiate, UpdateReady, T.Start;
      var p := streams[s].checks[i];
      if p.state == Waiting || p.state == Frozen {
        InitiatePair(s, i, env);
      } else if p.state == InProgress {
        if !p.restarted {
          PutPair(s, i, p.(timer := T.Start(env.now, TIMEOUT, RETRANSMISSIONS), restarted := true));
        }
      } else if p.state == Succeeded || p.state == Discovered {
        ReadyKeepsRole(Model(), s, c);
        UpdateReadyState(s, c);
        if controlling {
          InitiatePair(s, i, env);
        }
      } else if p.state == Failed {
        InitiatePair(s, i, env);
      }
    }

    method ScheduleTriggered(s: nat, c: nat, socket: nat, r: Candidate, use: bool, env: Env)
      requires s < |streams| && c < |streams[s].components|
      modifies this
      ensures Model() == Trigger(old(Model()), s, c, socket, r, use, env)
    {
      hide TriggerPair, AddPair, First;
      var i := FindMatch(s, c, r, socket);
      if i < |streams[s].checks| {
        TriggerFound(s, c, i, env);
        return;
      }
      var l := FindLocal(s, c, socket);
      if l < |streams[s].components[c].locals| {
        AddNewPair(s, c, streams[s].components[c].locals[l], r, Waiting, use);
      }
    }

    method RecalculateStream(s: nat)
      requires s < |streams|
      modifies this`streams
      ensures Model() == SetChecks(old(Model()), s, RecalculateAll(old(streams[s].checks), controlling))
    {
      hide Recalculated;
      ghost var checks := streams[s].checks;
      var j := 0;
      while j < |streams[s].checks|
        invariant |streams| == |old(streams)| && 0 <= j <= |streams[s].checks| == |checks|
        invariant streams == old(streams)[s := old(streams)[s].(checks := streams[s].checks)]
        invariant forall k :: 0 <= k < j ==> streams[s].checks[k] == Recalculated(checks[k], controlling)
        invariant forall k :: j <= k < |checks| ==> streams[s].checks[k] == checks[k]
      {
        PutPair(s, j, Recalculated(streams[s].checks[j], controlling));
        j := j + 1;
      }
      assert streams[s].checks == RecalculateAll(checks, controlling);
    }

    method RecalculatePriorities()
      modifies this`streams
      ensures Model() == old(Model()).(streams := RecalculateStreams(old(streams), controlling))
    {
      hide RecalculateAll;
      ghost var was := streams;
      var s := 0;
      while s < |streams|
        invariant 0 <= s <= |streams| == |was|
        invariant forall t :: 0 <= t < s ==>
                    streams[t] == was[t].(checks := RecalculateAll(was[t].checks, controlling))
        invariant forall t :: s <= t < |was| ==> streams[t] == was[t]
      {
        RecalculateStream(s);
        s := s + 1;
      }
      assert streams == RecalculateStreams(was, controlling);
    }

    method CheckRoleConflict(control: bool)
      modifies this
      ensures Model() == ChangeRole(old(Model()), control)
    {
      if control != controlling {
        controlling := control;
        log := log + [RoleChanged(control)];
        RecalculatePriorities();
      }
    }

    /** Decide about a request; the reply is logged. */
    method Reply(request: Request)
      modifies this
      ensures Model() == Answer(old(Model()), request)
    {
      hide ChangeRole;
      var claim := if controlling then request.controlling else request.controlled;
      if claim.Some? {
        if tie < claim.value {
          CheckRoleConflict(!controlling);
        } else {
          log := log + [Replied(request.id, true)];
          return;
        }
      }
      log := log + [Replied(request.id, false)];
    }

    method ReactTo(s: nat, c: nat, socket: nat, r: Candidate, use: bool, env: Env)
      requires s < |streams| && c < |streams[s].components|
      modifies this
      ensures Model() == React(old(Model()), s, c, socket, r, use, env)
    {
      hide Trigger, Nominate;
      ScheduleTriggered(s, c, socket, r, use, env);
      if use {
        MarkNominated(s, c, r);
      }
    }

    /** Make the sender of a request a remote candidate. */
    method LearnRemote(s: nat, c: nat, from: Address, request: Request, env: Env) returns (r: Candidate)
      requires s < |streams| && c < |streams[s].components|
      modifies this
      ensures Model() == Learn(old(Model()), s, c, from, request, env)
      ensures r == Learned(old(Model()), c, from, request.priority, env.foundation)
    {
      hide AddRemote;
      var priority := request.priority;
      if priority == 0 {
        priority := IcePriority(PEER_REFLEXIVE_PREFERENCE, 0, c + 1);
      }
      r := Candidate(uids, PeerReflexive, c, from, 0, priority, env.foundation);
      uids := uids + 1;
      AddRemoteCandidate(s, c, r);
    }

    method HandleRequest(s: nat, c: nat, socket: nat, from: Address, request: Request, env: Env)
      requires s < |streams| && c < |streams[s].components|
      modifies this
      ensures Model() == OnRequest(old(Model()), s, c, socket, from, request, env)
    {
      hide Answer, React, Learn, Learned, First;
      Reply(request);
      var use := request.useCandidate;
      if controlling {
        use := true;
      }
      var k := streams[s].components[c];
      var i := FindRemote(s, c, from);
      if k.remotes == [] {
        if |k.early| < MAX_EARLY {
          PutComponent(s, c, k.(early := k.early + [EarlyCheck(from, socket, request.priority, use)]));
        }
      } else if i < |k.remotes| {
        ReactTo(s, c, socket, k.remotes[i], use, env);
      } else {
        var r := LearnRemote(s, c, from, request, env);
        ReactTo(s, c, socket, r, use, env);
      }
    }

    method ReplayEarly(s: nat, c: nat, socket: nat, r: Candidate, use: bool, env: Env)
      requires s < |streams| && c < |streams[s].components|
      modifies this
      ensures Model() == Replay(old(Model()), s, c, socket, r, use, env)
    {
      hide Trigger, Nominate;
      if use {
        MarkNominated(s, c, r);
      }
      ScheduleTriggered(s, c, socket, r, use, env);
    }

    // -------------------------------------------------------------------
    // Responses

    method FindOutstanding(s: nat, id: nat) returns (i: nat)
      requires s < |streams|
      ensures i == First(streams[s].checks, Outstanding(id))
    {
      var checks := streams[s].checks;
      i := 0;
      while i < |checks|
        invariant 0 <= i <= |checks| && forall k :: 0 <= k < i ==> !Outstanding(id)(checks[k])
      {
        if checks[i].message.Some? && checks[i].message.value.id == id {
          break;
        }
        i := i + 1;
      }
      FirstIs(checks, Outstanding(id), i);
    }

    method FindMapped(s: nat, c: nat, addr: Address) returns (i: nat)
      requires s < |streams| && c < |streams[s].components|
      ensures i == First(streams[s].components[c].locals, At(addr))
    {
      var locals := streams[s].components[c].locals;
      i := 0;
      while i < |locals| && locals[i].addr != addr
        invariant 0 <= i <= |locals| && forall k :: 0 <= k < i ==> !At(addr)(locals[k])
      {
        i := i + 1;
      }
      FirstIs(locals, At(addr), i);
    }

    method DiscoverPair(s: nat, c: nat, socket: nat, addr: Address, remote: Candidate, env: Env)
      requires s < |streams| && c < |streams[s].components|
      modifies this
      ensures Model() == Discover(old(Model()), s, c, socket, addr, remote, env)
    {
      hide IcePriority, PairPriority;
      var l := Candidate(uids, PeerReflexive, c, addr, socket,
                         IcePriority(PEER_REFLEXIVE_PREFERENCE, 0, c + 1), env.foundation);
      var k := streams[s].components[c];
      PutComponent(s, c, k.(locals := k.locals + [l]));
      uids := uids + 1;
      var priority := if controlling then PairPriority(l.priority, remote.priority)
      else PairPriority(remote.priority, l.priority);
      var p := Pair(uids, c, l, remote, l.foundation + ":" + remote.foundation, Discovered, false,
                    controlling, false, priority, 0, T.Timer(T.Timeval(0, 0), 0, 0, 0), None);
      streams := streams[s := streams[s].(checks := streams[s].checks + [p])];
      uids := uids + 1;
    }

    method MakeProgress(s: nat, c: nat)
      requires s < |streams| && c < |streams[s].components|
      modifies this
      ensures Model() == Progress(old(Model()), s, c)
    {
      hide Signal;
      if streams[s].components[c].state != Ready {
        SignalState(s, c, Connected);
      }
    }

    method Accept(s: nat, c: nat, socket: nat, i: nat, outcome: Outcome, env: Env)
      requires s < |streams| && c < |streams[s].components| && i < |streams[s].checks|
      requires outcome.Mapped? || outcome.NoAddress?
      modifies this
      ensures Model() == OnSuccess(old(Model()), s, c, socket, i, outcome, env)
    {
      hide First, UnfreezeRelated, Discover, Progress, UpdateReady, Select;
      var p := streams[s].checks[i].(message := None);
      var known := outcome.NoAddress?;
      if outcome.Mapped? {
        var l := FindMapped(s, c, outcome.addr);
        known := l < |streams[s].components[c].locals|;
      }
      if known {
        p := p.(state := Succeeded);
        PutPair(s, i, p);
        UnfreezeRelatedPairs(s, p.foundation);
        MakeProgress(s, c);
        if p.nominated {
          UpdateSelected(s, c, p);
        }
      } else {
        PutPair(s, i, p.(state := Failed));
        DiscoverPair(s, c, socket, outcome.addr, p.remote, env);
        MakeProgress(s, c);
      }
      UpdateReadyState(s, c);
    }

    method MapReply(s: nat, c: nat, socket: nat, from: Address, id: nat, outcome: Outcome, env: Env)
      requires s < |streams| && c < |streams[s].components|
      modifies this
      ensures Model() == OnResponse(old(Model()), s, c, socket, from, id, outcome, env)
    {
      hide First, ChangeRole, OnSuccess;
      var i := FindOutstanding(s, id);
      if i == |streams[s].checks| {
        return;
      }
      var p := streams[s].checks[i];
      match outcome {
        case Mapped(_) | NoAddress =>
          if from != p.remote.addr {
            PutPair(s, i, p.(message := None, state := Failed));
          } else {
            Accept(s, c, socket, i, outcome, env);
          }
        case RoleConflict =>
          CheckRoleConflict(!p.controlling);
          PutPair(s, i, streams[s].checks[i].(message := None, state := Waiting));
        case OtherError =>
          PutPair(s, i, p.(message := None));
      }
    }

    // -------------------------------------------------------------------
    // Ticks

    method TickOne(s: nat, i: nat, now: T.Instant)
      requires s < |streams| && i < |streams[s].checks|
      modifies this
      ensures Model() == TickAt(old(Model()), s, i, now)
    {
      hide T.Refresh, T.Remainder, T.Micros;
      var p := streams[s].checks[i];
      if p.state == InProgress {
        if p.message.None? {
          p := p.(state := Failed);
        } else if T.Micros(now) >= p.nextTick {
          var (timer, outcome) := T.Refresh(p.timer, now);
          match outcome {
            case Timeout =>
              p := p.(state := Failed, message := None);
            case Retransmit =>
              log := log + [Sent(p.uid, p.message.value)];
              p := p.(timer := timer, nextTick := T.Micros(now) + U32(1000 * T.Remainder(timer, now)));
            case Success =>
              p := p.(timer := timer, nextTick := T.Micros(now) + U32(1000 * T.Remainder(timer, now)));
          }
        }
      }
      PutPair(s, i, p);
    }

    method FindValid(s: nat) returns (k: nat)
      requires s < |streams|
      ensures k == First(streams[s].checks, ValidPairs())
    {
      var checks := streams[s].checks;
      k := 0;
      while k < |checks|
        invariant 0 <= k <= |checks| && forall j :: 0 <= j < k ==> !ValidPairs()(checks[j])
      {
        if checks[k].state == Succeeded || checks[k].state == Discovered {
          break;
        }
        k := k + 1;
      }
      FirstIs(checks, ValidPairs(), k);
    }

    method NominateAgain(s: nat, env: Env)
      requires s < |streams|
      modifies this
      ensures Model() == Renominate(old(Model()), s, |old(streams[s].components)|, env)
    {
      hide Initiate, First;
      ghost var a := Model();
      var count := |streams[s].components|;
      var n := 0;
      while n < count
        invariant 0 <= n <= count && |streams| == |a.streams|
        invariant Renominate(Model(), s, count - n, env) == Renominate(a, s, count, env)
      {
        var i := FindValid(s);
        if i < |streams[s].checks| {
          PutPair(s, i, streams[s].checks[i].(nominated := true));
          InitiatePair(s, i, env);
        }
        n := n + 1;
      }
    }

    /** Move every pair of a stream on; return whether one is in progress. */
    method TickEach(s: nat, now: T.Instant) returns (busy: bool)
      requires s < |streams|
      modifies this
      ensures Model() == TickPairs(old(Model()), s, 0, now)
      ensures busy <==> AnyInProgress(streams[s].checks)
    {
      hide TickPair;
      ghost var a := Model();
      busy := false;
      var i := 0;
      while i < |streams[s].checks|
        invariant Same(a, Model()) && s < |streams| && 0 <= i <= |streams[s].checks| == |a.streams[s].checks|
        invariant TickPairs(Model(), s, i, now) == TickPairs(a, s, 0, now)
        invariant busy <==> exists k :: 0 <= k < i && streams[s].checks[k].state == InProgress
        decreases |a.streams[s].checks| - i
      {
        ghost var before := streams[s].checks;
        TickOne(s, i, now);
        assert forall k :: 0 <= k < i ==> streams[s].checks[k] == before[k];
        if streams[s].checks[i].state == InProgress {
          busy := true;
        }
        i := i + 1;
      }
    }

    /** Do components lack a nominated pair although there are valid ones? */
    method Awaits(s: nat) returns (awaits: bool)
      requires s < |streams|
      ensures awaits <==> AwaitsNomination(streams[s])
    {
      var checks := streams[s].checks;
      var nominated, waiting := 0, 0;
      var i := 0;
      while i < |checks|
        invariant 0 <= i <= |checks| && nominated == NominatedCount(checks[..i])
        invariant waiting > 0 <==> exists k :: 0 <= k < i && IsValid(checks[k]) && !checks[k].nominated
        invariant waiting >= 0
      {
        assert checks[..i + 1][..i] == checks[..i] && checks[..i + 1][i] == checks[i];
        if checks[i].state == Succeeded || checks[i].state == Discovered {
          if checks[i].nominated {
            nominated := nominated + 1;
          } else {
            waiting := waiting + 1;
          }
        }
        i := i + 1;
      }
      assert checks[..|checks|] == checks;
      awaits := nominated < |streams[s].components| && waiting > 0;
    }

    method TickOneStream(s: nat, env: Env) returns (keep: bool)
      requires s < |streams|
      modifies this
      ensures (Model(), keep) == TickStream(old(Model()), s, env)
    {
      hide TickPairs, Renominate, AwaitsNomination, AnyInProgress;
      keep := TickEach(s, env.now);
      var awaits := Awaits(s);
      if awaits {
        keep := true;
        if controlling {
          NominateAgain(s, env);
        }
      }
    }

    method FindNextWaiting(s: nat) returns (i: nat)
      requires s < |streams|
      ensures i == First(streams[s].checks, IsWaiting())
    {
      var checks := streams[s].checks;
      i := 0;
      while i < |checks| && checks[i].state != Waiting
        invariant 0 <= i <= |checks| && forall k :: 0 <= k < i ==> !IsWaiting()(checks[k])
      {
        i := i + 1;
      }
      FirstIs(checks, IsWaiting(), i);
    }

    method StartNext(env: Env) returns (moved: bool)
      modifies this
      ensures (Model(), moved) == Advance(old(Model()), env)
    {
      hide Initiate, UnfreezeNext;
      ghost var a := Model();
      var s := 0;
      while s < |streams|
        invariant 0 <= s <= |streams| && Model() == a
        invariant forall k :: 0 <= k < s ==> !HasWaiting()(streams[k])
      {
        var i := FindNextWaiting(s);
        if i < |streams[s].checks| {
          FirstIs(streams, HasWaiting(), s);
          InitiatePair(s, i, env);
          return true;
        }
        s := s + 1;
      }
      FirstIs(streams, HasWaiting(), s);
      moved := UnfreezeNextPair();
    }

    /** Conclude every component of a stream. */
    method ConcludeStream(s: nat)
      requires s < |streams|
      modifies this
      ensures Model() == ReadyComponents(old(Model()), s, 0)
    {
      hide UpdateReady;
      ghost var a := Model();
      var c := 0;
      while c < |streams[s].components|
        invariant Same(a, Model()) && s < |streams| && 0 <= c <= |streams[s].components| == |a.streams[s].components|
        invariant ReadyComponents(Model(), s, c) == ReadyComponents(a, s, 0)
        decreases |a.streams[s].components| - c
      {
        UpdateReadyState(s, c);
        c := c + 1;
      }
    }

    /** The last tick settles the component states. */
    method StopTimer()
      modifies this
      ensures Model() == Settle(old(Model()), 0)
    {
      hide SignalFailed, ReadyComponents;
      ghost var a := Model();
      var s := 0;
      while s < |streams|
        invariant Same(a, Model()) && 0 <= s <= |streams| == |a.streams|
        invariant Settle(Model(), s) == Settle(a, 0)
        decreases |a.streams| - s
      {
        UpdateFailedComponents(s);
        ConcludeStream(s);
        s := s + 1;
      }
    }

    /** Tick every stream. */
    method TickAllStreams(env: Env) returns (keep: bool)
      modifies this
      ensures (Model(), keep) == TickStreams(old(Model()), 0, env)
    {
      hide TickStream;
      ghost var a := Model();
      keep := false;
      var s := 0;
      while s < |streams|
        invariant Same(a, Model()) && 0 <= s <= |streams| == |a.streams|
        invariant var (b, keeps) := TickStreams(Model(), s, env);
                  (b, keep || keeps) == TickStreams(a, 0, env)
        decreases |a.streams| - s
      {
        var res := TickOneStream(s, env);
        if res {
          keep := true;
        }
        s := s + 1;
      }
    }

    /** The timer callback. */
    method OnTick(env: Env) returns (keep: bool)
      modifies this
      ensures (Model(), keep) == Tick(old(Model()), env)
    {
      hide Advance, TickStreams, Settle;
      keep := StartNext(env);
      var res := TickAllStreams(env);
      if res {
        keep := true;
      }
      if !keep {
        StopTimer();
      }
    }

    method Schedule(env: Env) returns (keep: bool)
      modifies this
      ensures (Model(), keep) == ScheduleNext(old(Model()), env)
    {
      hide Tick, UnfreezeNext;
      var _ := UnfreezeNextPair();
      keep := OnTick(env);
    }
  }

  lemma ReadyKeepsRole(a: Agent, s: nat, c: nat)
    requires s < |a.streams| && c < |a.streams[s].components|
    ensures UpdateReady(a, s, c).controlling == a.controlling
  {
  }

  lemma UnfrozenWhen(p: Pair, foundation: string)
    ensures Unfrozen(p, foundation) ==
            if p.state == Frozen && p.foundation == foundation then p.(state := Waiting) else p
    ensures p.state == Frozen && p.foundation == foundation ==> Unfrozen(p, foundation) != p
  {
  }
}
