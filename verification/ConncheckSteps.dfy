/** What the operations on check lists keep, and how they may change a pair. */
module ConncheckSteps {
  import opened Options
  import opened Candidates
  import opened Conncheck
  import T = StunTimer

  // ---------------------------------------------------------------------
  // States

  /** The invariant of one pair in an agent of the given role with counters `ids`
      and `uids` and a stream of `n` components. */
  ghost predicate PairOk(p: Pair, controlling: bool, ids: nat, uids: nat, n: nat) {
    && p.uid < uids && p.component < n
    && p.local.priority > 0 && p.remote.priority > 0
    && p.priority == RolePriority(controlling, p.local.priority, p.remote.priority)
    && (p.message.Some? ==> p.state == InProgress && p.message.value.id < ids && TimerOk(p.timer))
  }

  /** How often the delay can still be doubled. */
  function Left(timer: T.Timer): nat {
    if timer.retransmissions >= timer.maxRetransmissions then 0
    else timer.maxRetransmissions - timer.retransmissions
  }

  /** The timer of an outstanding request was started with the default values. */
  predicate TimerOk(timer: T.Timer) {
    && timer.maxRetransmissions == RETRANSMISSIONS && T.Normal(timer.deadline)
    && timer.retransmissions <= 3
    && timer.delay == match timer.retransmissions
                      case 0 => TIMEOUT
                      case 1 => 2 * TIMEOUT
                      case 2 => 4 * TIMEOUT
                      case _ => 8 * TIMEOUT
  }

  ghost predicate CandidateOk(k: Candidate, c: nat) {
    k.component == c && k.priority > 0
  }

  ghost predicate ComponentOk(k: Component, c: nat) {
    && (forall i :: 0 <= i < |k.locals| ==> CandidateOk(k.locals[i], c))
    && (forall i :: 0 <= i < |k.remotes| ==> CandidateOk(k.remotes[i], c))
  }

  ghost predicate StreamOk(st: Stream, controlling: bool, ids: nat, uids: nat) {
    && (forall i :: 0 <= i < |st.checks| ==> PairOk(st.checks[i], controlling, ids, uids, |st.components|))
    && (forall c :: 0 <= c < |st.components| ==> ComponentOk(st.components[c], c))
  }

  /** Every check list is sound. */
  ghost predicate Sound(a: Agent) {
    forall s :: 0 <= s < |a.streams| ==> StreamOk(a.streams[s], a.controlling, a.ids, a.uids)
  }

  ghost predicate PairDominated(p: Pair, st: Stream) {
    p.component < |st.components| && IsNominated(p, p.component) ==>
      p.priority <= SelectedPriority(st.components[p.component])
  }

  ghost predicate Dominated(st: Stream) {
    forall i :: 0 <= i < |st.checks| ==> PairDominated(st.checks[i], st)
  }

  /** No valid nominated pair outranks the selected pair of its component. */
  ghost predicate Ranked(a: Agent) {
    forall s :: 0 <= s < |a.streams| ==> Dominated(a.streams[s])
  }

  /** The component is decided: a pair is selected and no check is left to run. */
  ghost predicate Settled(st: Stream, c: nat) {
    && c < |st.components| && st.components[c].selected.Selected?
    && forall i :: 0 <= i < |st.checks| && st.checks[i].component == c ==>
         st.checks[i].state != Frozen && st.checks[i].state != Waiting && st.checks[i].state != InProgress
  }

  // ---------------------------------------------------------------------
  // Changes

  /** The response, if any, that an operation processes; `home` says whether the remote
      candidate of its pair belongs to the component it came in on. */
  datatype Cause = Quiet | Answered(id: nat, from: Address, home: bool)

  /** A request made since `a`, in its role and with its tie-breaker. */
  ghost predicate Made(r: Request, a: Agent, ids: nat) {
    && a.ids <= r.id < ids
    && r.controlling == (if a.controlling then Some(a.tie) else None)
    && r.controlled == (if a.controlling then None else Some(a.tie))
  }

  ghost predicate Justified(p: Pair, cause: Cause) {
    && cause.Answered? && p.message.Some? && p.message.value.id == cause.id
    && p.remote.addr == cause.from
  }

  /** A pair's identity stays, cancelled is final, success needs its response. */
  ghost predicate PairEvolves(p: Pair, q: Pair, a: Agent, ids: nat, cause: Cause) {
    && q.uid == p.uid && q.component == p.component && q.local == p.local && q.remote == p.remote
    && q.controlling == p.controlling
    && (p.state == Cancelled ==> q.state == Cancelled)
    && (q.state == Succeeded ==> p.state == Succeeded || Justified(p, cause))
    && (q.state == Discovered ==> p.state == Discovered)
    && (q.message.Some? ==> q.message == p.message || Made(q.message.value, a, ids))
  }

  /** The pair's remote candidate belongs to its component. */
  predicate Homed(p: Pair) {
    p.remote.component == p.component
  }

  ghost predicate Newborn(q: Pair, a: Agent, ids: nat, cause: Cause) {
    && (Homed(q) || (cause.Answered? && !cause.home))
    && q.uid >= a.uids && q.controlling == a.controlling && q.state != Succeeded
    && (q.message.Some? ==> Made(q.message.value, a, ids))
  }

  /** A changed selection has a strictly higher priority. */
  ghost predicate SelectionRises(k: Component, k': Component) {
    k'.selected == k.selected || SelectedPriority(k) < SelectedPriority(k')
  }

  ghost predicate StreamEvolves(st: Stream, st': Stream, a: Agent, ids: nat, cause: Cause) {
    && |st'.components| == |st.components|
    && (forall c :: 0 <= c < |st.components| ==> SelectionRises(st.components[c], st'.components[c]))
    && (forall j :: 0 <= j < |st'.checks| ==>
          Newborn(st'.checks[j], a, ids, cause)
          || (j < |st.checks| && PairEvolves(st.checks[j], st'.checks[j], a, ids, cause)))
  }

  /** `r` is the outstanding request of some pair. */
  ghost predicate Carries(a: Agent, r: Request) {
    exists s, j :: 0 <= s < |a.streams| && 0 <= j < |a.streams[s].checks|
                   && a.streams[s].checks[j].message == Some(r)
  }

  ghost predicate EventOk(e: Event, a: Agent, ids: nat) {
    match e
    case Sent(_, r) => Made(r, a, ids) || Carries(a, r)
    case Signalled(_, _, _) => true
    case Replied(_, _) => false
    case RoleChanged(_) => false
  }

  ghost predicate ReadyOk(e: Event) {
    e.Signalled? && e.state == Ready ==> Settled(e.at, e.component)
  }

  ghost predicate SameAgent(a: Agent, b: Agent) {
    && b.controlling == a.controlling && b.tie == a.tie && b.ta == a.ta && b.maxChecks == a.maxChecks
    && |b.streams| == |a.streams| && a.ids <= b.ids && a.uids <= b.uids && a.log <= b.log
  }

  /** The event tells that component `c` is in `state`. */
  predicate Announces(e: Event, c: nat, state: ComponentState) {
    e.Signalled? && e.component == c && e.state == state
  }

  /** The state of component `c` is the old one, or has been signalled since. */
  ghost predicate Announced(st: Stream, st': Stream, c: nat, news: seq<Event>)
    requires c < |st.components| && c < |st'.components|
  {
    || st'.components[c].state == st.components[c].state
    || exists k :: 0 <= k < |news| && Announces(news[k], c, st'.components[c].state)
  }

  /** A request of the pair that was made since `ids` has been sent. */
  ghost predicate Dispatched(p: Pair, ids: nat, news: seq<Event>) {
    p.message.Some? && p.message.value.id >= ids ==> Sent(p.uid, p.message.value) in news
  }

  /** What happens to a stream is told to the outside. */
  ghost predicate Told(st: Stream, st': Stream, ids: nat, news: seq<Event>)
    requires |st'.components| == |st.components|
  {
    && (forall c :: 0 <= c < |st.components| ==> Announced(st, st', c, news))
    && (forall j :: 0 <= j < |st'.checks| ==> Dispatched(st'.checks[j], ids, news))
  }

  ghost predicate Evolves(a: Agent, b: Agent, cause: Cause) {
    && SameAgent(a, b)
    && (forall s :: 0 <= s < |a.streams| ==> StreamEvolves(a.streams[s], b.streams[s], a, b.ids, cause))
    && (forall k :: |a.log| <= k < |b.log| ==> EventOk(b.log[k], a, b.ids))
    && (forall s :: 0 <= s < |a.streams| ==> Told(a.streams[s], b.streams[s], a.ids, b.log[|a.log|..]))
  }

  ghost predicate ReadySince(a: Agent, b: Agent) {
    forall k :: |a.log| <= k < |b.log| ==> ReadyOk(b.log[k])
  }

  /** Pairs are different objects. */
  ghost predicate Distinct(a: Agent) {
    forall s, i, t, j ::
      (0 <= s < |a.streams| && 0 <= i < |a.streams[s].checks|
       && 0 <= t < |a.streams| && 0 <= j < |a.streams[t].checks|
       && a.streams[s].checks[i].uid == a.streams[t].checks[j].uid) ==> s == t && i == j
  }

  /** What every operation in a fixed role does; what it does to the selection holds if
      `fits` does. */
  ghost predicate StepIf(a: Agent, b: Agent, cause: Cause, fits: bool) {
    && Sound(b)
    && Evolves(a, b, cause)
    && (Distinct(a) ==> Distinct(b))
    && (fits && Ranked(a) ==> Ranked(b) && ReadySince(a, b))
  }

  ghost predicate Step(a: Agent, b: Agent, cause: Cause) {
    StepIf(a, b, cause, true)
  }

  // ---------------------------------------------------------------------
  // Steps compose

  lemma StreamRefl(st: Stream, a: Agent, ids: nat)
    ensures StreamEvolves(st, st, a, ids, Quiet)
  {
  }

  lemma StepRefl(a: Agent)
    requires Sound(a)
    ensures Step(a, a, Quiet)
  {
  }

  lemma PairTrans(p: Pair, q: Pair, r: Pair, a: Agent, b: Agent, ids: nat, cause: Cause)
    requires PairEvolves(p, q, a, b.ids, cause) && PairEvolves(q, r, b, ids, Quiet)
    requires SameAgent(a, b) && b.ids <= ids
    ensures PairEvolves(p, r, a, ids, cause)
  {
  }

  lemma NewbornTrans(q: Pair, r: Pair, a: Agent, b: Agent, ids: nat, cause: Cause)
    requires Newborn(q, a, b.ids, cause) && PairEvolves(q, r, b, ids, Quiet)
    requires SameAgent(a, b) && b.ids <= ids
    ensures Newborn(r, a, ids, cause)
  {
  }

  lemma StreamTrans(st: Stream, st1: Stream, st2: Stream, a: Agent, b: Agent, ids: nat, cause: Cause)
    requires StreamEvolves(st, st1, a, b.ids, cause) && StreamEvolves(st1, st2, b, ids, Quiet)
    requires SameAgent(a, b) && b.ids <= ids
    ensures StreamEvolves(st, st2, a, ids, cause)
  {
    hide PairEvolves;
    forall j | 0 <= j < |st2.checks|
      ensures Newborn(st2.checks[j], a, ids, cause)
              || (j < |st.checks| && PairEvolves(st.checks[j], st2.checks[j], a, ids, cause))
    {
      if !Newborn(st2.checks[j], b, ids, Quiet) {
        if Newborn(st1.checks[j], a, b.ids, cause) {
          NewbornTrans(st1.checks[j], st2.checks[j], a, b, ids, cause);
        } else {
          PairTrans(st.checks[j], st1.checks[j], st2.checks[j], a, b, ids, cause);
        }
      }
    }
  }

  /** A request carried after a step was carried before or made in between. */
  lemma CarriedBack(a: Agent, b: Agent, r: Request, cause: Cause)
    requires Evolves(a, b, cause) && Carries(b, r)
    ensures Made(r, a, b.ids) || Carries(a, r)
  {
    var s, j :| 0 <= s < |b.streams| && 0 <= j < |b.streams[s].checks|
                && b.streams[s].checks[j].message == Some(r);
    assert StreamEvolves(a.streams[s], b.streams[s], a, b.ids, cause);
    if !Newborn(b.streams[s].checks[j], a, b.ids, cause) && !Made(r, a, b.ids) {
      assert a.streams[s].checks[j].message == Some(r);
    }
  }

  lemma EventTrans(e: Event, a: Agent, b: Agent, ids: nat, cause: Cause)
    requires Evolves(a, b, cause) && EventOk(e, b, ids) && b.ids <= ids
    ensures EventOk(e, a, ids)
  {
    hide Carries;
    if e.Sent? && Carries(b, e.request) {
      CarriedBack(a, b, e.request, cause);
    }
  }

  lemma DispatchedTrans(q: Pair, r: Pair, a: Agent, b: Agent, ids: nat, news: seq<Event>, more: seq<Event>,
                        cause: Cause)
    requires Dispatched(q, a.ids, news) && Dispatched(r, b.ids, more) && PairEvolves(q, r, b, ids, cause)
    ensures Dispatched(r, a.ids, news + more)
  {
  }

  lemma ToldTrans(st: Stream, st1: Stream, st2: Stream, a: Agent, b: Agent, ids: nat, news: seq<Event>,
                  more: seq<Event>, cause: Cause)
    requires |st1.components| == |st.components| && Told(st, st1, a.ids, news)
    requires StreamEvolves(st1, st2, b, ids, cause) && Told(st1, st2, b.ids, more) && a.ids <= b.ids
    ensures Told(st, st2, a.ids, news + more)
  {
    hide PairEvolves;
    forall c | 0 <= c < |st.components|
      ensures Announced(st, st2, c, news + more)
    {
      assert Announced(st, st1, c, news) && Announced(st1, st2, c, more);
      AnnouncedTrans(st, st1, st2, c, news, more);
    }
    forall j | 0 <= j < |st2.checks|
      ensures Dispatched(st2.checks[j], a.ids, news + more)
    {
      assert Dispatched(st2.checks[j], b.ids, more);
      if !Newborn(st2.checks[j], b, ids, cause) {
        DispatchedTrans(st1.checks[j], st2.checks[j], a, b, ids, news, more, cause);
      }
    }
  }

  lemma AnnouncedTrans(st: Stream, st1: Stream, st2: Stream, c: nat, news: seq<Event>, more: seq<Event>)
    requires c < |st.components| && c < |st1.components| && c < |st2.components|
    requires Announced(st, st1, c, news) && Announced(st1, st2, c, more)
    ensures Announced(st, st2, c, news + more)
  {
    var state := st2.components[c].state;
    if st1.components[c].state != state {
      var k :| 0 <= k < |more| && Announces(more[k], c, state);
      assert (news + more)[|news| + k] == more[k];
    } else if st.components[c].state != state {
      var k :| 0 <= k < |news| && Announces(news[k], c, state);
      assert (news + more)[k] == news[k];
    }
  }

  /** Where no component changes its state and no request is made there is nothing to tell. */
  lemma QuietTold(st: Stream, st': Stream, a: Agent, uids: nat, news: seq<Event>)
    requires StreamOk(st', a.controlling, a.ids, uids) && |st'.components| == |st.components|
    requires forall c :: 0 <= c < |st.components| ==> st'.components[c].state == st.components[c].state
    ensures Told(st, st', a.ids, news)
  {
    forall j | 0 <= j < |st'.checks| ensures Dispatched(st'.checks[j], a.ids, news) {
      assert PairOk(st'.checks[j], a.controlling, a.ids, uids, |st'.components|);
    }
  }

  /** Only pair `i` may have made a request. */
  lemma PairTold(st: Stream, i: nat, q: Pair, a: Agent, news: seq<Event>)
    requires StreamOk(st, a.controlling, a.ids, a.uids) && i < |st.checks| && Dispatched(q, a.ids, news)
    ensures Told(st, st.(checks := st.checks[i := q]), a.ids, news)
  {
    hide Dispatched;
    var checks := st.checks[i := q];
    forall j | 0 <= j < |checks| ensures Dispatched(checks[j], a.ids, news) {
      NoRequest(st.checks[j], a, |st.components|, news);
    }
  }

  lemma NoRequest(p: Pair, a: Agent, n: nat, news: seq<Event>)
    requires PairOk(p, a.controlling, a.ids, a.uids, n)
    ensures Dispatched(p, a.ids, news)
  {
  }

  lemma EvolvesTrans(a: Agent, b: Agent, c: Agent, cause: Cause)
    requires Evolves(a, b, cause) && Evolves(b, c, Quiet)
    ensures Evolves(a, c, cause)
  {
    hide StreamEvolves, EventOk, Told;
    assert c.log[|a.log|..] == b.log[|a.log|..] + c.log[|b.log|..];
    forall s | 0 <= s < |a.streams|
      ensures StreamEvolves(a.streams[s], c.streams[s], a, c.ids, cause)
      ensures |c.streams[s].components| == |a.streams[s].components|
      ensures Told(a.streams[s], c.streams[s], a.ids, c.log[|a.log|..])
    {
      StreamTrans(a.streams[s], b.streams[s], c.streams[s], a, b, c.ids, cause);
      SameCount(a.streams[s], b.streams[s], a, b.ids, cause);
      SameCount(b.streams[s], c.streams[s], b, c.ids, Quiet);
      ToldTrans(a.streams[s], b.streams[s], c.streams[s], a, b, c.ids, b.log[|a.log|..], c.log[|b.log|..],
                Quiet);
    }
    forall k | |a.log| <= k < |c.log|
      ensures EventOk(c.log[k], a, c.ids)
    {
      if k < |b.log| {
        EventGrows(b.log[k], a, b.ids, c.ids);
      } else {
        EventTrans(c.log[k], a, b, c.ids, cause);
      }
    }
  }

  lemma SameCount(st: Stream, st': Stream, a: Agent, ids: nat, cause: Cause)
    requires StreamEvolves(st, st', a, ids, cause)
    ensures |st'.components| == |st.components|
  {
  }

  lemma EventGrows(e: Event, a: Agent, ids: nat, ids': nat)
    requires EventOk(e, a, ids) && ids <= ids'
    ensures EventOk(e, a, ids')
  {
  }

  lemma StepTrans(a: Agent, b: Agent, c: Agent, cause: Cause)
    requires Step(a, b, cause) && Step(b, c, Quiet)
    ensures Step(a, c, cause)
  {
    StepIfTrans(a, b, c, cause, true, true, true);
  }

  lemma StepIfTrans(a: Agent, b: Agent, c: Agent, cause: Cause, first: bool, second: bool, both: bool)
    requires StepIf(a, b, cause, first) && StepIf(b, c, Quiet, second)
    requires both && Ranked(a) ==> first && (Ranked(b) ==> second)
    ensures StepIf(a, c, cause, both)
  {
    hide Sound, Ranked, ReadyOk, Distinct;
    EvolvesTrans(a, b, c, cause) by {
      hide Evolves;
    }
  }

  /** Every pair's remote candidate belongs to its component. */
  ghost predicate Tidy(a: Agent) {
    forall s, j :: 0 <= s < |a.streams| && 0 <= j < |a.streams[s].checks| ==> Homed(a.streams[s].checks[j])
  }

  /** Only a response on another component makes pairs stray. */
  lemma EvolvesTidy(a: Agent, b: Agent, cause: Cause)
    requires Evolves(a, b, cause) && Tidy(a) && (cause.Answered? ==> cause.home)
    ensures Tidy(b)
  {
    forall s, j | 0 <= s < |b.streams| && 0 <= j < |b.streams[s].checks|
      ensures Homed(b.streams[s].checks[j])
    {
      assert StreamEvolves(a.streams[s], b.streams[s], a, b.ids, cause);
      if !Newborn(b.streams[s].checks[j], a, b.ids, cause) {
        assert PairEvolves(a.streams[s].checks[j], b.streams[s].checks[j], a, b.ids, cause);
      }
    }
  }

  // ---------------------------------------------------------------------
  // Changing one stream

  /** One stream after an operation. */
  ghost predicate StreamStep(st: Stream, st': Stream, a: Agent, ids: nat, uids: nat, cause: Cause) {
    && StreamOk(st', a.controlling, ids, uids)
    && StreamEvolves(st, st', a, ids, cause)
    && SameUids(st, st', a)
    && (Dominated(st) ==> Dominated(st'))
  }

  /** At most one pair is new, at the end. */
  ghost predicate SameUids(st: Stream, st': Stream, a: Agent) {
    forall j :: 0 <= j < |st'.checks| ==>
      if j < |st.checks| then st'.checks[j].uid == st.checks[j].uid
      else j == |st.checks| && st'.checks[j].uid >= a.uids
  }

  lemma StreamDistinct(a: Agent, s: nat, st: Stream, b: Agent)
    requires Sound(a) && Distinct(a) && s < |a.streams| && b.streams == a.streams[s := st]
    requires SameUids(a.streams[s], st, a)
    ensures Distinct(b)
  {
    hide StreamOk;
    forall t, j | 0 <= t < |b.streams| && 0 <= j < |b.streams[t].checks|
      ensures if j < |a.streams[t].checks| then b.streams[t].checks[j].uid == a.streams[t].checks[j].uid < a.uids
              else t == s && j == |a.streams[s].checks| && b.streams[t].checks[j].uid >= a.uids
    {
      if t == s {
        assert b.streams[t].checks[j] == st.checks[j];
      }
      if j < |a.streams[t].checks| {
        UidBelow(a, t, j);
      }
    }
  }

  lemma UidBelow(a: Agent, t: nat, j: nat)
    requires Sound(a) && t < |a.streams| && j < |a.streams[t].checks|
    ensures a.streams[t].checks[j].uid < a.uids
  {
    assert PairOk(a.streams[t].checks[j], a.controlling, a.ids, a.uids, |a.streams[t].components|);
  }

  lemma StreamGrows(st: Stream, controlling: bool, ids: nat, uids: nat, ids': nat, uids': nat)
    requires StreamOk(st, controlling, ids, uids) && ids <= ids' && uids <= uids'
    ensures StreamOk(st, controlling, ids', uids')
  {
  }

  lemma StreamKeeps(a: Agent, s: nat, st: Stream, b: Agent, cause: Cause)
    requires Sound(a) && s < |a.streams|
    requires SameAgent(a, b) && b.streams == a.streams[s := st]
    requires StreamStep(a.streams[s], st, a, b.ids, b.uids, cause)
    requires Told(a.streams[s], st, a.ids, b.log[|a.log|..])
    requires forall k :: |a.log| <= k < |b.log| ==> EventOk(b.log[k], a, b.ids)
    requires Ranked(a) ==> ReadySince(a, b)
    ensures Step(a, b, cause)
  {
    hide StreamOk, StreamEvolves, Dominated, EventOk, ReadySince, Distinct, SameUids, Told;
    if Distinct(a) {
      StreamDistinct(a, s, st, b);
    }
    forall t | 0 <= t < |a.streams|
      ensures StreamOk(b.streams[t], b.controlling, b.ids, b.uids)
      ensures StreamEvolves(a.streams[t], b.streams[t], a, b.ids, cause)
      ensures |b.streams[t].components| == |a.streams[t].components|
      ensures Told(a.streams[t], b.streams[t], a.ids, b.log[|a.log|..])
      ensures Dominated(a.streams[t]) ==> Dominated(b.streams[t])
    {
      if t != s {
        StreamGrows(a.streams[t], a.controlling, a.ids, a.uids, b.ids, b.uids);
        StreamSame(a.streams[t], a, b.ids, cause);
        QuietTold(a.streams[t], a.streams[t], a, a.uids, b.log[|a.log|..]);
      } else {
        SameCount(a.streams[s], st, a, b.ids, cause);
      }
    }
  }

  lemma StreamSame(st: Stream, a: Agent, ids: nat, cause: Cause)
    ensures StreamEvolves(st, st, a, ids, cause)
  {
  }

  /** No more nominated valid pairs, and none with another priority. */
  ghost predicate Fewer(p: Pair, q: Pair) {
    IsNominated(q, q.component) ==> IsNominated(p, q.component) && q.priority == p.priority
  }

  lemma EvolvesUid(p: Pair, q: Pair, a: Agent, ids: nat, cause: Cause)
    requires PairEvolves(p, q, a, ids, cause)
    ensures q.uid == p.uid
  {
  }

  /** Every pair changes in its place. */
  lemma ChecksStep(st: Stream, checks: seq<Pair>, a: Agent, ids: nat, uids: nat, cause: Cause)
    requires StreamOk(st, a.controlling, a.ids, a.uids) && a.ids <= ids && a.uids <= uids
    requires |checks| == |st.checks|
    requires forall i :: 0 <= i < |checks| ==>
               && PairOk(checks[i], a.controlling, ids, uids, |st.components|)
               && PairEvolves(st.checks[i], checks[i], a, ids, cause)
               && Fewer(st.checks[i], checks[i])
    ensures StreamStep(st, st.(checks := checks), a, ids, uids, cause)
  {
    hide PairOk, PairEvolves;
    var st' := st.(checks := checks);
    forall i | 0 <= i < |checks|
      ensures checks[i].uid == st.checks[i].uid
    {
      EvolvesUid(st.checks[i], checks[i], a, ids, cause);
    }
    if Dominated(st) {
      forall i | 0 <= i < |checks|
        ensures PairDominated(checks[i], st')
      {
        assert PairDominated(st.checks[i], st);
      }
    }
  }

  /** One pair changes in its place. */
  lemma PairStep(st: Stream, i: nat, q: Pair, a: Agent, ids: nat, uids: nat, cause: Cause)
    requires StreamOk(st, a.controlling, a.ids, a.uids) && a.ids <= ids && a.uids <= uids && i < |st.checks|
    requires PairOk(q, a.controlling, ids, uids, |st.components|)
    requires PairEvolves(st.checks[i], q, a, ids, cause) && Fewer(st.checks[i], q)
    ensures StreamStep(st, st.(checks := st.checks[i := q]), a, ids, uids, cause)
  {
    hide StreamStep;
    var checks := st.checks[i := q];
    forall j | 0 <= j < |checks|
      ensures PairOk(checks[j], a.controlling, ids, uids, |st.components|)
      ensures PairEvolves(st.checks[j], checks[j], a, ids, cause) && Fewer(st.checks[j], checks[j])
    {
    }
    ChecksStep(st, checks, a, ids, uids, cause);
  }

  /** One component changes; its selection does not fall. */
  lemma ComponentStep(st: Stream, c: nat, k: Component, a: Agent, uids: nat)
    requires StreamOk(st, a.controlling, a.ids, a.uids) && c < |st.components| && a.uids <= uids
    requires ComponentOk(k, c) && SelectionRises(st.components[c], k)
    ensures StreamStep(st, st.(components := st.components[c := k]), a, a.ids, uids, Quiet)
  {
    var st' := st.(components := st.components[c := k]);
    if Dominated(st) {
      forall i | 0 <= i < |st'.checks|
        ensures PairDominated(st'.checks[i], st')
      {
        assert PairDominated(st.checks[i], st);
      }
    }
  }
}
