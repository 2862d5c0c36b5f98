/** The connectivity checks of one agent, on values: streams, components, check
    lists, and every operation that changes them. Components are numbered from
    zero. All clock readings of one call agree, and transaction identifiers are
    fresh. */
module Conncheck {
  import opened Arith
  import opened Options
  import opened Candidates
  import T = StunTimer

  datatype CheckState = Waiting | InProgress | Succeeded | Failed | Frozen | Cancelled | Discovered

  /** A binding request with the tie-breakers of its role attributes. */
  datatype Request = Request(
    id: nat, controlling: Option<nat>, controlled: Option<nat>, useCandidate: bool, priority: nat)

  /** `uid` stands for the identity of the pair object, `message` for the
      outstanding request. */
  datatype Pair = Pair(
    uid: nat, component: nat, local: Candidate, remote: Candidate, foundation: string,
    state: CheckState, nominated: bool, controlling: bool, restarted: bool, priority: nat,
    nextTick: int, timer: T.Timer, message: Option<Request>)

  datatype ComponentState = Disconnected | Gathering | Connecting | Connected | Ready | Broken

  datatype Selection = Nothing | Selected(local: Candidate, remote: Candidate, priority: nat)

  /** An incoming check stored until remote candidates are known. */
  datatype EarlyCheck = EarlyCheck(from: Address, socket: nat, priority: nat, useCandidate: bool)

  datatype Component = Component(
    state: ComponentState, selected: Selection, locals: seq<Candidate>, remotes: seq<Candidate>,
    early: seq<EarlyCheck>)

  datatype Stream = Stream(components: seq<Component>, checks: seq<Pair>)

  /** What the agent does to the outside. A signal records the stream it was
      emitted from. */
  datatype Event =
    | Sent(uid: nat, request: Request)
    | Replied(id: nat, conflict: bool)
    | Signalled(component: nat, state: ComponentState, at: Stream)
    | RoleChanged(controlling: bool)

  datatype Agent = Agent(
    controlling: bool, tie: nat, ta: nat, maxChecks: nat, streams: seq<Stream>,
    ids: nat, uids: nat, log: seq<Event>)

  /** The clock, which messages can be built, and the foundation a new candidate gets. */
  datatype Env = Env(now: T.Instant, able: nat -> bool, foundation: string)

  const TIMEOUT: nat := 600
  const RETRANSMISSIONS: nat := 3
  const MAX_EARLY: nat := 25

  // ---------------------------------------------------------------------
  // Searching and updating

  /** The first index whose element satisfies `f`, or the length. */
  function First<T>(s: seq<T>, f: T -> bool): (r: nat)
    ensures r <= |s| && (r < |s| ==> f(s[r]))
    ensures forall k :: 0 <= k < r ==> !f(s[k])
  {
    if s == [] || f(s[0]) then 0 else 1 + First(s[1..], f)
  }

  predicate Same(a: Agent, b: Agent) {
    && |a.streams| == |b.streams|
    && forall s :: 0 <= s < |a.streams| ==>
         && |a.streams[s].components| == |b.streams[s].components|
         && |a.streams[s].checks| == |b.streams[s].checks|
  }

  function SetPair(a: Agent, s: nat, i: nat, p: Pair): (r: Agent)
    requires s < |a.streams| && i < |a.streams[s].checks|
    ensures Same(a, r)
  {
    a.(streams := a.streams[s := a.streams[s].(checks := a.streams[s].checks[i := p])])
  }

  function SetChecks(a: Agent, s: nat, checks: seq<Pair>): Agent
    requires s < |a.streams|
  {
    a.(streams := a.streams[s := a.streams[s].(checks := checks)])
  }

  function SetComponent(a: Agent, s: nat, c: nat, k: Component): (r: Agent)
    requires s < |a.streams| && c < |a.streams[s].components|
    ensures Same(a, r)
  {
    a.(streams := a.streams[s := a.streams[s].(components := a.streams[s].components[c := k])])
  }

  predicate IsValid(p: Pair) {
    p.state == Succeeded || p.state == Discovered
  }

  predicate IsNominated(p: Pair, c: nat) {
    p.component == c && IsValid(p) && p.nominated
  }

  function SelectedPriority(k: Component): nat {
    match k.selected
    case Nothing => 0
    case Selected(_, _, priority) => priority
  }

  // ---------------------------------------------------------------------
  // Sending a check

  function RoleRequest(id: nat, controlling: bool, tie: nat, component: nat): Request {
    Request(id, if controlling then Some(tie) else None, if controlling then None else Some(tie),
            controlling, IcePriority(PEER_REFLEXIVE_PREFERENCE, 1, component + 1))
  }

  function SendCheck(p: Pair, controlling: bool, tie: nat, id: nat, env: Env): Pair {
    var q := if controlling then p.(nominated := true) else p;
    if env.able(id) then
      var timer := T.Start(env.now, TIMEOUT, RETRANSMISSIONS);
      q.(message := Some(RoleRequest(id, controlling, tie, p.component)), timer := timer,
         nextTick := T.Micros(env.now) + U32(1000 * T.Remainder(timer, env.now)))
    else
      q.(message := None)
  }

  function Initiate(a: Agent, s: nat, i: nat, env: Env): (r: Agent)
    requires s < |a.streams| && i < |a.streams[s].checks|
    ensures Same(a, r)
  {
    var p := a.streams[s].checks[i].(state := InProgress, nextTick := T.Micros(env.now) + 1000 * a.ta);
    var q := SendCheck(p, a.controlling, a.tie, a.ids, env);
    var sent := if q.message.Some? then [Sent(q.uid, q.message.value)] else [];
    SetPair(a, s, i, q).(ids := a.ids + 1, log := a.log + sent)
  }

  // ---------------------------------------------------------------------
  // Unfreezing

  function FrozenPriority(checks: seq<Pair>, best: Option<nat>): nat
    requires best.Some? ==> best.value < |checks|
  {
    if best.Some? then checks[best.value].priority else 0
  }

  /** The first frozen pair of the highest priority, if that is positive. */
  function BestFrozen(checks: seq<Pair>): (best: Option<nat>)
    ensures best.Some? ==> best.value < |checks|
  {
    if checks == [] then None
    else
      var n := |checks| - 1;
      var best := BestFrozen(checks[..n]);
      if checks[n].state == Frozen && checks[n].priority > FrozenPriority(checks, best) then Some(n) else best
  }

  function HasFrozen(): Stream -> bool {
    (st: Stream) => BestFrozen(st.checks).Some?
  }

  function UnfreezeNext(a: Agent): (r: (Agent, bool))
    ensures Same(a, r.0)
  {
    var s := First(a.streams, HasFrozen());
    if s == |a.streams| then (a, false)
    else
      var i := BestFrozen(a.streams[s].checks).value;
      (SetPair(a, s, i, a.streams[s].checks[i].(state := Waiting)), true)
  }

  function Unfrozen(p: Pair, foundation: string): Pair {
    if p.state == Frozen && p.foundation == foundation then p.(state := Waiting) else p
  }

  function UnfreezeAll(checks: seq<Pair>, foundation: string): (r: seq<Pair>)
    ensures |r| == |checks| && forall i :: 0 <= i < |r| ==> r[i] == Unfrozen(checks[i], foundation)
  {
    if checks == [] then []
    else UnfreezeAll(checks[..|checks| - 1], foundation) + [Unfrozen(checks[|checks| - 1], foundation)]
  }

  /** After a success, unfreeze the pairs of the stream with the same foundation, or
      if there are none the next pair of any stream. The step meant for other
      streams walks the same stream's list and so never finds a pair. */
  function UnfreezeRelated(a: Agent, s: nat, foundation: string): (r: Agent)
    requires s < |a.streams|
    ensures Same(a, r)
  {
    var checks := UnfreezeAll(a.streams[s].checks, foundation);
    if checks != a.streams[s].checks then SetChecks(a, s, checks) else UnfreezeNext(a).0
  }

  // ---------------------------------------------------------------------
  // Selecting, pruning, signalling

  function Signal(a: Agent, s: nat, c: nat, state: ComponentState): (r: Agent)
    requires s < |a.streams| && c < |a.streams[s].components|
    ensures Same(a, r)
  {
    var k := a.streams[s].components[c];
    if k.state == state then a
    else
      var b := SetComponent(a, s, c, k.(state := state));
      b.(log := a.log + [Signalled(c, state, b.streams[s])])
  }

  function Select(a: Agent, s: nat, c: nat, p: Pair): (r: Agent)
    requires s < |a.streams| && c < |a.streams[s].components|
    ensures Same(a, r)
  {
    var k := a.streams[s].components[c];
    if p.priority > SelectedPriority(k) then
      SetComponent(a, s, c, k.(selected := Selected(p.local, p.remote, p.priority)))
    else a
  }

  function HighestNominated(checks: seq<Pair>, c: nat): nat {
    if checks == [] then 0
    else
      var n := |checks| - 1;
      var h := HighestNominated(checks[..n], c);
      if IsNominated(checks[n], c) && checks[n].priority > h then checks[n].priority else h
  }

  function Pruned(p: Pair, c: nat, h: nat): Pair {
    if p.component != c then p
    else if p.state == Frozen || p.state == Waiting then p.(state := Cancelled)
    else if p.state == InProgress && h != 0 && p.priority < h then p.(message := None, state := Cancelled)
    else p
  }

  function PruneAll(checks: seq<Pair>, c: nat, h: nat): (r: seq<Pair>)
    ensures |r| == |checks| && forall i :: 0 <= i < |r| ==> r[i] == Pruned(checks[i], c, h)
  {
    if checks == [] then []
    else PruneAll(checks[..|checks| - 1], c, h) + [Pruned(checks[|checks| - 1], c, h)]
  }

  predicate AnyNominated(checks: seq<Pair>, c: nat) {
    exists i :: 0 <= i < |checks| && IsNominated(checks[i], c)
  }

  predicate IsPending(p: Pair, c: nat) {
    p.component == c && p.state == InProgress
  }

  predicate AnyPending(checks: seq<Pair>, c: nat) {
    exists i :: 0 <= i < |checks| && IsPending(checks[i], c)
  }

  /** Conclude a component that has a nominated valid pair. */
  function UpdateReady(a: Agent, s: nat, c: nat): (r: Agent)
    requires s < |a.streams| && c < |a.streams[s].components|
    ensures Same(a, r)
  {
    var checks := a.streams[s].checks;
    if !AnyNominated(checks, c) then a
    else
      var b := SetChecks(a, s, PruneAll(checks, c, HighestNominated(checks, c)));
      if AnyPending(b.streams[s].checks, c) then b else Signal(b, s, c, Ready)
  }

  /** Nominate the pairs of remote candidate `r` from position `i` on. */
  function Nominate(a: Agent, s: nat, c: nat, r: Candidate, i: nat): (b: Agent)
    requires s < |a.streams| && c < |a.streams[s].components| && i <= |a.streams[s].checks|
    ensures Same(a, b)
    decreases |a.streams[s].checks| - i
  {
    if i == |a.streams[s].checks| then a
    else if a.streams[s].checks[i].remote != r then Nominate(a, s, c, r, i + 1)
    else Nominate(UpdateReady(NominateOne(a, s, c, i), s, c), s, c, r, i + 1)
  }

  function NominateOne(a: Agent, s: nat, c: nat, i: nat): (b: Agent)
    requires s < |a.streams| && c < |a.streams[s].components| && i < |a.streams[s].checks|
    ensures Same(a, b)
  {
    var p := a.streams[s].checks[i].(nominated := true);
    var b := SetPair(a, s, i, p);
    if IsValid(p) then Select(b, s, c, p) else b
  }

  function AllFailed(c: nat): Pair -> bool {
    (p: Pair) => p.component == c && p.state != Failed
  }

  /** Signal the components from `c` on whose checks have all failed. */
  function SignalFailed(a: Agent, s: nat, c: nat): (b: Agent)
    requires s < |a.streams| && c <= |a.streams[s].components|
    ensures Same(a, b)
    decreases |a.streams[s].components| - c
  {
    if c == |a.streams[s].components| then a
    else
      var st := a.streams[s];
      var failed := First(st.checks, AllFailed(c)) == |st.checks| && st.components[c].remotes != [];
      SignalFailed(if failed then Signal(a, s, c, Broken) else a, s, c + 1)
  }

  // ---------------------------------------------------------------------
  // New pairs

  function ZeroPriority(): Pair -> bool {
    (p: Pair) => p.priority == 0
  }

  /** A new pair takes its place while its priority is still zero. */
  function Insert(checks: seq<Pair>, p: Pair): seq<Pair> {
    var n := First(checks, ZeroPriority());
    checks[..n] + [p] + checks[n..]
  }

  /** Over the limit, only the excess is kept. */
  function Limit(checks: seq<Pair>, max: nat): seq<Pair> {
    if |checks| <= max then checks else if max == 0 then [] else checks[..|checks| - max]
  }

  function NewPair(a: Agent, c: nat, local: Candidate, remote: Candidate, state: CheckState, nominated: bool): Pair {
    Pair(a.uids, c, local, remote, local.foundation + ":" + remote.foundation, state, nominated,
         a.controlling, false, RolePriority(a.controlling, local.priority, remote.priority),
         0, T.Timer(T.Timeval(0, 0), 0, 0, 0), None)
  }

  function AddPair(a: Agent, s: nat, c: nat, local: Candidate, remote: Candidate,
                   state: CheckState, nominated: bool): (b: Agent)
    requires s < |a.streams|
    ensures |b.streams| == |a.streams| && b.streams[s].components == a.streams[s].components
  {
    var p := NewPair(a, c, local, remote, state, nominated);
    SetChecks(a, s, Limit(Insert(a.streams[s].checks, p), a.maxChecks)).(uids := a.uids + 1)
  }

  predicate Pairable(local: Candidate, remote: Candidate) {
    local.kind != ServerReflexive && local.addr.family == remote.addr.family
  }

  predicate Established(state: ComponentState) {
    state == Connected || state == Ready || state == Broken
  }

  /** Form the pair of a local and a remote candidate of component `c`. */
  function FormPair(a: Agent, s: nat, c: nat, local: Candidate, remote: Candidate): (b: Agent)
    requires s < |a.streams| && c < |a.streams[s].components|
    ensures |b.streams| == |a.streams| && |b.streams[s].components| == |a.streams[s].components|
    ensures b.streams[s].components[c].locals == a.streams[s].components[c].locals
    ensures b.streams[s].components[c].remotes == a.streams[s].components[c].remotes
  {
    if !Pairable(local, remote) then a
    else
      var b := AddPair(a, s, c, local, remote, Frozen, false);
      Signal(b, s, c, if Established(b.streams[s].components[c].state) then Connected else Connecting)
  }

  /** Pair a remote candidate with the local ones from position `i` on. */
  function FormRemote(a: Agent, s: nat, c: nat, remote: Candidate, i: nat): (b: Agent)
    requires s < |a.streams| && c < |a.streams[s].components|
    requires i <= |a.streams[s].components[c].locals|
    ensures |b.streams| == |a.streams| && |b.streams[s].components| == |a.streams[s].components|
    decreases |a.streams[s].components[c].locals| - i
  {
    var locals := a.streams[s].components[c].locals;
    if i == |locals| then a else FormRemote(FormPair(a, s, c, locals[i], remote), s, c, remote, i + 1)
  }

  /** Pair a local candidate with the remote ones from position `i` on. */
  function FormLocal(a: Agent, s: nat, c: nat, local: Candidate, i: nat): (b: Agent)
    requires s < |a.streams| && c < |a.streams[s].components|
    requires i <= |a.streams[s].components[c].remotes|
    ensures |b.streams| == |a.streams| && |b.streams[s].components| == |a.streams[s].components|
    decreases |a.streams[s].components[c].remotes| - i
  {
    var remotes := a.streams[s].components[c].remotes;
    if i == |remotes| then a else FormLocal(FormPair(a, s, c, local, remotes[i]), s, c, local, i + 1)
  }

  function AddRemote(a: Agent, s: nat, c: nat, r: Candidate): Agent
    requires s < |a.streams| && c < |a.streams[s].components|
  {
    var k := a.streams[s].components[c];
    FormRemote(SetComponent(a, s, c, k.(remotes := k.remotes + [r])), s, c, r, 0)
  }

  function AddLocal(a: Agent, s: nat, c: nat, l: Candidate): Agent
    requires s < |a.streams| && c < |a.streams[s].components|
  {
    var k := a.streams[s].components[c];
    FormLocal(SetComponent(a, s, c, k.(locals := k.locals + [l])), s, c, l, 0)
  }

  // ---------------------------------------------------------------------
  // Incoming requests

  function Matches(c: nat, r: Candidate, socket: nat): Pair -> bool {
    (p: Pair) => p.component == c && p.remote == r && p.local.socket == socket
  }

  function OnSocket(socket: nat): Candidate -> bool {
    (l: Candidate) => l.socket == socket
  }

  function At(addr: Address): Candidate -> bool {
    (r: Candidate) => r.addr == addr
  }

  /** React to a check received on `socket` from remote candidate `r`. */
  function Trigger(a: Agent, s: nat, c: nat, socket: nat, r: Candidate, use: bool, env: Env): (b: Agent)
    requires s < |a.streams| && c < |a.streams[s].components|
    ensures |b.streams| == |a.streams| && |b.streams[s].components| == |a.streams[s].components|
  {
    var st := a.streams[s];
    var i := First(st.checks, Matches(c, r, socket));
    if i < |st.checks| then
      TriggerPair(a, s, c, i, env)
    else
      var locals := st.components[c].locals;
      var l := First(locals, OnSocket(socket));
      if l < |locals| then AddPair(a, s, c, locals[l], r, Waiting, use) else a
  }

  function TriggerPair(a: Agent, s: nat, c: nat, i: nat, env: Env): (b: Agent)
    requires s < |a.streams| && c < |a.streams[s].components| && i < |a.streams[s].checks|
    ensures Same(a, b)
  {
    var p := a.streams[s].checks[i];
    match p.state
    case Waiting | Frozen | Failed => Initiate(a, s, i, env)
    case InProgress =>
      if p.restarted then a
      else SetPair(a, s, i, p.(timer := T.Start(env.now, TIMEOUT, RETRANSMISSIONS), restarted := true))
    case Succeeded | Discovered =>
      var b := UpdateReady(a, s, c);
      if a.controlling then Initiate(b, s, i, env) else b
    case Cancelled => a
  }

  function RecalculateAll(checks: seq<Pair>, controlling: bool): (r: seq<Pair>)
    ensures |r| == |checks|
    ensures forall i :: 0 <= i < |r| ==> r[i] == Recalculated(checks[i], controlling)
  {
    if checks == [] then []
    else RecalculateAll(checks[..|checks| - 1], controlling) + [Recalculated(checks[|checks| - 1], controlling)]
  }

  function Recalculated(p: Pair, controlling: bool): Pair {
    p.(priority := RolePriority(controlling, p.local.priority, p.remote.priority))
  }

  function RecalculateStreams(streams: seq<Stream>, controlling: bool): (r: seq<Stream>)
    ensures |r| == |streams|
    ensures forall s :: 0 <= s < |r| ==>
              r[s] == streams[s].(checks := RecalculateAll(streams[s].checks, controlling))
  {
    if streams == [] then []
    else
      var st := streams[|streams| - 1];
      RecalculateStreams(streams[..|streams| - 1], controlling)
        + [st.(checks := RecalculateAll(st.checks, controlling))]
  }

  function ChangeRole(a: Agent, controlling: bool): (b: Agent)
    ensures Same(a, b)
  {
    if a.controlling == controlling then a
    else
      a.(controlling := controlling, log := a.log + [RoleChanged(controlling)],
         streams := RecalculateStreams(a.streams, controlling))
  }

  /** The tie-breaker of a request that claims the agent's own role. */
  function Claim(controlling: bool, request: Request): Option<nat> {
    if controlling then request.controlling else request.controlled
  }

  /** Answer a request: on equal roles the smaller tie-breaker gives way, the other
      side sends a role conflict error. */
  function Answer(a: Agent, request: Request): (b: Agent)
    ensures Same(a, b)
  {
    var claim := Claim(a.controlling, request);
    if claim.None? then a.(log := a.log + [Replied(request.id, false)])
    else if a.tie < claim.value then
      var b := ChangeRole(a, !a.controlling);
      b.(log := b.log + [Replied(request.id, false)])
    else a.(log := a.log + [Replied(request.id, true)])
  }

  function Learned(a: Agent, c: nat, from: Address, priority: nat, foundation: string): Candidate {
    Candidate(a.uids, PeerReflexive, c, from, 0,
              if priority != 0 then priority else IcePriority(PEER_REFLEXIVE_PREFERENCE, 0, c + 1), foundation)
  }

  function Learn(a: Agent, s: nat, c: nat, from: Address, request: Request, env: Env): (b: Agent)
    requires s < |a.streams| && c < |a.streams[s].components|
    ensures |b.streams| == |a.streams| && |b.streams[s].components| == |a.streams[s].components|
  {
    var r := Learned(a, c, from, request.priority, env.foundation);
    AddRemote(a.(uids := a.uids + 1), s, c, r)
  }

  function React(a: Agent, s: nat, c: nat, socket: nat, r: Candidate, use: bool, env: Env): Agent
    requires s < |a.streams| && c < |a.streams[s].components|
  {
    var b := Trigger(a, s, c, socket, r, use, env);
    if use then Nominate(b, s, c, r, 0) else b
  }

  function StoreEarly(a: Agent, s: nat, c: nat, check: EarlyCheck): Agent
    requires s < |a.streams| && c < |a.streams[s].components|
  {
    var k := a.streams[s].components[c];
    if |k.early| >= MAX_EARLY then a else SetComponent(a, s, c, k.(early := k.early + [check]))
  }

  /** What follows the answer: the triggered check and the nomination. */
  function Serve(b: Agent, s: nat, c: nat, socket: nat, from: Address, request: Request, env: Env): Agent
    requires s < |b.streams| && c < |b.streams[s].components|
  {
    var use := b.controlling || request.useCandidate;
    var remotes := b.streams[s].components[c].remotes;
    var i := First(remotes, At(from));
    if remotes == [] then StoreEarly(b, s, c, EarlyCheck(from, socket, request.priority, use))
    else if i < |remotes| then React(b, s, c, socket, remotes[i], use, env)
    else
      React(Learn(b, s, c, from, request, env), s, c, socket,
            Learned(b, c, from, request.priority, env.foundation), use, env)
  }

  /** A valid binding request arrives on `socket` of component `c`. */
  function OnRequest(a: Agent, s: nat, c: nat, socket: nat, from: Address, request: Request, env: Env): Agent
    requires s < |a.streams| && c < |a.streams[s].components|
  {
    Serve(Answer(a, request), s, c, socket, from, request, env)
  }

  /** A stored check is replayed once remote candidate `r` is known. */
  function Replay(a: Agent, s: nat, c: nat, socket: nat, r: Candidate, use: bool, env: Env): Agent
    requires s < |a.streams| && c < |a.streams[s].components|
  {
    Trigger(if use then Nominate(a, s, c, r, 0) else a, s, c, socket, r, use, env)
  }

  // ---------------------------------------------------------------------
  // Incoming responses

  datatype Outcome = Mapped(addr: Address) | NoAddress | RoleConflict | OtherError

  function Outstanding(id: nat): Pair -> bool {
    (p: Pair) => p.message.Some? && p.message.value.id == id
  }

  /** A response to transaction `id` arrives on `socket` of component `c`. */
  function OnResponse(a: Agent, s: nat, c: nat, socket: nat, from: Address, id: nat, outcome: Outcome,
                      env: Env): Agent
    requires s < |a.streams| && c < |a.streams[s].components|
  {
    var i := First(a.streams[s].checks, Outstanding(id));
    if i == |a.streams[s].checks| then a
    else
      var p := a.streams[s].checks[i].(message := None);
      match outcome
      case Mapped(_) | NoAddress =>
        if from != p.remote.addr then SetPair(a, s, i, p.(state := Failed))
        else OnSuccess(a, s, c, socket, i, outcome, env)
      case RoleConflict =>
        var b := ChangeRole(a, !p.controlling);
        SetPair(b, s, i, b.streams[s].checks[i].(message := None, state := Waiting))
      case OtherError => SetPair(a, s, i, p)
  }

  function OnSuccess(a: Agent, s: nat, c: nat, socket: nat, i: nat, outcome: Outcome, env: Env): Agent
    requires s < |a.streams| && c < |a.streams[s].components| && i < |a.streams[s].checks|
    requires outcome.Mapped? || outcome.NoAddress?
  {
    var p := a.streams[s].checks[i].(message := None);
    var locals := a.streams[s].components[c].locals;
    if outcome.NoAddress? || First(locals, At(outcome.addr)) < |locals| then
      var q := p.(state := Succeeded);
      var b := UnfreezeRelated(SetPair(a, s, i, q), s, q.foundation);
      Conclude(b, s, c, q)
    else
      var b := Discover(SetPair(a, s, i, p.(state := Failed)), s, c, socket, outcome.addr, p.remote, env);
      UpdateReady(Progress(b, s, c), s, c)
  }

  /** Do not step down from ready. */
  function Progress(a: Agent, s: nat, c: nat): (b: Agent)
    requires s < |a.streams| && c < |a.streams[s].components|
    ensures Same(a, b)
  {
    if a.streams[s].components[c].state == Ready then a else Signal(a, s, c, Connected)
  }

  function Conclude(a: Agent, s: nat, c: nat, q: Pair): Agent
    requires s < |a.streams| && c < |a.streams[s].components|
  {
    var b := Progress(a, s, c);
    UpdateReady(if q.nominated then Select(b, s, c, q) else b, s, c)
  }

  function ReflexiveLocal(a: Agent, c: nat, socket: nat, addr: Address, foundation: string): Candidate {
    Candidate(a.uids, PeerReflexive, c, addr, socket, IcePriority(PEER_REFLEXIVE_PREFERENCE, 0, c + 1), foundation)
  }

  /** A mapped address that is no local candidate becomes one, with a pair of its own. */
  function Discover(a: Agent, s: nat, c: nat, socket: nat, addr: Address, remote: Candidate, env: Env): (b: Agent)
    requires s < |a.streams| && c < |a.streams[s].components|
    ensures |b.streams| == |a.streams| && |b.streams[s].components| == |a.streams[s].components|
  {
    var l := ReflexiveLocal(a, c, socket, addr, env.foundation);
    var k := a.streams[s].components[c];
    var b := SetComponent(a, s, c, k.(locals := k.locals + [l])).(uids := a.uids + 1);
    var p := NewPair(b, c, l, remote, Discovered, false);
    SetChecks(b, s, b.streams[s].checks + [p]).(uids := b.uids + 1)
  }

  // ---------------------------------------------------------------------
  // Ticks

  /** One pair in a tick; the flag says whether its request is sent again. */
  function TickPair(p: Pair, now: T.Instant): (Pair, bool) {
    if p.state != InProgress then (p, false)
    else if p.message.None? then (p.(state := Failed), false)
    else if T.Micros(now) < p.nextTick then (p, false)
    else
      var (timer, outcome) := T.Refresh(p.timer, now);
      match outcome
      case Timeout => (p.(state := Failed, message := None), false)
      case Retransmit => (Rescheduled(p, timer, now), true)
      case Success => (Rescheduled(p, timer, now), false)
  }

  function Rescheduled(p: Pair, timer: T.Timer, now: T.Instant): Pair {
    p.(timer := timer, nextTick := T.Micros(now) + U32(1000 * T.Remainder(timer, now)))
  }

  function TickAt(a: Agent, s: nat, i: nat, now: T.Instant): (b: Agent)
    requires s < |a.streams| && i < |a.streams[s].checks|
    ensures Same(a, b)
  {
    var (p, again) := TickPair(a.streams[s].checks[i], now);
    var sent := if again && p.message.Some? then [Sent(p.uid, p.message.value)] else [];
    SetPair(a, s, i, p).(log := a.log + sent)
  }

  function TickPairs(a: Agent, s: nat, i: nat, now: T.Instant): (b: Agent)
    requires s < |a.streams| && i <= |a.streams[s].checks|
    ensures Same(a, b)
    decreases |a.streams[s].checks| - i
  {
    if i == |a.streams[s].checks| then a else TickPairs(TickAt(a, s, i, now), s, i + 1, now)
  }

  predicate AnyInProgress(checks: seq<Pair>) {
    exists i :: 0 <= i < |checks| && checks[i].state == InProgress
  }

  predicate AnyUnnominated(checks: seq<Pair>) {
    exists i :: 0 <= i < |checks| && IsValid(checks[i]) && !checks[i].nominated
  }

  function NominatedCount(checks: seq<Pair>): nat {
    if checks == [] then 0
    else
      var p := checks[|checks| - 1];
      NominatedCount(checks[..|checks| - 1]) + (if IsValid(p) && p.nominated then 1 else 0)
  }

  function ValidPairs(): Pair -> bool {
    (p: Pair) => IsValid(p)
  }

  /** Check the first valid pair again as the nominated one, `n` times over. */
  function Renominate(a: Agent, s: nat, n: nat, env: Env): (b: Agent)
    requires s < |a.streams|
    ensures Same(a, b)
    decreases n
  {
    if n == 0 then a
    else
      var checks := a.streams[s].checks;
      var i := First(checks, ValidPairs());
      if i == |checks| then Renominate(a, s, n - 1, env)
      else
        Renominate(Initiate(SetPair(a, s, i, checks[i].(nominated := true)), s, i, env), s, n - 1, env)
  }

  predicate AwaitsNomination(st: Stream) {
    NominatedCount(st.checks) < |st.components| && AnyUnnominated(st.checks)
  }

  function TickStream(a: Agent, s: nat, env: Env): (r: (Agent, bool))
    requires s < |a.streams|
    ensures Same(a, r.0)
  {
    var b := TickPairs(a, s, 0, env.now);
    var awaits := AwaitsNomination(b.streams[s]);
    (if awaits && b.controlling then Renominate(b, s, |b.streams[s].components|, env) else b,
     AnyInProgress(b.streams[s].checks) || awaits)
  }

  function TickStreams(a: Agent, s: nat, env: Env): (r: (Agent, bool))
    requires s <= |a.streams|
    ensures Same(a, r.0)
    decreases |a.streams| - s
  {
    if s == |a.streams| then (a, false)
    else
      var (b, keep) := TickStream(a, s, env);
      var (c, keeps) := TickStreams(b, s + 1, env);
      (c, keep || keeps)
  }

  function IsWaiting(): Pair -> bool {
    (p: Pair) => p.state == Waiting
  }

  function HasWaiting(): Stream -> bool {
    (st: Stream) => First(st.checks, IsWaiting()) < |st.checks|
  }

  /** Start the first waiting check, or unfreeze one. */
  function Advance(a: Agent, env: Env): (r: (Agent, bool))
    ensures Same(a, r.0)
  {
    var s := First(a.streams, HasWaiting());
    if s < |a.streams| then (Initiate(a, s, First(a.streams[s].checks, IsWaiting()), env), true)
    else UnfreezeNext(a)
  }

  function ReadyComponents(a: Agent, s: nat, c: nat): (b: Agent)
    requires s < |a.streams| && c <= |a.streams[s].components|
    ensures Same(a, b)
    decreases |a.streams[s].components| - c
  {
    if c == |a.streams[s].components| then a else ReadyComponents(UpdateReady(a, s, c), s, c + 1)
  }

  /** The last tick settles the component states. */
  function Settle(a: Agent, s: nat): (b: Agent)
    requires s <= |a.streams|
    ensures Same(a, b)
    decreases |a.streams| - s
  {
    if s == |a.streams| then a else Settle(ReadyComponents(SignalFailed(a, s, 0), s, 0), s + 1)
  }

  /** The timer callback; the flag says whether the timer goes on. */
  function Tick(a: Agent, env: Env): (r: (Agent, bool))
    ensures Same(a, r.0)
  {
    var (b, moved) := Advance(a, env);
    var (c, keep) := TickStreams(b, 0, env);
    if moved || keep then (c, true) else (Settle(c, 0), false)
  }

  /** Start the checks once candidates are known. */
  function ScheduleNext(a: Agent, env: Env): (r: (Agent, bool))
    ensures Same(a, r.0)
  {
    Tick(UnfreezeNext(a).0, env)
  }
}
