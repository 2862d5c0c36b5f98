/** The agent object driven through a run: what the run theorems say holds of the object. */
module ConncheckDriver {
  import opened Conncheck
  import opened ConncheckSteps
  import opened ConncheckRuns
  import opened ConncheckAgents

  method Perform(agent: XiceAgent, act: Action)
    requires InRange(agent.Model(), act)
    modifies agent
    ensures agent.Model() == Apply(old(agent.Model()), act)
  {
    hide Tick, ScheduleNext, OnRequest, OnResponse, AddRemote, AddLocal, Replay;
    match act
    case Ticking(env) =>
      var _ := agent.OnTick(env);
    case Scheduling(env) =>
      var _ := agent.Schedule(env);
    case Requested(s, c, socket, from, request, env) =>
      agent.HandleRequest(s, c, socket, from, request, env);
    case Responded(s, c, socket, from, id, outcome, env) =>
      agent.MapReply(s, c, socket, from, id, outcome, env);
    case NewRemote(s, c, candidate) =>
      agent.AddRemoteCandidate(s, c, candidate);
    case NewLocal(s, c, candidate) =>
      agent.AddLocalCandidate(s, c, candidate);
    case Replayed(s, c, socket, candidate, use, env) =>
      agent.ReplayEarly(s, c, socket, candidate, use, env);
  }

  /** An agent that serves the actions of a run goes through the states of the run. Unless
      its role changed, and as long as every action fits, no valid nominated pair of the
      object outranks the selected one, and ready was signalled only when settled. */
  method Serve(agent: XiceAgent, acts: seq<Action>, ghost states: seq<Agent>)
    requires Run(states, acts) && states[0] == agent.Model() && Ranked(agent.Model()) && agent.log == []
    modifies agent
    ensures agent.Model() == states[|acts|] && Sound(agent.Model())
    ensures FixedRole(states) && FittingRun(states, acts, |acts|) ==>
              && Ranked(agent.Model())
              && forall e :: e in agent.log && e.Signalled? && e.state == Ready ==> Settled(e.at, e.component)
  {
    hide Sound, Apply, Ranked, Settled, Fits;
    for i := 0 to |acts|
      invariant agent.Model() == states[i]
    {
      assert Permitted(states[i], acts[i]);
      Perform(agent, acts[i]);
    }
    RunSound(states, acts, |acts|);
    if FixedRole(states) {
      SelectionIsBest(states, acts, |acts|);
    }
  }
}
