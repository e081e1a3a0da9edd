/** The loop and the graph are the same protocol. */
module Agreement {
  import opened Common
  import opened Workflow
  import Simple = SimpleRunner
  import Graph = GraphRunner

  /** Parts of the state no runner may treat differently, raised or not. */
  ghost predicate SameWork(a: Snapshot, b: Snapshot) {
    && a.initialAgentId == b.initialAgentId && a.maxSteps == b.maxSteps
    && a.executionPath == b.executionPath && a.runHistory == b.runHistory
    && a.finalResult == b.finalResult && a.shared == b.shared
  }

  /** How the error lists relate: the loop repeats an exception's message, and an absent executor is reported in
      each runner's own words. */
  ghost predicate ErrorsMatch(reason: Reason, loop: seq<string>, graph: seq<string>) {
    match reason
    case AgentException => |graph| > 0 && loop == graph + [graph[|graph| - 1]]
    case ToolExecutorUnavailable =>
      |graph| > 0 && graph[|graph| - 1] == Graph.UNAVAILABLE && loop == graph[..|graph| - 1] + [Simple.UNAVAILABLE]
    case _ => loop == graph
  }

  /** Both ended, the same way; only the loop remembers who asked for a human. */
  ghost predicate SameEnd(loop: Snapshot, graph: Snapshot) {
    && SameWork(loop, graph)
    && loop.status == graph.status && loop.terminalReason == graph.terminalReason
    && loop.terminalReason.Some? && loop.status == StatusFor(loop.terminalReason.value)
    && graph.currentAgentId == (if loop.terminalReason == Some(NeedsHumanReview) then None else loop.currentAgentId)
    && ErrorsMatch(loop.terminalReason.value, loop.errors, graph.errors)
  }

  ghost predicate Agree(loop: (Snapshot, bool), graph: (Snapshot, bool)) {
    && loop.1 == graph.1
    && SameWork(loop.0, graph.0)
    && (!loop.1 ==> SameEnd(loop.0, graph.0))
  }

  ghost predicate AtPass(s: Snapshot) {
    s.status == Running && s.currentAgentId.Some?
  }

  // ----- one trip through the graph: the agent node and, when it left tool calls, the tool node -----

  /** The rest of a trip, once the agent node has given its output. */
  function AfterAgentNode(env: Env, a: Graph.Output): Simple.Pass {
    if a.raised then Simple.Abort(a.s)
    else
      match Graph.RouteAfterAgentStep(a.s, a.carry)
      case End => Simple.Stop(a.s)
      case AgentStep => Simple.GoOn(a.s)
      case ToolStep =>
        var t := Graph.ToolNode(env, a.s, a.carry);
        if IsTerminal(t.s.status) then Simple.Stop(t.s) else Simple.GoOn(t.s)
  }

  function Trip(env: Env, limit: nat, k: nat, s: Snapshot): Simple.Pass
    requires k > 0
  {
    AfterAgentNode(env, Graph.AgentNode(env, limit, s, Graph.Plain(k - 1)))
  }

  lemma AgentNodeCarry(env: Env, limit: nat, k: nat, s: Snapshot)
    requires 0 < k
    ensures var a := Graph.AgentNode(env, limit, s, Graph.Plain(k - 1));
      && (!a.raised ==> a.carry == Graph.Plain(k) || (a.carry.stepIndex == k && a.carry.pending != []))
      && (k > limit ==> !a.raised && IsTerminal(a.s.status))
  {
  }

  /** The graph from the end of a trip on. */
  function GraphAfter(env: Env, limit: nat, k: nat, trip: Simple.Pass): (Snapshot, bool) {
    match trip
    case Abort(t) => (t, true)
    case Stop(t) => (t, false)
    case GoOn(t) => Graph.GraphFrom(env, limit, Graph.AgentStep, t, Graph.Plain(k))
  }

  /** Wherever the rest of a trip goes on, it is at the agent node with an empty carry. */
  lemma RestUnfolds(env: Env, limit: nat, k: nat, a: Graph.Output)
    requires k <= limit || IsTerminal(a.s.status)
    requires !a.raised && (a.carry == Graph.Plain(k) || (a.carry.stepIndex == k && a.carry.pending != []))
    ensures Graph.GraphFrom(env, limit, Graph.RouteAfterAgentStep(a.s, a.carry), a.s, a.carry)
         == GraphAfter(env, limit, k, AfterAgentNode(env, a))
  {
    if Graph.RouteAfterAgentStep(a.s, a.carry) == Graph.ToolStep {
      var t := Graph.ToolNode(env, a.s, a.carry);
      assert t.carry == Graph.Plain(k);
    }
  }

  lemma TripUnfolds(env: Env, limit: nat, k: nat, s: Snapshot)
    requires 0 < k <= limit + 1
    ensures Graph.GraphFrom(env, limit, Graph.AgentStep, s, Graph.Plain(k - 1))
         == GraphAfter(env, limit, k, Trip(env, limit, k, s))
  {
    var a := Graph.AgentNode(env, limit, s, Graph.Plain(k - 1));
    AgentNodeCarry(env, limit, k, s);
    if !a.raised {
      RestUnfolds(env, limit, k, a);
    }
  }

  /** The wording of the missing-executor message is all that distinguishes the two tool steps. */
  lemma ToolsMatch(env: Env, k: nat, owner: Option<string>, calls: seq<ToolCall>, s: Snapshot)
    ensures var a := RunTools(env, k, owner, calls, Simple.UNAVAILABLE, s);
      var b := RunTools(env, k, owner, calls, Graph.UNAVAILABLE, s);
      a.1 == b.1 && if a.1 then a == b else SameEnd(a.0, b.0)
  {
    if !env.hasToolExecutor {
      var errors := s.errors + [Graph.UNAVAILABLE];
      assert errors[..|errors| - 1] == s.errors;
    }
  }

  /** A pass of the loop and a trip through the graph go on from the same state, or both end the same way. */
  ghost predicate PassesMatch(pass: Simple.Pass, trip: Simple.Pass) {
    match pass
    case GoOn(t) => AtPass(t) && trip == Simple.GoOn(t)
    case Stop(t) => trip.Stop? && SameEnd(t, trip.s)
    case Abort(t) => trip.Abort? && SameWork(t, trip.s)
  }

  lemma ResultMatches(env: Env, k: nat, r: AgentResult, s: Snapshot)
    requires AtPass(s)
    ensures PassesMatch(Simple.AfterResult(env, k, r, s), AfterAgentNode(env, Graph.Routed(k, r, s)))
  {
    if r.status != Failed && !r.requiresHuman && r.status != NeedsReview && r.toolCalls != [] {
      ToolsMatch(env, k, Some(r.agentId), r.toolCalls, s);
    }
  }

  lemma TripMatchesPass(env: Env, limit: nat, k: nat, s: Snapshot)
    requires AtPass(s) && 0 < k <= limit
    ensures PassesMatch(Simple.PassAt(env, k, s), Trip(env, limit, k, s))
  {
    var agentId := s.currentAgentId.value;
    if agentId in env.registered {
      match env.agents(k, agentId, s.shared)
      case Raised(message) =>
        assert s.errors + [message] + [message] == (s.errors + [message]) + [(s.errors + [message])[|s.errors|]];
      case Returned(r) => ResultMatches(env, k, r, Applied(s, k, r));
    }
  }

  lemma {:induction false} LoopMatchesGraph(env: Env, limit: nat, k: nat, s: Snapshot)
    requires AtPass(s) && 0 < k <= limit + 1
    ensures Agree(Simple.LoopFrom(env, limit, k, s),
                  Graph.GraphFrom(env, limit, Graph.AgentStep, s, Graph.Plain(k - 1)))
    decreases limit + 1 - k
  {
    TripUnfolds(env, limit, k, s);
    if k <= limit {
      TripMatchesPass(env, limit, k, s);
      match Simple.PassAt(env, k, s)
      case GoOn(t) => LoopMatchesGraph(env, limit, k + 1, t);
      case Stop(_) =>
      case Abort(_) =>
    }
  }

  /** For every agent, every tool and every start state: the graph run is the loop run, cut off after the smaller
      of the two step limits. */
  lemma GraphRunIsLoopRun(env: Env, maxGraphSteps: nat, s: Snapshot)
    ensures Agree(Simple.LoopFrom(env, Min(s.maxSteps, maxGraphSteps), 1, Simple.Started(s)),
                  Graph.RunResult(env, maxGraphSteps, s))
  {
    LoopMatchesGraph(env, Min(s.maxSteps, maxGraphSteps), 1, Simple.Started(s));
  }

  lemma RunnersAgree(env: Env, maxGraphSteps: nat, s: Snapshot)
    requires s.maxSteps <= maxGraphSteps
    ensures Agree(Simple.RunResult(env, s), Graph.RunResult(env, maxGraphSteps, s))
  {
    GraphRunIsLoopRun(env, maxGraphSteps, s);
  }
}
