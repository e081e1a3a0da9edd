/** The graph orchestrator: an agent node and a tool node, each followed by a routing decision. */
module GraphRunner {
  import opened Common
  import opened Workflow

  const UNAVAILABLE := "LangGraph tool_step requires a configured ToolExecutor."

  /** What travels along the edges next to the workflow state. */
  datatype Carry = Carry(stepIndex: nat, pending: seq<ToolCall>, owner: Option<string>, next: Option<string>)

  datatype Node = AgentStep | ToolStep | End

  /** A node's result; a raised node never reaches its routing function. */
  datatype Output = Output(s: Snapshot, carry: Carry, raised: bool)

  function Plain(stepIndex: nat): Carry {
    Carry(stepIndex, [], None, None)
  }

  function Routed(k: nat, r: AgentResult, s: Snapshot): Output {
    if r.status == Failed then Output(EndedIdle(s, AgentFailed), Plain(k), false)
    else if r.requiresHuman || r.status == NeedsReview then Output(EndedIdle(s, NeedsHumanReview), Plain(k), false)
    else if r.toolCalls != [] then Output(s, Carry(k, r.toolCalls, Some(r.agentId), r.nextAgentId), false)
    else if r.nextAgentId.None? then Output(EndedIdle(s, NaturalCompletion), Plain(k), false)
    else Output(s.(currentAgentId := r.nextAgentId), Plain(k), false)
  }

  function AgentNode(env: Env, limit: nat, s: Snapshot, carry: Carry): Output {
    var k := carry.stepIndex + 1;
    if s.currentAgentId.None? then Output(Ended(s, NaturalCompletion), Plain(k), false)
    else if k > limit then
      Output(Ended(s, MaxStepsExceeded).(errors := s.errors + ["Workflow exceeded max_steps before completion."]),
             Plain(k), false)
    else
      var agentId := s.currentAgentId.value;
      if agentId !in env.registered then
        Output(Ended(s, AgentNotRegistered).(errors := s.errors + [NotRegistered(agentId)]), Plain(k), false)
      else
        match env.agents(k, agentId, s.shared)
        case Raised(message) =>
          if |message| > MAX_SUMMARY_CHARS then Output(s, carry, true)
          else Output(EndedIdle(Applied(s, k, ExceptionResult(agentId, message)), AgentException), Plain(k), false)
        case Returned(r) => Routed(k, r, Applied(s, k, r))
  }

  function Follow(s: Snapshot, next: Option<string>): Snapshot {
    if next.None? then EndedIdle(s, NaturalCompletion) else s.(currentAgentId := next)
  }

  function ToolNode(env: Env, s: Snapshot, carry: Carry): Output {
    var k := carry.stepIndex;
    if carry.pending == [] then
      Output(if carry.next.None? then s.(status := Completed, currentAgentId := None)
             else s.(currentAgentId := carry.next),
             Plain(k), false)
    else
      var (t, ok) := RunTools(env, k, carry.owner, carry.pending, UNAVAILABLE, s);
      Output(if ok then Follow(t, carry.next) else t, Plain(k), false)
  }

  function RouteAfterAgentStep(s: Snapshot, carry: Carry): Node {
    if IsTerminal(s.status) then End
    else if carry.pending != [] then ToolStep
    else AgentStep
  }

  function RouteAfterToolStep(s: Snapshot): Node {
    if IsTerminal(s.status) then End else AgentStep
  }

  /** Bounds the nodes still to be visited. */
  function Remaining(limit: nat, node: Node, carry: Carry): nat {
    2 * Max(0, limit + 1 - carry.stepIndex) + match node case End => 0 case AgentStep => 1 case ToolStep => 2
  }

  /** The graph from `node` on. An agent step past the limit ends the workflow, so the graph halts. */
  function GraphFrom(env: Env, limit: nat, node: Node, s: Snapshot, carry: Carry): (Snapshot, bool)
    decreases Remaining(limit, node, carry)
  {
    match node
    case End => (s, false)
    case AgentStep =>
      var out := AgentNode(env, limit, s, carry);
      if out.raised then (out.s, true)
      else GraphFrom(env, limit, RouteAfterAgentStep(out.s, out.carry), out.s, out.carry)
    case ToolStep =>
      var out := ToolNode(env, s, carry);
      GraphFrom(env, limit, RouteAfterToolStep(out.s), out.s, out.carry)
  }

  function Started(s: Snapshot): Snapshot {
    s.(status := Running, currentAgentId := Some(s.initialAgentId))
  }

  function RunResult(env: Env, maxGraphSteps: nat, s: Snapshot): (Snapshot, bool) {
    GraphFrom(env, Min(s.maxSteps, maxGraphSteps), AgentStep, Started(s), Plain(0))
  }

  class LangGraphOrchestrator {
    const env: Env
    const maxGraphSteps: nat

    constructor (env: Env, maxGraphSteps: nat)
      ensures this.env == env && this.maxGraphSteps == maxGraphSteps
    {
      this.env := env;
      this.maxGraphSteps := maxGraphSteps;
    }

    method RouteResult(state: OrchestratorState, k: nat, r: AgentResult) returns (carry': Carry)
      modifies state
      ensures Output(state.View(), carry', false) == Routed(k, r, old(state.View()))
    {
      carry' := Plain(k);
      if r.status == Failed {
        state.Fail(AgentFailed, []);
      } else if r.requiresHuman || r.status == NeedsReview {
        state.status := WorkflowNeedsReview;
        state.terminalReason := Some(NeedsHumanReview);
        state.currentAgentId := None;
      } else if r.toolCalls != [] {
        carry' := Carry(k, r.toolCalls, Some(r.agentId), r.nextAgentId);
      } else if r.nextAgentId.None? {
        state.status := Completed;
        state.terminalReason := Some(NaturalCompletion);
        state.currentAgentId := None;
      } else {
        state.currentAgentId := r.nextAgentId;
      }
    }

    method ExecuteAgentStep(state: OrchestratorState, carry: Carry) returns (carry': Carry, raised: bool)
      modifies state
      ensures Output(state.View(), carry', raised)
           == AgentNode(env, Min(state.maxSteps, maxGraphSteps), old(state.View()), carry)
    {
      raised := false;
      var k := carry.stepIndex + 1;
      carry' := Plain(k);
      if state.currentAgentId.None? {
        state.status := Completed;
        state.terminalReason := Some(NaturalCompletion);
        return;
      }
      var effective := Min(state.maxSteps, maxGraphSteps);
      if k > effective {
        state.status := WorkflowFailed;
        state.terminalReason := Some(MaxStepsExceeded);
        state.errors := state.errors + ["Workflow exceeded max_steps before completion."];
        return;
      }
      var agentId := state.currentAgentId.value;
      if agentId !in env.registered {
        state.status := WorkflowFailed;
        state.terminalReason := Some(AgentNotRegistered);
        state.errors := state.errors + [NotRegistered(agentId)];
        return;
      }
      match env.agents(k, agentId, state.shared)
      case Raised(message) =>
        if |message| > MAX_SUMMARY_CHARS {
          return carry, true;
        }
        state.ApplyResult(k, ExceptionResult(agentId, message));
        state.Fail(AgentException, []);
      case Returned(r) =>
        state.ApplyResult(k, r);
        carry' := RouteResult(state, k, r);
    }

    method ExecuteToolStep(state: OrchestratorState, carry: Carry) returns (carry': Carry)
      modifies state
      ensures Output(state.View(), carry', false) == ToolNode(env, old(state.View()), carry)
    {
      carry' := Plain(carry.stepIndex);
      if carry.pending == [] {
        if carry.next.None? {
          state.status := Completed;
          state.currentAgentId := None;
        } else {
          state.currentAgentId := carry.next;
        }
        return;
      }
      var ok := state.ExecuteTools(env, carry.stepIndex, carry.owner, carry.pending, UNAVAILABLE);
      if !ok {
        return;
      }
      if carry.next.None? {
        state.status := Completed;
        state.terminalReason := Some(NaturalCompletion);
        state.currentAgentId := None;
      } else {
        state.currentAgentId := carry.next;
      }
    }

    /** Visit one node and route. */
    method Advance(state: OrchestratorState, node: Node, carry: Carry)
        returns (node': Node, carry': Carry, raised: bool)
      requires node != End
      modifies state
      ensures GraphFrom(env, Min(state.maxSteps, maxGraphSteps), node, old(state.View()), carry) ==
              if raised then (state.View(), true)
              else GraphFrom(env, Min(state.maxSteps, maxGraphSteps), node', state.View(), carry')
      ensures !raised ==>
        Remaining(Min(state.maxSteps, maxGraphSteps), node', carry')
          < Remaining(Min(state.maxSteps, maxGraphSteps), node, carry)
    {
      if node == AgentStep {
        carry', raised := ExecuteAgentStep(state, carry);
        node' := RouteAfterAgentStep(state.View(), carry');
      } else {
        raised := false;
        carry' := ExecuteToolStep(state, carry);
        node' := RouteAfterToolStep(state.View());
      }
    }

    method Run(state: OrchestratorState) returns (raised: bool)
      modifies state
      ensures (state.View(), raised) == RunResult(env, maxGraphSteps, old(state.View()))
    {
      state.status := Running;
      state.currentAgentId := Some(state.initialAgentId);
      var node, carry := AgentStep, Plain(0);
      ghost var limit := Min(state.maxSteps, maxGraphSteps);
      ghost var outcome := GraphFrom(env, limit, node, state.View(), carry);
      raised := false;
      while node != End && !raised
        invariant (if raised then (state.View(), true) else GraphFrom(env, limit, node, state.View(), carry)) == outcome
        decreases !raised, Remaining(limit, node, carry)
      {
        node, carry, raised := Advance(state, node, carry);
      }
    }
  }
}
