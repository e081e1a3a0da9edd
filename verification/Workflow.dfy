/** The state both orchestrators update, and the agents and tools they call.
    Agents and tools are arbitrary functions of the step and the shared state they are shown, so every
    stateful or random agent is covered: each call happens at its own step.
  */
module Workflow {
  import opened Common

  datatype AgentStatus = Success | Failed | Partial | NeedsReview

  datatype ToolCall = ToolCall(toolName: string, arguments: string)

  datatype AgentResult = AgentResult(
    agentId: string, status: AgentStatus, summary: string, output: string,
    toolCalls: seq<ToolCall>, nextAgentId: Option<string>, requiresHuman: bool, errors: seq<string>)

  datatype AgentOutcome = Raised(message: string) | Returned(result: AgentResult)

  datatype ToolStatus = ToolSuccess | ToolFailed | ToolDenied | ToolTimeout

  datatype ToolResult = ToolResult(toolName: string, status: ToolStatus, content: string, errors: seq<string>)

  datatype SharedState = SharedState(
    agentOutputs: map<string, string>,
    toolResults: map<string, seq<ToolResult>>,
    lastToolResults: seq<ToolResult>)

  datatype Env = Env(
    registered: set<string>,
    agents: (nat, string, SharedState) -> AgentOutcome,
    hasToolExecutor: bool,
    tools: (nat, nat, string, ToolCall, SharedState) -> ToolResult)

  datatype Status = Pending | Running | Completed | WorkflowFailed | WorkflowNeedsReview

  datatype Reason =
    | NaturalCompletion | AgentFailed | AgentException | AgentNotRegistered | MaxStepsExceeded
    | NeedsHumanReview | ToolCallFailed | ToolExecutorUnavailable | ToolOwnerNotRegistered

  datatype Record = Record(
    stepIndex: nat, agentId: string, status: AgentStatus, summary: string, nextAgentId: Option<string>,
    output: string, errors: seq<string>)

  /** The fields of the orchestrator state that a run reads or writes. */
  datatype Snapshot = Snapshot(
    initialAgentId: string, currentAgentId: Option<string>, status: Status, terminalReason: Option<Reason>,
    executionPath: seq<string>, runHistory: seq<Record>, finalResult: Option<AgentResult>, errors: seq<string>,
    shared: SharedState, maxSteps: nat)

  /** The result model rejects a longer summary, so reporting such an exception raises out of the run. */
  const MAX_SUMMARY_CHARS := 2000

  predicate IsTerminal(s: Status) {
    s == Completed || s == WorkflowFailed || s == WorkflowNeedsReview
  }

  function StatusFor(r: Reason): Status {
    match r
    case NaturalCompletion => Completed
    case NeedsHumanReview => WorkflowNeedsReview
    case _ => WorkflowFailed
  }

  // ----- shared-state updates -----

  function RecordAgentOutput(shared: SharedState, agentId: string, output: string): SharedState {
    shared.(agentOutputs := shared.agentOutputs[agentId := output])
  }

  function AppendToolResult(shared: SharedState, agentId: string, result: ToolResult): SharedState {
    var before := if agentId in shared.toolResults then shared.toolResults[agentId] else [];
    shared.(toolResults := shared.toolResults[agentId := before + [result]])
  }

  function SetLastToolResults(shared: SharedState, results: seq<ToolResult>): SharedState {
    shared.(lastToolResults := results)
  }

  // ----- applying one agent result -----

  function RecordOf(stepIndex: nat, r: AgentResult): Record {
    Record(stepIndex, r.agentId, r.status, r.summary, r.nextAgentId, r.output, r.errors)
  }

  function Applied(s: Snapshot, stepIndex: nat, r: AgentResult): Snapshot {
    s.(executionPath := s.executionPath + [r.agentId],
       runHistory := s.runHistory + [RecordOf(stepIndex, r)],
       finalResult := Some(r),
       shared := RecordAgentOutput(s.shared, r.agentId, r.output),
       errors := s.errors + r.errors)
  }

  function Ended(s: Snapshot, reason: Reason): Snapshot {
    s.(status := StatusFor(reason), terminalReason := Some(reason))
  }

  function EndedIdle(s: Snapshot, reason: Reason): Snapshot {
    Ended(s, reason).(currentAgentId := None)
  }

  function ExceptionResult(agentId: string, message: string): AgentResult {
    AgentResult(agentId, Failed, message, "{}", [], None, false, [message])
  }

  function NotRegistered(agentId: string): string {
    "Agent '" + agentId + "' is not registered."
  }

  // ----- the tool loop both runners share -----

  function ToolStatusText(s: ToolStatus): string {
    match s
    case ToolSuccess => "success"
    case ToolFailed => "failed"
    case ToolDenied => "denied"
    case ToolTimeout => "timeout"
  }

  function ToolErrors(call: ToolCall, r: ToolResult): seq<string> {
    if r.errors != [] then r.errors
    else ["Tool '" + call.toolName + "' finished with status '" + ToolStatusText(r.status) + "'."]
  }

  /** What a tool loop may change when it lets the workflow go on, and when it stops it. */
  ghost predicate ToolsEffect(s: Snapshot, t: Snapshot, ok: bool) {
    && t.shared.agentOutputs == s.shared.agentOutputs
    && if ok then t == s.(shared := t.shared)
       else
         && t.status == WorkflowFailed && t.currentAgentId == None
         && t.terminalReason in {Some(ToolCallFailed), Some(ToolExecutorUnavailable), Some(ToolOwnerNotRegistered)}
         && t == s.(shared := t.shared, status := t.status, terminalReason := t.terminalReason,
                    currentAgentId := t.currentAgentId, errors := t.errors)
  }

  /** The tool calls from number i on; `executed` holds the results so far. */
  function ToolsFrom(env: Env, step: nat, owner: string, calls: seq<ToolCall>, i: nat, executed: seq<ToolResult>,
                     s: Snapshot): (r: (Snapshot, bool))
    requires i <= |calls|
    ensures ToolsEffect(s, r.0, r.1) && (!r.1 ==> r.0.terminalReason == Some(ToolCallFailed))
    decreases |calls| - i
  {
    if i == |calls| then (s.(shared := SetLastToolResults(s.shared, executed)), true) else
    var r := env.tools(step, i, owner, calls[i], s.shared);
    var done := executed + [r];
    var noted := s.(shared := AppendToolResult(s.shared, owner, r));
    if r.status != ToolSuccess then
      var failed := EndedIdle(noted, ToolCallFailed);
      (failed.(errors := failed.errors + ToolErrors(calls[i], r),
               shared := SetLastToolResults(failed.shared, done)), false)
    else ToolsFrom(env, step, owner, calls, i + 1, done, noted)
  }

  function NoOwner(owner: Option<string>): string {
    "Agent '" + (if owner.None? then "None" else owner.value) + "' is not registered for tool execution."
  }

  /** Executor and owner are checked first; `unavailable` is the runner's own wording. */
  function RunTools(env: Env, step: nat, owner: Option<string>, calls: seq<ToolCall>, unavailable: string,
                    s: Snapshot): (r: (Snapshot, bool))
    ensures ToolsEffect(s, r.0, r.1)
  {
    if !env.hasToolExecutor then
      (EndedIdle(s, ToolExecutorUnavailable).(errors := s.errors + [unavailable]), false)
    else if owner.None? || owner.value == "" || owner.value !in env.registered then
      (EndedIdle(s, ToolOwnerNotRegistered).(errors := s.errors + [NoOwner(owner)]), false)
    else ToolsFrom(env, step, owner.value, calls, 0, [], s)
  }

  class OrchestratorState {
    const initialAgentId: string
    const maxSteps: nat
    var currentAgentId: Option<string>
    var status: Status
    var terminalReason: Option<Reason>
    var executionPath: seq<string>
    var runHistory: seq<Record>
    var finalResult: Option<AgentResult>
    var errors: seq<string>
    var shared: SharedState

    function View(): Snapshot
      reads this
    {
      Snapshot(initialAgentId, currentAgentId, status, terminalReason, executionPath, runHistory, finalResult, errors,
               shared, maxSteps)
    }

    constructor (initialAgentId: string, maxSteps: nat, shared: SharedState)
      ensures View() == Snapshot(initialAgentId, None, Pending, None, [], [], None, [], shared, maxSteps)
    {
      this.initialAgentId := initialAgentId;
      this.maxSteps := maxSteps;
      this.shared := shared;
      currentAgentId, status, terminalReason := None, Pending, None;
      executionPath, runHistory, finalResult, errors := [], [], None, [];
    }

    method ApplyResult(stepIndex: nat, r: AgentResult)
      modifies this
      ensures View() == Applied(old(View()), stepIndex, r)
    {
      executionPath := executionPath + [r.agentId];
      runHistory := runHistory + [RecordOf(stepIndex, r)];
      finalResult := Some(r);
      shared := RecordAgentOutput(shared, r.agentId, r.output);
      if r.errors != [] {
        errors := errors + r.errors;
      }
    }

    method Fail(reason: Reason, more: seq<string>)
      requires StatusFor(reason) == WorkflowFailed
      modifies this
      ensures View() == EndedIdle(old(View()), reason).(errors := old(errors) + more)
    {
      status := WorkflowFailed;
      terminalReason := Some(reason);
      currentAgentId := None;
      errors := errors + more;
    }

    /** Run the tool calls of one step; false when the workflow must stop. */
    method ExecuteTools(env: Env, step: nat, owner: Option<string>, calls: seq<ToolCall>, unavailable: string)
        returns (ok: bool)
      modifies this
      ensures (View(), ok) == RunTools(env, step, owner, calls, unavailable, old(View()))
    {
      if !env.hasToolExecutor {
        Fail(ToolExecutorUnavailable, [unavailable]);
        return false;
      }
      if owner.None? || owner.value == "" || owner.value !in env.registered {
        Fail(ToolOwnerNotRegistered, [NoOwner(owner)]);
        return false;
      }
      var agentId := owner.value;
      var executed: seq<ToolResult> := [];
      ghost var outcome := ToolsFrom(env, step, agentId, calls, 0, [], View());
      for i := 0 to |calls|
        invariant ToolsFrom(env, step, agentId, calls, i, executed, View()) == outcome
      {
        var r := env.tools(step, i, agentId, calls[i], shared);
        executed := executed + [r];
        shared := AppendToolResult(shared, agentId, r);
        if r.status != ToolSuccess {
          Fail(ToolCallFailed, ToolErrors(calls[i], r));
          shared := SetLastToolResults(shared, executed);
          return false;
        }
      }
      shared := SetLastToolResults(shared, executed);
      ok := true;
    }
  }
}
