/** The loop orchestrator. */
module SimpleRunner {
  import opened Common
  import opened Workflow

  const UNAVAILABLE := "Simple orchestrator tool step requires a configured ToolExecutor."

  /** How one pass of the loop ends: next pass, leave the loop, or raise out of the run. */
  datatype Pass = GoOn(s: Snapshot) | Stop(s: Snapshot) | Abort(s: Snapshot)

  /** After an agent's result has been applied. */
  function AfterResult(env: Env, k: nat, r: AgentResult, s: Snapshot): Pass {
    if r.status == Failed then Stop(EndedIdle(s, AgentFailed))
    else if r.requiresHuman || r.status == NeedsReview then Stop(Ended(s, NeedsHumanReview))
    else
      var (t, ok) :=
        if r.toolCalls != [] then RunTools(env, k, Some(r.agentId), r.toolCalls, UNAVAILABLE, s) else (s, true);
      if !ok then Stop(t)
      else if r.nextAgentId.None? then Stop(EndedIdle(t, NaturalCompletion))
      else GoOn(t.(currentAgentId := r.nextAgentId))
  }

  function PassAt(env: Env, k: nat, s: Snapshot): Pass {
    if s.currentAgentId.None? then Stop(Ended(s, NaturalCompletion)) else
    var agentId := s.currentAgentId.value;
    if agentId !in env.registered then
      Stop(Ended(s, AgentNotRegistered).(errors := s.errors + [NotRegistered(agentId)]))
    else
      match env.agents(k, agentId, s.shared)
      case Raised(message) =>
        var failed := Ended(s, AgentException).(errors := s.errors + [message]);
        if |message| > MAX_SUMMARY_CHARS then Abort(failed)
        else Stop(Applied(failed, k, ExceptionResult(agentId, message)).(currentAgentId := None))
      case Returned(r) => AfterResult(env, k, r, Applied(s, k, r))
  }

  function OutOfSteps(s: Snapshot): Snapshot {
    Ended(s, MaxStepsExceeded).(errors := s.errors + ["Workflow exceeded max_steps before completion."])
  }

  /** The loop from pass k on, at most `limit` passes; the flag says whether the run raised. */
  function LoopFrom(env: Env, limit: nat, k: nat, s: Snapshot): (Snapshot, bool)
    decreases limit + 1 - k
  {
    if k > limit then (OutOfSteps(s), false)
    else
      match PassAt(env, k, s)
      case Stop(t) => (t, false)
      case Abort(t) => (t, true)
      case GoOn(t) => LoopFrom(env, limit, k + 1, t)
  }

  function Started(s: Snapshot): Snapshot {
    s.(status := Running, currentAgentId := Some(s.initialAgentId))
  }

  function RunResult(env: Env, s: Snapshot): (Snapshot, bool) {
    LoopFrom(env, s.maxSteps, 1, Started(s))
  }

  class SimpleOrchestrator {
    const env: Env

    constructor (env: Env)
      ensures this.env == env
    {
      this.env := env;
    }

    method FollowResult(state: OrchestratorState, k: nat, r: AgentResult) returns (goOn: bool)
      modifies state
      ensures AfterResult(env, k, r, old(state.View())) == if goOn then GoOn(state.View()) else Stop(state.View())
    {
      if r.status == Failed {
        state.Fail(AgentFailed, []);
        return false;
      }
      if r.requiresHuman || r.status == NeedsReview {
        state.status := WorkflowNeedsReview;
        state.terminalReason := Some(NeedsHumanReview);
        return false;
      }
      if r.toolCalls != [] {
        var ok := state.ExecuteTools(env, k, Some(r.agentId), r.toolCalls, UNAVAILABLE);
        if !ok {
          return false;
        }
      }
      if r.nextAgentId.None? {
        state.status := Completed;
        state.terminalReason := Some(NaturalCompletion);
        state.currentAgentId := None;
        return false;
      }
      state.currentAgentId := r.nextAgentId;
      goOn := true;
    }

    /** One pass: true when the loop goes on. */
    method RunPass(state: OrchestratorState, k: nat) returns (goOn: bool, raised: bool)
      modifies state
      ensures match PassAt(env, k, old(state.View()))
              case GoOn(t) => goOn && state.View() == t
              case Stop(t) => !goOn && !raised && state.View() == t
              case Abort(t) => !goOn && raised && state.View() == t
    {
      goOn, raised := false, false;
      if state.currentAgentId.None? {
        state.status := Completed;
        state.terminalReason := Some(NaturalCompletion);
        return;
      }
      var agentId := state.currentAgentId.value;
      if agentId !in env.registered {
        state.status := WorkflowFailed;
        state.terminalReason := Some(AgentNotRegistered);
        state.errors := state.errors + [NotRegistered(agentId)];
        return;
      }
      match env.agents(k, agentId, state.shared)
      case Raised(message) =>
        state.status := WorkflowFailed;
        state.terminalReason := Some(AgentException);
        state.errors := state.errors + [message];
        if |message| > MAX_SUMMARY_CHARS {
          raised := true;
          return;
        }
        state.ApplyResult(k, ExceptionResult(agentId, message));
        state.currentAgentId := None;
      case Returned(r) =>
        state.ApplyResult(k, r);
        goOn := FollowResult(state, k, r);
    }

    method Run(state: OrchestratorState) returns (raised: bool)
      modifies state
      ensures (state.View(), raised) == RunResult(env, old(state.View()))
    {
      state.status := Running;
      state.currentAgentId := Some(state.initialAgentId);
      ghost var outcome := LoopFrom(env, state.maxSteps, 1, state.View());
      var k := 1;
      while k <= state.maxSteps
        invariant k <= state.maxSteps + 1
        invariant LoopFrom(env, state.maxSteps, k, state.View()) == outcome
      {
        var goOn, aborted := RunPass(state, k);
        if !goOn {
          return aborted;
        }
        k := k + 1;
      }
      state.status := WorkflowFailed;
      state.terminalReason := Some(MaxStepsExceeded);
      state.errors := state.errors + ["Workflow exceeded max_steps before completion."];
      raised := false;
    }
  }
}
