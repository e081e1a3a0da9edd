/** When a run's history reads as a chain: each entry belongs to the agent the entry before it named. */
module Chains {
  import opened Common
  import opened Workflow
  import Simple = SimpleRunner
  import Graph = GraphRunner
  import opened Agreement
  import opened Runs

  /** The history reads as a chain from the initial agent. */
  ghost predicate Chained(initial: string, h: seq<Record>) {
    forall i :: 0 <= i < |h| ==> AskedAt(initial, h, i) == Some(h[i].agentId)
  }

  /** An agent asked this way answers under the identifier it was asked by. */
  predicate Signed(env: Env, k: nat, id: string, shared: SharedState) {
    env.agents(k, id, shared).Returned? ==> env.agents(k, id, shared).result.agentId == id
  }

  // ----- one run: its history is a chain exactly when every call it makes is signed -----

  /** The state at the head of pass j of the loop that stands at the head of pass k; none when it ends before. */
  function HeadOf(env: Env, k: nat, s: Snapshot, j: nat): Option<Snapshot>
    decreases j - k
  {
    if j <= k then Some(s)
    else
      match Simple.PassAt(env, k, s)
      case GoOn(t) => HeadOf(env, k + 1, t, j)
      case _ => None
  }

  /** The call of pass j, if the loop makes one, is signed. */
  predicate SignedAt(env: Env, k: nat, s: Snapshot, j: nat) {
    match HeadOf(env, k, s, j)
    case None => true
    case Some(t) =>
      t.currentAgentId.Some? && t.currentAgentId.value in env.registered ==>
        Signed(env, j, t.currentAgentId.value, t.shared)
  }

  ghost predicate SignedFrom(env: Env, limit: nat, k: nat, s: Snapshot) {
    forall j: nat :: k <= j <= limit ==> SignedAt(env, k, s, j)
  }

  lemma ChainedGrowsIff(initial: string, h: seq<Record>, r: Record)
    ensures Chained(initial, h + [r]) <==> Chained(initial, h) && AskedAt(initial, h, |h|) == Some(r.agentId)
  {
    var h' := h + [r];
    assert forall i :: 0 <= i <= |h| ==> AskedAt(initial, h', i) == AskedAt(initial, h, i);
    assert h'[|h|] == r && forall i :: 0 <= i < |h| ==> h'[i] == h[i];
  }

  lemma PassChainedIff(env: Env, initial: string, k: nat, s: Snapshot)
    requires Routing(initial, k, s)
    ensures Chained(initial, Simple.PassAt(env, k, s).s.runHistory) <==>
            Chained(initial, s.runHistory) && SignedAt(env, k, s, k)
  {
    var agentId := s.currentAgentId.value;
    if agentId in env.registered {
      match env.agents(k, agentId, s.shared)
      case Raised(message) =>
        ChainedGrowsIff(initial, s.runHistory, RecordOf(k, ExceptionResult(agentId, message)));
      case Returned(r) =>
        ChainedGrowsIff(initial, s.runHistory, RecordOf(k, r));
        AfterResultKeepsBooks(env, k, r, Applied(s, k, r));
    }
  }

  lemma SignedLater(env: Env, k: nat, s: Snapshot, p: Simple.Pass, next: nat, j: nat)
    requires next == k + 1 && next <= j && p == Simple.PassAt(env, k, s)
    ensures SignedAt(env, k, s, j) <==> (p.GoOn? ==> SignedAt(env, next, p.s, j))
  {
  }

  lemma SignedFromNext(env: Env, limit: nat, k: nat, s: Snapshot, p: Simple.Pass)
    requires k <= limit && p == Simple.PassAt(env, k, s)
    ensures SignedFrom(env, limit, k, s) <==> SignedAt(env, k, s, k) && (p.GoOn? ==> SignedFrom(env, limit, k + 1, p.s))
  {
    var next := k + 1;
    if SignedFrom(env, limit, k, s) {
      forall j: nat | p.GoOn? && next <= j <= limit ensures SignedAt(env, next, p.s, j) {
        SignedLater(env, k, s, p, next, j);
      }
    }
    if SignedAt(env, k, s, k) && (p.GoOn? ==> SignedFrom(env, limit, next, p.s)) {
      forall j: nat | k <= j <= limit ensures SignedAt(env, k, s, j) {
        if j > k { SignedLater(env, k, s, p, next, j); }
      }
    }
  }

  lemma {:induction false} LoopChainedIff(env: Env, limit: nat, initial: string, k: nat, s: Snapshot)
    requires Routing(initial, k, s) && k <= limit + 1
    ensures Chained(initial, Simple.LoopFrom(env, limit, k, s).0.runHistory) <==>
            Chained(initial, s.runHistory) && SignedFrom(env, limit, k, s)
    decreases limit + 1 - k
  {
    if k <= limit {
      var p := Simple.PassAt(env, k, s);
      PassRoutes(env, initial, k, s, p);
      PassAsks(env, limit, k, s, p);
      PassChainedIff(env, initial, k, s);
      SignedFromNext(env, limit, k, s, p);
      if p.GoOn? {
        LoopChainedIff(env, limit, initial, k + 1, p.s);
      }
    }
  }

  /** Every call a fresh run makes, within the limit, is signed. */
  ghost predicate SignedRun(env: Env, limit: nat, s: Snapshot) {
    SignedFrom(env, limit, 1, Simple.Started(s))
  }

  lemma LoopRunChainedIff(env: Env, s: Snapshot)
    requires Fresh(s)
    ensures Chained(s.initialAgentId, Simple.RunResult(env, s).0.runHistory) <==> SignedRun(env, s.maxSteps, s)
  {
    LoopChainedIff(env, s.maxSteps, s.initialAgentId, 1, Simple.Started(s));
  }

  lemma GraphRunChainedIff(env: Env, maxGraphSteps: nat, s: Snapshot)
    requires Fresh(s)
    ensures Chained(s.initialAgentId, Graph.RunResult(env, maxGraphSteps, s).0.runHistory) <==>
            SignedRun(env, Min(s.maxSteps, maxGraphSteps), s)
  {
    LoopChainedIff(env, Min(s.maxSteps, maxGraphSteps), s.initialAgentId, 1, Simple.Started(s));
    GraphRunIsLoopRun(env, maxGraphSteps, s);
  }

  // ----- all runs: the calls a fresh run can reach -----

  /** The fresh run of s asks `id` at step k and shows it `shared`. */
  ghost predicate Asks(env: Env, s: Snapshot, k: nat, id: string, shared: SharedState) {
    && Fresh(s) && 1 <= k <= s.maxSteps
    && var head := HeadOf(env, 1, Simple.Started(s), k);
      head.Some? && head.value.currentAgentId == Some(id) && head.value.shared == shared
  }

  ghost predicate Reachable(env: Env, k: nat, id: string, shared: SharedState) {
    exists s: Snapshot :: Asks(env, s, k, id, shared)
  }

  /** Registered agents sign every call some fresh run makes in its first `limit` steps. */
  ghost predicate SignsReachableCalls(env: Env, limit: nat) {
    forall k: nat, id, shared :: k <= limit && id in env.registered && Reachable(env, k, id, shared) ==>
      Signed(env, k, id, shared)
  }

  ghost predicate AllLoopRunsChained(env: Env) {
    forall s: Snapshot :: Fresh(s) ==> Chained(s.initialAgentId, Simple.RunResult(env, s).0.runHistory)
  }

  ghost predicate AllGraphRunsChained(env: Env, maxGraphSteps: nat) {
    forall s: Snapshot :: Fresh(s) ==> Chained(s.initialAgentId, Graph.RunResult(env, maxGraphSteps, s).0.runHistory)
  }

  lemma SigningRunIsSigned(env: Env, limit: nat, s: Snapshot)
    requires Fresh(s) && limit <= s.maxSteps && SignsReachableCalls(env, limit)
    ensures SignedRun(env, limit, s)
  {
    forall j: nat | 1 <= j <= limit ensures SignedAt(env, 1, Simple.Started(s), j) {
      var head := HeadOf(env, 1, Simple.Started(s), j);
      if head.Some? && head.value.currentAgentId.Some? {
        assert Asks(env, s, j, head.value.currentAgentId.value, head.value.shared);
      }
    }
  }

  lemma SignedRunSigns(env: Env, limit: nat, s: Snapshot, k: nat, id: string, shared: SharedState)
    requires Asks(env, s, k, id, shared) && k <= limit && id in env.registered && SignedRun(env, limit, s)
    ensures Signed(env, k, id, shared)
  {
    assert SignedAt(env, 1, Simple.Started(s), k);
  }

  lemma ChainedRunsSign(env: Env, limit: nat)
    requires AllLoopRunsChained(env)
    ensures SignsReachableCalls(env, limit)
  {
    forall k: nat, id, shared | k <= limit && id in env.registered && Reachable(env, k, id, shared)
      ensures Signed(env, k, id, shared)
    {
      var s: Snapshot :| Asks(env, s, k, id, shared);
      LoopRunChainedIff(env, s);
      SignedRunSigns(env, s.maxSteps, s, k, id, shared);
    }
  }

  /** For every system of agents: all of the loop's histories are chains if and only if registered agents sign the calls
      that fresh runs can reach.
    */
  lemma LoopRunsChainedIff(env: Env)
    ensures AllLoopRunsChained(env) <==> forall limit: nat :: SignsReachableCalls(env, limit)
  {
    if AllLoopRunsChained(env) {
      forall limit: nat ensures SignsReachableCalls(env, limit) {
        ChainedRunsSign(env, limit);
      }
    }
    if forall limit: nat :: SignsReachableCalls(env, limit) {
      forall s: Snapshot | Fresh(s) ensures Chained(s.initialAgentId, Simple.RunResult(env, s).0.runHistory) {
        LoopRunChainedIff(env, s);
        SigningRunIsSigned(env, s.maxSteps, s);
      }
    }
  }

  /** And all of the graph's, if and only if they sign those within the graph's own step limit. */
  lemma GraphRunsChainedIff(env: Env, maxGraphSteps: nat)
    ensures AllGraphRunsChained(env, maxGraphSteps) <==> SignsReachableCalls(env, maxGraphSteps)
  {
    if AllGraphRunsChained(env, maxGraphSteps) {
      forall k: nat, id, shared | k <= maxGraphSteps && id in env.registered && Reachable(env, k, id, shared)
        ensures Signed(env, k, id, shared)
      {
        var s: Snapshot :| Asks(env, s, k, id, shared);
        GraphRunChainedIff(env, maxGraphSteps, s);
        SignedRunSigns(env, Min(s.maxSteps, maxGraphSteps), s, k, id, shared);
      }
    }
    if SignsReachableCalls(env, maxGraphSteps) {
      forall s: Snapshot | Fresh(s)
        ensures Chained(s.initialAgentId, Graph.RunResult(env, maxGraphSteps, s).0.runHistory)
      {
        GraphRunChainedIff(env, maxGraphSteps, s);
        SigningRunIsSigned(env, Min(s.maxSteps, maxGraphSteps), s);
      }
    }
  }

  /** The first step can ask anyone anything. */
  lemma FirstCallsAreReachable(env: Env, id: string, shared: SharedState)
    ensures Reachable(env, 1, id, shared)
  {
    var s := Snapshot(id, None, Pending, None, [], [], None, [], shared, 1);
    assert Asks(env, s, 1, id, shared);
  }

  // ----- agents that do not depend on the step -----

  /** Registered agents sign their results with the identifier they are registered under. */
  ghost predicate Honest(env: Env) {
    forall k, id, shared :: id in env.registered ==> Signed(env, k, id, shared)
  }

  /** An agent's answer depends on what it is shown only, not on when. */
  ghost predicate StepFree(env: Env) {
    forall j, k, id, shared :: env.agents(j, id, shared) == env.agents(k, id, shared)
  }

  lemma SigningFirstCallsIsHonesty(env: Env, limit: nat)
    requires StepFree(env) && limit >= 1
    ensures Honest(env) <==> SignsReachableCalls(env, limit)
  {
    if SignsReachableCalls(env, limit) {
      forall k: nat, id, shared | id in env.registered ensures Signed(env, k, id, shared) {
        FirstCallsAreReachable(env, id, shared);
        assert Signed(env, 1, id, shared);
        assert env.agents(1, id, shared) == env.agents(k, id, shared);
      }
    }
  }

  /** For agents that do not depend on the step: every history is a chain if and only if every registered agent always
      signs with its own identifier, under either orchestrator.
    */
  lemma ChainedIffHonest(env: Env, maxGraphSteps: nat)
    requires StepFree(env) && maxGraphSteps >= 1
    ensures AllLoopRunsChained(env) <==> Honest(env)
    ensures AllGraphRunsChained(env, maxGraphSteps) <==> Honest(env)
  {
    LoopRunsChainedIff(env);
    GraphRunsChainedIff(env, maxGraphSteps);
    SigningFirstCallsIsHonesty(env, 1);
    SigningFirstCallsIsHonesty(env, maxGraphSteps);
  }

  /** Honesty is enough for any agents. */
  lemma HonestRunsAreChained(env: Env, s: Snapshot)
    requires Fresh(s) && Honest(env)
    ensures Chained(s.initialAgentId, Simple.RunResult(env, s).0.runHistory)
    ensures forall maxGraphSteps: nat :: Chained(s.initialAgentId, Graph.RunResult(env, maxGraphSteps, s).0.runHistory)
  {
    LoopRunChainedIff(env, s);
    forall maxGraphSteps: nat
      ensures Chained(s.initialAgentId, Graph.RunResult(env, maxGraphSteps, s).0.runHistory)
    {
      GraphRunChainedIff(env, maxGraphSteps, s);
    }
  }

  /** Nothing in the runner compares the two identifiers: one agent that signs as another breaks the chain. */
  lemma MissignedAnswerBreaksTheChain()
    ensures exists env: Env, s: Snapshot ::
              && Fresh(s) && s.initialAgentId in env.registered && !Simple.RunResult(env, s).1
              && !Chained(s.initialAgentId, Simple.RunResult(env, s).0.runHistory)
  {
    var answer := AgentResult("audit", Success, "", "{}", [], None, false, []);
    var env := Env({"planner"}, (_, _, _) => Returned(answer), false,
                   (_, _, _, _, _) => ToolResult("", ToolSuccess, "", []));
    var s := Snapshot("planner", None, Pending, None, [], [], None, [], SharedState(map[], map[], []), 1);
    assert Simple.PassAt(env, 1, Simple.Started(s)).Stop?;
    var h := Simple.RunResult(env, s).0.runHistory;
    assert h == [RecordOf(1, answer)];
    assert AskedAt("planner", h, 0) != Some(h[0].agentId);
  }
}
