/** What every run of either orchestrator keeps. */
module Runs {
  import opened Common
  import opened Workflow
  import Simple = SimpleRunner
  import Graph = GraphRunner
  import opened Agreement

  // ----- the history -----

  /** The agent asked at history position i: the initial one, then whatever the entry before it named. */
  function AskedAt(initial: string, h: seq<Record>, i: nat): Option<string> {
    if i == 0 then Some(initial) else if i <= |h| then h[i - 1].nextAgentId else None
  }

  predicate RoutedOn(r: Record) {
    r.status != Failed && r.status != NeedsReview && r.nextAgentId.Some?
  }

  ghost predicate LastOfItsAgent(h: seq<Record>, i: nat)
    requires i < |h|
  {
    forall j :: i < j < |h| ==> h[j].agentId != h[i].agentId
  }

  ghost predicate HasEntry(h: seq<Record>, agentId: string) {
    exists i :: 0 <= i < |h| && h[i].agentId == agentId
  }

  /** Each agent's latest output, over what the caller put there. */
  ghost predicate HoldsLastOutputs(before: map<string, string>, outputs: map<string, string>, h: seq<Record>) {
    && (forall id :: id in outputs <==> id in before || HasEntry(h, id))
    && (forall i :: 0 <= i < |h| && LastOfItsAgent(h, i) ==>
          h[i].agentId in outputs && outputs[h[i].agentId] == h[i].output)
    && (forall id :: id in before && !HasEntry(h, id) ==> id in outputs && outputs[id] == before[id])
  }

  ghost predicate Numbered(h: seq<Record>, path: seq<string>) {
    && |path| == |h|
    && forall i :: 0 <= i < |h| ==> h[i].stepIndex == i + 1 && path[i] == h[i].agentId
  }

  ghost predicate FinalIsLast(h: seq<Record>, final: Option<AgentResult>) {
    if h == [] then final.None? else final.Some? && RecordOf(|h|, final.value) == h[|h| - 1]
  }

  /** A run's books, started on `before`. */
  ghost predicate Chronicle(before: map<string, string>, s: Snapshot) {
    && Numbered(s.runHistory, s.executionPath)
    && FinalIsLast(s.runHistory, s.finalResult)
    && HoldsLastOutputs(before, s.shared.agentOutputs, s.runHistory)
    && forall i :: 0 <= i < |s.runHistory| - 1 ==> RoutedOn(s.runHistory[i])
  }

  ghost predicate AllRoutedOn(h: seq<Record>) {
    forall i :: 0 <= i < |h| ==> RoutedOn(h[i])
  }

  /** A state as requests build it: nothing has run yet. */
  predicate Fresh(s: Snapshot) {
    s.executionPath == [] && s.runHistory == [] && s.finalResult == None
  }

  lemma OutputsAfterOneMore(before: map<string, string>, outputs: map<string, string>, h: seq<Record>, r: Record)
    requires HoldsLastOutputs(before, outputs, h)
    ensures HoldsLastOutputs(before, outputs[r.agentId := r.output], h + [r])
  {
    var h', outputs' := h + [r], outputs[r.agentId := r.output];
    assert h'[|h|] == r;
    forall id ensures HasEntry(h', id) <==> HasEntry(h, id) || id == r.agentId {
      if HasEntry(h, id) {
        var i :| 0 <= i < |h| && h[i].agentId == id;
        assert h'[i].agentId == id;
      }
    }
    forall i | 0 <= i < |h'| && LastOfItsAgent(h', i)
      ensures h'[i].agentId in outputs' && outputs'[h'[i].agentId] == h'[i].output
    {
      if i < |h| {
        assert h'[|h|].agentId != h'[i].agentId;
        forall j | i < j < |h| ensures h[j].agentId != h[i].agentId {
          assert h'[j].agentId != h'[i].agentId;
        }
        assert LastOfItsAgent(h, i);
      }
    }
  }

  lemma ChronicleGrows(before: map<string, string>, s: Snapshot, k: nat, r: AgentResult)
    requires Chronicle(before, s) && AllRoutedOn(s.runHistory) && k == |s.runHistory| + 1
    ensures Chronicle(before, Applied(s, k, r))
  {
    OutputsAfterOneMore(before, s.shared.agentOutputs, s.runHistory, RecordOf(k, r));
  }

  // ----- at the head of pass k, and at the end -----

  ghost predicate Underway(s0: Snapshot, k: nat, s: Snapshot) {
    && k == |s.runHistory| + 1
    && AtPass(s) && s.initialAgentId == s0.initialAgentId
    && Chronicle(s0.shared.agentOutputs, s) && AllRoutedOn(s.runHistory)
    && s.currentAgentId == AskedAt(s0.initialAgentId, s.runHistory, |s.runHistory|)
  }

  /** What the recorded reason says about the last entry and the last result. */
  ghost predicate LastExplains(env: Env, last: Record, final: AgentResult, leftResults: bool, reason: Reason) {
    match reason
    case AgentFailed => last.status == Failed
    case AgentException => last.status == Failed && last.errors == [last.summary] && |last.summary| <= MAX_SUMMARY_CHARS
    case NeedsHumanReview => last.status != Failed && (final.requiresHuman || last.status == NeedsReview)
    case NaturalCompletion =>
      last.status != Failed && last.status != NeedsReview && !final.requiresHuman && last.nextAgentId.None?
    case ToolExecutorUnavailable => final.toolCalls != [] && !env.hasToolExecutor
    case ToolOwnerNotRegistered =>
      final.toolCalls != [] && env.hasToolExecutor && !(last.agentId != "" && last.agentId in env.registered)
    case ToolCallFailed => final.toolCalls != [] && env.hasToolExecutor && last.agentId in env.registered && leftResults
    case _ => false
  }

  /** What the recorded reason says about the run that ended. */
  ghost predicate Because(env: Env, limit: nat, s: Snapshot, reason: Reason) {
    var h := s.runHistory;
    match reason
    case MaxStepsExceeded => |h| == limit && AllRoutedOn(h)
    case AgentNotRegistered =>
      && |h| < limit && AllRoutedOn(h)
      && AskedAt(s.initialAgentId, h, |h|).Some? && AskedAt(s.initialAgentId, h, |h|).value !in env.registered
    case _ =>
      && 0 < |h| <= limit && s.finalResult.Some?
      && LastExplains(env, h[|h| - 1], s.finalResult.value, s.shared.lastToolResults != [], reason)
  }

  ghost predicate Finished(env: Env, limit: nat, s0: Snapshot, s: Snapshot) {
    && Chronicle(s0.shared.agentOutputs, s)
    && s.initialAgentId == s0.initialAgentId
    && s.terminalReason.Some? && IsTerminal(s.status) && s.status == StatusFor(s.terminalReason.value)
    && Because(env, limit, s, s.terminalReason.value)
  }

  // ----- one pass -----

  lemma {:induction false} FailedToolsLeaveResults(env: Env, step: nat, owner: string, calls: seq<ToolCall>, i: nat,
                                                   executed: seq<ToolResult>, s: Snapshot)
    requires i <= |calls|
    requires !ToolsFrom(env, step, owner, calls, i, executed, s).1
    ensures ToolsFrom(env, step, owner, calls, i, executed, s).0.shared.lastToolResults != []
    decreases |calls| - i
  {
    var r := env.tools(step, i, owner, calls[i], s.shared);
    if r.status == ToolSuccess {
      FailedToolsLeaveResults(env, step, owner, calls, i + 1, executed + [r],
                              s.(shared := AppendToolResult(s.shared, owner, r)));
    }
  }

  lemma ChronicleAfter(before: map<string, string>, s: Snapshot, t: Snapshot)
    requires Chronicle(before, s)
    requires t.executionPath == s.executionPath && t.runHistory == s.runHistory && t.finalResult == s.finalResult
    requires t.shared.agentOutputs == s.shared.agentOutputs
    ensures Chronicle(before, t)
  {
  }

  /** Nothing after the result is applied touches what a run leaves behind. */
  lemma AfterResultKeepsBooks(env: Env, k: nat, r: AgentResult, s: Snapshot)
    ensures var t := Simple.AfterResult(env, k, r, s).s;
      && t.executionPath == s.executionPath && t.runHistory == s.runHistory && t.finalResult == s.finalResult
      && t.shared.agentOutputs == s.shared.agentOutputs && t.initialAgentId == s.initialAgentId
  {
  }

  /** The reason recorded for leaving the loop explains itself, and otherwise the entry routes on. */
  lemma ReasonExplains(env: Env, k: nat, r: AgentResult, s: Snapshot)
    requires AtPass(s)
    ensures match Simple.AfterResult(env, k, r, s)
      case GoOn(t) => AtPass(t) && t.currentAgentId == r.nextAgentId && RoutedOn(RecordOf(k, r))
      case Stop(t) =>
        && t.terminalReason.Some? && t.status == StatusFor(t.terminalReason.value)
        && t.terminalReason != Some(AgentException)
        && LastExplains(env, RecordOf(k, r), r, t.shared.lastToolResults != [], t.terminalReason.value)
      case Abort(_) => false
  {
    if r.status != Failed && !r.requiresHuman && r.status != NeedsReview && r.toolCalls != [] {
      var ok := RunTools(env, k, Some(r.agentId), r.toolCalls, Simple.UNAVAILABLE, s).1;
      if !ok && env.hasToolExecutor && r.agentId != "" && r.agentId in env.registered {
        FailedToolsLeaveResults(env, k, r.agentId, r.toolCalls, 0, [], s);
      }
    }
  }

  lemma ResultKeeps(env: Env, limit: nat, s0: Snapshot, k: nat, r: AgentResult, s: Snapshot, p: Simple.Pass)
    requires 0 < k <= limit && |s.runHistory| == k && AtPass(s) && p == Simple.AfterResult(env, k, r, s)
    requires Chronicle(s0.shared.agentOutputs, s) && s.initialAgentId == s0.initialAgentId && s.finalResult == Some(r)
    ensures p.GoOn? ==> Underway(s0, k + 1, p.s)
    ensures !p.GoOn? ==> p.Stop? && Finished(env, limit, s0, p.s)
  {
    AfterResultKeepsBooks(env, k, r, s);
    ReasonExplains(env, k, r, s);
    ChronicleAfter(s0.shared.agentOutputs, s, p.s);
  }

  lemma PassKeeps(env: Env, limit: nat, s0: Snapshot, k: nat, s: Snapshot)
    requires Underway(s0, k, s) && k <= limit
    ensures match Simple.PassAt(env, k, s)
      case GoOn(t) => Underway(s0, k + 1, t)
      case Stop(t) => Finished(env, limit, s0, t)
      case Abort(t) => Chronicle(s0.shared.agentOutputs, t)
  {
    var agentId := s.currentAgentId.value;
    if agentId in env.registered {
      match env.agents(k, agentId, s.shared)
      case Raised(message) =>
        var failed := Ended(s, AgentException).(errors := s.errors + [message]);
        ChronicleGrows(s0.shared.agentOutputs, failed, k, ExceptionResult(agentId, message));
      case Returned(r) =>
        ChronicleGrows(s0.shared.agentOutputs, s, k, r);
        ResultKeeps(env, limit, s0, k, r, Applied(s, k, r), Simple.PassAt(env, k, s));
    }
  }

  // ----- whole runs -----

  /** The agents the loop asks, in order, from pass k on. */
  ghost function Asked(env: Env, limit: nat, k: nat, s: Snapshot): seq<string>
    decreases limit + 1 - k
  {
    if k > limit || s.currentAgentId.None? || s.currentAgentId.value !in env.registered then []
    else
      match Simple.PassAt(env, k, s)
      case GoOn(t) => [s.currentAgentId.value] + Asked(env, limit, k + 1, t)
      case _ => [s.currentAgentId.value]
  }

  ghost predicate AskedInOrder(initial: string, asked: seq<string>, from: nat, h: seq<Record>) {
    forall i :: 0 <= i < |asked| ==> AskedAt(initial, h, from + i) == Some(asked[i])
  }

  lemma {:induction false} LoopFinishes(env: Env, limit: nat, s0: Snapshot, k: nat, s: Snapshot)
    requires Underway(s0, k, s) && k <= limit + 1
    ensures var (t, raised) := Simple.LoopFrom(env, limit, k, s);
      if raised then Chronicle(s0.shared.agentOutputs, t) else Finished(env, limit, s0, t)
    decreases limit + 1 - k
  {
    if k <= limit {
      PassKeeps(env, limit, s0, k, s);
      match Simple.PassAt(env, k, s)
      case GoOn(t) => LoopFinishes(env, limit, s0, k + 1, t);
      case Stop(_) =>
      case Abort(_) =>
    } else {
      ChronicleAfter(s0.shared.agentOutputs, s, Simple.OutOfSteps(s));
    }
  }

  /** The agents asked are those the history names, and a run that raises has asked one more. */
  ghost predicate AskedMatches(initial: string, asked: seq<string>, from: nat, h: seq<Record>, raised: bool) {
    |h| + (if raised then 1 else 0) == from + |asked| && AskedInOrder(initial, asked, from, h)
  }

  /** The routing half of what holds at the head of pass k. */
  ghost predicate Routing(initial: string, k: nat, s: Snapshot) {
    k == |s.runHistory| + 1 && AtPass(s) && s.currentAgentId == AskedAt(initial, s.runHistory, |s.runHistory|)
  }

  lemma PassRoutes(env: Env, initial: string, k: nat, s: Snapshot, p: Simple.Pass)
    requires Routing(initial, k, s) && p == Simple.PassAt(env, k, s)
    ensures s.currentAgentId.value in env.registered && !p.Abort? ==>
              |p.s.runHistory| == k && p.s.runHistory[..k - 1] == s.runHistory
    ensures s.currentAgentId.value !in env.registered || p.Abort? ==> p.s.runHistory == s.runHistory && !p.GoOn?
    ensures p.GoOn? ==> Routing(initial, k + 1, p.s)
    ensures p.Abort? ==> s.currentAgentId.value in env.registered
  {
    var agentId := s.currentAgentId.value;
    if agentId in env.registered && env.agents(k, agentId, s.shared).Returned? {
      var r := env.agents(k, agentId, s.shared).result;
      AfterResultKeepsBooks(env, k, r, Applied(s, k, r));
      ReasonExplains(env, k, r, Applied(s, k, r));
    }
  }

  lemma AskedOneMore(initial: string, first: string, rest: seq<string>, from: nat, h: seq<Record>)
    requires from < |h| && AskedAt(initial, h, from) == Some(first)
    requires AskedInOrder(initial, rest, from + 1, h)
    ensures AskedInOrder(initial, [first] + rest, from, h)
  {
    var asked := [first] + rest;
    forall i | 0 <= i < |asked| ensures AskedAt(initial, h, from + i) == Some(asked[i]) {
      if i > 0 {
        assert AskedAt(initial, h, from + 1 + (i - 1)) == Some(rest[i - 1]);
      }
    }
  }

  /** A pass that goes on, then the rest of the run. */
  lemma AsksThenRest(initial: string, k: nat, before: seq<Record>, first: string, middle: seq<Record>,
                     rest: seq<string>, h: seq<Record>, raised: bool)
    requires k == |before| + 1 && AskedAt(initial, before, |before|) == Some(first)
    requires |middle| == k && middle[..k - 1] == before
    requires |h| >= k && h[..k] == middle && AskedMatches(initial, rest, k, h, raised)
    ensures h[..k - 1] == before && AskedMatches(initial, [first] + rest, k - 1, h, raised)
  {
    assert h[..k - 1] == middle[..k - 1];
    if k > 1 {
      assert h[k - 2] == before[k - 2];
    }
    AskedOneMore(initial, first, rest, k - 1, h);
  }

  /** A pass that ends the run. */
  lemma AsksAndEnds(initial: string, k: nat, before: seq<Record>, asked: seq<string>, h: seq<Record>, raised: bool)
    requires k == |before| + 1 && |h| + (if raised then 1 else 0) == k - 1 + |asked|
    requires |h| >= k - 1 && h[..k - 1] == before && |asked| <= 1
    requires asked != [] ==> AskedAt(initial, before, |before|) == Some(asked[0])
    ensures AskedMatches(initial, asked, k - 1, h, raised)
  {
    if k > 1 {
      assert h[k - 2] == before[k - 2];
    }
  }

  lemma PassAsks(env: Env, limit: nat, k: nat, s: Snapshot, p: Simple.Pass)
    requires k <= limit && s.currentAgentId.Some? && p == Simple.PassAt(env, k, s)
    ensures Simple.LoopFrom(env, limit, k, s)
         == if p.GoOn? then Simple.LoopFrom(env, limit, k + 1, p.s) else (p.s, p.Abort?)
    ensures s.currentAgentId.value !in env.registered ==> Asked(env, limit, k, s) == []
    ensures s.currentAgentId.value in env.registered ==>
              Asked(env, limit, k, s)
                == [s.currentAgentId.value] + if p.GoOn? then Asked(env, limit, k + 1, p.s) else []
  {
  }

  /** From the head of pass k: what was asked from here on is what the final history says. */
  ghost predicate AsksFrom(env: Env, limit: nat, initial: string, k: nat, s: Snapshot)
    requires k > 0
  {
    var (t, raised) := Simple.LoopFrom(env, limit, k, s);
    && |t.runHistory| >= k - 1 && t.runHistory[..k - 1] == s.runHistory
    && AskedMatches(initial, Asked(env, limit, k, s), k - 1, t.runHistory, raised)
  }

  lemma GoingOnAsks(env: Env, limit: nat, initial: string, k: nat, s: Snapshot, p: Simple.Pass)
    requires Routing(initial, k, s) && k <= limit && p == Simple.PassAt(env, k, s) && p.GoOn?
    requires AsksFrom(env, limit, initial, k + 1, p.s)
    ensures AsksFrom(env, limit, initial, k, s)
  {
    PassRoutes(env, initial, k, s, p);
    PassAsks(env, limit, k, s, p);
    var (u, raised) := Simple.LoopFrom(env, limit, k + 1, p.s);
    AsksThenRest(initial, k, s.runHistory, s.currentAgentId.value, p.s.runHistory, Asked(env, limit, k + 1, p.s),
                 u.runHistory, raised);
  }

  lemma EndingAsks(env: Env, limit: nat, initial: string, k: nat, s: Snapshot, p: Simple.Pass)
    requires Routing(initial, k, s) && k <= limit && p == Simple.PassAt(env, k, s) && !p.GoOn?
    ensures AsksFrom(env, limit, initial, k, s)
  {
    PassRoutes(env, initial, k, s, p);
    PassAsks(env, limit, k, s, p);
    AsksAndEnds(initial, k, s.runHistory, Asked(env, limit, k, s), p.s.runHistory, p.Abort?);
  }

  lemma {:induction false} LoopAsks(env: Env, limit: nat, initial: string, k: nat, s: Snapshot)
    requires Routing(initial, k, s) && k <= limit + 1
    ensures AsksFrom(env, limit, initial, k, s)
    decreases limit + 1 - k
  {
    if k <= limit {
      var p := Simple.PassAt(env, k, s);
      PassRoutes(env, initial, k, s, p);
      if p.GoOn? {
        LoopAsks(env, limit, initial, k + 1, p.s);
        GoingOnAsks(env, limit, initial, k, s, p);
      } else {
        EndingAsks(env, limit, initial, k, s, p);
      }
    }
  }

  lemma {:induction false} AskedAtMostLimit(env: Env, limit: nat, k: nat, s: Snapshot)
    requires k > 0
    ensures |Asked(env, limit, k, s)| <= Max(0, limit + 1 - k)
    decreases limit + 1 - k
  {
    if k <= limit && s.currentAgentId.Some? && s.currentAgentId.value in env.registered {
      match Simple.PassAt(env, k, s)
      case GoOn(t) => AskedAtMostLimit(env, limit, k + 1, t);
      case _ =>
    }
  }

  /** Every run of the loop that does not raise ends with a terminal status fixed by its reason, at most max_steps
      entries numbered from 1, and the books in order. The agents it asks are the initial one and then the one each
      entry names. */
  lemma EveryLoopRunFinishes(env: Env, s: Snapshot)
    requires Fresh(s)
    ensures var (t, raised) := Simple.RunResult(env, s);
      var asked := Asked(env, s.maxSteps, 1, Simple.Started(s));
      && |t.runHistory| <= s.maxSteps
      && (if raised then Chronicle(s.shared.agentOutputs, t) else Finished(env, s.maxSteps, s, t))
      && |asked| == |t.runHistory| + (if raised then 1 else 0)
      && AskedInOrder(s.initialAgentId, asked, 0, t.runHistory)
  {
    LoopFinishes(env, s.maxSteps, s, 1, Simple.Started(s));
    LoopAsks(env, s.maxSteps, s.initialAgentId, 1, Simple.Started(s));
    AskedAtMostLimit(env, s.maxSteps, 1, Simple.Started(s));
  }

  lemma SameWorkSameBooks(env: Env, limit: nat, s0: Snapshot, a: Snapshot, b: Snapshot)
    requires SameWork(a, b)
    ensures Chronicle(s0.shared.agentOutputs, a) ==> Chronicle(s0.shared.agentOutputs, b)
    ensures Finished(env, limit, s0, a) && SameEnd(a, b) ==> Finished(env, limit, s0, b)
  {
  }

  /** The agents the graph asks, in order, from `node` on. */
  ghost function GraphAsked(env: Env, limit: nat, node: Graph.Node, s: Snapshot, carry: Graph.Carry): seq<string>
    decreases Graph.Remaining(limit, node, carry)
  {
    match node
    case End => []
    case AgentStep =>
      var out := Graph.AgentNode(env, limit, s, carry);
      var asked := if s.currentAgentId.Some? && carry.stepIndex < limit && s.currentAgentId.value in env.registered
                   then [s.currentAgentId.value] else [];
      if out.raised then asked
      else asked + GraphAsked(env, limit, Graph.RouteAfterAgentStep(out.s, out.carry), out.s, out.carry)
    case ToolStep =>
      var out := Graph.ToolNode(env, s, carry);
      GraphAsked(env, limit, Graph.RouteAfterToolStep(out.s), out.s, out.carry)
  }

  lemma RestAsks(env: Env, limit: nat, k: nat, a: Graph.Output)
    requires k <= limit && !a.raised && (a.carry == Graph.Plain(k) || (a.carry.stepIndex == k && a.carry.pending != []))
    ensures var rest := AfterAgentNode(env, a);
      GraphAsked(env, limit, Graph.RouteAfterAgentStep(a.s, a.carry), a.s, a.carry) ==
        if rest.GoOn? then GraphAsked(env, limit, Graph.AgentStep, rest.s, Graph.Plain(k)) else []
  {
    if Graph.RouteAfterAgentStep(a.s, a.carry) == Graph.ToolStep {
      var t := Graph.ToolNode(env, a.s, a.carry);
      assert t.carry == Graph.Plain(k);
    }
  }

  /** One trip through the graph asks one agent at most, in its agent node. */
  lemma TripAsks(env: Env, limit: nat, k: nat, s: Snapshot)
    requires 0 < k <= limit && s.currentAgentId.Some?
    ensures var trip := Trip(env, limit, k, s);
      GraphAsked(env, limit, Graph.AgentStep, s, Graph.Plain(k - 1)) ==
        (if s.currentAgentId.value in env.registered then [s.currentAgentId.value] else [])
        + if trip.GoOn? then GraphAsked(env, limit, Graph.AgentStep, trip.s, Graph.Plain(k)) else []
  {
    var a := Graph.AgentNode(env, limit, s, Graph.Plain(k - 1));
    AgentNodeCarry(env, limit, k, s);
    if !a.raised {
      RestAsks(env, limit, k, a);
    }
  }

  /** The graph asks the agents the loop asks. */
  lemma {:induction false} GraphAsksTheSame(env: Env, limit: nat, k: nat, s: Snapshot)
    requires AtPass(s) && 0 < k <= limit + 1
    ensures GraphAsked(env, limit, Graph.AgentStep, s, Graph.Plain(k - 1)) == Asked(env, limit, k, s)
    decreases limit + 1 - k
  {
    if k <= limit {
      var p := Simple.PassAt(env, k, s);
      TripAsks(env, limit, k, s);
      TripMatchesPass(env, limit, k, s);
      PassAsks(env, limit, k, s, p);
      if p.GoOn? {
        GraphAsksTheSame(env, limit, k + 1, p.s);
      }
      if s.currentAgentId.value !in env.registered {
        assert p.Stop?;
      }
    }
  }

  /** The graph runner's runs keep the same books and ask the same agents, with the smaller of the two step limits. */
  lemma EveryGraphRunFinishes(env: Env, maxGraphSteps: nat, s: Snapshot)
    requires Fresh(s)
    ensures var (t, raised) := Graph.RunResult(env, maxGraphSteps, s); var limit := Min(s.maxSteps, maxGraphSteps);
      var asked := GraphAsked(env, limit, Graph.AgentStep, Graph.Started(s), Graph.Plain(0));
      && |t.runHistory| <= limit
      && (if raised then Chronicle(s.shared.agentOutputs, t) else Finished(env, limit, s, t))
      && |asked| == |t.runHistory| + (if raised then 1 else 0)
      && AskedInOrder(s.initialAgentId, asked, 0, t.runHistory)
  {
    var limit := Min(s.maxSteps, maxGraphSteps);
    var (loop, raised) := Simple.LoopFrom(env, limit, 1, Simple.Started(s));
    LoopFinishes(env, limit, s, 1, Simple.Started(s));
    LoopAsks(env, limit, s.initialAgentId, 1, Simple.Started(s));
    AskedAtMostLimit(env, limit, 1, Simple.Started(s));
    GraphRunIsLoopRun(env, maxGraphSteps, s);
    GraphAsksTheSame(env, limit, 1, Simple.Started(s));
    SameWorkSameBooks(env, limit, s, loop, Graph.RunResult(env, maxGraphSteps, s).0);
  }
}
