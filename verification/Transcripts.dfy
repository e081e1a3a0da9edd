/** A run is its transcript: which agent was asked at each step, what it was shown, what it and its tools answered, and
    nothing else decides what the run leaves behind.
  */
module Transcripts {
  import opened Common
  import opened Workflow
  import Simple = SimpleRunner
  import Graph = GraphRunner
  import opened Agreement
  import opened Runs

  /** One tool call: the shared state it was shown and what it returned. */
  datatype ToolVisit = ToolVisit(shown: SharedState, result: ToolResult)

  /** One step: the agent asked, the shared state it was shown, its answer, and the tool calls made for it. */
  datatype Visit = Visit(asked: string, shown: SharedState, answer: AgentResult, tools: seq<ToolVisit>)

  // ----- one tool step -----

  function ResultsOf(shared: SharedState, id: string): seq<ToolResult> {
    if id in shared.toolResults then shared.toolResults[id] else []
  }

  function ResultsIn(tools: seq<ToolVisit>): (r: seq<ToolResult>)
    ensures |r| == |tools| && forall i :: 0 <= i < |r| ==> r[i] == tools[i].result
  {
    seq(|tools|, i requires 0 <= i < |tools| => tools[i].result)
  }

  /** From a to b the agent's own list of tool results grew by `more`, and nothing else changed. */
  ghost predicate Extends(a: SharedState, b: SharedState, id: string, more: seq<ToolResult>) {
    && b.agentOutputs == a.agentOutputs && b.lastToolResults == a.lastToolResults
    && ResultsOf(b, id) == ResultsOf(a, id) + more
    && (id in b.toolResults <==> id in a.toolResults || more != [])
    && forall other :: other != id ==>
         (other in b.toolResults <==> other in a.toolResults) && ResultsOf(b, other) == ResultsOf(a, other)
  }

  ghost predicate AllSucceed(tools: seq<ToolVisit>) {
    forall i :: 0 <= i < |tools| ==> tools[i].result.status == ToolSuccess
  }

  /** The tools answered the first calls in turn, each shown what the ones before it had left. */
  ghost predicate CalledInTurn(env: Env, step: nat, owner: string, calls: seq<ToolCall>, base: SharedState,
                               tools: seq<ToolVisit>)
  {
    && |tools| <= |calls|
    && forall i :: 0 <= i < |tools| ==>
         && tools[i].result == env.tools(step, i, owner, calls[i], tools[i].shown)
         && Extends(base, tools[i].shown, owner, ResultsIn(tools[..i]))
  }

  /** All calls were made, or those up to the first that did not succeed. */
  ghost predicate UpToTheFirstFailure(calls: seq<ToolCall>, tools: seq<ToolVisit>) {
    && |tools| <= |calls| && (tools == [] <==> calls == [])
    && (tools != [] ==> AllSucceed(tools[..|tools| - 1]))
    && (|tools| < |calls| ==> tools != [] && tools[|tools| - 1].result.status != ToolSuccess)
  }

  /** What a tool step leaves of the shared state. */
  ghost predicate Leaves(base: SharedState, after: SharedState, owner: string, tools: seq<ToolVisit>) {
    && Extends(base, after.(lastToolResults := base.lastToolResults), owner, ResultsIn(tools))
    && after.lastToolResults == ResultsIn(tools)
  }

  /** The messages a failed tool leaves: its own, or one of the runner's. */
  ghost predicate ReportsFailure(errors: seq<string>, r: ToolResult) {
    if r.errors != [] then errors == r.errors else |errors| == 1
  }

  lemma ExtendsMore(a: SharedState, b: SharedState, id: string, results: seq<ToolResult>, r: ToolResult)
    requires Extends(a, b, id, results)
    ensures Extends(a, AppendToolResult(b, id, r), id, results + [r])
  {
    assert ResultsOf(a, id) + results + [r] == ResultsOf(a, id) + (results + [r]);
  }

  lemma CalledOnce(env: Env, step: nat, owner: string, calls: seq<ToolCall>, base: SharedState, done: seq<ToolVisit>,
                   v: ToolVisit)
    requires |done| < |calls| && CalledInTurn(env, step, owner, calls, base, done)
    requires v.result == env.tools(step, |done|, owner, calls[|done|], v.shown)
    requires Extends(base, v.shown, owner, ResultsIn(done))
    ensures CalledInTurn(env, step, owner, calls, base, done + [v])
    ensures ResultsIn(done + [v]) == ResultsIn(done) + [v.result]
  {
    var tools := done + [v];
    forall i | 0 <= i < |tools|
      ensures tools[i].result == env.tools(step, i, owner, calls[i], tools[i].shown)
           && Extends(base, tools[i].shown, owner, ResultsIn(tools[..i]))
    {
      if i < |done| {
        assert tools[i] == done[i] && tools[..i] == done[..i];
      } else {
        assert tools[..i] == done;
      }
    }
  }

  lemma FailureEndsTheCalls(calls: seq<ToolCall>, done: seq<ToolVisit>, v: ToolVisit)
    requires |done| < |calls| && AllSucceed(done) && v.result.status != ToolSuccess
    ensures UpToTheFirstFailure(calls, done + [v]) && !AllSucceed(done + [v])
  {
    var tools := done + [v];
    assert tools[..|tools| - 1] == done && tools[|done|] == v;
  }

  /** How the tool loop ended: what it called, what that left, and what it added to the errors. */
  ghost predicate ToolsEnd(env: Env, step: nat, owner: string, calls: seq<ToolCall>, base: SharedState,
                           tools: seq<ToolVisit>, before: seq<string>, more: seq<string>, t: Snapshot, ok: bool)
  {
    && CalledInTurn(env, step, owner, calls, base, tools) && UpToTheFirstFailure(calls, tools)
    && Leaves(base, t.shared, owner, tools)
    && (ok <==> |tools| == |calls| && AllSucceed(tools))
    && t.errors == before + more
    && if ok then more == [] else tools != [] && ReportsFailure(more, tools[|tools| - 1].result)
  }

  lemma AllCallsMade(env: Env, step: nat, owner: string, calls: seq<ToolCall>, base: SharedState, done: seq<ToolVisit>,
                     s: Snapshot)
    requires CalledInTurn(env, step, owner, calls, base, done) && AllSucceed(done) && |done| == |calls|
    requires Extends(base, s.shared, owner, ResultsIn(done))
    ensures ToolsEnd(env, step, owner, calls, base, done, s.errors, [],
                     s.(shared := SetLastToolResults(s.shared, ResultsIn(done))), true)
  {
    assert s.errors + [] == s.errors;
  }

  lemma CallFails(env: Env, step: nat, owner: string, calls: seq<ToolCall>, base: SharedState, done: seq<ToolVisit>,
                  v: ToolVisit, s: Snapshot, t: Snapshot, more: seq<string>)
    requires |done| < |calls| && AllSucceed(done) && v.result.status != ToolSuccess
    requires CalledInTurn(env, step, owner, calls, base, done + [v])
    requires Extends(base, s.shared, owner, ResultsIn(done) + [v.result])
    requires ResultsIn(done + [v]) == ResultsIn(done) + [v.result]
    requires t.shared == SetLastToolResults(s.shared, ResultsIn(done) + [v.result]) && t.errors == s.errors + more
    requires ReportsFailure(more, v.result)
    ensures ToolsEnd(env, step, owner, calls, base, done + [v], s.errors, more, t, false)
  {
    FailureEndsTheCalls(calls, done, v);
  }

  /** The tool loop from call number |done| on. */
  lemma {:induction false} ToolLoopLeaves(env: Env, step: nat, owner: string, calls: seq<ToolCall>, base: SharedState,
                                          done: seq<ToolVisit>, s: Snapshot)
      returns (tools: seq<ToolVisit>, more: seq<string>)
    requires CalledInTurn(env, step, owner, calls, base, done) && AllSucceed(done)
    requires Extends(base, s.shared, owner, ResultsIn(done))
    ensures var (t, ok) := ToolsFrom(env, step, owner, calls, |done|, ResultsIn(done), s);
      ToolsEnd(env, step, owner, calls, base, tools, s.errors, more, t, ok)
    decreases |calls| - |done|
  {
    var n := |done|;
    if n == |calls| {
      tools, more := done, [];
      AllCallsMade(env, step, owner, calls, base, done, s);
    } else {
      var r := env.tools(step, n, owner, calls[n], s.shared);
      var v, noted := ToolVisit(s.shared, r), s.(shared := AppendToolResult(s.shared, owner, r));
      CalledOnce(env, step, owner, calls, base, done, v);
      ExtendsMore(base, s.shared, owner, ResultsIn(done), r);
      if r.status == ToolSuccess {
        tools, more := ToolLoopLeaves(env, step, owner, calls, base, done + [v], noted);
      } else {
        tools, more := done + [v], ToolErrors(calls[n], r);
        var t := ToolsFrom(env, step, owner, calls, n, ResultsIn(done), s).0;
        CallFails(env, step, owner, calls, base, done, v, noted, t, more);
      }
    }
  }

  /** What a tool step leaves behind, for any calls: one result per call made, in order, each returned for the state its
      call was shown; they are the last results, they extend the owner's list, and nobody else's changes.
    */
  lemma ToolStepLeaves(env: Env, step: nat, owner: string, calls: seq<ToolCall>, unavailable: string, s: Snapshot)
      returns (tools: seq<ToolVisit>, more: seq<string>)
    requires env.hasToolExecutor && owner != "" && owner in env.registered
    ensures var (t, ok) := RunTools(env, step, Some(owner), calls, unavailable, s);
      ToolsEnd(env, step, owner, calls, s.shared, tools, s.errors, more, t, ok)
  {
    assert ResultsOf(s.shared, owner) + [] == ResultsOf(s.shared, owner);
    assert ResultsIn([]) == [];
    tools, more := ToolLoopLeaves(env, step, owner, calls, s.shared, [], s);
  }

  // ----- one step -----

  /** What the agent asked answered; an exception is reported in its place. */
  ghost predicate Answers(env: Env, step: nat, v: Visit) {
    match env.agents(step, v.asked, v.shown)
    case Returned(r) => v.answer == r
    case Raised(message) =>
      |message| <= 2000 && v.answer == AgentResult(v.asked, Failed, message, "{}", [], None, false, [message])
  }

  /** The answer stops the run where it is. */
  predicate StopsAtOnce(r: AgentResult) {
    r.status == Failed || r.requiresHuman || r.status == NeedsReview
  }

  /** The tools that were called for the answer, given the shared state with its output recorded. */
  ghost predicate ToolsCalled(env: Env, step: nat, v: Visit, base: SharedState) {
    if StopsAtOnce(v.answer) || v.answer.toolCalls == [] || !env.hasToolExecutor || v.answer.agentId == ""
       || v.answer.agentId !in env.registered
    then v.tools == []
    else
      && CalledInTurn(env, step, v.answer.agentId, v.answer.toolCalls, base, v.tools)
      && UpToTheFirstFailure(v.answer.toolCalls, v.tools)
  }

  /** The answer's output is recorded under the agent it names. */
  function WithOutput(shared: SharedState, r: AgentResult): SharedState {
    shared.(agentOutputs := shared.agentOutputs[r.agentId := r.output])
  }

  /** The shared state after the step. */
  ghost predicate LeftBy(v: Visit, after: SharedState) {
    if v.tools == [] then after == WithOutput(v.shown, v.answer)
    else Leaves(WithOutput(v.shown, v.answer), after, v.answer.agentId, v.tools)
  }

  ghost predicate VisitOk(env: Env, step: nat, v: Visit) {
    && v.asked in env.registered && Answers(env, step, v)
    && ToolsCalled(env, step, v, WithOutput(v.shown, v.answer))
  }

  /** The run goes on to the agent the answer names. */
  ghost predicate GoesOn(v: Visit) {
    && !StopsAtOnce(v.answer) && v.answer.nextAgentId.Some?
    && |v.tools| == |v.answer.toolCalls| && AllSucceed(v.tools)
  }

  /** The history entry tells the answer. */
  ghost predicate Tells(entry: Record, step: nat, r: AgentResult) {
    && entry.stepIndex == step && entry.agentId == r.agentId && entry.status == r.status && entry.summary == r.summary
    && entry.nextAgentId == r.nextAgentId && entry.output == r.output && entry.errors == r.errors
  }

  // ----- a whole run -----

  /** The state shown at step i + 1, or left at the end. */
  function ShownAt(visits: seq<Visit>, i: nat, end: SharedState): SharedState {
    if i < |visits| then visits[i].shown else end
  }

  /** Step i + 1 is in order, its entry tells it, and the next step is shown what it left. */
  ghost predicate StepAt(env: Env, visits: seq<Visit>, i: nat, entry: Record, end: SharedState)
    requires i < |visits|
  {
    && VisitOk(env, i + 1, visits[i]) && Tells(entry, i + 1, visits[i].answer)
    && LeftBy(visits[i], ShownAt(visits, i + 1, end))
  }

  /** Step i + 1 names the agent that step i + 2 asks. */
  ghost predicate HandsOver(visits: seq<Visit>, i: nat)
    requires i < |visits| - 1
  {
    GoesOn(visits[i]) && visits[i].answer.nextAgentId == Some(visits[i + 1].asked)
  }

  /** The steps of a run that started on s0, in order, with the state t they have led to. */
  ghost predicate Transcript(env: Env, s0: Snapshot, visits: seq<Visit>, t: Snapshot) {
    && |t.runHistory| == |visits|
    && ShownAt(visits, 0, t.shared) == s0.shared
    && (visits != [] ==> visits[0].asked == s0.initialAgentId)
    && t.finalResult == (if visits == [] then None else Some(visits[|visits| - 1].answer))
    && (forall i :: 0 <= i < |visits| ==> StepAt(env, visits, i, t.runHistory[i], t.shared))
    && (forall i :: 0 <= i < |visits| - 1 ==> HandsOver(visits, i))
  }

  /** At the head of a pass: every step so far has gone on, and the agent to be asked is the one named last. */
  ghost predicate GoingOn(env: Env, s0: Snapshot, visits: seq<Visit>, s: Snapshot) {
    && Transcript(env, s0, visits, s) && AtPass(s)
    && s.currentAgentId
         == (if visits == [] then Some(s0.initialAgentId) else visits[|visits| - 1].answer.nextAgentId)
    && (visits != [] ==> GoesOn(visits[|visits| - 1]))
  }

  lemma EarlierStepStays(env: Env, s0: Snapshot, visits: seq<Visit>, s: Snapshot, v: Visit, end: SharedState, i: nat)
    requires Transcript(env, s0, visits, s) && v.shown == s.shared && i < |visits|
    ensures StepAt(env, visits + [v], i, s.runHistory[i], end)
  {
    var next := i + 1;
    assert StepAt(env, visits, i, s.runHistory[i], s.shared);
    assert ShownAt(visits + [v], next, end) == ShownAt(visits, next, s.shared);
  }

  lemma NewStepStands(env: Env, visits: seq<Visit>, v: Visit, entry: Record, end: SharedState)
    requires VisitOk(env, |visits| + 1, v) && Tells(entry, |visits| + 1, v.answer) && LeftBy(v, end)
    ensures StepAt(env, visits + [v], |visits|, entry, end)
  {
  }

  lemma HandoversGrow(visits: seq<Visit>, v: Visit, i: nat)
    requires i < |visits| && (i < |visits| - 1 ==> HandsOver(visits, i))
    requires i == |visits| - 1 ==> GoesOn(visits[i]) && visits[i].answer.nextAgentId == Some(v.asked)
    ensures HandsOver(visits + [v], i)
  {
    assert i < |visits| - 1 ==> (visits + [v])[i + 1] == visits[i + 1];
  }

  lemma StepsGrow(env: Env, s0: Snapshot, visits: seq<Visit>, s: Snapshot, v: Visit, t: Snapshot)
    requires Transcript(env, s0, visits, s) && v.shown == s.shared
    requires VisitOk(env, |visits| + 1, v) && LeftBy(v, t.shared)
    requires |t.runHistory| == |visits| + 1 && t.runHistory[..|visits|] == s.runHistory
    requires Tells(t.runHistory[|visits|], |visits| + 1, v.answer)
    ensures forall i :: 0 <= i < |visits| + 1 ==> StepAt(env, visits + [v], i, t.runHistory[i], t.shared)
  {
    var n := |visits|;
    NewStepStands(env, visits, v, t.runHistory[n], t.shared);
    forall i | 0 <= i < n ensures StepAt(env, visits + [v], i, t.runHistory[i], t.shared) {
      EarlierStepStays(env, s0, visits, s, v, t.shared, i);
      assert t.runHistory[i] == t.runHistory[..n][i];
    }
  }

  lemma AllHandOver(env: Env, s0: Snapshot, visits: seq<Visit>, s: Snapshot, v: Visit)
    requires GoingOn(env, s0, visits, s) && Some(v.asked) == s.currentAgentId
    ensures forall i :: 0 <= i < |visits| ==> HandsOver(visits + [v], i)
  {
    forall i | 0 <= i < |visits| ensures HandsOver(visits + [v], i) {
      HandoversGrow(visits, v, i);
    }
  }

  /** One more step. */
  lemma TranscriptGrows(env: Env, s0: Snapshot, visits: seq<Visit>, s: Snapshot, v: Visit, t: Snapshot)
    requires GoingOn(env, s0, visits, s) && Some(v.asked) == s.currentAgentId && v.shown == s.shared
    requires VisitOk(env, |visits| + 1, v) && LeftBy(v, t.shared)
    requires |t.runHistory| == |visits| + 1 && t.runHistory[..|visits|] == s.runHistory
    requires Tells(t.runHistory[|visits|], |visits| + 1, v.answer) && t.finalResult == Some(v.answer)
    ensures Transcript(env, s0, visits + [v], t)
  {
    StepsGrow(env, s0, visits, s, v, t);
    AllHandOver(env, s0, visits, s, v);
  }

  /** What the way an answered step ended the loop adds to the errors. */
  ghost predicate EndingFits(last: Visit, ending: seq<string>, reason: Reason) {
    match reason
    case NaturalCompletion => ending == []
    case AgentFailed => ending == []
    case NeedsHumanReview => ending == []
    case AgentException => ending == last.answer.errors
    case ToolCallFailed => last.tools != [] && ReportsFailure(ending, last.tools[|last.tools| - 1].result)
    case _ => |ending| == 1
  }

  /** The same for a run, which may also have ended before any agent answered. */
  ghost predicate RunEndsWith(visits: seq<Visit>, ending: seq<string>, reason: Reason) {
    if visits == [] then reason in {MaxStepsExceeded, AgentNotRegistered} && |ending| == 1
    else EndingFits(visits[|visits| - 1], ending, reason)
  }

  /** What follows an applied answer in the loop: the tools it calls, and where the run goes from there. */
  lemma AnswerIsFollowed(env: Env, k: nat, asked: string, shown: SharedState, r: AgentResult, s: Snapshot)
      returns (v: Visit, more: seq<string>)
    requires AtPass(s) && s.shared == WithOutput(shown, r)
    ensures v.asked == asked && v.shown == shown && v.answer == r
    ensures ToolsCalled(env, k, v, WithOutput(shown, r)) && LeftBy(v, Simple.AfterResult(env, k, r, s).s.shared)
    ensures Simple.AfterResult(env, k, r, s).GoOn? <==> GoesOn(v)
    ensures Simple.AfterResult(env, k, r, s).s.errors == s.errors + more
    ensures Simple.AfterResult(env, k, r, s).GoOn? ==> more == []
    ensures var p := Simple.AfterResult(env, k, r, s);
      p.Stop? ==> p.s.terminalReason.Some? && EndingFits(v, more, p.s.terminalReason.value)
  {
    if StopsAtOnce(r) || r.toolCalls == [] {
      v, more := Visit(asked, shown, r, []), [];
    } else if !env.hasToolExecutor || r.agentId == "" || r.agentId !in env.registered {
      v := Visit(asked, shown, r, []);
      more := if !env.hasToolExecutor then [Simple.UNAVAILABLE] else [NoOwner(Some(r.agentId))];
    } else {
      var tools;
      tools, more := ToolStepLeaves(env, k, r.agentId, r.toolCalls, Simple.UNAVAILABLE, s);
      v := Visit(asked, shown, r, tools);
    }
  }

  // ----- the loop's runs -----

  /** The errors of the answers, in order. */
  function AnswerErrors(visits: seq<Visit>): seq<string> {
    if visits == [] then [] else AnswerErrors(visits[..|visits| - 1]) + visits[|visits| - 1].answer.errors
  }

  /** The answers' errors, then whatever the way the run ended adds. */
  ghost predicate Reports(s0: Snapshot, visits: seq<Visit>, ending: seq<string>, t: Snapshot) {
    t.errors == s0.errors + AnswerErrors(visits) + ending
  }

  lemma ReportsGrow(s0: Snapshot, visits: seq<Visit>, s: Snapshot, v: Visit, more: seq<string>, t: Snapshot)
    requires Reports(s0, visits, [], s) && t.errors == s.errors + v.answer.errors + more
    ensures Reports(s0, visits + [v], more, t)
  {
    var all := visits + [v];
    assert all[..|all| - 1] == visits;
    assert s0.errors + AnswerErrors(visits) + [] == s0.errors + AnswerErrors(visits);
    Associative(s0.errors, AnswerErrors(visits), v.answer.errors);
  }

  /** A pass whose agent answers. */
  lemma AnsweredPass(env: Env, s0: Snapshot, visits: seq<Visit>, k: nat, s: Snapshot, r: AgentResult)
      returns (all: seq<Visit>, ending: seq<string>)
    requires GoingOn(env, s0, visits, s) && Reports(s0, visits, [], s) && k == |visits| + 1
    requires s.currentAgentId.value in env.registered
    requires env.agents(k, s.currentAgentId.value, s.shared) == Returned(r)
    ensures var p := Simple.PassAt(env, k, s);
      && |all| == k && Transcript(env, s0, all, p.s) && Reports(s0, all, ending, p.s)
      && (p.GoOn? ==> GoingOn(env, s0, all, p.s) && ending == [])
      && (!p.GoOn? ==> p.Stop? && p.s.terminalReason.Some? && RunEndsWith(all, ending, p.s.terminalReason.value))
  {
    var applied, p := Applied(s, k, r), Simple.PassAt(env, k, s);
    var v, more := AnswerIsFollowed(env, k, s.currentAgentId.value, s.shared, r, applied);
    AfterResultKeepsBooks(env, k, r, applied);
    ReasonExplains(env, k, r, applied);
    TranscriptGrows(env, s0, visits, s, v, p.s);
    ReportsGrow(s0, visits, s, v, more, p.s);
    all, ending := visits + [v], more;
    assert all[|all| - 1] == v;
  }

  /** A pass whose agent raises. */
  lemma RaisedPass(env: Env, s0: Snapshot, visits: seq<Visit>, k: nat, s: Snapshot, message: string)
      returns (all: seq<Visit>, ending: seq<string>)
    requires GoingOn(env, s0, visits, s) && Reports(s0, visits, [], s) && k == |visits| + 1
    requires s.currentAgentId.value in env.registered && |message| <= MAX_SUMMARY_CHARS
    requires env.agents(k, s.currentAgentId.value, s.shared) == Raised(message)
    ensures var p := Simple.PassAt(env, k, s);
      && p.Stop? && |all| == k && Transcript(env, s0, all, p.s) && Reports(s0, all, ending, p.s)
      && p.s.terminalReason == Some(AgentException) && RunEndsWith(all, ending, AgentException)
  {
    var agentId, p := s.currentAgentId.value, Simple.PassAt(env, k, s);
    var v := Visit(agentId, s.shared, ExceptionResult(agentId, message), []);
    TranscriptGrows(env, s0, visits, s, v, p.s);
    Associative(s.errors, [message], [message]);
    ReportsGrow(s0, visits, s, v, [message], p.s);
    all, ending := visits + [v], [message];
  }

  /** Where the run stands after pass k. */
  ghost predicate PassIs(env: Env, s0: Snapshot, visits: seq<Visit>, ending: seq<string>, k: nat, p: Simple.Pass) {
    && Transcript(env, s0, visits, p.s) && Reports(s0, visits, ending, p.s)
    && (p.GoOn? ==> |visits| == k && GoingOn(env, s0, visits, p.s) && ending == [])
    && (p.Stop? ==> p.s.terminalReason.Some? && RunEndsWith(visits, ending, p.s.terminalReason.value))
    && (p.Abort? ==> |visits| == k - 1 && |ending| == 1)
  }

  lemma TranscriptKeeps(env: Env, s0: Snapshot, visits: seq<Visit>, s: Snapshot, t: Snapshot, message: string)
    requires Transcript(env, s0, visits, s) && Reports(s0, visits, [], s)
    requires t.runHistory == s.runHistory && t.finalResult == s.finalResult && t.shared == s.shared
    requires t.errors == s.errors + [message]
    ensures Transcript(env, s0, visits, t) && Reports(s0, visits, [message], t)
  {
    assert s0.errors + AnswerErrors(visits) + [] == s0.errors + AnswerErrors(visits);
  }

  lemma PassIsATranscript(env: Env, s0: Snapshot, visits: seq<Visit>, k: nat, s: Snapshot)
      returns (all: seq<Visit>, ending: seq<string>)
    requires GoingOn(env, s0, visits, s) && Reports(s0, visits, [], s) && k == |visits| + 1
    ensures PassIs(env, s0, all, ending, k, Simple.PassAt(env, k, s))
  {
    var agentId, p := s.currentAgentId.value, Simple.PassAt(env, k, s);
    if agentId !in env.registered {
      all, ending := visits, [NotRegistered(agentId)];
      TranscriptKeeps(env, s0, visits, s, p.s, NotRegistered(agentId));
    } else {
      match env.agents(k, agentId, s.shared)
      case Returned(r) =>
        all, ending := AnsweredPass(env, s0, visits, k, s, r);
      case Raised(message) =>
        if |message| <= MAX_SUMMARY_CHARS {
          all, ending := RaisedPass(env, s0, visits, k, s, message);
        } else {
          all, ending := visits, [message];
          TranscriptKeeps(env, s0, visits, s, p.s, message);
        }
    }
  }

  lemma {:induction false} LoopIsATranscript(env: Env, limit: nat, s0: Snapshot, visits: seq<Visit>, k: nat,
                                             s: Snapshot)
      returns (all: seq<Visit>, ending: seq<string>)
    requires GoingOn(env, s0, visits, s) && Reports(s0, visits, [], s) && k == |visits| + 1 && k <= limit + 1
    ensures var (t, raised) := Simple.LoopFrom(env, limit, k, s);
      && Transcript(env, s0, all, t) && Reports(s0, all, ending, t)
      && (!raised ==> t.terminalReason.Some? && RunEndsWith(all, ending, t.terminalReason.value))
      && (raised ==> |ending| == 1)
    decreases limit + 1 - k
  {
    if k > limit {
      all, ending := visits, ["Workflow exceeded max_steps before completion."];
      TranscriptKeeps(env, s0, visits, s, Simple.OutOfSteps(s), ending[0]);
    } else {
      var p := Simple.PassAt(env, k, s);
      all, ending := PassIsATranscript(env, s0, visits, k, s);
      if p.GoOn? {
        all, ending := LoopIsATranscript(env, limit, s0, all, k + 1, p.s);
      }
    }
  }

  /** For every fresh start: the loop's run has a transcript, and leaves exactly what it tells. */
  lemma LoopRunIsItsTranscript(env: Env, s: Snapshot) returns (visits: seq<Visit>, ending: seq<string>)
    requires Fresh(s)
    ensures var (t, raised) := Simple.RunResult(env, s);
      && Transcript(env, s, visits, t) && Reports(s, visits, ending, t)
      && (!raised ==> t.terminalReason.Some? && RunEndsWith(visits, ending, t.terminalReason.value))
      && (raised ==> |ending| == 1)
  {
    var started := Simple.Started(s);
    assert s.errors + [] + [] == s.errors;
    visits, ending := LoopIsATranscript(env, s.maxSteps, s, [], 1, started);
  }

  /** And so has the graph's, for the same agents and tools. */
  lemma GraphRunIsItsTranscript(env: Env, maxGraphSteps: nat, s: Snapshot) returns (visits: seq<Visit>)
    requires Fresh(s)
    ensures Transcript(env, s, visits, Graph.RunResult(env, maxGraphSteps, s).0)
  {
    var ending;
    visits, ending := LoopIsATranscript(env, Min(s.maxSteps, maxGraphSteps), s, [], 1, Simple.Started(s));
    GraphRunIsLoopRun(env, maxGraphSteps, s);
  }

  // ----- each agent's tool results -----

  /** The results of all tool calls made for an agent's answers, in order. */
  function ToolLog(visits: seq<Visit>, id: string): seq<ToolResult> {
    if visits == [] then []
    else
      var last := visits[|visits| - 1];
      ToolLog(visits[..|visits| - 1], id) + if last.answer.agentId == id then ResultsIn(last.tools) else []
  }

  lemma VisitAddsResults(v: Visit, after: SharedState, id: string)
    requires LeftBy(v, after)
    ensures ResultsOf(after, id)
         == ResultsOf(v.shown, id) + if v.answer.agentId == id then ResultsIn(v.tools) else []
  {
    assert ResultsOf(v.shown, id) + [] == ResultsOf(v.shown, id);
    if v.tools == [] {
      assert ResultsIn(v.tools) == [];
    }
  }

  lemma StepLeft(env: Env, s0: Snapshot, visits: seq<Visit>, t: Snapshot, i: nat, next: nat)
    requires Transcript(env, s0, visits, t) && i < |visits| && next == i + 1
    ensures LeftBy(visits[i], ShownAt(visits, next, t.shared)) && visits[i].shown == ShownAt(visits, i, t.shared)
  {
    assert StepAt(env, visits, i, t.runHistory[i], t.shared);
  }

  lemma ToolLogNext(visits: seq<Visit>, n: nat, id: string)
    requires 0 < n <= |visits|
    ensures ToolLog(visits[..n], id)
         == ToolLog(visits[..n - 1], id)
            + if visits[n - 1].answer.agentId == id then ResultsIn(visits[n - 1].tools) else []
  {
    assert visits[..n][..n - 1] == visits[..n - 1];
  }

  /** Every agent's list is what the caller put there, then the results of its own calls, and nothing else. */
  lemma {:induction false} ToolResultsAccumulate(env: Env, s0: Snapshot, visits: seq<Visit>, t: Snapshot, id: string,
                                                 n: nat)
    requires Transcript(env, s0, visits, t) && n <= |visits|
    ensures ResultsOf(ShownAt(visits, n, t.shared), id) == ResultsOf(s0.shared, id) + ToolLog(visits[..n], id)
  {
    if n == 0 {
      assert ResultsOf(s0.shared, id) + [] == ResultsOf(s0.shared, id);
    } else {
      var last := visits[n - 1];
      ToolResultsAccumulate(env, s0, visits, t, id, n - 1);
      StepLeft(env, s0, visits, t, n - 1, n);
      VisitAddsResults(last, ShownAt(visits, n, t.shared), id);
      ToolLogNext(visits, n, id);
      Associative(ResultsOf(s0.shared, id), ToolLog(visits[..n - 1], id),
                  if last.answer.agentId == id then ResultsIn(last.tools) else []);
    }
  }

  /** At the end of any run of the loop each agent's list has grown by the results of its own calls only. */
  lemma RunsOnlyAddOwnResults(env: Env, s: Snapshot, id: string) returns (visits: seq<Visit>)
    requires Fresh(s)
    ensures Transcript(env, s, visits, Simple.RunResult(env, s).0)
    ensures ResultsOf(Simple.RunResult(env, s).0.shared, id) == ResultsOf(s.shared, id) + ToolLog(visits, id)
  {
    var ending;
    visits, ending := LoopRunIsItsTranscript(env, s);
    ToolResultsAccumulate(env, s, visits, Simple.RunResult(env, s).0, id, |visits|);
    assert visits[..|visits|] == visits;
  }
}
