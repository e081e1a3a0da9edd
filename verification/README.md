# Verification of the agent platform's core

Dafny models of the five parts of the platform whose behaviour is hardest to see from the code, with proofs.
The language model, the databases, the graph store, the vector index and the cross-encoder are arbitrary functions or
arbitrary answers; everything the platform itself computes from them is modelled. `dafny verify dfyconfig.toml`
checks the whole project.

- **Orchestration.** `Workflow.dfy` holds the state both orchestrators update and the tool loop they share;
  `SimpleRunner.dfy` is the loop, `GraphRunner.dfy` the two-node graph with its routing functions. `Agreement.dfy`
  proves that a graph run is the loop run cut at the smaller step limit; `Transcripts.dfy` tells every run as the list
  of its agents' answers and tool results, `Runs.dfy` proves what every run of either orchestrator leaves behind, and
  `Chains.dfy` when its history reads as a chain of agents. `Delivery.dfy` puts at-least-once delivery on top: any
  deliveries, concurrent executors in any number of processes, crashes at any point, and two tables with a unique
  request id behind one database session per process; `Recovery.dfy` proves when a request can still be recorded and
  what one failed database call costs its process.
- **Retrieval.** `Fusion.dfy`, `Expand.dfy`, `Diversity.dfy` and `Hybrid.dfy` follow a query from the recall legs to
  the returned hits, `Expansion.dfy` the graph leg from its queries to its hits; `Rag.dfy` follows the hits into the
  budgeted prompt and the answer. `FusionScores.dfy`, `Coverage.dfy`, `Reach.dfy` and `Prompts.dfy` say what these
  compute in terms of the legs, the hits' own fields, the graph's rows and the prompt's text. Scores are exact reals.
- **Entity extraction.** `Entities.dfy` has batching, references and the response parser, `EntityAnswers.dfy` what is
  kept of an answer and why the rest is not; `Circuit.dfy` the circuit breaker under every interleaving of concurrent
  requests; `Extractor.dfy` the extractor object with its recursive split-and-retry, told as the tree of its requests;
  `Documents.dfy` whole documents split and retried concurrently on that breaker, and `DocumentReading.dfy` what their
  leaves add up to.
- **Ingestion.** `SentenceSplitter.dfy` cuts a text into sentences, `TextSplitter.dfy` packs them into overlapping
  pieces, `PieceRuns.dfy` says which sentences share a piece; `Chunker.dfy` applies that on two levels to whole
  documents, `Sections.dfy` says where clauses start and how chunks are filed; `Numerals.dfy` has the Chinese numeral
  parser together with a canonical printer that exists only as its specification, `NumeralValues.dfy` what any other
  text is worth.
- **Long-lived services.** `Watchdog.dfy`, `WatchdogRuns.dfy`, `Memory.dfy`, `MemoryAdds.dfy` and `Isolation.dfy`
  relate an object's state after any history to that history.

`Common.dfy`, `Hits.dfy` and `Text.dfy` hold what several modules share: stable sorting, folds, retrieval hits,
white space. "Ink" is a text without its white space.

Code that updates objects or loops over variables is a class or a method here, proved equal to a specification
function; the lemmas are about those functions, and for each main operation some say what its function computes
without naming it. Agents and tools are functions of the step and of the shared state they are shown, so an agent with
memory or randomness is covered: each call has a step of its own.

## What the proofs found

- The graph and the loop differ in exactly three observable ways: an agent's exception message appears once in the
  graph's errors and twice in the loop's; an absent tool executor is reported in different words; and at human review
  the loop keeps the current agent while the graph clears it (`Agreement.GraphRunIsLoopRun`). An exception message too
  long for the result model makes both runs raise.
- A run's history need not read as a chain of agents: no runner compares the identifier in a result with the one that
  was asked (`Chains.MissignedAnswerBreaksTheChain`). All of the loop's histories are chains if and only if registered
  agents sign every call a fresh run can reach (`Chains.LoopRunsChainedIff`, and `Chains.GraphRunsChainedIff` for the
  graph); for agents that do not depend on the step, if and only if every registered agent always signs with its own
  identifier (`Chains.ChainedIffHonest`).
- An executor that dies between committing its task row and committing its run row strands its request for good: no
  redelivery can finish it, though each one runs its agents again. That, and a session broken in the same window, are
  the only ways a request gets stuck (`Recovery.CanFinishUnlessStranded`), and any request can meet them
  (`Recovery.AnyRequestCanBeStranded`).
- The task and run repositories of a process share one database session (`app/runtime_stack.py:142-144`), and nothing
  under `app/` rolls it back. One database call that fails on it, a flush or a commit, therefore leaves every later
  delivery in that process unrecorded, though its agents run, up to their first tool call (the tool log is written
  through the same session). An uninterrupted delivery of a request with a free task row is recorded if and only if no
  call on its process's session has failed and no transaction of it was dropped before
  (`Recovery.RecordedIffNoCallFailed`). Redelivering a stranded request is enough to cause that
  (`Recovery.StrandedRedeliveryStopsProcess`), and so is a transaction dropped before its commit
  (`Recovery.LostTransactionStopsProcess`).
- The settings bound the child window and the overlap separately (`app/core/settings.py:462-470`). With an overlap equal
  to the window, or more than twice it, splitting never ends on a text that is longer than the window and has a sentence
  longer than the window after its first; on every other text it ends (`TextSplitter.SplittingEndsIff`).
- With an overlap above the window and at most twice it, a hard cut keeps a sentence's first window and its last
  `overlap - window` characters and loses what is between: a window of 100 with an overlap of 150 cuts characters 100 to
  250 out of a sentence of 300. Every text survives if and only if the overlap is below the window
  (`TextSplitter.EveryTextSurvivesIff`), and a text's sentences all survive whole if and only if the overlap is at most
  the window or no sentence after the first is longer than both (`TextSplitter.SplitKeepsEverythingIff`).
- Memory merging keeps one entry per statement, the fold of its calls, in every history if and only if no two different
  statements are similar enough to pass for each other (`Memory.MergingIsExactIff`); with fuzzy matching off none are.
  With it on, as by default, the first listed row that is similar enough wins: a repeated statement goes to its own
  entry if and only if that is listed and nothing before it passes for the statement (`Memory.MergesIntoItsOwnIff`).
  Only the first 200 rows of a partition are searched at all (`Memory.MergesExactlyWhenListed`).
- The numeral parser promises `None` for whatever does not parse, but raises on digits that `int` does not convert
  (`Numerals.ParseRaisesIff`). Of the texts its callers can send these are exactly the ASCII numerals longer
  than the interpreter converts, 4300 digits by default (`Numerals.CitableRaisesIff`, `Numerals.OverlongNumeralRaises`).
- The graph leg cuts each query's clauses at the cap before it merges them. That costs nothing if and only if no clause
  of the true best was cut from a query that reached it (`Expansion.CutIsHarmlessIff`); it can cost the best clause of
  all, one that both queries reach second (`Expansion.SharedClauseIsLost`).

## Model

| member | source | states |
|---|---|---|
| Workflow.OrchestratorState.ApplyResult | app/orchestrator/base.py:190-217 | the result is appended to the path and the numbered history, becomes the final result and its agent's recorded output, its errors are appended, and nothing else changes |
| Workflow.OrchestratorState.ExecuteTools | app/orchestrator/runner.py:128-197 | the tool loop leaves the state of its specification; `Transcripts.ToolStepLeaves` says which results and errors that holds |
| Workflow.RunTools | app/orchestrator/runner.py:141-197 | a tool step that lets the workflow go on changes only the shared tool results; one that stops it fails the workflow with one of the three tool reasons, clears the current agent, and touches neither the history nor any agent's output |
| Transcripts.ToolStepLeaves | app/orchestrator/runner.py:128-197 | for any calls: result i is what the tool answers to call i when shown the state with the results before it; the owner's list and the last results grow by exactly these, in order, up to and including the first call that does not succeed; every other agent's list and everything else shared stays |
| SimpleRunner.SimpleOrchestrator.RunPass | app/orchestrator/runner.py:35-113 | one pass of the loop: ends the run, raises out of it, or hands over to the agent named next |
| SimpleRunner.SimpleOrchestrator.FollowResult | app/orchestrator/runner.py:82-113 | failure, human review, tool calls and the next agent are considered in this order |
| SimpleRunner.SimpleOrchestrator.Run | app/orchestrator/runner.py:28-126 | the object loop computes the specified run for every agent, tool and start state |
| GraphRunner.LangGraphOrchestrator.ExecuteAgentStep | app/orchestrator/langgraph_runner.py:93-180 | the agent node: absent agent before step limit before registry; pending calls travel on, every early exit drops them |
| GraphRunner.LangGraphOrchestrator.ExecuteToolStep | app/orchestrator/langgraph_runner.py:182-291 | the tool node, including its branch without pending calls |
| GraphRunner.LangGraphOrchestrator.Advance | app/orchestrator/langgraph_runner.py:293-313 | visiting a node and routing makes progress: the bound on the nodes still to visit strictly falls |
| GraphRunner.LangGraphOrchestrator.Run | app/orchestrator/langgraph_runner.py:35-55 | the graph run ends and computes the specified run |
| Transcripts.LoopRunIsItsTranscript | app/orchestrator/runner.py:28-126 | every loop run is a list of visits: each agent answers what it is shown, its results and tool results are what is recorded, each visit starts where the one before it ended, and status, reason and errors are those of the last |
| Transcripts.GraphRunIsItsTranscript | app/orchestrator/langgraph_runner.py:35-313 | every graph run is such a list of visits, up to the smaller limit |
| Transcripts.ToolResultsAccumulate | app/orchestrator/shared_state.py:47-60 | at every point of a run of either orchestrator each agent's tool results are those it started with, followed by the results of exactly its own visits' calls, in order |
| Transcripts.RunsOnlyAddOwnResults | app/orchestrator/shared_state.py:47-55 | so over a whole loop run each agent's list only grows, by its own calls |
| Agreement.ToolsMatch | app/orchestrator/runner.py:137-139 | the loop's tool step mirrors the graph's: same verdict and state, apart from the missing-executor wording |
| Agreement.TripMatchesPass | app/orchestrator/langgraph_runner.py:93-313 | one trip through the graph (agent node, then tool node if calls are pending) does what one pass of the loop does |
| Agreement.GraphRunIsLoopRun | app/orchestrator/langgraph_runner.py:102-107 | for all agents, tools and start states the graph run equals the loop run under the smaller of the two limits: status, reason, path, history, final result and shared state are equal, and the errors and the current agent differ in exactly the listed ways |
| Agreement.RunnersAgree | app/orchestrator/runner.py:28-197 | with max_steps within the graph's limit the two orchestrators agree |
| Runs.EveryLoopRunFinishes | app/orchestrator/runner.py:35-117 | every run that does not raise ends terminal with the status its reason fixes and at most max_steps entries numbered from 1; the path, final result and agent outputs match the history; the reason is explained by the last entry; the agents asked are the initial one and then each entry's next_agent_id |
| Runs.EveryGraphRunFinishes | app/orchestrator/langgraph_runner.py:93-313 | the same books, with the smaller step limit, for the agents the graph's own nodes ask |
| Runs.GraphAsksTheSame | app/orchestrator/langgraph_runner.py:93-180 | the agent node asks, in order, exactly the agents the loop asks |
| Runs.OutputsAfterOneMore | app/orchestrator/shared_state.py:38-44 | agent_outputs holds each agent's last output, over what the caller supplied |
| Runs.ReasonExplains | app/orchestrator/runner.py:82-113 | each way of leaving the loop after a result records a reason the result bears out |
| Chains.LoopRunChainedIff | app/orchestrator/runner.py:51-58 | one run: the history is a chain from the initial agent if and only if every call the loop makes within the limit is answered under the identifier asked |
| Chains.GraphRunChainedIff | app/orchestrator/langgraph_runner.py:136-180 | the same of a graph run, up to the smaller limit |
| Chains.LoopRunsChainedIff | app/orchestrator/runner.py:51-58 | all runs: every history is a chain if and only if registered agents sign every call (step, agent, shared state) that some fresh run makes |
| Chains.GraphRunsChainedIff | app/orchestrator/langgraph_runner.py:136-180 | the same for the graph, for the calls within its step limit |
| Chains.FirstCallsAreReachable | app/orchestrator/base.py:190-209 | step 1 reaches every agent with every shared state |
| Chains.ChainedIffHonest | app/orchestrator/base.py:197-209 | for step-independent agents, under either orchestrator: every history is a chain if and only if every registered agent always signs with its own identifier |
| Chains.HonestRunsAreChained | app/orchestrator/base.py:197-209 | when registered agents sign their results, every entry's agent is the one the entry before it named, under either orchestrator and for any agents |
| Chains.MissignedAnswerBreaksTheChain | app/orchestrator/base.py:197-209 | one agent signing as another makes a run whose history is no chain |
| Delivery.OneRunRowPerRequest | app/models/workflow_run.py:17 | under any deliveries, concurrency, crashes and broken sessions: at most one task row and one run row per request, and the run row's writer is the task row's writer |
| Delivery.StepKeepsInv | app/orchestrator/base.py:219-223 | every step of every executor keeps the tables unique and every run row with the winner of the task row |
| Delivery.RowsAreForever | app/services/workflow_run_service.py:63-67 | a stored run is never changed or removed |
| Delivery.FinishedRunsAreSkipped | app/tasks/workflow_tasks.py:138-146 | a task delivery that starts once the run row exists never runs an agent and can only answer with that row |
| Delivery.AnswersAgree | app/tasks/workflow_tasks.py:88-120 | all answers ever given to one request carry the same status, reason, path and errors; at most one executor answers from its own run; the review id differs exactly when it was not stored |
| Recovery.CanFinishUnlessStranded | app/tasks/workflow_tasks.py:91-95 | after any history a request can still get its run row if and only if its winner has not died or had its session broken between the two commits |
| Recovery.StrandedForever | app/orchestrator/base.py:219-223 | a stranded request stays stranded whatever is redelivered |
| Recovery.DeathBetweenCommitsStrands | app/orchestrator/base.py:219-223 | after any history, an executor about to write a free task row that dies right after its first commit strands its request |
| Recovery.AnyRequestCanBeStranded | app/services/runtime_record_service.py:143-161 | some history strands any given request |
| Recovery.BrokenIffCallFailed | app/runtime_stack.py:138-146 | a process's session refuses work if and only if a database call on it failed or the database dropped a transaction of it before |
| Recovery.RecordedIffNoCallFailed | app/tasks/workflow_tasks.py:130-174 | after any history, an uninterrupted delivery of a request with a free task row is recorded and answered if and only if no call on its process's session failed and no transaction of it was dropped before |
| Recovery.StrandedRedeliveryStopsProcess | app/runtime_stack.py:138-146 | once a process has handled a redelivery of a stranded request, no free request it handles later is recorded, whatever happens in between |
| Recovery.LostTransactionStopsProcess | app/services/runtime_record_service.py:143-161 | when the database drops the transaction of an executor's open row, its commit fails and no free request its process handles later is recorded |
| Recovery.Store.RunWorkflowTask | app/tasks/workflow_tasks.py:130-174 | an uninterrupted delivery is a run of the step machine: answers from the row of a finished run; with a task row but no run row, or a broken session, writes nothing and leaves the session broken; otherwise writes exactly both rows and answers |
| Recovery.Store.PersistRuntimeRecords | app/services/runtime_record_service.py:143-161 | the two commits write one row each, or none, with the session left broken, when the task row is taken or the session was broken |
| Diversity.CapPerDocument | app/knowledge/diversity.py:63-124 | returns the hits at the pool's and the overflow's positions, and fails on exactly the invalid arguments; `Coverage.PoolIsKeptThenFilled` says which positions |
| Diversity.QuotaAdmits | app/knowledge/diversity.py:113-121 | a hit is admitted if and only if pool and source still have room for it |
| Diversity.QuotaLeadsEveryPrefix | app/knowledge/diversity.py:110-124 | at every cut of the ranking the quota has picked at least as many hits as any selection under the same two caps |
| Diversity.QuotaIsOptimal | app/knowledge/diversity.py:110-124 | no selection under the caps has a larger total, under any non-increasing non-negative scores |
| Diversity.PoolIsFull | app/knowledge/diversity.py:123-124 | backfill makes the pool min(limit, number of hits) long |
| Diversity.PoolAndOverflowDistinct | app/knowledge/diversity.py:110-124 | no hit is returned twice within or across pool and overflow |
| Diversity.OverflowIsSaturated | app/knowledge/diversity.py:63-102 | an overflow hit's source already has its full share of better-ranked hits in the pool |
| Coverage.PoolIsKeptThenFilled | app/knowledge/diversity.py:110-124 | by the hits' own sources: a hit is kept if and only if fewer than `limit` hits and fewer than `max_per_document` of its document were kept before it, put aside if and only if only the second fails; the pool is the kept hits, then as many put-aside ones as fill it, the overflow the next ones, all in rank order; an uncited hit is a document of its own |
| Coverage.RetrievalPool | app/knowledge/hybrid.py:147-157 | the retriever asks for that under its own settings: at most max(prefusion_top_n, top_k) hits and quota_overflow_top_n of overflow |
| Diversity.CollapseByParent | app/knowledge/diversity.py:28-60 | keeps the best-ranked child of each clause, in order, with the number of siblings it stands for |
| Coverage.CollapsedAreFirsts | app/knowledge/diversity.py:28-60 | by the hits' own parents: exactly the first hit of each clause comes back, in order, marked with the number of other hits of its clause |
| Diversity.ExpandToParent | app/knowledge/diversity.py:127-154 | each hit gets its whole clause and stays the same chunk |
| Diversity.ExpandHit | app/knowledge/diversity.py:137-154 | a fragment comes back with its parent's text, its own id and length noted, all other metadata kept; a whole clause comes back unchanged |
| Fusion.ReciprocalRankFusion | app/knowledge/fusion.py:28-80 | the dictionaries and the sort produce the specified ranking of first copies; k below 1 is refused |
| Fusion.Accumulate | app/knowledge/fusion.py:52-63 | the accumulation loops hold each id's score, best rank, first copy and merged payload |
| Fusion.RankingHoldsEveryKey | app/knowledge/fusion.py:57-68 | every recalled id is ranked once, under its total score and best rank, best first |
| Fusion.RankedIdsAreRecalledIds | app/knowledge/fusion.py:52-80 | the fused ids are exactly the union of the legs |
| Fusion.RankingIgnoresLegOrder | app/knowledge/fusion.py:52-80 | permuting the legs changes neither ids, order nor scores |
| Fusion.UnanimousOrderSurvives | app/knowledge/fusion.py:52-80 | if a outranks b in every leg that contains b, and no leg repeats b, a precedes b in the result |
| Fusion.RepeatedIdOvertakes | app/knowledge/fusion.py:57-63 | why that hypothesis is needed: a leg that repeated b would lift it over a |
| Fusion.FusedHitIsRecalled | app/knowledge/fusion.py:57-80 | a fused hit is its id's first recalled copy, rescored |
| FusionScores.ScoreIsPoints | app/knowledge/fusion.py:52-55 | an id's score is the sum of 1 / (k + rank) over every place where a leg returned it |
| FusionScores.BestRankIs | app/knowledge/fusion.py:56 | its best rank is the least rank any leg gave it |
| FusionScores.FusedAreRecalled | app/knowledge/fusion.py:52-80 | an id is fused if and only if some leg returned it |
| FusionScores.FusedOrder | app/knowledge/fusion.py:61-64 | of two fused hits the earlier has more points, or as many and a better best rank, or both equal and the lesser id |
| FusionScores.FusedHitIs | app/knowledge/fusion.py:57-80 | a fused hit is the first copy of its id, leg by leg, with its points as score, its place as rank, and of every other metadata key the value of the last copy that has it |
| Expand.RankNeighbors | app/knowledge/graph/expand.py:151-196 | the result is the front of the aggregated clauses in their strict order |
| Expand.RankedNeighborsHoldEveryClause | app/knowledge/graph/expand.py:151-196 | every reached clause is ranked once, under the totals of all its rows |
| Expand.RankedNeighborsIgnoreRowOrder | app/knowledge/graph/expand.py:151-196 | the ranking depends only on the multiset of rows |
| Expand.TopNeighbors | app/knowledge/graph/expand.py:185-196 | whatever the cap drops ranks strictly below everything kept |
| Expand.SeedClauseIds | app/knowledge/graph/expand.py:199-233 | the seeds are the first `limit` distinct clause ids of the rank-by-rank interleaving of the legs |
| Reach.SeedsAreFirstNamed | app/knowledge/graph/expand.py:199-233 | the seeds are exactly the clauses the legs name, each once, ordered by the first rank, then leg, that names them |
| Reach.RankedReads | app/knowledge/graph/expand.py:151-196 | a query's clauses are exactly those in its rows, each with the sum of its rows' weights and the number of its different seeds, ordered by weight, seeds and id |
| Expansion.MergeKinds | app/knowledge/graph/expand.py:331-350 | the dictionaries hold each clause's combined candidate, in order of first mention |
| Expansion.ExpandSeeds | app/knowledge/graph/expand.py:265-315 | the enabled queries are ranked, cut, merged, ranked, cut and rehydrated, with every empty case |
| Reach.MergedReads | app/knowledge/graph/expand.py:331-350 | a merged clause has the sum of its candidates' weights, the union of their kinds and the most seeds of any |
| Reach.ExpansionReads | app/knowledge/graph/expand.py:265-315 | the hits are the snapshot's hits, marked with kinds, weight and seeds, for the clauses that rank before all others that the enabled queries' best add up to; none when the leg is off, has no seeds or no room |
| Expansion.CutIsHarmlessIff | app/knowledge/graph/expand.py:285-301 | the leg returns the best of everything its queries reached if and only if no clause of that best was cut from a query that reached it |
| Expansion.NarrowLegsAreExact | app/knowledge/graph/expand.py:285-301 | it does when no query reaches more clauses than the cap |
| Expansion.SharedClauseIsLost | app/knowledge/graph/expand.py:285-301 | a clause both queries rank second, best of all together, is not returned under a cap of 1 |
| Expansion.LimitOnlyTightens | app/knowledge/graph/expand.py:268-276 | the caller's limit never raises the configured cap |
| Expansion.ExpansionIsFull | app/knowledge/graph/expand.py:301-315 | with every gathered clause in the snapshot, min(cap, gathered clauses) hits |
| Hybrid.Retrieve | app/knowledge/hybrid.py:104-179 | composes the stages, with every failure and empty case; the rows below say what the composition returns |
| Coverage.ThreeLegsVote | app/knowledge/hybrid.py:107-137 | a fused hit's points are those of the vector leg, the keyword leg and the graph leg together, the graph leg being expanded from what the first two name; an id is recalled if and only if one of the three has it |
| Hybrid.Rerank | app/knowledge/rerank.py:28-60 | the hits in stable descending order of the cross-encoder's score, rescored |
| Hybrid.RerankedRearranges | app/knowledge/rerank.py:28-60 | reranking loses no hit, repeats no clause and orders by score |
| Hybrid.NoClauseTwice | app/knowledge/hybrid.py:143-179 | no clause appears twice across primary and supplementary hits |
| Hybrid.PrimaryIsFull | app/knowledge/hybrid.py:150-160 | exactly min(max(top_k, 1), number of candidates) primary hits |
| Hybrid.PrimaryIsBestOfPool | app/knowledge/hybrid.py:158-160 | the primary hits are the pool's best by the cross-encoder: every pool hit that is not returned scores no more than each that is, scores do not increase, equal scores keep the fused order, and each hit carries its own score and its whole clause |
| Hybrid.SupplementaryIsOverflow | app/knowledge/hybrid.py:162-179 | the supplementary hits are the overflow in its order, not rescored, as whole clauses, flagged |
| Hybrid.CandidatesAreTheRecalledClauses | app/knowledge/hybrid.py:137-145 | the candidates are exactly the clauses of the recalled ids, each id counting for its first copy's clause; where the legs agree on each id's clause, all recalled clauses |
| Hybrid.RetrievalIsFullAndDistinct | app/knowledge/hybrid.py:137-179 | end to end, for any legs: no clause twice, and min(max(top_k, 1), number of distinct clauses of the recalled ids) primary hits |
| Hybrid.SupplementaryLostToTheQuota | app/knowledge/hybrid.py:162-179 | every supplementary hit is flagged and its source holds its full share of better-ranked pool hits |
| Rag.BuildPrompt | app/knowledge/rag.py:178-240 | the prompt and the included hits are those of the specification |
| Rag.IncludedIsLongest | app/knowledge/rag.py:199-228 | the included hits are the longest prefix of the primary ones, then of the supplementary ones, that fits; only a lone first block may exceed the budget |
| Rag.IncludedNonEmpty | app/knowledge/rag.py:212-222 | something is included whenever there is a hit |
| Rag.PromptIsNumbered | app/knowledge/rag.py:223-240 | the blocks are numbered 1 to n without a gap, primary first |
| Prompts.BlockReads | app/knowledge/rag.py:165-175 | a block is its number, the source, title and section that are not empty with bars between them, and the first 2000 characters of the stripped content |
| Prompts.FilterKeepsOrder | app/knowledge/rag.py:202-208 | the hits are parted into primary and supplementary ones without loss and in order |
| Prompts.PromptReads | app/knowledge/rag.py:210-240 | the whole prompt: as many blocks of each kind as keep the total length within the budget, numbered through, under the two headings, then the question |
| Rag.Answer | app/knowledge/rag.py:364-464 | a refusal without primary hits; else the first answer, or, exactly when there are supplementary hits and it is a refusal, the answer to a second prompt with both; it fails if a call does; question, text, model, verdict, evidence and the sums of cost, latency and tokens over the calls made are those of the report |
| Rag.EvidenceMatchesBlocks | app/knowledge/rag.py:438-464 | citation n, context n and block n are about the same hit: every field of the citation is that hit's, the context is its stripped text up to 2000 characters, and the block ends with it |
| Rag.RetryExtends | app/knowledge/rag.py:423-431 | supplementary clauses never displace a primary one from the prompt |
| Rag.RetryContextsExtend | app/knowledge/rag.py:423-455 | the retry's contexts extend the first pass's |
| Entities.SplitBatch | app/knowledge/graph/entities.py:395-418 | the loop computes the greedy batches |
| Entities.BatchesAreLegal | app/knowledge/graph/entities.py:395-418 | the batches concatenate to the input, none is empty, and each keeps both caps unless it is one clause |
| Entities.BatchesAreFull | app/knowledge/graph/entities.py:406-418 | a batch ends only where the next clause would break a cap |
| Entities.FewestBatches | app/knowledge/graph/entities.py:395-418 | no order-preserving split under the same rules has fewer batches |
| Entities.AssignRefs | app/knowledge/graph/entities.py:421-429 | one numbered row per clause and the map from its reference to its clause |
| Entities.RefMapSize | app/knowledge/graph/entities.py:421-429 | no two clauses share a reference |
| Entities.RefsSeparateClauses | app/knowledge/graph/entities.py:421-429 | with distinct clause ids, no two references lead to the same clause |
| Entities.ParseExtraction | app/knowledge/graph/entities.py:288-363 | fails exactly when the payload is no list of items; otherwise the mentions and counters that `EntityAnswers.ParsedIs` describes |
| EntityAnswers.EntitiesAreJudged | app/knowledge/graph/entities.py:331-360 | of one clause's entities the first five different (type, normalized name) pairs with a known type and a name of 2 to 20 characters are kept, in order; unknown types, invalid names, duplicates and pairs over the limit are counted exactly, and none is over the limit unless five are kept |
| EntityAnswers.ParsedIs | app/knowledge/graph/entities.py:303-363 | the mentions are those of the first answer to each known reference, in the order of the answers, and every counter is the total over these answers |
| EntityAnswers.AnsweredClauseIs | app/knowledge/graph/entities.py:316-358 | by clause id: with distinct clause ids, an answered clause has exactly its first five pairs |
| EntityAnswers.UnansweredClauseIs | app/knowledge/graph/entities.py:316-326 | a clause no answer refers to has none |
| Entities.ParsedAccounts | app/knowledge/graph/entities.py:303-363 | raw entities = unknown types + invalid names + duplicates + over-limit + mentions, references sent = number of clauses, the distinct-entity counter lies between the distinct (type, name) pairs and the mentions, and with distinct clause ids at most 5 mentions per clause, all of distinct type and name |
| Entities.JoinedAccounts | app/knowledge/graph/entity_client.py:215-220 | merging two halves keeps the account |
| Circuit.BreakerIsSound | app/knowledge/graph/entity_client.py:222-278 | under every interleaving: calls = primary + fallback, an open circuit has a fallback leg, and while closed with a fallback the streak stays below the threshold |
| Circuit.OpenIsForever | app/knowledge/graph/entity_client.py:222-250 | once open it never closes, no further primary call is made, and reason and document count stay, even while earlier calls return |
| Circuit.OpensIff | app/knowledge/graph/entity_client.py:222-250 | under every interleaving it is open if and only if, with a fallback configured, some primary call broke on an exhausted quota or as at least the threshold-th in a row |
| Circuit.ReasonIsFirst | app/knowledge/graph/entity_client.py:237-250 | the recorded reason and document count are those of the first such call |
| Circuit.LegsAreCounted | app/knowledge/graph/entity_client.py:222-235 | the primary leg is called once per request begun before that, the fallback leg once per request begun after it and once per broken primary call |
| Circuit.NoFallbackNeverOpens | app/knowledge/graph/entity_client.py:230-232 | without a fallback leg it never opens |
| Circuit.TaskCallsAreBounded | app/knowledge/graph/entity_client.py:222-278 | under every interleaving a task makes at most two calls per request it begins |
| Extractor.RequestIsARun | app/knowledge/graph/entity_client.py:222-278 | a request of the extractor object is a run of the interleaving model |
| Extractor.EntityExtractor.Call | app/knowledge/graph/entity_client.py:222-235 | which leg is asked, what comes back, and the breaker's state afterwards |
| Extractor.EntityExtractor.ExtractBatch | app/knowledge/graph/entity_client.py:176-206 | the requests form a tree: a usable answer is kept, a batch is halved exactly when its answer was unusable and it may still be split, the second half is sent once the first is read, anything else loses the batch; counters and result are those of the tree |
| Extractor.EntityExtractor.SplitAndRetry | app/knowledge/graph/entity_client.py:208-220 | the halves' trees make the batch's tree |
| Extractor.EntityExtractor.ExtractDocument | app/knowledge/graph/entity_client.py:152-174 | the batches are sent one by one until one is lost; a document that succeeds accounts for every clause and entity, is the join of the answers to its batches in order, and moves each counter by what it did; a failure is the failure of the last call |
| Extractor.TreeSpends | app/knowledge/graph/entity_client.py:176-220 | a tree over n clauses with d levels left costs at most 2 * min(2^(d + 1) - 1, 2n - 1) calls |
| Extractor.TreeReads | app/knowledge/graph/entity_client.py:204-220 | a tree that is read has leaves that cover its batch in order, and its reading is theirs joined in order |
| Extractor.TreeEarns | app/knowledge/graph/entity_client.py:192-220 | its leaves are answered in call order, each counted once, with one retry per further leaf and one unreadable answer per retry |
| Extractor.TreeLoses | app/knowledge/graph/entity_client.py:191-198 | a tree that is not read ends with a call that brought nothing usable |
| DocumentReading.UsableIff | app/knowledge/graph/entity_client.py:181-191 | an answer is usable if and only if its call did not break, it was not cut off and it is a list of items |
| DocumentReading.TruncatedIff | app/knowledge/graph/entities.py:366-379 | it was cut off if and only if the provider says so or its text opens more braces than it closes |
| DocumentReading.LeafReads | app/knowledge/graph/entity_client.py:190-206 | a leaf contributes what its call's answer says of its batch, every mention stamped with the model that answered |
| DocumentReading.LeavesAreJoined | app/knowledge/graph/entity_client.py:166-172 | a document's mentions are its leaves' in order, each counter the sum of theirs |
| Extractor.LeavesAccount | app/knowledge/graph/entity_client.py:152-220 | any tree of retries accounts for all its clauses and entities |
| Extractor.CallBoundInClauses | app/knowledge/graph/entity_client.py:176-235 | a document of n clauses in b batches costs at most 4n - 2b calls, whatever the depth cap |
| Documents.DocumentCallsAreBounded | app/knowledge/graph/entity_client.py:152-235 | under every interleaving of any documents' requests and for every answer, a document's task makes at most 2 * min(2^(depth + 1) - 1, 2n - 1) calls per batch of n clauses |
| Documents.FinishedDocumentAccounts | app/knowledge/graph/entity_client.py:152-220 | under every interleaving a document that has nothing left to send and has not failed accounts for every clause and entity |
| DocumentReading.TreeIsFollowed | app/knowledge/graph/entity_client.py:176-220 | a document among others, given the answers to a tree's requests, does what the extractor alone does: it has read the batch and holds its joined reading, or has failed |
| SentenceSplitter.SplitSentences | app/knowledge/ingest/chunker.py:176-199 | the loop computes the sentences |
| SentenceSplitter.SentencesKeepInk | app/knowledge/ingest/chunker.py:176-199 | sentences keep every visible character except a leading run of enders, and are stripped |
| SentenceSplitter.SentencesEndOnce | app/knowledge/ingest/chunker.py:176-199 | every sentence is text without enders followed by a run of the five enders; only the last may lack the run |
| TextSplitter.SplitText | app/knowledge/ingest/chunker.py:148-173 | the nested loops compute the pieces, on every input on which they end |
| TextSplitter.SplittingEndsIff | app/knowledge/ingest/chunker.py:148-173 | splitting runs forever if and only if the text is longer than the size, some sentence after the first is too, and the overlap equals the size or exceeds twice it; when it ends its result is the specified one |
| TextSplitter.PiecesSpellKept | app/knowledge/ingest/chunker.py:148-173 | for every setting under which splitting ends: dropping what each piece carries over (at most `overlap` characters) leaves what the split keeps of each sentence, in order |
| TextSplitter.SplitKeepsEverythingIff | app/knowledge/ingest/chunker.py:163-168 | that is the whole of every sentence if and only if the overlap is at most the size or no oversized sentence after the first is longer than the overlap |
| TextSplitter.HardCutKeepsTextIff | app/knowledge/ingest/chunker.py:163-168 | a hard cut keeps every character of every sentence of a given length if and only if the overlap is below the size or the length is at most the overlap |
| TextSplitter.LongOverlapLosesText | app/knowledge/ingest/chunker.py:165 | for every overlap above the size, and at most twice it, a text of two sentences one of whose characters is in no piece |
| TextSplitter.EveryTextSurvivesIff | app/knowledge/ingest/chunker.py:148-173 | among the settings under which hard cuts end, every visible character of every text except its sentence enders is in some piece if and only if the overlap is below the size |
| TextSplitter.OverlapOnlyRepeats | app/knowledge/ingest/chunker.py:148-173 | for any overlap below the size, and for any text from which no hard cut drops anything: dropping what each piece carries over leaves the text's ink in order |
| TextSplitter.ZeroOverlapPartitions | app/knowledge/ingest/chunker.py:107 | without overlap the pieces partition the text, apart from a leading run of enders when it is split |
| TextSplitter.PiecesAreBounded | app/knowledge/ingest/chunker.py:153-173 | pieces after the first are at most size + overlap + 1 long (size without overlap); only an oversized first sentence makes the first longer than the size |
| PieceRuns.SplitIsArranged | app/knowledge/ingest/chunker.py:148-173 | wherever splitting ends, the pieces are runs of sentences: a sentence joins the piece before it if and only if it fits, and otherwise opens one with that piece's last `overlap` characters, or with what remains of it after a hard cut |
| PieceRuns.HardCutIsCut | app/knowledge/ingest/chunker.py:162-168 | an oversized sentence is cut into windows of `size` characters, each starting `overlap` before the end of the last, until the rest fits |
| TextSplitter.HardCutTerminatesIff | app/knowledge/ingest/chunker.py:163-168 | the hard-cut loop ends on an oversized sentence if and only if overlap != size and overlap <= 2 * size |
| Chunker.ReadClauses | app/knowledge/ingest/chunker.py:70-100 | the paragraph loop computes the clauses that `Sections.ClausesFollowLabels` describes |
| Sections.BodyLinesAreVisible | app/knowledge/ingest/chunker.py:83-90 | the body lines are the stripped lines that are neither blank nor a section heading of at most 60 characters, in order |
| Sections.ClausesFollowLabels | app/knowledge/ingest/chunker.py:70-100 | the clauses are the body lines cut before each one under 120 characters that matches a clause number; each is labelled with its first line's number, a leading one without such a line with 全文, and is its lines joined by spaces |
| Sections.ParentsFollowClauses | app/knowledge/ingest/chunker.py:105-109 | each parent is a piece of a clause and has its label |
| Sections.ChunkIsFiled | app/knowledge/ingest/chunker.py:109-138 | chunk k carries as section the label of the clause whose parent it is a piece of |
| Chunker.ClausesKeepInk | app/knowledge/ingest/chunker.py:70-100 | cutting a document into clauses keeps its body lines' ink in order |
| Chunker.ParentsPartitionClauses | app/knowledge/ingest/chunker.py:105-109 | the parents partition the clauses |
| Chunker.ChunksTraceBack | app/knowledge/ingest/chunker.py:105-138 | chunk n is numbered n and is a piece of the parent it names |
| Chunker.ChunkDocument | app/knowledge/ingest/chunker.py:47-139 | the whole chunker, on every document whose splitting ends; fails exactly when the window exceeds the chunk size |
| Chunker.DocumentIsSpelled | app/knowledge/ingest/chunker.py:47-139 | from the lines to the chunks: with an overlap below the window, dropping at most `overlap` carried characters from each chunk leaves every visible character of the body lines, in order, sentence enders aside |
| Numerals.CnToInt | app/knowledge/graph/extract.py:48-76 | the loop computes the parsed number, rejects the text, or raises, for any digit test and any limit on what `int` converts |
| Numerals.ParseRejects | app/knowledge/graph/extract.py:48-76 | a text is rejected exactly when it has no ink, or is not all digits and has a character that is no Chinese numeral |
| Numerals.ParseRaisesIff | app/knowledge/graph/extract.py:57-58 | a call raises exactly on a text of digits one of which has no decimal value or which are more than `int` converts |
| Numerals.CitableRaisesIff | app/knowledge/graph/extract.py:213-217 | on the texts the citation and section patterns match, a call raises exactly on more ASCII digits than `int` converts |
| Numerals.OverlongNumeralRaises | app/knowledge/graph/extract.py:245 | one digit more than `int` converts is such a text |
| Numerals.CanonicalRoundTrip | app/knowledge/graph/extract.py:48-76 | parsing the canonical Chinese numeral of any n below 10^8 gives n |
| NumeralValues.NumeralsAreWorth | app/knowledge/graph/extract.py:59-76 | any text that is not all digits: nothing unless all characters are numeral ones; else each unit counts as often as the digit right before it says, or once, units with a 万 after them and digits right before one ten thousandfold, and a final digit itself; 两 is 2 and 〇 is 0 |
| Numerals.ArabicRoundTrip | app/knowledge/graph/extract.py:54-58 | parsing the decimal numeral of n gives n if and only if `int` converts that many digits |
| Watchdog.WorkerWatchdog.Tick | app/services/worker_supervisor.py:251-324 | one tick moves the whole state as specified, and whether it calls spawn; the `WatchdogRuns` rows say what that comes to |
| WatchdogRuns.RecoveriesAreSpawns | app/services/worker_supervisor.py:272-319 | over any run, spawn is called exactly at the ticks that end a full period of stall with self-healing on and fewer than three calls since a live worker was seen; the pids kept are those the calls returned, in order, and recoveries their number |
| WatchdogRuns.RecordIsTold | app/services/worker_supervisor.py:256-319 | the action, message and time on record are the newest that the observations call for |
| WatchdogRuns.SeesStallIff | app/services/worker_supervisor.py:256-272 | a tick counts as stalled if and only if no heartbeat is fresh and the broker, if reachable, has ready messages or only unacknowledged ones past their visibility |
| Watchdog.SpawnFollowsFullStall | app/services/worker_supervisor.py:272-284 | every spawn follows an uninterrupted stall at least queue_stall_seconds long |
| Watchdog.FullStallIsAnswered | app/services/worker_supervisor.py:276-319 | with auto-recovery on, a stall seen by every tick over queue_stall_seconds has been met with a spawn by its last tick, unless three were made already since a live worker was last seen |
| Watchdog.SpawnsAreSpaced | app/services/worker_supervisor.py:272-319 | any two spawns are at least queue_stall_seconds apart |
| Watchdog.AttemptsSinceLive | app/services/worker_supervisor.py:256-264 | the attempt counter is the number of spawns since a live worker was last seen |
| Watchdog.AtMostThreeSpawnsPerOutage | app/services/worker_supervisor.py:295-305 | at most 3 spawns between two sightings of a live worker |
| Watchdog.RecoveriesAreBounded | app/services/worker_supervisor.py:251-319 | over any run, recoveries <= 3 * (live ticks + 1) |
| Watchdog.DisabledNeverSpawns | app/services/worker_supervisor.py:286-293 | with auto-recovery off nothing is ever spawned |
| Memory.MemoryService.AddMemory | app/services/memory_service.py:137-200 | validates, then merges into a found duplicate or appends, and returns that entry; `MemoryAdds.AddReads` says which |
| MemoryAdds.AddReads | app/services/memory_service.py:137-300 | an add with an unknown scope or source, or without a key for a user's or project's memory, changes nothing; any other merges, with every field spelled out, into the first of the first 200 entries of its memory type, scope and key, by importance and then age, that states the same, and only if there is none starts an entry |
| Isolation.OthersChangeNothing | app/services/memory_service.py:166-176 | an add of another memory type, scope or owner changes none of the entries of this one |
| Isolation.StoresAreIsolated | app/services/memory_service.py:137-241 | after any history the entries of a memory type, scope and owner are those of its own accepted calls alone; everyone's memories share one owner |
| Memory.MemoryService.FindDuplicate | app/services/memory_service.py:202-241 | the first listed row that states the same or, above a threshold, something similar enough, and how similar it is |
| Memory.MemoryService.MergeInto | app/services/memory_service.py:256-300 | only the given entry changes, and how |
| Memory.StatementIsFoldOfItsCalls | app/services/memory_service.py:137-300 | after any history in which no two different statements of the partition pass for each other, a statement has one entry: the fold of exactly the calls that made it |
| Memory.MergingIsExactIff | app/services/memory_service.py:202-241 | that holds in every history that stays within the listing limit if and only if no two texts with different keys are similar enough; with the threshold at 0 none are |
| Memory.MergesIntoItsOwnIff | app/services/memory_service.py:228-240 | a repeated statement merges into the entry that states it if and only if that entry is listed and no row listed before it passes for the statement |
| Memory.MergesExactlyWhenListed | app/services/memory_service.py:220-226 | where nothing else passes for it, a repeated statement merges if and only if its entry is among the listed rows; otherwise it ends up with two |
| Memory.FoldedContent | app/services/memory_service.py:267-268 | the content is the first longest one given |
| Memory.FoldedImportance | app/services/memory_service.py:269 | the importance is the maximum given |
| Memory.FoldedTags | app/services/memory_service.py:270 | after a merge the tags are all tags given, once each, in order of arrival |
| Memory.FoldedMeta | app/services/memory_service.py:271-291 | merges are counted, and every distinct request and session id is kept in order of arrival |

## Left out

- Chunker.ChunkDocument: a "section" label that is not text counts as no label, and chunk ids (hashes) are positions here; the documents it excludes are those on which the original runs forever (`TextSplitter.SplittingEndsIff`).
- Recovery.Store.RunWorkflowTask: one delivery while nobody else holds the request's task row open; every interleaving is covered by the step machine. The submission ledger, which only mirrors the outcome, is not modelled, and a skipped delivery's empty final_result is not part of an answer here.
- Workflow.RunTools: a tool call always returns a result here; that the executor raises when the tool log cannot be written is not modelled, the run then aborts like one whose agent's message is too long.
- Expansion.ExpandSeeds: the graph's own per-seed limits are part of its answers; `Hybrid` takes the graph leg as an arbitrary list.
- Agreement.GraphRunIsLoopRun: the graph library's own recursion limit is not modelled, only nodes, edges and routing.
- Runs.EveryLoopRunFinishes: for start states as requests build them, with an empty path and history.
- Memory.StatementIsFoldOfItsCalls: for partitions that stay within the 200 listed rows, beyond which see `MergesExactlyWhenListed`; how similar two texts are (`difflib`) is an arbitrary function.
- Watchdog.WorkerWatchdog.Tick: what a message says is modelled, its Chinese wording is not.
- Databases, the broker, tracing, logging, timestamps, session transcripts and human-review tasks; without a database the services are absent and nothing is stored.
- Language-model calls, JSON recovery, regular expressions, Unicode normalization and hashing are given functions.
- Agents or tools that change the shared state in place instead of returning results, and `normalize_shared_state`.
- Token, latency and cost counters of the extractor; floating-point rounding in fusion and cost.
- The worker summary's status text: only live workers and the stall flag reach the watchdog.
- Routes, authentication, console, settings, registries, evaluation and audit queries: no property beyond their bodies.
