/** Documents extracted concurrently. Each has a task of its own that works through its batches, splitting those whose
    answers cannot be read, while the tasks' requests interleave in any way the circuit breaker allows.
  */
module Documents {
  import opened Common
  import opened Entities
  import Circuit
  import Extractor

  datatype Setup = Setup(
    circuit: Circuit.Setup, vocabulary: Vocabulary, maxClauses: int, maxChars: int, maxSplitDepth: nat)

  /** A batch still to be sent, and how many splits made it. */
  datatype Part = Part(batch: seq<ClauseInput>, depth: nat)

  /** Where a document stands: what is still to be sent, in order, and what has been read of the clauses before. */
  datatype Work = Work(todo: seq<Part>, covered: seq<ClauseInput>, merged: Extraction, failed: bool)

  /** How a request ends: no leg answered, the answer could not be read, or it could. */
  datatype Outcome = CallFailed | Garbled | Read(items: seq<RawItem>, model: string)

  function Halves(p: Part): seq<Part> {
    var middle := |p.batch| / 2;
    [Part(p.batch[..middle], p.depth + 1), Part(p.batch[middle..], p.depth + 1)]
  }

  predicate Splittable(cfg: Setup, p: Part) {
    |p.batch| > 1 && p.depth < cfg.maxSplitDepth
  }

  function Reading(cfg: Setup, batch: seq<ClauseInput>, items: seq<RawItem>, model: string): Extraction {
    Stamped(Parsed(cfg.vocabulary, RefMap(batch), items), model)
  }

  /** The request for the first part has ended. */
  function AfterOutcome(cfg: Setup, w: Work, o: Outcome): Work
    requires w.todo != []
  {
    var part, rest := w.todo[0], w.todo[1..];
    match o
    case CallFailed => w.(todo := rest, failed := true)
    case Garbled =>
      if Splittable(cfg, part) then w.(todo := Halves(part) + rest) else w.(todo := rest, failed := true)
    case Read(items, model) =>
      Work(rest, w.covered + part.batch, Joined(w.merged, Reading(cfg, part.batch, items, model)), w.failed)
  }

  function Parts(batches: seq<seq<ClauseInput>>): seq<Part> {
    if batches == [] then [] else Parts(batches[..|batches| - 1]) + [Part(batches[|batches| - 1], 0)]
  }

  function StartWork(cfg: Setup, clauses: seq<ClauseInput>): Work {
    Work(Parts(Batches(clauses, cfg.maxClauses, cfg.maxChars)), [], Extraction([], NoStats()), false)
  }

  // ----- the documents on the circuit -----

  datatype State = State(circuit: Circuit.System, works: map<nat, Work>)

  /** A step of the circuit; the outcome counts when the step ends a request. */
  datatype Event = Event(step: Circuit.Event, outcome: Outcome)

  /** A task may begin a request while it has something to send and has not failed. */
  predicate Allowed(s: State, e: Event) {
    match e.step
    case NewDocument => true
    case Begin(t) => t in s.works && s.works[t].todo != [] && !s.works[t].failed
    case PrimaryAnswers(_) => !e.outcome.CallFailed?
    case PrimaryBreaks(_, _) => e.outcome.CallFailed?
    case FallbackReturns(_) => true
  }

  /** The step ends the request of task t. */
  predicate Ends(before: Circuit.System, after: Circuit.System, t: nat) {
    Circuit.PhaseOf(before, t) != Circuit.Idle && Circuit.PhaseOf(after, t) == Circuit.Idle
  }

  /** Only the request that ends moves its document on. */
  function WorkAfter(cfg: Setup, s: State, e: Event, circuit: Circuit.System, t: nat): Work
    requires t in s.works
  {
    var w := s.works[t];
    if Ends(s.circuit, circuit, t) && w.todo != [] then AfterOutcome(cfg, w, e.outcome) else w
  }

  function WorksAfter(cfg: Setup, s: State, e: Event, circuit: Circuit.System): map<nat, Work> {
    map t | t in s.works :: WorkAfter(cfg, s, e, circuit, t)
  }

  /** None when the event cannot happen in this state. */
  function Next(cfg: Setup, s: State, e: Event): Option<State> {
    if !Allowed(s, e) then None
    else
      match Circuit.Next(cfg.circuit, s.circuit, e.step)
      case None => None
      case Some(circuit) => Some(State(circuit, WorksAfter(cfg, s, e, circuit)))
  }

  function Start(cfg: Setup, docs: map<nat, seq<ClauseInput>>): State {
    State(Circuit.System(Circuit.Closed(), map[]), map t | t in docs :: StartWork(cfg, docs[t]))
  }

  function Run(cfg: Setup, docs: map<nat, seq<ClauseInput>>, events: seq<Event>): Option<State> {
    if events == [] then Some(Start(cfg, docs))
    else
      match Run(cfg, docs, events[..|events| - 1])
      case None => None
      case Some(before) => Next(cfg, before, events[|events| - 1])
  }

  function Steps(events: seq<Event>): seq<Circuit.Event> {
    if events == [] then [] else Steps(events[..|events| - 1]) + [events[|events| - 1].step]
  }

  lemma {:induction false} RunsOnTheCircuit(cfg: Setup, docs: map<nat, seq<ClauseInput>>, events: seq<Event>)
    requires Run(cfg, docs, events).Some?
    ensures Circuit.Run(cfg.circuit, Steps(events)) == Some(Run(cfg, docs, events).value.circuit)
  {
    if events != [] {
      var init, last := events[..|events| - 1], events[|events| - 1];
      RunsOnTheCircuit(cfg, docs, init);
      assert Steps(events)[..|Steps(init)|] == Steps(init);
    }
  }

  // ----- what a document still owes, and what it has -----

  function ClausesOf(todo: seq<Part>): seq<ClauseInput> {
    if todo == [] then [] else todo[0].batch + ClausesOf(todo[1..])
  }

  predicate Sendable(cfg: Setup, todo: seq<Part>) {
    forall i :: 0 <= i < |todo| ==> todo[i].batch != [] && todo[i].depth <= cfg.maxSplitDepth
  }

  /** The most requests the parts can still take. */
  function Budget(cfg: Setup, todo: seq<Part>): int
    requires Sendable(cfg, todo)
  {
    if todo == [] then 0
    else Extractor.TreeBound(|todo[0].batch|, cfg.maxSplitDepth - todo[0].depth) + Budget(cfg, todo[1..])
  }

  /** Nothing is lost and everything read is accounted for, unless the document has failed. */
  ghost predicate Conserves(cfg: Setup, clauses: seq<ClauseInput>, w: Work) {
    && Sendable(cfg, w.todo)
    && (!w.failed ==> w.covered + ClausesOf(w.todo) == clauses && AccountsFor(w.merged, w.covered))
  }

  lemma {:induction false} BudgetIsPositive(cfg: Setup, todo: seq<Part>)
    requires Sendable(cfg, todo)
    ensures Budget(cfg, todo) >= |todo|
  {
    if todo != [] {
      BudgetIsPositive(cfg, todo[1..]);
      Extractor.TreeBoundPositive(|todo[0].batch|, cfg.maxSplitDepth - todo[0].depth);
    }
  }

  lemma SplitKeeps(cfg: Setup, part: Part, rest: seq<Part>)
    requires Splittable(cfg, part) && Sendable(cfg, [part] + rest) && Sendable(cfg, rest)
    ensures var split := Halves(part) + rest;
      && Sendable(cfg, split)
      && ClausesOf(split) == part.batch + ClausesOf(rest)
      && Budget(cfg, split)
           <= Extractor.TreeBound(|part.batch|, cfg.maxSplitDepth - part.depth) - 1 + Budget(cfg, rest)
  {
    var split, middle := Halves(part) + rest, |part.batch| / 2;
    var left, right := Part(part.batch[..middle], part.depth + 1), Part(part.batch[middle..], part.depth + 1);
    assert split[1..] == [right] + rest && split[1..][1..] == rest;
    assert left.batch + right.batch == part.batch;
    Associative(left.batch, right.batch, ClausesOf(rest));
    Extractor.TreeBoundSplits(|left.batch|, |right.batch|, cfg.maxSplitDepth - part.depth - 1);
  }

  lemma ReadingAccounts(cfg: Setup, batch: seq<ClauseInput>, items: seq<RawItem>, model: string)
    ensures AccountsFor(Reading(cfg, batch, items, model), batch)
  {
    ParsedAccounts(cfg.vocabulary, batch, items);
    StampedAccounts(Parsed(cfg.vocabulary, RefMap(batch), items), model, batch);
  }

  /** The end of a request keeps the accounts and uses up some of the budget. */
  lemma OutcomeKeeps(cfg: Setup, clauses: seq<ClauseInput>, w: Work, o: Outcome)
    requires Conserves(cfg, clauses, w) && w.todo != []
    ensures Conserves(cfg, clauses, AfterOutcome(cfg, w, o))
    ensures Budget(cfg, AfterOutcome(cfg, w, o).todo) + 1 <= Budget(cfg, w.todo)
  {
    var part, rest := w.todo[0], w.todo[1..];
    Extractor.TreeBoundPositive(|part.batch|, cfg.maxSplitDepth - part.depth);
    match o
    case CallFailed =>
    case Garbled =>
      if Splittable(cfg, part) {
        assert [part] + rest == w.todo;
        SplitKeeps(cfg, part, rest);
      }
    case Read(items, model) =>
      Associative(w.covered, part.batch, ClausesOf(rest));
      if !w.failed {
        ReadingAccounts(cfg, part.batch, items, model);
        JoinedAccounts(w.merged, w.covered, Reading(cfg, part.batch, items, model), part.batch);
      }
  }

  lemma {:induction false} ClausesOfSnoc(todo: seq<Part>, p: Part)
    ensures ClausesOf(todo + [p]) == ClausesOf(todo) + p.batch
  {
    if todo == [] {
      assert [p][1..] == [] && [] + [p] == [p];
    } else {
      assert (todo + [p])[1..] == todo[1..] + [p];
      ClausesOfSnoc(todo[1..], p);
      Associative(todo[0].batch, ClausesOf(todo[1..]), p.batch);
    }
  }

  lemma {:induction false} BudgetSnoc(cfg: Setup, todo: seq<Part>, p: Part)
    requires Sendable(cfg, todo) && p.batch != [] && p.depth <= cfg.maxSplitDepth
    requires Sendable(cfg, todo + [p])
    ensures Budget(cfg, todo + [p])
         == Budget(cfg, todo) + Extractor.TreeBound(|p.batch|, cfg.maxSplitDepth - p.depth)
  {
    if todo == [] {
      assert [p][1..] == [] && [] + [p] == [p];
    } else {
      assert (todo + [p])[1..] == todo[1..] + [p];
      BudgetSnoc(cfg, todo[1..], p);
    }
  }

  lemma {:induction false} PartsHoldBatches(cfg: Setup, batches: seq<seq<ClauseInput>>)
    requires forall b :: 0 <= b < |batches| ==> batches[b] != []
    ensures Sendable(cfg, Parts(batches)) && ClausesOf(Parts(batches)) == Flatten(batches)
    ensures 2 * Budget(cfg, Parts(batches)) == Extractor.CallBound(batches, cfg.maxSplitDepth)
  {
    if batches != [] {
      var init, last := batches[..|batches| - 1], Part(batches[|batches| - 1], 0);
      PartsHoldBatches(cfg, init);
      assert Parts(batches) == Parts(init) + [last];
      ClausesOfSnoc(Parts(init), last);
      BudgetSnoc(cfg, Parts(init), last);
    }
  }

  lemma BatchesAreSendable(cfg: Setup, clauses: seq<ClauseInput>, batches: seq<seq<ClauseInput>>)
    requires batches == Batches(clauses, cfg.maxClauses, cfg.maxChars)
    ensures Flatten(batches) == clauses && forall b :: 0 <= b < |batches| ==> batches[b] != []
  {
    BatchesAreLegal(clauses, cfg.maxClauses, cfg.maxChars);
    assert forall b :: 0 <= b < |batches| ==> Obeys(batches[b], cfg.maxClauses, cfg.maxChars) && batches[b] != [];
  }

  lemma NothingReadConserves(cfg: Setup, clauses: seq<ClauseInput>, todo: seq<Part>, none: seq<ClauseInput>,
                             nothing: Extraction)
    requires Sendable(cfg, todo) && ClausesOf(todo) == clauses && none == [] && AccountsFor(nothing, none)
    ensures Conserves(cfg, clauses, Work(todo, none, nothing, false))
  {
    assert none + clauses == clauses;
  }

  lemma StartConserves(cfg: Setup, clauses: seq<ClauseInput>, w: Work)
    requires w == StartWork(cfg, clauses)
    ensures Conserves(cfg, clauses, w)
    ensures 2 * Budget(cfg, w.todo)
         == Extractor.CallBound(Batches(clauses, cfg.maxClauses, cfg.maxChars), cfg.maxSplitDepth)
  {
    var batches := Batches(clauses, cfg.maxClauses, cfg.maxChars);
    BatchesAreSendable(cfg, clauses, batches);
    PartsHoldBatches(cfg, batches);
    var nothing, none := Extraction([], NoStats()), [];
    NothingAccounts(nothing, none);
    NothingReadConserves(cfg, clauses, Parts(batches), none, nothing);
  }

  // ----- every interleaving -----

  function InFlight(s: State, t: nat): nat {
    if Circuit.PhaseOf(s.circuit, t) == Circuit.Idle then 0 else 1
  }

  /** One document after `begun` requests of two calls at most: conserved, and within its budget of calls, the open
      request included.
    */
  ghost predicate OnTrack(cfg: Setup, clauses: seq<ClauseInput>, s: State, t: nat, begun: nat, budget: int) {
    && t in s.works && Conserves(cfg, clauses, s.works[t])
    && (InFlight(s, t) == 1 ==> s.works[t].todo != [])
    && 2 * begun + 2 * Budget(cfg, s.works[t].todo) <= budget + 2 * InFlight(s, t)
  }

  lemma StepKeepsTrack(cfg: Setup, clauses: seq<ClauseInput>, s: State, e: Event, t: nat, begun: nat, budget: int)
    requires Circuit.Sound(cfg.circuit, s.circuit.breaker) && Next(cfg, s, e).Some?
    requires OnTrack(cfg, clauses, s, t, begun, budget)
    ensures OnTrack(cfg, clauses, Next(cfg, s, e).value, t,
                    begun + if e.step.Begin? && e.step.task == t then 1 else 0, budget)
  {
    var s' := Next(cfg, s, e).value;
    if Ends(s.circuit, s'.circuit, t) {
      OutcomeKeeps(cfg, clauses, s.works[t], e.outcome);
    }
  }

  lemma IdleIsOnTrack(cfg: Setup, clauses: seq<ClauseInput>, s: State, t: nat, budget: int)
    requires t in s.works && Conserves(cfg, clauses, s.works[t]) && 2 * Budget(cfg, s.works[t].todo) == budget
    requires Circuit.PhaseOf(s.circuit, t) == Circuit.Idle
    ensures OnTrack(cfg, clauses, s, t, 0, budget)
  {
  }

  lemma StartIsOnTrack(cfg: Setup, clauses: seq<ClauseInput>, s: State, t: nat, w: Work, budget: int)
    requires t in s.works && s.works[t] == w && Circuit.PhaseOf(s.circuit, t) == Circuit.Idle
    requires w == StartWork(cfg, clauses)
    requires budget == Extractor.CallBound(Batches(clauses, cfg.maxClauses, cfg.maxChars), cfg.maxSplitDepth)
    ensures OnTrack(cfg, clauses, s, t, 0, budget)
  {
    StartConserves(cfg, clauses, w);
    IdleIsOnTrack(cfg, clauses, s, t, budget);
  }

  lemma {:induction false} RunsKeepTrack(cfg: Setup, docs: map<nat, seq<ClauseInput>>, events: seq<Event>, t: nat)
    requires t in docs && Run(cfg, docs, events).Some?
    ensures OnTrack(cfg, docs[t], Run(cfg, docs, events).value, t, Circuit.Requests(Steps(events), t),
                    Extractor.CallBound(Batches(docs[t], cfg.maxClauses, cfg.maxChars), cfg.maxSplitDepth))
  {
    if events == [] {
      var s := Start(cfg, docs);
      StartIsOnTrack(cfg, docs[t], s, t, s.works[t],
                     Extractor.CallBound(Batches(docs[t], cfg.maxClauses, cfg.maxChars), cfg.maxSplitDepth));
    } else {
      var init, last := events[..|events| - 1], events[|events| - 1];
      var bound := Extractor.CallBound(Batches(docs[t], cfg.maxClauses, cfg.maxChars), cfg.maxSplitDepth);
      RunsKeepTrack(cfg, docs, init, t);
      RunsOnTheCircuit(cfg, docs, init);
      Circuit.BreakerIsSound(cfg.circuit, Steps(init));
      StepKeepsTrack(cfg, docs[t], Run(cfg, docs, init).value, last, t, Circuit.Requests(Steps(init), t), bound);
      assert Steps(events)[..|Steps(init)|] == Steps(init);
    }
  }

  /** Whatever the other documents do and however the provider answers them all: no document's task makes more calls
      than its own batches and split depth allow.
    */
  lemma DocumentCallsAreBounded(cfg: Setup, docs: map<nat, seq<ClauseInput>>, events: seq<Event>, t: nat)
    requires t in docs && Run(cfg, docs, events).Some?
    ensures Circuit.CallsBy(cfg.circuit, Steps(events), t)
         <= Extractor.CallBound(Batches(docs[t], cfg.maxClauses, cfg.maxChars), cfg.maxSplitDepth)
  {
    var s := Run(cfg, docs, events).value;
    RunsKeepTrack(cfg, docs, events, t);
    RunsOnTheCircuit(cfg, docs, events);
    Circuit.TaskCallsAreBounded(cfg.circuit, Steps(events), t);
    BudgetIsPositive(cfg, s.works[t].todo);
  }

  /** And a document that has nothing left to send and has not failed accounts for every clause and every entity. */
  lemma FinishedDocumentAccounts(cfg: Setup, docs: map<nat, seq<ClauseInput>>, events: seq<Event>, t: nat)
    requires t in docs && Run(cfg, docs, events).Some?
    ensures t in Run(cfg, docs, events).value.works
    ensures var w := Run(cfg, docs, events).value.works[t];
      w.todo == [] && !w.failed ==> AccountsFor(w.merged, docs[t])
  {
    RunsKeepTrack(cfg, docs, events, t);
    var w := Run(cfg, docs, events).value.works[t];
    assert w.covered + [] == w.covered;
  }
}
