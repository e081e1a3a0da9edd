/** The extractor's circuit breaker. Documents are extracted by concurrent tasks on one event loop, so
    the code between two waits is atomic: those segments are the functions below, and any interleaving
    of them is a run.
  */
module Circuit {
  import opened Common
  import opened Text

  /** `isQuota` classifies an error message; the threshold is at least one. */
  datatype Setup = Setup(hasFallback: bool, configuredThreshold: int, isQuota: string -> bool) {
    function Threshold(): nat {
      Max(1, configuredThreshold)
    }
  }

  datatype Breaker = Breaker(
    isOpen: bool, consecutive: nat, docs: nat,
    calls: nat, primaryCalls: nat, fallbackCalls: nat,
    reason: string, openedAtDocs: nat)

  function Closed(): Breaker {
    Breaker(false, 0, 0, 0, 0, 0, "", 0)
  }

  // ----- the atomic segments -----

  function StartPrimary(b: Breaker): Breaker {
    b.(calls := b.calls + 1, primaryCalls := b.primaryCalls + 1)
  }

  function StartFallback(b: Breaker): Breaker {
    b.(calls := b.calls + 1, fallbackCalls := b.fallbackCalls + 1)
  }

  function Open(b: Breaker, reason: string): Breaker {
    if b.isOpen then b else b.(isOpen := true, reason := reason, openedAtDocs := b.docs)
  }

  function NoteFailure(setup: Setup, b: Breaker, error: string): Breaker {
    if setup.isQuota(error) then Open(b, "quota exhausted: " + error)
    else if b.consecutive >= setup.Threshold() then
      Open(b, Decimal(b.consecutive) + " consecutive primary failures: " + error)
    else b
  }

  /** The primary leg failed: count it, maybe open, and go on to the fallback leg if there is one. */
  function PrimaryFailed(setup: Setup, b: Breaker, error: string): Breaker {
    var counted := b.(consecutive := b.consecutive + 1);
    if setup.hasFallback then StartFallback(NoteFailure(setup, counted, error)) else counted
  }

  function PrimarySucceeded(b: Breaker): Breaker {
    b.(consecutive := 0)
  }

  // ----- any number of tasks, any interleaving -----

  datatype Phase = Idle | OnPrimary | OnFallback

  datatype Event =
    | NewDocument
    | Begin(task: nat)
    | PrimaryAnswers(task: nat)
    | PrimaryBreaks(task: nat, error: string)
    | FallbackReturns(task: nat)

  datatype System = System(breaker: Breaker, phases: map<nat, Phase>)

  function PhaseOf(s: System, task: nat): Phase {
    if task in s.phases then s.phases[task] else Idle
  }

  /** None when the event cannot happen in this state. */
  function Next(setup: Setup, s: System, e: Event): Option<System> {
    match e
    case NewDocument => Some(s.(breaker := s.breaker.(docs := s.breaker.docs + 1)))
    case Begin(t) =>
      if PhaseOf(s, t) != Idle then None
      else if !s.breaker.isOpen then Some(System(StartPrimary(s.breaker), s.phases[t := OnPrimary]))
      else if setup.hasFallback then Some(System(StartFallback(s.breaker), s.phases[t := OnFallback]))
      else Some(s)
    case PrimaryAnswers(t) =>
      if PhaseOf(s, t) != OnPrimary then None
      else Some(System(PrimarySucceeded(s.breaker), s.phases[t := Idle]))
    case PrimaryBreaks(t, error) =>
      if PhaseOf(s, t) != OnPrimary then None
      else Some(System(PrimaryFailed(setup, s.breaker, error),
                       s.phases[t := if setup.hasFallback then OnFallback else Idle]))
    case FallbackReturns(t) =>
      if PhaseOf(s, t) != OnFallback then None
      else Some(s.(phases := s.phases[t := Idle]))
  }

  function RunFrom(setup: Setup, s: System, events: seq<Event>): Option<System> {
    if events == [] then Some(s) else
    var before := RunFrom(setup, s, events[..|events| - 1]);
    if before.None? then None else Next(setup, before.value, events[|events| - 1])
  }

  function Run(setup: Setup, events: seq<Event>): Option<System> {
    RunFrom(setup, System(Closed(), map[]), events)
  }

  // ----- when it opens -----

  /** How many primary calls broke since the last one that was answered. */
  function Streak(events: seq<Event>): nat {
    if events == [] then 0 else
    var before := Streak(events[..|events| - 1]);
    match events[|events| - 1]
    case PrimaryBreaks(_, _) => before + 1
    case PrimaryAnswers(_) => 0
    case _ => before
  }

  lemma {:induction false} StreakIsCounted(setup: Setup, events: seq<Event>)
    requires Run(setup, events).Some?
    ensures Run(setup, events).value.breaker.consecutive == Streak(events)
  {
    if events != [] { StreakIsCounted(setup, events[..|events| - 1]); }
  }

  /** The n-th event is a reason to open: a primary call broke while there is a fallback, and the quota is used up or
      the streak is as long as configured.
    */
  predicate Opens(setup: Setup, events: seq<Event>, n: nat)
    requires n < |events|
  {
    && setup.hasFallback && events[n].PrimaryBreaks?
    && (setup.isQuota(events[n].error) || Streak(events[..n + 1]) >= setup.configuredThreshold)
  }

  /** The circuit is open exactly when some event so far was a reason to open it. */
  lemma {:induction false} OpensIff(setup: Setup, events: seq<Event>)
    requires Run(setup, events).Some?
    ensures Run(setup, events).value.breaker.isOpen <==> exists n: nat :: n < |events| && Opens(setup, events, n)
  {
    if events != [] {
      var init, last := events[..|events| - 1], |events| - 1;
      OpensIff(setup, init);
      StreakIsCounted(setup, init);
      StreakIsCounted(setup, events);
      assert events[..last + 1] == events;
      forall n: nat | n < last ensures Opens(setup, events, n) <==> Opens(setup, init, n) {
        assert events[..n + 1] == init[..n + 1];
      }
      assert Run(setup, events).value.breaker.isOpen <==>
        Run(setup, init).value.breaker.isOpen || Opens(setup, events, last);
    }
  }

  function DocumentsIn(events: seq<Event>): nat {
    if events == [] then 0
    else DocumentsIn(events[..|events| - 1]) + if events[|events| - 1].NewDocument? then 1 else 0
  }

  lemma {:induction false} DocumentsAreCounted(setup: Setup, events: seq<Event>)
    requires Run(setup, events).Some?
    ensures Run(setup, events).value.breaker.docs == DocumentsIn(events)
  {
    if events != [] { DocumentsAreCounted(setup, events[..|events| - 1]); }
  }

  /** What opened it stays on record: the first reason, and how many documents had been begun. */
  lemma {:induction false} ReasonIsFirst(setup: Setup, events: seq<Event>, n: nat)
    requires Run(setup, events).Some? && n < |events| && Opens(setup, events, n)
    requires forall m: nat :: m < n ==> !Opens(setup, events, m)
    ensures var b, error, streak := Run(setup, events).value.breaker, events[n].error, Streak(events[..n + 1]);
      && b.reason == (if setup.isQuota(error) then "quota exhausted: " + error
                      else Decimal(streak) + " consecutive primary failures: " + error)
      && b.openedAtDocs == DocumentsIn(events[..n])
  {
    var init, last := events[..|events| - 1], |events| - 1;
    StreakIsCounted(setup, init);
    DocumentsAreCounted(setup, init);
    if n < last {
      assert events[..n] == init[..n] && events[..n + 1] == init[..n + 1];
      forall m: nat | m <= n ensures Opens(setup, events, m) <==> Opens(setup, init, m) {
        assert events[..m + 1] == init[..m + 1];
      }
      OpensIff(setup, init);
      ReasonIsFirst(setup, init, n);
    } else {
      OpensIff(setup, init);
      forall m: nat | m < last ensures Opens(setup, events, m) <==> Opens(setup, init, m) {
        assert events[..m + 1] == init[..m + 1];
      }
      assert events[..n + 1] == events && events[..n] == init;
    }
  }

  ghost predicate OpenedIn(setup: Setup, events: seq<Event>) {
    exists n: nat :: n < |events| && Opens(setup, events, n)
  }

  /** Requests begun before anything opened the circuit. */
  ghost function BegunClosed(setup: Setup, events: seq<Event>): nat {
    if events == [] then 0 else
    var init := events[..|events| - 1];
    BegunClosed(setup, init) + if events[|events| - 1].Begin? && !OpenedIn(setup, init) then 1 else 0
  }

  /** Requests begun after that, and primary calls that broke. */
  ghost function BegunOpenOrBroken(setup: Setup, events: seq<Event>): nat {
    if events == [] then 0 else
    var init, last := events[..|events| - 1], events[|events| - 1];
    BegunOpenOrBroken(setup, init)
      + if last.PrimaryBreaks? || (last.Begin? && OpenedIn(setup, init)) then 1 else 0
  }

  ghost predicate Sound(setup: Setup, b: Breaker) {
    && b.calls == b.primaryCalls + b.fallbackCalls
    && (b.isOpen ==> setup.hasFallback)
    && (!b.isOpen && setup.hasFallback ==> b.consecutive < setup.Threshold())
    && (!b.isOpen ==> b.reason == "" && b.openedAtDocs == 0)
    && b.openedAtDocs <= b.docs
  }

  lemma NextKeepsSound(setup: Setup, s: System, e: Event)
    requires Sound(setup, s.breaker) && Next(setup, s, e).Some?
    ensures Sound(setup, Next(setup, s, e).value.breaker)
  {
  }

  lemma {:induction false} RunFromKeepsSound(setup: Setup, s: System, events: seq<Event>)
    requires Sound(setup, s.breaker) && RunFrom(setup, s, events).Some?
    ensures Sound(setup, RunFrom(setup, s, events).value.breaker)
  {
    if events != [] {
      RunFromKeepsSound(setup, s, events[..|events| - 1]);
      NextKeepsSound(setup, RunFrom(setup, s, events[..|events| - 1]).value, events[|events| - 1]);
    }
  }

  /** In every reachable state every call is on one of the two legs, an open circuit has a fallback leg to
      go to, and while it is closed with a fallback the failure streak is below the threshold.
    */
  lemma BreakerIsSound(setup: Setup, events: seq<Event>)
    requires Run(setup, events).Some?
    ensures Sound(setup, Run(setup, events).value.breaker)
  {
    RunFromKeepsSound(setup, System(Closed(), map[]), events);
  }

  /** The primary leg is called for exactly the first, the fallback leg for exactly the others. */
  lemma {:induction false} LegsAreCounted(setup: Setup, events: seq<Event>)
    requires Run(setup, events).Some?
    ensures Run(setup, events).value.breaker.primaryCalls == BegunClosed(setup, events)
    ensures Run(setup, events).value.breaker.fallbackCalls
         == if setup.hasFallback then BegunOpenOrBroken(setup, events) else 0
  {
    if events != [] {
      var init := events[..|events| - 1];
      LegsAreCounted(setup, init);
      OpensIff(setup, init);
      BreakerIsSound(setup, init);
    }
  }

  lemma {:induction false} RunFromAppend(setup: Setup, s: System, events: seq<Event>, more: seq<Event>)
    requires RunFrom(setup, s, events).Some?
    ensures RunFrom(setup, s, events + more) == RunFrom(setup, RunFrom(setup, s, events).value, more)
    decreases |more|
  {
    if more == [] {
      assert events + more == events;
    } else {
      assert (events + more)[..|events + more| - 1] == events + more[..|more| - 1];
      RunFromAppend(setup, s, events, more[..|more| - 1]);
    }
  }

  lemma {:induction false} OpenStaysOpen(setup: Setup, s: System, more: seq<Event>)
    requires s.breaker.isOpen && RunFrom(setup, s, more).Some?
    ensures var b, b' := s.breaker, RunFrom(setup, s, more).value.breaker;
      b'.isOpen && b'.primaryCalls == b.primaryCalls && b'.reason == b.reason && b'.openedAtDocs == b.openedAtDocs
  {
    if more != [] { OpenStaysOpen(setup, s, more[..|more| - 1]); }
  }

  /** Once open, the circuit never closes, the primary leg is never called again, and the recorded reason
      stays, even while calls that were already in flight come back.
    */
  lemma OpenIsForever(setup: Setup, events: seq<Event>, more: seq<Event>)
    requires Run(setup, events).Some? && Run(setup, events).value.breaker.isOpen
    requires Run(setup, events + more).Some?
    ensures var b, b' := Run(setup, events).value.breaker, Run(setup, events + more).value.breaker;
      b'.isOpen && b'.primaryCalls == b.primaryCalls && b'.reason == b.reason && b'.openedAtDocs == b.openedAtDocs
  {
    RunFromAppend(setup, System(Closed(), map[]), events, more);
    OpenStaysOpen(setup, Run(setup, events).value, more);
  }

  lemma {:induction false} NoFallbackCalls(setup: Setup, events: seq<Event>)
    requires Run(setup, events).Some? && !setup.hasFallback
    ensures Run(setup, events).value.breaker.fallbackCalls == 0
  {
    if events != [] {
      NoFallbackCalls(setup, events[..|events| - 1]);
    }
  }

  /** Without a fallback leg the circuit can never open, however often the primary leg fails. */
  lemma NoFallbackNeverOpens(setup: Setup, events: seq<Event>)
    requires Run(setup, events).Some? && !setup.hasFallback
    ensures !Run(setup, events).value.breaker.isOpen && Run(setup, events).value.breaker.fallbackCalls == 0
  {
    BreakerIsSound(setup, events);
    NoFallbackCalls(setup, events);
  }

  // ----- what one task's requests cost, whatever the others do -----

  predicate ByTask(e: Event, task: nat) {
    !e.NewDocument? && e.task == task
  }

  /** The requests a task has begun. */
  function Requests(events: seq<Event>, task: nat): nat {
    if events == [] then 0 else
    var e := events[|events| - 1];
    Requests(events[..|events| - 1], task) + if e.Begin? && e.task == task then 1 else 0
  }

  function CallsAdded(setup: Setup, before: System, e: Event, task: nat): int {
    match Next(setup, before, e)
    case None => 0
    case Some(after) => if ByTask(e, task) then after.breaker.calls - before.breaker.calls else 0
  }

  /** The provider calls made by one task along a run. */
  function CallsBy(setup: Setup, events: seq<Event>, task: nat): int {
    if events == [] then 0 else
    var init := events[..|events| - 1];
    match Run(setup, init)
    case None => 0
    case Some(before) => CallsBy(setup, init, task) + CallsAdded(setup, before, events[|events| - 1], task)
  }

  lemma NextAddsCalls(setup: Setup, before: System, e: Event, task: nat)
    requires Next(setup, before, e).Some?
    ensures var after := Next(setup, before, e).value;
      var waiting, waiting' := PhaseOf(before, task) == OnPrimary, PhaseOf(after, task) == OnPrimary;
      CallsAdded(setup, before, e, task) + (if waiting' then 1 else 0)
        <= (if waiting then 1 else 0) + if e.Begin? && e.task == task then 2 else 0
  {
  }

  /** Under every interleaving a task makes at most two calls per request it begins. */
  lemma {:induction false} TaskCallsAreBounded(setup: Setup, events: seq<Event>, task: nat)
    requires Run(setup, events).Some?
    ensures CallsBy(setup, events, task) + (if PhaseOf(Run(setup, events).value, task) == OnPrimary then 1 else 0)
         <= 2 * Requests(events, task)
  {
    if events != [] {
      var init := events[..|events| - 1];
      TaskCallsAreBounded(setup, init, task);
      NextAddsCalls(setup, Run(setup, init).value, events[|events| - 1], task);
    }
  }
}
