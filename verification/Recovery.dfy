/** When a request can still be recorded, and what one failed database call costs its process. */
module Recovery {
  import opened Common
  import opened Delivery
  import opened Workflow

  // ----- when can a request still get its run row? -----

  /** It cannot write any more: it is dead, or its session is broken. */
  predicate CannotWrite(w: World, e: nat) {
    e < |w.executors| ==> w.executors[e].phase.Dead? || w.executors[e].process in w.broken
  }

  /** The winner of the task row can no longer write the run row. */
  ghost predicate Stranded(w: World, q: string) {
    && Find(w.runs.rows, q).None? && Find(w.tasks.rows, q).Some?
    && var e := Find(w.tasks.rows, q).value.writer;
      e !in w.runs.pending && CannotWrite(w, e)
  }

  lemma ActKeepsStranded(w: World, f: nat, action: Action, q: string)
    requires Inv(w) && Stranded(w, q) && f < |w.executors|
    ensures var e := Find(w.tasks.rows, q).value.writer; var w' := Do(w, f, action);
      Find(w'.runs.rows, q).None? && e !in w'.runs.pending && CannotWrite(w', e)
  {
    var e := Find(w.tasks.rows, q).value.writer;
    LandingKeepsTable(w.runs, f);
    ActCommitsOwnRow(w, f, action);
    if f != e {
      OtherUntouched(w, f, action, e);
    }
  }

  lemma StrandedStays(w: World, ev: Event, q: string)
    requires Inv(w) && Stranded(w, q)
    ensures Stranded(Step(w, ev), q)
  {
    var e := Find(w.tasks.rows, q).value.writer;
    StepKeepsRows(w, ev, q);
    match ev
    case Deliver(_, _, _) =>
    case Break(_) =>
    case SettleTask(f, keep) =>
    case SettleRun(f, keep) => LandingKeepsTable(w.runs, f);
    case Act(f, action) =>
      if f < |w.executors| {
        ActKeepsStranded(w, f, action, q);
      }
  }

  lemma {:induction false} StrandedForever(w: World, es: seq<Event>, q: string)
    requires Inv(w) && Stranded(w, q)
    ensures Stranded(After(w, es), q)
    decreases |es|
  {
    if es != [] {
      StrandedStays(w, es[0], q);
      StepKeepsInv(w, es[0]);
      StrandedForever(Step(w, es[0]), es[1..], q);
    }
  }

  ghost predicate CanFinish(w: World, q: string) {
    exists es: seq<Event> :: Find(After(w, es).runs.rows, q).Some?
  }

  lemma CanFinishLater(w: World, ev: Event, q: string)
    requires CanFinish(Step(w, ev), q)
    ensures CanFinish(w, q)
  {
    var es: seq<Event> :| Find(After(Step(w, ev), es).runs.rows, q).Some?;
    assert ([ev] + es)[1..] == es;
    assert After(w, [ev] + es) == After(Step(w, ev), es);
  }

  lemma CanFinishNow(w: World, q: string)
    requires Find(w.runs.rows, q).Some?
    ensures CanFinish(w, q)
  {
    assert After(w, []) == w;
  }

  lemma OpenRunCanFinish(w: World, e: nat, q: string)
    requires Inv(w) && e in w.runs.pending && w.runs.pending[e].requestId == q
    ensures CanFinish(w, q)
  {
    LandingKeepsTable(w.runs, e);
    CanFinishNow(Step(w, SettleRun(e, true)), q);
    CanFinishLater(w, SettleRun(e, true), q);
  }

  /** Nobody stands in the winner's way. */
  lemma SavedIsFree(w: World, e: nat)
    requires Inv(w) && e < |w.executors| && w.executors[e].phase.TaskSaved?
    ensures !Held(w.runs, w.executors[e].requestId) && Find(w.runs.rows, w.executors[e].requestId).None?
  {
    assert PhaseOk(w, e, w.executors[e]);
  }

  lemma SavedTaskCanFinish(w: World, e: nat, q: string)
    requires Inv(w) && e < |w.executors| && w.executors[e].requestId == q && w.executors[e].phase.TaskSaved?
    requires w.executors[e].process !in w.broken
    ensures CanFinish(w, q)
  {
    assert PhaseOk(w, e, w.executors[e]);
    var w' := Step(w, Act(e, InsertRun));
    StepKeepsInv(w, Act(e, InsertRun));
    SavedIsFree(w, e);
    OpenRunCanFinish(w', e, q);
    CanFinishLater(w, Act(e, InsertRun), q);
  }

  lemma OpenTaskCanFinish(w: World, e: nat, q: string)
    requires Inv(w) && e < |w.executors| && w.executors[e].requestId == q && w.executors[e].phase.TaskOpen?
    requires w.executors[e].process !in w.broken
    requires e in w.tasks.pending || Won(w, q, e)
    ensures CanFinish(w, q)
  {
    LandingKeepsTable(w.tasks, e);
    StepKeepsInv(w, Act(e, CommitTask));
    SavedTaskCanFinish(Step(w, Act(e, CommitTask)), e, q);
    CanFinishLater(w, Act(e, CommitTask), q);
  }

  lemma {:induction false} FreshProcess(broken: set<nat>) returns (p: nat)
    ensures forall b :: b in broken ==> b < p
  {
    p := 0;
    if broken != {} {
      var b :| b in broken;
      var rest := broken - {b};
      p := FreshProcess(rest);
      assert forall other :: other in broken ==> other in rest || other == b;
      p := Max(p, b + 1);
    }
  }

  lemma NewDeliveryCanFinish(w: World, q: string)
    requires Inv(w) && Find(w.tasks.rows, q).None? && !Held(w.tasks, q)
    ensures CanFinish(w, q)
  {
    var e := |w.executors|;
    var o := Outcome(Completed, Some(NaturalCompletion), [], [], None);
    var p := FreshProcess(w.broken);
    var w1 := Step(w, Deliver(q, false, p));
    StepKeepsInv(w, Deliver(q, false, p));
    var w2 := Step(w1, Act(e, Finish(o)));
    StepKeepsInv(w1, Act(e, Finish(o)));
    var w3 := Step(w2, Act(e, InsertTask));
    StepKeepsInv(w2, Act(e, InsertTask));
    OpenTaskCanFinish(w3, e, q);
    CanFinishLater(w2, Act(e, InsertTask), q);
    CanFinishLater(w1, Act(e, Finish(o)), q);
    CanFinishLater(w, Deliver(q, false, p), q);
  }

  lemma UnwonCanFinish(w: World, q: string)
    requires Inv(w) && Find(w.tasks.rows, q).None?
    ensures CanFinish(w, q)
  {
    if Held(w.tasks, q) {
      var e :| e in w.tasks.pending && w.tasks.pending[e].requestId == q;
      LandingKeepsTable(w.tasks, e);
      StepKeepsInv(w, SettleTask(e, false));
      NewDeliveryCanFinish(Step(w, SettleTask(e, false)), q);
      CanFinishLater(w, SettleTask(e, false), q);
    } else {
      NewDeliveryCanFinish(w, q);
    }
  }

  lemma WonCanFinish(w: World, q: string)
    requires Inv(w) && Find(w.tasks.rows, q).Some? && !Stranded(w, q)
    ensures CanFinish(w, q)
  {
    var e := Find(w.tasks.rows, q).value.writer;
    if Find(w.runs.rows, q).Some? {
      CanFinishNow(w, q);
    } else if e in w.runs.pending {
      OpenRunCanFinish(w, e, q);
    } else {
      assert PhaseOk(w, e, w.executors[e]);
      if w.executors[e].phase.TaskOpen? {
        OpenTaskCanFinish(w, e, q);
      } else {
        SavedTaskCanFinish(w, e, q);
      }
    }
  }

  /** After any history: the request can still finish unless its winner died or had its session broken between the two
      commits. Then no redelivery ever helps: each one runs its agents again and fails.
    */
  lemma CanFinishUnlessStranded(es: seq<Event>, q: string)
    ensures CanFinish(After(START, es), q) <==> !Stranded(After(START, es), q)
  {
    StartIsOk();
    RunsKeepInv(START, es);
    var w := After(START, es);
    if Stranded(w, q) {
      forall more: seq<Event> ensures Find(After(w, more).runs.rows, q).None? {
        StrandedForever(w, more, q);
      }
    } else if Find(w.tasks.rows, q).Some? {
      WonCanFinish(w, q);
    } else {
      UnwonCanFinish(w, q);
    }
  }

  // ----- a delivery handled without interruption -----

  lemma {:induction false} AfterOneMore(w: World, es: seq<Event>, ev: Event)
    ensures After(w, es + [ev]) == Step(After(w, es), ev)
    decreases |es|
  {
    if es == [] {
      assert After(w, [ev]) == After(Step(w, ev), []);
    } else {
      assert (es + [ev])[1..] == es[1..] + [ev];
      AfterOneMore(Step(w, es[0]), es[1..], ev);
    }
  }

  lemma {:induction false} AfterBoth(w: World, es: seq<Event>, more: seq<Event>)
    ensures After(w, es + more) == After(After(w, es), more)
    decreases |es|
  {
    if es == [] {
      assert es + more == more;
    } else {
      assert (es + more)[1..] == es[1..] + more;
      AfterBoth(Step(w, es[0]), es[1..], more);
    }
  }

  /** Delivery and check, with executor number e. */
  function Opening(e: nat, q: string, process: nat): seq<Event> {
    [Deliver(q, true, process)] + [Act(e, Check)]
  }

  /** The agents' run and the database calls after it. */
  function Body(e: nat, run: Outcome): seq<Event> {
    [Act(e, Finish(run))] + [Act(e, InsertTask)] + [Act(e, CommitTask)] + [Act(e, InsertRun)] + [Act(e, CommitRun)]
  }

  /** One task delivery, start to end, with no other event in between. */
  function Handling(w: World, q: string, process: nat, run: Outcome): seq<Event> {
    Opening(|w.executors|, q, process) + Body(|w.executors|, run) + [Act(|w.executors|, Reply)]
  }

  function Opened(w: World, q: string, process: nat): World {
    var phase := match Find(w.runs.rows, q) case Some(row) => Skipped(row) case None => Executing;
    w.(executors := w.executors + [Executor(q, process, phase)])
  }

  lemma OpeningDone(w: World, q: string, process: nat)
    ensures After(w, Opening(|w.executors|, q, process)) == Opened(w, q, process)
    ensures Do(Step(w, Deliver(q, true, process)), |w.executors|, Check) == Opened(w, q, process)
  {
    var e := |w.executors|;
    AfterOneMore(w, [Deliver(q, true, process)], Act(e, Check));
    AfterOneMore(w, [], Deliver(q, true, process));
    assert [] + [Deliver(q, true, process)] == [Deliver(q, true, process)];
    var w1 := Step(w, Deliver(q, true, process));
    assert After(w, [Deliver(q, true, process)]) == w1;
    assert Step(w1, Act(e, Check)) == Opened(w, q, process);
  }

  /** The row executor e writes to both tables. */
  function OwnRow(w: World, e: nat): Row
    requires e < |w.executors| && w.executors[e].phase.Ran?
  {
    Row(w.executors[e].requestId, e, Stored(w.executors[e].phase.outcome))
  }

  /** The world between two of the four database calls. */
  function Midway(w: World, e: nat, phase: Phase, tasks: Table, runs: Table): World
    requires e < |w.executors|
  {
    Moved(w, e, phase).(tasks := tasks, runs := runs)
  }

  function WithRow(t: Table, row: Row): Table {
    t.(rows := t.rows + [row])
  }

  /** Executor e is about to write, its session in order, the row free. */
  ghost predicate Free(w: World, e: nat) {
    && Inv(w) && e < |w.executors| && w.executors[e].phase.Ran? && w.executors[e].process !in w.broken
    && Find(w.tasks.rows, w.executors[e].requestId).None? && !Held(w.tasks, w.executors[e].requestId)
  }

  lemma FreeRows(w: World, e: nat)
    requires Free(w, e)
    ensures e !in w.tasks.pending && e !in w.runs.pending
    ensures Find(w.runs.rows, w.executors[e].requestId).None? && !Held(w.runs, w.executors[e].requestId)
  {
    assert PhaseOk(w, e, w.executors[e]);
  }

  lemma RowLands(t: Table, row: Row)
    requires row.writer !in t.pending && Find(t.rows, row.requestId).None?
    ensures Landed(Flush(t, row), row.writer) == WithRow(t, row)
    ensures WroteIt(WithRow(t, row), row.requestId, row.writer)
  {
    FindAppended(t.rows, row, row.requestId);
    assert t.pending[row.writer := row] - {row.writer} == t.pending;
  }

  lemma TaskRowHeld(w: World, e: nat)
    requires Free(w, e)
    ensures Do(w, e, InsertTask) ==
            Midway(w, e, TaskOpen(w.executors[e].phase.outcome), Flush(w.tasks, OwnRow(w, e)), w.runs)
  {
  }

  lemma TaskRowLands(w: World, e: nat, w1: World)
    requires Free(w, e)
    requires w1 == Midway(w, e, TaskOpen(w.executors[e].phase.outcome), Flush(w.tasks, OwnRow(w, e)), w.runs)
    ensures Do(w1, e, CommitTask) ==
            Midway(w, e, TaskSaved(w.executors[e].phase.outcome), WithRow(w.tasks, OwnRow(w, e)), w.runs)
  {
    FreeRows(w, e);
    RowLands(w.tasks, OwnRow(w, e));
  }

  lemma RunRowHeld(w: World, e: nat, w2: World)
    requires Free(w, e)
    requires w2 == Midway(w, e, TaskSaved(w.executors[e].phase.outcome), WithRow(w.tasks, OwnRow(w, e)), w.runs)
    ensures Do(w2, e, InsertRun) ==
            Midway(w, e, RunOpen(w.executors[e].phase.outcome), WithRow(w.tasks, OwnRow(w, e)),
                   Flush(w.runs, OwnRow(w, e)))
  {
    FreeRows(w, e);
  }

  lemma RunRowLands(w: World, e: nat, w3: World)
    requires Free(w, e)
    requires w3 == Midway(w, e, RunOpen(w.executors[e].phase.outcome), WithRow(w.tasks, OwnRow(w, e)),
                          Flush(w.runs, OwnRow(w, e)))
    ensures Do(w3, e, CommitRun) ==
            Midway(w, e, Recorded(w.executors[e].phase.outcome), WithRow(w.tasks, OwnRow(w, e)),
                   WithRow(w.runs, OwnRow(w, e)))
  {
    FreeRows(w, e);
    RowLands(w.runs, OwnRow(w, e));
  }

  /** What is left when the insert of the task row cannot succeed: the session is broken, before or by it. */
  lemma TaskRowRefused(w: World, e: nat)
    requires Inv(w) && e < |w.executors| && w.executors[e].phase.Ran?
    requires w.executors[e].process in w.broken || Find(w.tasks.rows, w.executors[e].requestId).Some?
    ensures var w' := Do(w, e, InsertTask); var p := w.executors[e].process;
      && w'.executors == Moved(w, e, Dead).executors && w'.broken == w.broken + {p}
      && w'.tasks.rows == w.tasks.rows && w'.runs.rows == w.runs.rows
  {
  }

  /** The world after the four database calls of executor e, or after the first when it is refused. */
  ghost predicate Persisted(w: World, e: nat, w': World)
    requires e < |w.executors| && w.executors[e].phase.Ran?
  {
    var x := w.executors[e];
    if x.process in w.broken || Find(w.tasks.rows, x.requestId).Some? then
      && w'.executors == Moved(w, e, Dead).executors && w'.broken == w.broken + {x.process}
      && w'.tasks.rows == w.tasks.rows && w'.runs.rows == w.runs.rows
    else
      w' == Midway(w, e, Recorded(x.phase.outcome), WithRow(w.tasks, OwnRow(w, e)), WithRow(w.runs, OwnRow(w, e)))
  }

  lemma DeadStays(w: World, e: nat, action: Action)
    requires e < |w.executors| && w.executors[e].phase.Dead?
    ensures Do(w, e, action) == w
  {
  }

  lemma OtherUntouchedCount(w: World, e: nat, action: Action)
    requires e < |w.executors|
    ensures |Do(w, e, action).executors| == |w.executors|
  {
  }

  function FourCalls(w: World, e: nat): World
    requires e < |w.executors|
  {
    var w1 := Do(w, e, InsertTask);
    OtherUntouchedCount(w, e, InsertTask);
    var w2 := Do(w1, e, CommitTask);
    OtherUntouchedCount(w1, e, CommitTask);
    var w3 := Do(w2, e, InsertRun);
    OtherUntouchedCount(w2, e, InsertRun);
    Do(w3, e, CommitRun)
  }

  lemma FourCallsPersist(w: World, e: nat)
    requires Inv(w) && e < |w.executors| && w.executors[e].phase.Ran? && !Held(w.tasks, w.executors[e].requestId)
    ensures Persisted(w, e, FourCalls(w, e))
  {
    var w1 := Do(w, e, InsertTask);
    OtherUntouchedCount(w, e, InsertTask);
    if w.executors[e].process in w.broken || Find(w.tasks.rows, w.executors[e].requestId).Some? {
      TaskRowRefused(w, e);
      DeadStays(w1, e, CommitTask);
      DeadStays(w1, e, InsertRun);
      DeadStays(w1, e, CommitRun);
    } else {
      TaskRowHeld(w, e);
      TaskRowLands(w, e, w1);
      var w2 := Do(w1, e, CommitTask);
      RunRowHeld(w, e, w2);
      RunRowLands(w, e, Do(w2, e, InsertRun));
    }
  }

  lemma BodyDone(w: World, e: nat, run: Outcome)
    requires e < |w.executors| && w.executors[e].phase.Executing?
    ensures After(w, Body(e, run)) == FourCalls(Moved(w, e, Ran(run)), e)
  {
    var w0 := Moved(w, e, Ran(run));
    var es := [Act(e, Finish(run))];
    AfterOneMore(w, [], Act(e, Finish(run)));
    assert [] + [Act(e, Finish(run))] == es;
    assert After(w, es) == w0;
    AfterOneMore(w, es, Act(e, InsertTask));
    OtherUntouchedCount(w0, e, InsertTask);
    AfterOneMore(w, es + [Act(e, InsertTask)], Act(e, CommitTask));
    OtherUntouchedCount(Do(w0, e, InsertTask), e, CommitTask);
    AfterOneMore(w, es + [Act(e, InsertTask)] + [Act(e, CommitTask)], Act(e, InsertRun));
    OtherUntouchedCount(Do(Do(w0, e, InsertTask), e, CommitTask), e, InsertRun);
    AfterOneMore(w, es + [Act(e, InsertTask)] + [Act(e, CommitTask)] + [Act(e, InsertRun)], Act(e, CommitRun));
  }

  /** The request is opened and its agents have run. */
  function Ready(w: World, q: string, process: nat, run: Outcome): World {
    w.(executors := w.executors + [Executor(q, process, Ran(run))])
  }

  lemma ReadyIsOk(w: World, q: string, process: nat, run: Outcome)
    requires Inv(w) && Find(w.runs.rows, q).None?
    ensures Inv(Ready(w, q, process, run))
    ensures Ready(w, q, process, run) == Moved(Opened(w, q, process), |w.executors|, Ran(run))
  {
    OpeningDone(w, q, process);
    RunsKeepInv(w, Opening(|w.executors|, q, process));
    ActKeepsInv(Opened(w, q, process), |w.executors|, Finish(run));
  }

  lemma HandlingSteps(w: World, q: string, process: nat, run: Outcome)
    requires Find(w.runs.rows, q).None?
    ensures Ready(w, q, process, run) == Moved(Opened(w, q, process), |w.executors|, Ran(run))
    ensures After(w, Handling(w, q, process, run)) ==
            Step(FourCalls(Ready(w, q, process, run), |w.executors|), Act(|w.executors|, Reply))
  {
    var e := |w.executors|;
    OpeningDone(w, q, process);
    BodyDone(Opened(w, q, process), e, run);
    AfterBoth(w, Opening(e, q, process), Body(e, run));
    AfterOneMore(w, Opening(e, q, process) + Body(e, run), Act(e, Reply));
  }

  /** What handling an unfinished request without interruption comes to. */
  ghost predicate Handled(w: World, q: string, process: nat, run: Outcome, w': World) {
    var row := Row(q, |w.executors|, Stored(run));
    if process in w.broken || Find(w.tasks.rows, q).Some? then
      && w'.executors == w.executors + [Executor(q, process, Dead)] && w'.broken == w.broken + {process}
      && w'.tasks.rows == w.tasks.rows && w'.runs.rows == w.runs.rows
    else
      w' == World(w.executors + [Executor(q, process, Replied(run))], WithRow(w.tasks, row),
                  WithRow(w.runs, row), w.broken)
  }

  lemma RepliedAtLast(w: World, q: string, process: nat, run: Outcome, w3: World)
    requires Persisted(Ready(w, q, process, run), |w.executors|, w3)
    ensures Handled(w, q, process, run, Step(w3, Act(|w.executors|, Reply)))
  {
    var e := |w.executors|;
    assert w3.executors[e].phase.Dead? || w3.executors[e].phase.Recorded?;
  }

  /** An unfinished request handled without interruption. */
  lemma HandledRuns(w: World, q: string, process: nat, run: Outcome)
    requires Inv(w) && Find(w.runs.rows, q).None? && !Held(w.tasks, q)
    ensures Handled(w, q, process, run, After(w, Handling(w, q, process, run)))
  {
    HandlingSteps(w, q, process, run);
    ReadyIsOk(w, q, process, run);
    FourCallsPersist(Ready(w, q, process, run), |w.executors|);
    RepliedAtLast(w, q, process, run, FourCalls(Ready(w, q, process, run), |w.executors|));
  }

  // ----- a failed database call disables its process -----

  /** The event makes a call on the process's session fail, or takes the session's open transaction from under it. */
  predicate CallFails(w: World, ev: Event, process: nat) {
    match ev
    case Break(p) => p == process
    case SettleTask(e, keep) =>
      !keep && e in w.tasks.pending && e < |w.executors| && w.executors[e].process == process
    case SettleRun(e, keep) =>
      !keep && e in w.runs.pending && e < |w.executors| && w.executors[e].process == process
    case Act(e, action) =>
      && e < |w.executors| && w.executors[e].process == process && process !in w.broken
      && ((action.InsertTask? && w.executors[e].phase.Ran? && Conflicts(w, w.tasks, w.executors[e].requestId, process))
       || (action.InsertRun? && w.executors[e].phase.TaskSaved?
             && Conflicts(w, w.runs, w.executors[e].requestId, process)))
    case _ => false
  }

  /** Some call on the process's session failed along the way, or a transaction of it was lost. */
  ghost predicate CallFailedOn(es: seq<Event>, process: nat) {
    exists i :: 0 <= i < |es| && CallFails(After(START, es[..i]), es[i], process)
  }

  lemma BrokenNext(w: World, ev: Event, process: nat)
    ensures process in Step(w, ev).broken <==> process in w.broken || CallFails(w, ev, process)
  {
  }

  lemma {:induction false} BrokenIffCallFailed(es: seq<Event>, process: nat)
    ensures process in After(START, es).broken <==> CallFailedOn(es, process)
  {
    if es != [] {
      var n := |es| - 1;
      var init := es[..n];
      assert es == init + [es[n]];
      AfterOneMore(START, init, es[n]);
      BrokenNext(After(START, init), es[n], process);
      BrokenIffCallFailed(init, process);
      if CallFailedOn(init, process) {
        var i :| 0 <= i < n && CallFails(After(START, init[..i]), init[i], process);
        assert es[..i] == init[..i] && es[i] == init[i];
      }
      if CallFailedOn(es, process) && !CallFails(After(START, init), es[n], process) {
        var i :| 0 <= i < |es| && CallFails(After(START, es[..i]), es[i], process);
        assert i < n && es[..i] == init[..i] && es[i] == init[i];
      }
    }
  }

  lemma {:induction false} BrokenForever(w: World, es: seq<Event>, process: nat)
    requires process in w.broken
    ensures process in After(w, es).broken
    decreases |es|
  {
    if es != [] {
      BrokenNext(w, es[0], process);
      BrokenForever(Step(w, es[0]), es[1..], process);
    }
  }

  /** After any history, a request whose task row is free, delivered and handled without interruption, is recorded and
      answered if and only if no database call on its process's session has failed and none of its transactions was lost
      before.
    */
  lemma RecordedIffNoCallFailed(es: seq<Event>, q: string, process: nat, run: Outcome)
    requires Find(After(START, es).tasks.rows, q).None? && !Held(After(START, es).tasks, q)
    ensures var w := After(START, es); var w' := After(w, Handling(w, q, process, run));
      && (Find(w'.runs.rows, q).Some? <==> !CallFailedOn(es, process))
      && (!CallFailedOn(es, process) ==> w'.executors == w.executors + [Executor(q, process, Replied(run))])
  {
    var w := After(START, es);
    StartIsOk();
    RunsKeepInv(START, es);
    BrokenIffCallFailed(es, process);
    HandledRuns(w, q, process, run);
    FindAppended(w.runs.rows, Row(q, |w.executors|, Stored(run)), q);
  }

  /** Redelivering a stranded request to a process in working order disables that process: whatever happens in between,
      a free request it handles later runs its agents and is not recorded.
    */
  lemma StrandedRedeliveryStopsProcess(es: seq<Event>, q: string, process: nat, run: Outcome, more: seq<Event>,
                                       later: string, laterRun: Outcome)
    requires Stranded(After(START, es), q)
    requires var w := After(After(START, es), Handling(After(START, es), q, process, run));
      Find(After(w, more).tasks.rows, later).None? && !Held(After(w, more).tasks, later)
    ensures var w := After(After(START, es), Handling(After(START, es), q, process, run)); var w2 := After(w, more);
      Find(After(w2, Handling(w2, later, process, laterRun)).runs.rows, later).None?
  {
    var w0 := After(START, es);
    StartIsOk();
    RunsKeepInv(START, es);
    HandledRuns(w0, q, process, run);
    var first := Handling(w0, q, process, run);
    var w := After(w0, first);
    RunsKeepInv(w0, first);
    RunsKeepInv(w, more);
    BrokenForever(w, more, process);
    HandledRuns(After(w, more), later, process, laterRun);
  }

  /** A transaction the database drops before its commit stops the executor's process just the same: the commit raises,
      and whatever happens in between, a free request the process handles later is not recorded.
    */
  lemma LostTransactionStopsProcess(es: seq<Event>, e: nat, ofTask: bool, more: seq<Event>, later: string, run: Outcome)
    requires var w := After(START, es); e in (if ofTask then w.tasks.pending else w.runs.pending)
    requires var lost := if ofTask then SettleTask(e, false) else SettleRun(e, false);
      var w2 := After(Step(After(START, es), lost), more);
      Find(w2.tasks.rows, later).None? && !Held(w2.tasks, later)
    ensures var lost := if ofTask then SettleTask(e, false) else SettleRun(e, false);
      var w := After(START, es); var w1 := Step(w, lost); var w2 := After(w1, more);
      && e < |w.executors| && e < |w1.executors|
      && (w.executors[e].phase.TaskOpen? ==> Do(w1, e, CommitTask) == Moved(w1, e, Dead))
      && (w.executors[e].phase.RunOpen? ==> Do(w1, e, CommitRun) == Moved(w1, e, Dead))
      && Find(After(w2, Handling(w2, later, w.executors[e].process, run)).runs.rows, later).None?
  {
    var lost := if ofTask then SettleTask(e, false) else SettleRun(e, false);
    StartIsOk();
    RunsKeepInv(START, es);
    var w := After(START, es);
    var process := w.executors[e].process;
    var w1 := Step(w, lost);
    StepKeepsInv(w, lost);
    RunsKeepInv(w1, more);
    BrokenForever(w1, more, process);
    HandledRuns(After(w1, more), later, process, run);
  }

  function UpToTheFirstCommit(e: nat): seq<Event> {
    [Act(e, InsertTask)] + [Act(e, CommitTask)]
  }

  lemma FirstCommitDone(w: World, e: nat)
    requires Free(w, e)
    ensures After(w, UpToTheFirstCommit(e)) ==
            Midway(w, e, TaskSaved(w.executors[e].phase.outcome), WithRow(w.tasks, OwnRow(w, e)), w.runs)
  {
    AfterOneMore(w, [], Act(e, InsertTask));
    assert [] + [Act(e, InsertTask)] == [Act(e, InsertTask)];
    AfterOneMore(w, [Act(e, InsertTask)], Act(e, CommitTask));
    TaskRowHeld(w, e);
    TaskRowLands(w, e, Do(w, e, InsertTask));
  }

  /** The window between the commits: after any history, an executor about to write a free row that dies right after its
      first commit strands its request.
    */
  lemma DeathBetweenCommitsStrands(es: seq<Event>, e: nat)
    requires Free(After(START, es), e)
    ensures Stranded(After(After(START, es), UpToTheFirstCommit(e) + [Act(e, Die)]),
                     After(START, es).executors[e].requestId)
  {
    var w := After(START, es);
    FirstCommitDone(w, e);
    AfterOneMore(w, UpToTheFirstCommit(e), Act(e, Die));
    FreeRows(w, e);
    RowLands(w.tasks, OwnRow(w, e));
  }

  /** Any first delivery reaches that window. */
  lemma AnyRequestCanBeStranded(q: string, process: nat, run: Outcome)
    ensures exists es: seq<Event> :: Stranded(After(START, es), q)
  {
    var ready := Opening(0, q, process) + [Act(0, Finish(run))];
    OpeningDone(START, q, process);
    AfterOneMore(START, Opening(0, q, process), Act(0, Finish(run)));
    var w := After(START, ready);
    assert w == Ready(START, q, process, run);
    StartIsOk();
    RunsKeepInv(START, ready);
    DeathBetweenCommitsStrands(ready, 0);
    AfterBoth(START, ready, UpToTheFirstCommit(0) + [Act(0, Die)]);
  }

  // ----- the task as it is written -----

  class Store {
    var world: World

    constructor ()
      ensures world == START
    {
      world := START;
    }

    /** Executor e takes its next step. */
    method Take(ghost es: seq<Event>, ghost was: World, e: nat, action: Action)
        returns (phase: Phase, ghost es': seq<Event>)
      requires Inv(world) && e < |world.executors| && world == After(was, es)
      modifies this
      ensures world == Do(old(world), e, action) && Inv(world) && world == After(was, es')
      ensures e < |world.executors| && phase == world.executors[e].phase
    {
      es' := es + [Act(e, action)];
      AfterOneMore(was, es, Act(e, action));
      ActKeepsInv(world, e, action);
      OtherUntouchedCount(world, e, action);
      world := Do(world, e, action);
      phase := world.executors[e].phase;
    }

    /** The two commits at the end of a run; nothing when the session is broken or the task row already taken. */
    method PersistRuntimeRecords(ghost es: seq<Event>, ghost was: World, e: nat)
        returns (phase: Phase, ghost es': seq<Event>)
      requires Inv(world) && e < |world.executors| && world == After(was, es)
      requires world.executors[e].phase.Ran? && !Held(world.tasks, world.executors[e].requestId)
      modifies this
      ensures Inv(world) && world == After(was, es') && Persisted(old(world), e, world)
      ensures e < |world.executors| && phase == world.executors[e].phase
    {
      FourCallsPersist(world, e);
      ghost var w := world;
      phase, es' := Take(es, was, e, InsertTask);
      if phase.Dead? {
        DeadStays(world, e, CommitTask);
        DeadStays(world, e, InsertRun);
        DeadStays(world, e, CommitRun);
        return;
      }
      phase, es' := Take(es', was, e, CommitTask);
      phase, es' := Take(es', was, e, InsertRun);
      phase, es' := Take(es', was, e, CommitRun);
      assert world == FourCalls(w, e);
    }

    /** The delivery and its check for a finished run. */
    method FindFinishedRun(q: string, process: nat) returns (e: nat, phase: Phase, ghost es: seq<Event>)
      requires Inv(world)
      modifies this
      ensures Inv(world) && world == After(old(world), es) && e == |old(world).executors|
      ensures world == Opened(old(world), q, process) && phase == world.executors[e].phase
    {
      ghost var was := world;
      e := |world.executors|;
      es := Opening(e, q, process);
      OpeningDone(world, q, process);
      RunsKeepInv(world, es);
      world := Step(world, Deliver(q, true, process));
      world := Do(world, e, Check);
      assert world == Opened(was, q, process);
      phase := world.executors[e].phase;
    }

    /** A task delivery, its agents producing `run`, while nobody else holds its task row open. It is one run of the
        step machine. A finished run is answered from its row. Otherwise the agents run; both rows are written and the
        outcome returned when the task row is free and the process's session in order, and else nothing is written and
        the session is left broken.
      */
    method RunWorkflowTask(q: string, process: nat, run: Outcome)
        returns (answer: Option<Outcome>, ghost es: seq<Event>)
      requires Inv(world) && !Held(world.tasks, q)
      modifies this
      ensures Inv(world) && world == After(old(world), es)
      ensures Find(old(world).runs.rows, q).Some? ==>
        && answer == Some(Find(old(world).runs.rows, q).value.outcome)
        && world.tasks == old(world).tasks && world.runs == old(world).runs && world.broken == old(world).broken
      ensures (Find(old(world).runs.rows, q).None?
               && (Find(old(world).tasks.rows, q).Some? || process in old(world).broken)) ==>
        && answer == None && world.broken == old(world).broken + {process}
        && world.tasks.rows == old(world).tasks.rows && world.runs.rows == old(world).runs.rows
      ensures Find(old(world).tasks.rows, q).None? && process !in old(world).broken ==>
        && answer == Some(run) && world.broken == old(world).broken
        && var row := Row(q, |old(world).executors|, Stored(run));
          world.tasks == WithRow(old(world).tasks, row) && world.runs == WithRow(old(world).runs, row)
    {
      ghost var was := world;
      var e, phase;
      e, phase, es := FindFinishedRun(q, process);
      if phase.Skipped? {
        return Some(phase.row.outcome), es;
      }
      phase, es := Take(es, was, e, Finish(run));
      ReadyIsOk(was, q, process, run);
      phase, es := PersistRuntimeRecords(es, was, e);
      RepliedAtLast(was, q, process, run, world);
      if phase.Dead? {
        return None, es;
      }
      phase, es := Take(es, was, e, Reply);
      answer := Answer(phase);
    }
  }
}
