/** At-least-once delivery of workflow requests: any number of deliveries and direct API calls, executing
    concurrently in any number of processes, each able to die at any point, over two tables with a unique request id.
    Both tables are written through one database session per process, which nothing ever rolls back.
  */
module Delivery {
  import opened Common
  import opened Workflow

  datatype Outcome = Outcome(
    status: Status, reason: Option<Reason>, path: seq<string>, errors: seq<string>, reviewId: Option<string>)

  /** What the tables keep of an outcome: the review id only of a run that ended waiting for its review. */
  function Stored(o: Outcome): Outcome {
    if o.status == WorkflowNeedsReview then o else o.(reviewId := None)
  }

  datatype Row = Row(requestId: string, writer: nat, outcome: Outcome)

  // ----- a table whose request id is unique -----

  /** Committed rows, and rows flushed by a transaction that is still open. */
  datatype Table = Table(rows: seq<Row>, pending: map<nat, Row>)

  function Find(rows: seq<Row>, q: string): Option<Row> {
    if rows == [] then None
    else if rows[0].requestId == q then Some(rows[0])
    else Find(rows[1..], q)
  }

  predicate Held(t: Table, q: string) {
    exists e | e in t.pending :: t.pending[e].requestId == q
  }

  function Flush(t: Table, row: Row): Table {
    t.(pending := t.pending[row.writer := row])
  }

  /** The open row of e lands, if there is one. */
  function Landed(t: Table, e: nat): Table {
    if e !in t.pending then t else Table(t.rows + [t.pending[e]], t.pending - {e})
  }

  /** A session's transaction is gone: the rows its executors had flushed are rolled back. */
  function Dropped(t: Table, executors: set<nat>): Table {
    t.(pending := t.pending - executors)
  }

  predicate WroteIt(t: Table, q: string, e: nat) {
    Find(t.rows, q).Some? && Find(t.rows, q).value.writer == e
  }

  ghost predicate UniqueRequests(rows: seq<Row>) {
    forall i, j :: 0 <= i < j < |rows| ==> rows[i].requestId != rows[j].requestId
  }

  ghost predicate TableOk(t: Table) {
    && UniqueRequests(t.rows)
    && (forall e :: e in t.pending ==> t.pending[e].writer == e && Find(t.rows, t.pending[e].requestId).None?)
    && (forall e, f :: e in t.pending && f in t.pending && t.pending[e].requestId == t.pending[f].requestId ==> e == f)
  }

  lemma {:induction false} FindAppended(rows: seq<Row>, row: Row, q: string)
    ensures Find(rows + [row], q) ==
            if Find(rows, q).Some? then Find(rows, q) else if row.requestId == q then Some(row) else None
  {
    if rows != [] {
      assert (rows + [row])[1..] == rows[1..] + [row];
      FindAppended(rows[1..], row, q);
    }
  }

  lemma {:induction false} FindIsComplete(rows: seq<Row>, q: string)
    ensures Find(rows, q).None? <==> forall i :: 0 <= i < |rows| ==> rows[i].requestId != q
    ensures Find(rows, q).Some? ==> Find(rows, q).value in rows && Find(rows, q).value.requestId == q
  {
    if rows != [] && rows[0].requestId != q {
      FindIsComplete(rows[1..], q);
      assert forall i :: 0 < i < |rows| ==> rows[i] == rows[1..][i - 1];
    }
  }

  /** Between a and b only executor f wrote: rows stay, a new one is f's, the others' open rows are at most gone. */
  ghost predicate OnlyBy(f: nat, a: Table, b: Table) {
    && (forall q :: Find(a.rows, q).Some? ==> Find(b.rows, q) == Find(a.rows, q))
    && (forall q :: Find(a.rows, q).None? && Find(b.rows, q).Some? ==>
          f in a.pending && f !in b.pending && Find(b.rows, q).value == a.pending[f] && a.pending[f].requestId == q)
    && (forall e :: e != f && e in b.pending ==> e in a.pending && b.pending[e] == a.pending[e])
  }

  lemma FlushKeepsTable(t: Table, row: Row)
    requires TableOk(t) && Find(t.rows, row.requestId).None? && !Held(t, row.requestId)
    ensures TableOk(Flush(t, row)) && OnlyBy(row.writer, t, Flush(t, row))
  {
  }

  lemma DropKeepsTable(f: nat, t: Table, executors: set<nat>)
    requires TableOk(t)
    ensures TableOk(Dropped(t, executors)) && OnlyBy(f, t, Dropped(t, executors))
  {
  }

  lemma LandingKeepsTable(t: Table, e: nat)
    requires TableOk(t)
    ensures TableOk(Landed(t, e)) && OnlyBy(e, t, Landed(t, e))
    ensures e in t.pending ==> Find(Landed(t, e).rows, t.pending[e].requestId) == Some(t.pending[e])
  {
    if e in t.pending {
      var row := t.pending[e];
      forall q ensures Find(t.rows + [row], q) ==
            (if Find(t.rows, q).Some? then Find(t.rows, q) else if row.requestId == q then Some(row) else None) {
        FindAppended(t.rows, row, q);
      }
      FindIsComplete(t.rows, row.requestId);
    }
  }

  // ----- executors -----

  /** Where one delivery or API call stands. A dead one raised or crashed; its open transaction may outlive it. */
  datatype Phase =
    | Received
    | Executing
    | Ran(outcome: Outcome)
    | TaskOpen(outcome: Outcome)
    | TaskSaved(outcome: Outcome)
    | RunOpen(outcome: Outcome)
    | Recorded(outcome: Outcome)
    | Replied(outcome: Outcome)
    | Skipped(row: Row)
    | Dead

  datatype Executor = Executor(requestId: string, process: nat, phase: Phase)

  /** `broken` holds the processes whose session has had a database call fail or lost its transaction: it refuses all
      work until a rollback, and none ever comes. */
  datatype World = World(executors: seq<Executor>, tasks: Table, runs: Table, broken: set<nat>)

  datatype Action =
    | Check | Finish(outcome: Outcome) | InsertTask | CommitTask | InsertRun | CommitRun | Reply | Die

  /** A step of the broker or an API caller, of executor e, of the database ending e's open transaction on its own
      (a commit that landed, or a transaction it dropped), or any other database call failing on a process's session. */
  datatype Event =
    | Deliver(q: string, checked: bool, process: nat)
    | Break(process: nat)
    | Act(e: nat, action: Action)
    | SettleTask(e: nat, keep: bool)
    | SettleRun(e: nat, keep: bool)

  function Moved(w: World, e: nat, phase: Phase): World
    requires e < |w.executors|
  {
    w.(executors := w.executors[e := w.executors[e].(phase := phase)])
  }

  function InProcess(executors: seq<Executor>, process: nat): set<nat> {
    set e | 0 <= e < |executors| && executors[e].process == process
  }

  function Broke(w: World, process: nat): World {
    var gone := InProcess(w.executors, process);
    w.(tasks := Dropped(w.tasks, gone), runs := Dropped(w.runs, gone), broken := w.broken + {process})
  }

  /** The database drops the transaction e's open row is part of, if there is one: every later call on its session
      fails. */
  function Lost(w: World, t: Table, e: nat): World {
    if e in t.pending && e < |w.executors| then Broke(w, w.executors[e].process) else w
  }

  predicate HeldIn(w: World, t: Table, q: string, process: nat) {
    exists e | e in t.pending :: t.pending[e].requestId == q && e in InProcess(w.executors, process)
  }

  /** A flush fails on a row already committed, or flushed on the same session. */
  predicate Conflicts(w: World, t: Table, q: string, process: nat) {
    Find(t.rows, q).Some? || HeldIn(w, t, q, process)
  }

  /** Before any agent runs, a task delivery looks for a finished run; the API endpoint does not. */
  function DoCheck(w: World, e: nat): World
    requires e < |w.executors| && w.executors[e].phase.Received?
  {
    match Find(w.runs.rows, w.executors[e].requestId)
    case Some(row) => Moved(w, e, Skipped(row))
    case None => Moved(w, e, Executing)
  }

  /** The flush raises on a broken session, breaks it on a conflict, and waits while another session holds the row. */
  function DoInsertTask(w: World, e: nat): World
    requires e < |w.executors| && w.executors[e].phase.Ran?
  {
    var x := w.executors[e];
    if x.process in w.broken then Moved(w, e, Dead)
    else if Conflicts(w, w.tasks, x.requestId, x.process) then Broke(Moved(w, e, Dead), x.process)
    else if Held(w.tasks, x.requestId) then w
    else Moved(w, e, TaskOpen(x.phase.outcome)).(tasks := Flush(w.tasks, Row(x.requestId, e, Stored(x.phase.outcome))))
  }

  /** On a session in working order the row is still open, or has landed already: see `PhaseOk`. */
  function DoCommitTask(w: World, e: nat): World
    requires e < |w.executors| && w.executors[e].phase.TaskOpen?
  {
    var x := w.executors[e];
    if x.process in w.broken then Moved(w, e, Dead)
    else Moved(w.(tasks := Landed(w.tasks, e)), e, TaskSaved(x.phase.outcome))
  }

  function DoInsertRun(w: World, e: nat): World
    requires e < |w.executors| && w.executors[e].phase.TaskSaved?
  {
    var x := w.executors[e];
    if x.process in w.broken then Moved(w, e, Dead)
    else if Conflicts(w, w.runs, x.requestId, x.process) then Broke(Moved(w, e, Dead), x.process)
    else if Held(w.runs, x.requestId) then w
    else Moved(w, e, RunOpen(x.phase.outcome)).(runs := Flush(w.runs, Row(x.requestId, e, Stored(x.phase.outcome))))
  }

  function DoCommitRun(w: World, e: nat): World
    requires e < |w.executors| && w.executors[e].phase.RunOpen?
  {
    var x := w.executors[e];
    if x.process in w.broken then Moved(w, e, Dead)
    else Moved(w.(runs := Landed(w.runs, e)), e, Recorded(x.phase.outcome))
  }

  predicate Done(phase: Phase) {
    phase.Replied? || phase.Skipped? || phase.Dead?
  }

  /** An action its executor is not ready for changes nothing. */
  function Do(w: World, e: nat, action: Action): World
    requires e < |w.executors|
  {
    match (action, w.executors[e].phase)
    case (Check, Received) => DoCheck(w, e)
    case (Finish(outcome), Executing) => Moved(w, e, Ran(outcome))
    case (InsertTask, Ran(_)) => DoInsertTask(w, e)
    case (CommitTask, TaskOpen(_)) => DoCommitTask(w, e)
    case (InsertRun, TaskSaved(_)) => DoInsertRun(w, e)
    case (CommitRun, RunOpen(_)) => DoCommitRun(w, e)
    case (Reply, Recorded(outcome)) => Moved(w, e, Replied(outcome))
    case (Die, phase) => if Done(phase) then w else Moved(w, e, Dead)
    case _ => w
  }

  function Step(w: World, ev: Event): World {
    match ev
    case Deliver(q, checked, process) =>
      w.(executors := w.executors + [Executor(q, process, if checked then Received else Executing)])
    case Break(process) => Broke(w, process)
    case SettleTask(e, keep) => if keep then w.(tasks := Landed(w.tasks, e)) else Lost(w, w.tasks, e)
    case SettleRun(e, keep) => if keep then w.(runs := Landed(w.runs, e)) else Lost(w, w.runs, e)
    case Act(e, action) => if e < |w.executors| then Do(w, e, action) else w
  }

  function After(w: World, es: seq<Event>): World
    decreases |es|
  {
    if es == [] then w else After(Step(w, es[0]), es[1..])
  }

  const START := World([], Table([], map[]), Table([], map[]), {})

  // ----- what every step keeps -----

  /** e holds the task row of its request. */
  predicate Won(w: World, q: string, e: nat) {
    WroteIt(w.tasks, q, e)
  }

  /** What executor e's phase says about the tables. */
  ghost predicate PhaseOk(w: World, e: nat, x: Executor) {
    match x.phase
    case TaskOpen(o) =>
      && !WroteIt(w.runs, x.requestId, e) && e !in w.runs.pending
      && (e in w.tasks.pending || Won(w, x.requestId, e) || x.process in w.broken)
    case TaskSaved(o) => Won(w, x.requestId, e) && Find(w.runs.rows, x.requestId).None? && e !in w.runs.pending
    case RunOpen(o) =>
      && Won(w, x.requestId, e)
      && (Find(w.runs.rows, x.requestId).Some? ==>
            Find(w.runs.rows, x.requestId) == Some(Row(x.requestId, e, Stored(o))))
      && (e in w.runs.pending ==> w.runs.pending[e] == Row(x.requestId, e, Stored(o)))
      && (e in w.runs.pending || Find(w.runs.rows, x.requestId).Some? || x.process in w.broken)
    case Recorded(o) => Won(w, x.requestId, e) && Find(w.runs.rows, x.requestId) == Some(Row(x.requestId, e, Stored(o)))
    case Replied(o) => Won(w, x.requestId, e) && Find(w.runs.rows, x.requestId) == Some(Row(x.requestId, e, Stored(o)))
    case Skipped(row) => Find(w.runs.rows, x.requestId) == Some(row)
    case Dead => true
    case _ => e !in w.tasks.pending && !Won(w, x.requestId, e) && e !in w.runs.pending
  }

  /** Open rows carry their executor's request and belong to a session in working order. */
  ghost predicate OpenRowsOwned(w: World, t: Table) {
    forall e :: e in t.pending ==>
      && e < |w.executors| && w.executors[e].requestId == t.pending[e].requestId
      && w.executors[e].process !in w.broken
  }

  /** Open rows are their executors', and every task row was written by an executor of that request. */
  ghost predicate Owned(w: World) {
    && OpenRowsOwned(w, w.tasks) && OpenRowsOwned(w, w.runs)
    && (forall q :: Find(w.tasks.rows, q).Some? ==>
          && Find(w.tasks.rows, q).value.writer < |w.executors|
          && w.executors[Find(w.tasks.rows, q).value.writer].requestId == q)
  }

  /** Only the executor holding the task row writes the run row. */
  ghost predicate RunsAreWinners(w: World) {
    && (forall q :: Find(w.runs.rows, q).Some? ==> Won(w, q, Find(w.runs.rows, q).value.writer))
    && (forall e :: e in w.runs.pending ==> Won(w, w.runs.pending[e].requestId, e))
  }

  ghost predicate Tables(w: World) {
    TableOk(w.tasks) && TableOk(w.runs) && Owned(w) && RunsAreWinners(w)
  }

  ghost predicate Inv(w: World) {
    && Tables(w)
    && forall e :: 0 <= e < |w.executors| ==> PhaseOk(w, e, w.executors[e])
  }

  /** From w to w' only executor f moved and wrote. */
  ghost predicate OnlyMoved(f: nat, w: World, w': World) {
    && |w'.executors| == |w.executors|
    && (forall e :: 0 <= e < |w.executors| ==>
          w'.executors[e].requestId == w.executors[e].requestId && w'.executors[e].process == w.executors[e].process)
    && (forall e :: 0 <= e < |w.executors| && e != f ==> w'.executors[e] == w.executors[e])
    && OnlyBy(f, w.tasks, w'.tasks) && OnlyBy(f, w.runs, w'.runs)
    && w.broken <= w'.broken
    && (forall e :: 0 <= e < |w.executors| && e != f && w.executors[e].process !in w'.broken ==>
          (e in w.tasks.pending ==> e in w'.tasks.pending) && (e in w.runs.pending ==> e in w'.runs.pending))
  }

  lemma OthersStay(f: nat, w: World, w': World, e: nat)
    requires Inv(w) && OnlyMoved(f, w, w') && Tables(w') && e < |w.executors| && e != f
    ensures PhaseOk(w', e, w'.executors[e])
  {
    var q := w.executors[e].requestId;
    assert PhaseOk(w, e, w.executors[e]);
    if Find(w.runs.rows, q).None? && Find(w'.runs.rows, q).Some? {
      assert Find(w'.runs.rows, q).value.writer == f;
      assert Won(w', q, f);
    }
  }

  lemma MoveKeepsInv(f: nat, w: World, w': World)
    requires Inv(w) && OnlyMoved(f, w, w') && Tables(w')
    requires f < |w.executors| ==> PhaseOk(w', f, w'.executors[f])
    ensures Inv(w')
  {
    forall e | 0 <= e < |w'.executors| ensures PhaseOk(w', e, w'.executors[e]) {
      if e != f {
        OthersStay(f, w, w', e);
      }
    }
  }

  // ----- each kind of step -----

  lemma BreakKeepsInv(w: World, process: nat)
    requires Inv(w)
    ensures Inv(Broke(w, process))
  {
    var gone, f := InProcess(w.executors, process), |w.executors|;
    DropKeepsTable(f, w.tasks, gone);
    DropKeepsTable(f, w.runs, gone);
    MoveKeepsInv(f, w, Broke(w, process));
  }

  lemma TaskLandsTables(w: World, f: nat)
    requires Inv(w)
    ensures var w' := w.(tasks := Landed(w.tasks, f)); Tables(w') && OnlyMoved(f, w, w')
  {
    LandingKeepsTable(w.tasks, f);
    if f < |w.executors| {
      assert PhaseOk(w, f, w.executors[f]);
    }
  }

  lemma TaskLandsKeepsInv(w: World, f: nat)
    requires Inv(w)
    ensures Inv(w.(tasks := Landed(w.tasks, f)))
  {
    TaskLandsTables(w, f);
    LandingKeepsTable(w.tasks, f);
    if f < |w.executors| {
      assert PhaseOk(w, f, w.executors[f]);
    }
    MoveKeepsInv(f, w, w.(tasks := Landed(w.tasks, f)));
  }

  lemma RunLandsTables(w: World, f: nat)
    requires Inv(w)
    ensures var w' := w.(runs := Landed(w.runs, f)); Tables(w') && OnlyMoved(f, w, w')
  {
    LandingKeepsTable(w.runs, f);
    if f < |w.executors| {
      assert PhaseOk(w, f, w.executors[f]);
    }
  }

  lemma RunLandsKeepsInv(w: World, f: nat)
    requires Inv(w)
    ensures Inv(w.(runs := Landed(w.runs, f)))
  {
    RunLandsTables(w, f);
    LandingKeepsTable(w.runs, f);
    if f < |w.executors| {
      assert PhaseOk(w, f, w.executors[f]);
    }
    MoveKeepsInv(f, w, w.(runs := Landed(w.runs, f)));
  }

  lemma LostKeepsInv(w: World, t: Table, f: nat)
    requires Inv(w)
    ensures Inv(Lost(w, t, f))
  {
    if f in t.pending && f < |w.executors| {
      BreakKeepsInv(w, w.executors[f].process);
    }
  }

  lemma PhaseMoveKeepsInv(w: World, f: nat, phase: Phase)
    requires Inv(w) && f < |w.executors|
    requires PhaseOk(w, f, w.executors[f].(phase := phase))
    ensures Inv(Moved(w, f, phase))
  {
    MoveKeepsInv(f, w, Moved(w, f, phase));
  }

  lemma InsertTaskKeepsInv(w: World, f: nat)
    requires Inv(w) && f < |w.executors| && w.executors[f].phase.Ran?
    ensures Inv(DoInsertTask(w, f))
  {
    var x, w' := w.executors[f], DoInsertTask(w, f);
    assert PhaseOk(w, f, x);
    if x.process in w.broken || Conflicts(w, w.tasks, x.requestId, x.process) {
      PhaseMoveKeepsInv(w, f, Dead);
      BreakKeepsInv(Moved(w, f, Dead), x.process);
    } else if !Held(w.tasks, x.requestId) {
      FlushKeepsTable(w.tasks, Row(x.requestId, f, Stored(x.phase.outcome)));
      MoveKeepsInv(f, w, w');
    }
  }

  lemma CommitTaskKeepsInv(w: World, f: nat)
    requires Inv(w) && f < |w.executors| && w.executors[f].phase.TaskOpen?
    ensures Inv(DoCommitTask(w, f))
  {
    assert PhaseOk(w, f, w.executors[f]);
    if w.executors[f].process in w.broken {
      PhaseMoveKeepsInv(w, f, Dead);
    } else {
      var landed := w.(tasks := Landed(w.tasks, f));
      LandingKeepsTable(w.tasks, f);
      TaskLandsKeepsInv(w, f);
      PhaseMoveKeepsInv(landed, f, TaskSaved(w.executors[f].phase.outcome));
    }
  }

  lemma InsertRunKeepsInv(w: World, f: nat)
    requires Inv(w) && f < |w.executors| && w.executors[f].phase.TaskSaved?
    ensures Inv(DoInsertRun(w, f))
  {
    var x, w' := w.executors[f], DoInsertRun(w, f);
    assert PhaseOk(w, f, x);
    if x.process in w.broken || Conflicts(w, w.runs, x.requestId, x.process) {
      PhaseMoveKeepsInv(w, f, Dead);
      BreakKeepsInv(Moved(w, f, Dead), x.process);
    } else if !Held(w.runs, x.requestId) {
      FlushKeepsTable(w.runs, Row(x.requestId, f, Stored(x.phase.outcome)));
      MoveKeepsInv(f, w, w');
    }
  }

  lemma CommitRunKeepsInv(w: World, f: nat)
    requires Inv(w) && f < |w.executors| && w.executors[f].phase.RunOpen?
    ensures Inv(DoCommitRun(w, f))
  {
    assert PhaseOk(w, f, w.executors[f]);
    if w.executors[f].process in w.broken {
      PhaseMoveKeepsInv(w, f, Dead);
    } else {
      var landed := w.(runs := Landed(w.runs, f));
      LandingKeepsTable(w.runs, f);
      RunLandsKeepsInv(w, f);
      assert PhaseOk(landed, f, landed.executors[f]);
      PhaseMoveKeepsInv(landed, f, Recorded(w.executors[f].phase.outcome));
    }
  }

  lemma CheckKeepsInv(w: World, f: nat)
    requires Inv(w) && f < |w.executors| && w.executors[f].phase.Received?
    ensures Inv(DoCheck(w, f))
  {
    assert PhaseOk(w, f, w.executors[f]);
    match Find(w.runs.rows, w.executors[f].requestId)
    case Some(row) => PhaseMoveKeepsInv(w, f, Skipped(row));
    case None => PhaseMoveKeepsInv(w, f, Executing);
  }

  lemma ActKeepsInv(w: World, f: nat, action: Action)
    requires Inv(w) && f < |w.executors|
    ensures Inv(Do(w, f, action))
  {
    assert PhaseOk(w, f, w.executors[f]);
    match (action, w.executors[f].phase)
    case (Check, Received) => CheckKeepsInv(w, f);
    case (Finish(outcome), Executing) => PhaseMoveKeepsInv(w, f, Ran(outcome));
    case (InsertTask, Ran(_)) => InsertTaskKeepsInv(w, f);
    case (CommitTask, TaskOpen(_)) => CommitTaskKeepsInv(w, f);
    case (InsertRun, TaskSaved(_)) => InsertRunKeepsInv(w, f);
    case (CommitRun, RunOpen(_)) => CommitRunKeepsInv(w, f);
    case (Reply, Recorded(outcome)) => PhaseMoveKeepsInv(w, f, Replied(outcome));
    case (Die, phase) => if !Done(phase) { PhaseMoveKeepsInv(w, f, Dead); }
    case _ =>
  }

  lemma DeliverKeepsInv(w: World, q: string, checked: bool, process: nat)
    requires Inv(w)
    ensures Inv(Step(w, Deliver(q, checked, process)))
  {
    var w' := Step(w, Deliver(q, checked, process));
    forall e | 0 <= e < |w'.executors| ensures PhaseOk(w', e, w'.executors[e]) {
      if e < |w.executors| {
        assert PhaseOk(w, e, w.executors[e]);
      }
    }
  }

  lemma StepKeepsInv(w: World, ev: Event)
    requires Inv(w)
    ensures Inv(Step(w, ev))
  {
    match ev
    case Deliver(q, checked, process) => DeliverKeepsInv(w, q, checked, process);
    case Break(process) => BreakKeepsInv(w, process);
    case SettleTask(e, keep) => if keep { TaskLandsKeepsInv(w, e); } else { LostKeepsInv(w, w.tasks, e); }
    case SettleRun(e, keep) => if keep { RunLandsKeepsInv(w, e); } else { LostKeepsInv(w, w.runs, e); }
    case Act(e, action) => if e < |w.executors| { ActKeepsInv(w, e, action); }
  }

  lemma {:induction false} RunsKeepInv(w: World, es: seq<Event>)
    requires Inv(w)
    ensures Inv(After(w, es))
    decreases |es|
  {
    if es != [] {
      StepKeepsInv(w, es[0]);
      RunsKeepInv(Step(w, es[0]), es[1..]);
    }
  }

  // ----- safety over every run -----

  lemma StartIsOk()
    ensures Inv(START)
  {
  }

  lemma {:induction false} FindIsTheRow(rows: seq<Row>, i: nat)
    requires UniqueRequests(rows) && i < |rows|
    ensures Find(rows, rows[i].requestId) == Some(rows[i])
  {
    if i > 0 {
      assert rows[0].requestId != rows[i].requestId;
      FindIsTheRow(rows[1..], i - 1);
    }
  }

  /** The executor that wrote the run row is the one that won the task row. */
  ghost predicate WrittenByWinner(tasks: seq<Row>, run: Row) {
    exists task :: task in tasks && task.requestId == run.requestId && task.writer == run.writer
  }

  /** Whatever is delivered, runs concurrently, or crashes: each request has at most one task row and at most one run
      row, and its run row was written by the winner of its task row. */
  lemma OneRunRowPerRequest(es: seq<Event>)
    ensures var w := After(START, es);
      && UniqueRequests(w.tasks.rows) && UniqueRequests(w.runs.rows)
      && forall i :: 0 <= i < |w.runs.rows| ==> WrittenByWinner(w.tasks.rows, w.runs.rows[i])
  {
    StartIsOk();
    RunsKeepInv(START, es);
    var w := After(START, es);
    forall i | 0 <= i < |w.runs.rows| ensures WrittenByWinner(w.tasks.rows, w.runs.rows[i]) {
      FindIsTheRow(w.runs.rows, i);
      FindIsComplete(w.tasks.rows, w.runs.rows[i].requestId);
    }
  }

  /** An action commits at most its own executor's open row. */
  lemma ActCommitsOwnRow(w: World, e: nat, action: Action)
    requires e < |w.executors|
    ensures Do(w, e, action).runs.rows in {w.runs.rows, Landed(w.runs, e).rows}
    ensures Do(w, e, action).tasks.rows in {w.tasks.rows, Landed(w.tasks, e).rows}
  {
  }

  lemma StepKeepsRows(w: World, ev: Event, q: string)
    requires Inv(w)
    ensures Find(w.runs.rows, q).Some? ==> Find(Step(w, ev).runs.rows, q) == Find(w.runs.rows, q)
    ensures Find(w.tasks.rows, q).Some? ==> Find(Step(w, ev).tasks.rows, q) == Find(w.tasks.rows, q)
  {
    match ev
    case Deliver(_, _, _) =>
    case Break(_) =>
    case SettleTask(e, keep) => LandingKeepsTable(w.tasks, e);
    case SettleRun(e, keep) => LandingKeepsTable(w.runs, e);
    case Act(e, action) =>
      if e < |w.executors| {
        ActCommitsOwnRow(w, e, action);
        LandingKeepsTable(w.tasks, e);
        LandingKeepsTable(w.runs, e);
      }
  }

  /** A row is never changed and never removed. */
  lemma {:induction false} RowsAreForever(w: World, es: seq<Event>, q: string)
    requires Inv(w)
    ensures Find(w.runs.rows, q).Some? ==> Find(After(w, es).runs.rows, q) == Find(w.runs.rows, q)
    ensures Find(w.tasks.rows, q).Some? ==> Find(After(w, es).tasks.rows, q) == Find(w.tasks.rows, q)
    decreases |es|
  {
    if es != [] {
      StepKeepsRows(w, es[0], q);
      StepKeepsInv(w, es[0]);
      RowsAreForever(Step(w, es[0]), es[1..], q);
    }
  }

  // ----- a delivery that starts after the run finished -----

  /** Executor e never got past the check: it has run no agent. */
  ghost predicate NeverRan(w: World, e: nat, q: string, row: Row) {
    && e < |w.executors| && w.executors[e].requestId == q
    && (w.executors[e].phase.Received? || w.executors[e].phase == Skipped(row) || w.executors[e].phase.Dead?)
  }

  lemma OtherUntouched(w: World, f: nat, action: Action, e: nat)
    requires f < |w.executors| && e < |w.executors| && e != f
    ensures |Do(w, f, action).executors| == |w.executors| && Do(w, f, action).executors[e] == w.executors[e]
  {
  }

  lemma StepNeverRuns(w: World, ev: Event, e: nat, q: string, row: Row)
    requires Inv(w) && Find(w.runs.rows, q) == Some(row) && NeverRan(w, e, q, row)
    ensures NeverRan(Step(w, ev), e, q, row)
  {
    if ev.Act? && ev.e < |w.executors| && ev.e != e {
      OtherUntouched(w, ev.e, ev.action, e);
    }
  }

  lemma {:induction false} StepsNeverRun(w: World, es: seq<Event>, e: nat, q: string, row: Row)
    requires Inv(w) && Find(w.runs.rows, q) == Some(row) && NeverRan(w, e, q, row)
    ensures NeverRan(After(w, es), e, q, row)
    decreases |es|
  {
    if es != [] {
      StepNeverRuns(w, es[0], e, q, row);
      StepKeepsRows(w, es[0], q);
      StepKeepsInv(w, es[0]);
      StepsNeverRun(Step(w, es[0]), es[1..], e, q, row);
    }
  }

  /** Whatever happened before and whatever happens after: a task delivery that starts once the run row exists runs no
      agent, and if it answers, it answers with that row. */
  lemma FinishedRunsAreSkipped(before: seq<Event>, q: string, process: nat, row: Row, after: seq<Event>)
    requires Find(After(START, before).runs.rows, q) == Some(row)
    ensures var w := After(START, before);
      NeverRan(After(Step(w, Deliver(q, true, process)), after), |w.executors|, q, row)
  {
    StartIsOk();
    RunsKeepInv(START, before);
    var w := After(START, before);
    StepKeepsInv(w, Deliver(q, true, process));
    StepsNeverRun(Step(w, Deliver(q, true, process)), after, |w.executors|, q, row);
  }

  // ----- answers -----

  /** What a finished executor told its caller: its own outcome, or the stored one. */
  function Answer(phase: Phase): Option<Outcome> {
    match phase
    case Replied(o) => Some(o)
    case Skipped(row) => Some(row.outcome)
    case _ => None
  }

  /** All answers ever given to one request carry the same status, reason, path and errors. They differ in the review
      id exactly when one was not stored and the run did not end waiting for its review. */
  lemma AnswersAgree(es: seq<Event>, e: nat, f: nat)
    requires e < |After(START, es).executors| && f < |After(START, es).executors|
    requires After(START, es).executors[e].requestId == After(START, es).executors[f].requestId
    requires Answer(After(START, es).executors[e].phase).Some? && Answer(After(START, es).executors[f].phase).Some?
    ensures var x, y := After(START, es).executors[e].phase, After(START, es).executors[f].phase;
      var a, b := Answer(x).value, Answer(y).value;
      && a.status == b.status && a.reason == b.reason && a.path == b.path && a.errors == b.errors
      && (x.Replied? && y.Replied? ==> e == f)
      && (x.Replied? && y.Skipped? ==>
            (a.reviewId == b.reviewId <==> a.status == WorkflowNeedsReview || a.reviewId.None?))
  {
    StartIsOk();
    RunsKeepInv(START, es);
    var w := After(START, es);
    assert PhaseOk(w, e, w.executors[e]) && PhaseOk(w, f, w.executors[f]);
  }
}
