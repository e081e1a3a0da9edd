/** Whole runs of the watchdog, told by its observations alone. */
module WatchdogRuns {
  import opened Common
  import opened Watchdog

  /** A tick sees the stall when no heartbeat is fresh and the queue, if it can be read, holds ready messages, or only
      unacknowledged ones of which the oldest has outlived its visibility.
    */
  lemma SeesStallIff(o: Observation, cfg: Config)
    ensures SeesStall(o, cfg) <==>
      && (forall i :: 0 <= i < |o.heartbeatAges| ==> o.heartbeatAges[i] > cfg.heartbeatStaleSeconds)
      && o.backlog.reachable
      && (o.backlog.ready > 0
          || (o.backlog.unacked != 0 && o.backlog.oldestUnackedAge.Some?
              && o.backlog.oldestUnackedAge.value > cfg.visibilityTimeoutSeconds))
  {
  }

  /** The tick that last (re)started the stall clock, of the first n: the stall's first, or one a full period later. */
  function ClockStart(cfg: Config, ticks: seq<Observation>, n: nat): (r: Option<nat>)
    requires n <= |ticks|
    ensures r.Some? ==> r.value < n
  {
    if n == 0 || !SeesStall(ticks[n - 1], cfg) then None else
    var before := ClockStart(cfg, ticks, n - 1);
    if before.None? || ticks[n - 1].now - ticks[before.value].now >= cfg.queueStallSeconds then Some(n - 1) else before
  }

  /** A full period of stall has passed. */
  predicate Overdue(cfg: Config, ticks: seq<Observation>, i: nat)
    requires i < |ticks|
  {
    && SeesStall(ticks[i], cfg) && ClockStart(cfg, ticks, i).Some?
    && ticks[i].now - ticks[ClockStart(cfg, ticks, i).value].now >= cfg.queueStallSeconds
  }

  /** Spawn calls among the first n ticks since the last of them that saw a live worker. */
  function SpawnsSinceLive(cfg: Config, ticks: seq<Observation>, n: nat): nat
    requires n <= |ticks|
    decreases n, 0
  {
    if n == 0 || SeesLiveWorker(ticks[n - 1], cfg) then 0
    else SpawnsSinceLive(cfg, ticks, n - 1) + if SpawnCalled(cfg, ticks, n - 1) then 1 else 0
  }

  /** Spawn is called when self-healing is on, a full period of stall has passed, and fewer than three calls were made
      since a live worker was last seen.
    */
  predicate SpawnCalled(cfg: Config, ticks: seq<Observation>, i: nat)
    requires i < |ticks|
    decreases i, 1
  {
    cfg.autoRecover && Overdue(cfg, ticks, i) && SpawnsSinceLive(cfg, ticks, i) < 3
  }

  /** What the spawn calls of the first n ticks returned, in order, failed calls left out. */
  function Pids(cfg: Config, ticks: seq<Observation>, n: nat): seq<int>
    requires n <= |ticks|
  {
    if n == 0 then [] else
    Pids(cfg, ticks, n - 1)
      + if SpawnCalled(cfg, ticks, n - 1) && ticks[n - 1].spawned.Ok? then [ticks[n - 1].spawned.value] else []
  }

  /** Watch w holds what the first i observations call for. */
  ghost predicate Holds(cfg: Config, ticks: seq<Observation>, i: nat, w: Watch)
    requires i <= |ticks|
  {
    var start := ClockStart(cfg, ticks, i);
    && w.stallSince == (if start.None? then None else Some(ticks[start.value].now))
    && w.spawnAttempts == SpawnsSinceLive(cfg, ticks, i)
    && w.spawnedPids == Pids(cfg, ticks, i)
  }

  lemma SpawnsWhenCalled(cfg: Config, ticks: seq<Observation>, i: nat, w: Watch)
    requires i < |ticks| && Holds(cfg, ticks, i, w)
    ensures Spawns(cfg, w, ticks[i]) <==> SpawnCalled(cfg, ticks, i)
  {
  }

  lemma TickHolds(cfg: Config, ticks: seq<Observation>, i: nat, w: Watch, w': Watch)
    requires i < |ticks| && Holds(cfg, ticks, i, w) && w' == React(cfg, w, ticks[i])
    ensures Holds(cfg, ticks, i + 1, w')
  {
    SpawnsWhenCalled(cfg, ticks, i, w);
    var o := ticks[i];
    if SeesLiveWorker(o, cfg) {
      assert !SeesStall(o, cfg) && !Spawns(cfg, w, o);
    }
  }

  lemma {:induction false} RunHolds(cfg: Config, ticks: seq<Observation>, n: nat, w: Watch)
    requires n <= |ticks| && w == Run(cfg, ticks[..n])
    ensures Holds(cfg, ticks, n, w)
  {
    if n > 0 {
      var before := Run(cfg, ticks[..n - 1]);
      RunHolds(cfg, ticks, n - 1, before);
      RunNext(cfg, ticks, n - 1);
      TickHolds(cfg, ticks, n - 1, before, w);
    }
  }

  /** Spawns, recoveries and pids are what the observations call for: a recovery is a spawn call that returned a pid,
      and the pids are kept in the order of the calls.
    */
  lemma RecoveriesAreSpawns(cfg: Config, ticks: seq<Observation>)
    ensures forall i :: 0 <= i < |ticks| ==> (SpawnsAt(cfg, ticks, i) <==> SpawnCalled(cfg, ticks, i))
    ensures Run(cfg, ticks).spawnedPids == Pids(cfg, ticks, |ticks|)
    ensures Run(cfg, ticks).recoveries == |Pids(cfg, ticks, |ticks|)|
  {
    forall i | 0 <= i < |ticks| ensures SpawnsAt(cfg, ticks, i) <==> SpawnCalled(cfg, ticks, i) {
      RunHolds(cfg, ticks, i, Run(cfg, ticks[..i]));
      SpawnsWhenCalled(cfg, ticks, i, Run(cfg, ticks[..i]));
    }
    RunHolds(cfg, ticks, |ticks|, Run(cfg, ticks[..|ticks|]));
    SpawnsAccounted(cfg, ticks, |ticks|);
    assert ticks[..|ticks|] == ticks;
  }

  /** What a tick puts on record, if anything: a live worker seen for the first time, a stall seen for the first time,
      or what was done about a full period of it.
    */
  function Noted(cfg: Config, ticks: seq<Observation>, i: nat): Option<(string, Message)>
    requires i < |ticks|
    decreases i, 1
  {
    var o := ticks[i];
    if SeesLiveWorker(o, cfg) then
      if LastNoted(cfg, ticks, i).0 == "healthy" then None else Some(("healthy", LiveWorkerSeen))
    else if SpawnCalled(cfg, ticks, i) then
      match o.spawned
      case Ok(pid) => Some(("spawned_worker", Spawned(pid)))
      case Err(error) => Some(("spawn_failed", SpawnFailed(error)))
    else if Overdue(cfg, ticks, i) then
      if cfg.autoRecover then Some(("spawn_limit_reached", GaveUp(3)))
      else Some(("auto_recover_disabled", RecoveryIsOff))
    else if SeesStall(o, cfg) && ClockStart(cfg, ticks, i).None? then
      Some(("stall_detected", QueueStuck(o.backlog.ready, o.backlog.unacked)))
    else None
  }

  /** The newest thing on record after the first n ticks, and when it was put there. */
  function LastNoted(cfg: Config, ticks: seq<Observation>, n: nat): (string, Message, Option<real>)
    requires n <= |ticks|
    decreases n, 0
  {
    if n == 0 then ("", NoMessage, None) else
    match Noted(cfg, ticks, n - 1)
    case None => LastNoted(cfg, ticks, n - 1)
    case Some(note) => (note.0, note.1, Some(ticks[n - 1].now))
  }

  lemma {:induction false} TicksAreCounted(cfg: Config, ticks: seq<Observation>)
    ensures Run(cfg, ticks).checks == |ticks|
    ensures Run(cfg, ticks).lastCheckAt == if ticks == [] then None else Some(ticks[|ticks| - 1].now)
  {
    if ticks != [] { TicksAreCounted(cfg, ticks[..|ticks| - 1]); }
  }

  function OnRecord(w: Watch): (string, Message, Option<real>) {
    (w.lastAction, w.lastMessage, w.lastActionAt)
  }

  /** Watch w agrees with the observations on what decides a tick. */
  ghost predicate Told(cfg: Config, ticks: seq<Observation>, i: nat, w: Watch)
    requires i <= |ticks|
  {
    var start := ClockStart(cfg, ticks, i);
    && w.stallSince == (if start.None? then None else Some(ticks[start.value].now))
    && w.spawnAttempts == SpawnsSinceLive(cfg, ticks, i) <= 3
    && OnRecord(w) == LastNoted(cfg, ticks, i)
  }

  lemma TickNotes(cfg: Config, ticks: seq<Observation>, i: nat, w: Watch, w': Watch)
    requires i < |ticks| && Told(cfg, ticks, i, w) && w' == React(cfg, w, ticks[i])
    ensures OnRecord(w') == LastNoted(cfg, ticks, i + 1)
  {
    var o, start := ticks[i], ClockStart(cfg, ticks, i);
    if SeesLiveWorker(o, cfg) {
      assert !SeesStall(o, cfg);
    } else if SeesStall(o, cfg) && start.Some? {
      assert Overdue(cfg, ticks, i) <==> o.now - w.stallSince.value >= cfg.queueStallSeconds;
    }
  }

  /** The watchdog's record is the newest thing its observations call for. */
  lemma {:induction false} RecordIsTold(cfg: Config, ticks: seq<Observation>, n: nat, w: Watch)
    requires n <= |ticks| && w == Run(cfg, ticks[..n])
    ensures OnRecord(w) == LastNoted(cfg, ticks, n)
  {
    if n > 0 {
      var before := Run(cfg, ticks[..n - 1]);
      RecordIsTold(cfg, ticks, n - 1, before);
      RunHolds(cfg, ticks, n - 1, before);
      AttemptsNeverExceedLimit(cfg, ticks[..n - 1]);
      RunNext(cfg, ticks, n - 1);
      TickNotes(cfg, ticks, n - 1, before, w);
    }
  }
}
