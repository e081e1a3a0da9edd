/** The worker watchdog: a timed state machine that may spawn a replacement worker when the queue is
    stuck and nobody is heartbeating. Theorems range over every sequence of observations.
  */
module Watchdog {
  import opened Common

  datatype Config = Config(
    heartbeatStaleSeconds: real,
    visibilityTimeoutSeconds: real,
    queueStallSeconds: real,
    autoRecover: bool)

  datatype Backlog = Backlog(reachable: bool, ready: int, unacked: int, oldestUnackedAge: Option<real>)

  /** What one tick reads: the clock, the age of each heartbeat, the broker, and what a spawn would return. */
  datatype Observation = Observation(
    now: real, heartbeatAges: seq<real>, backlog: Backlog, spawned: Result<int, string>)

  const MAX_SPAWN_ATTEMPTS := 3

  predicate IsStalled(b: Backlog, cfg: Config) {
    if !b.reachable then false
    else if b.ready > 0 then true
    else if b.unacked == 0 then false
    else if b.oldestUnackedAge.None? then false
    else b.oldestUnackedAge.value > cfg.visibilityTimeoutSeconds
  }

  predicate SeesLiveWorker(o: Observation, cfg: Config) {
    exists i :: 0 <= i < |o.heartbeatAges| && o.heartbeatAges[i] <= cfg.heartbeatStaleSeconds
  }

  /** Nobody alive and messages stuck. */
  predicate SeesStall(o: Observation, cfg: Config) {
    !SeesLiveWorker(o, cfg) && IsStalled(o.backlog, cfg)
  }

  /** What the last message says; the wording is left out. */
  datatype Message =
    | NoMessage
    | LiveWorkerSeen
    | QueueStuck(ready: int, unacked: int)
    | RecoveryIsOff
    | GaveUp(attempts: nat)
    | SpawnFailed(error: string)
    | Spawned(pid: int)

  datatype Watch = Watch(
    stallSince: Option<real>,
    checks: nat,
    recoveries: nat,
    spawnAttempts: nat,
    spawnedPids: seq<int>,
    lastAction: string,
    lastActionAt: Option<real>,
    lastMessage: Message,
    lastCheckAt: Option<real>)

  function Fresh(): Watch {
    Watch(None, 0, 0, 0, [], "", None, NoMessage, None)
  }

  /** Whether this tick calls spawn. */
  predicate Spawns(cfg: Config, w: Watch, o: Observation) {
    && SeesStall(o, cfg)
    && w.stallSince.Some? && o.now - w.stallSince.value >= cfg.queueStallSeconds
    && cfg.autoRecover && w.spawnAttempts < MAX_SPAWN_ATTEMPTS
  }

  function Note(w: Watch, action: string, at: real, message: Message): Watch {
    w.(lastAction := action, lastActionAt := Some(at), lastMessage := message)
  }

  function React(cfg: Config, before: Watch, o: Observation): Watch {
    var w := before.(checks := before.checks + 1, lastCheckAt := Some(o.now));
    if SeesLiveWorker(o, cfg) then
      var healthy := w.(stallSince := None, spawnAttempts := 0);
      if w.lastAction != "healthy" then Note(healthy, "healthy", o.now, LiveWorkerSeen) else healthy
    else if !SeesStall(o, cfg) then w.(stallSince := None)
    else if w.stallSince.None? then
      var message := QueueStuck(o.backlog.ready, o.backlog.unacked);
      Note(w.(stallSince := Some(o.now)), "stall_detected", o.now, message)
    else if o.now - w.stallSince.value < cfg.queueStallSeconds then w
    else if !cfg.autoRecover then Note(w.(stallSince := Some(o.now)), "auto_recover_disabled", o.now, RecoveryIsOff)
    else if w.spawnAttempts >= MAX_SPAWN_ATTEMPTS then
      Note(w.(stallSince := Some(o.now)), "spawn_limit_reached", o.now, GaveUp(MAX_SPAWN_ATTEMPTS))
    else
      var tried := w.(stallSince := Some(o.now), spawnAttempts := w.spawnAttempts + 1);
      match o.spawned
      case Err(error) => Note(tried, "spawn_failed", o.now, SpawnFailed(error))
      case Ok(pid) =>
        var counted := tried.(recoveries := w.recoveries + 1, spawnedPids := w.spawnedPids + [pid]);
        Note(counted, "spawned_worker", o.now, Spawned(pid))
  }

  class WorkerWatchdog {
    const cfg: Config
    var stallSince: Option<real>
    var checks: nat
    var recoveries: nat
    var spawnAttempts: nat
    var spawnedPids: seq<int>
    var lastAction: string
    var lastActionAt: Option<real>
    var lastMessage: Message
    var lastCheckAt: Option<real>

    function View(): Watch
      reads this
    {
      Watch(stallSince, checks, recoveries, spawnAttempts, spawnedPids, lastAction, lastActionAt, lastMessage,
            lastCheckAt)
    }

    constructor (cfg: Config)
      ensures this.cfg == cfg && View() == Fresh()
    {
      this.cfg := cfg;
      stallSince, checks, recoveries, spawnAttempts, spawnedPids := None, 0, 0, 0, [];
      lastAction, lastActionAt, lastMessage, lastCheckAt := "", None, NoMessage, None;
    }

    method Record(action: string, at: real, message: Message)
      modifies this`lastAction, this`lastActionAt, this`lastMessage
      ensures lastAction == action && lastActionAt == Some(at) && lastMessage == message
    {
      lastAction := action;
      lastActionAt := Some(at);
      lastMessage := message;
    }

    /** One tick; returns whether spawn was called. */
    method Tick(o: Observation) returns (spawnCalled: bool)
      modifies this
      ensures View() == React(cfg, old(View()), o)
      ensures spawnCalled <==> Spawns(cfg, old(View()), o)
    {
      spawnCalled := false;
      checks := checks + 1;
      lastCheckAt := Some(o.now);
      if SeesLiveWorker(o, cfg) {
        stallSince := None;
        spawnAttempts := 0;
        if lastAction != "healthy" {
          Record("healthy", o.now, LiveWorkerSeen);
        }
        return;
      }
      if !IsStalled(o.backlog, cfg) {
        stallSince := None;
        return;
      }
      if stallSince.None? {
        stallSince := Some(o.now);
        Record("stall_detected", o.now, QueueStuck(o.backlog.ready, o.backlog.unacked));
        return;
      }
      var stalledSeconds := o.now - stallSince.value;
      if stalledSeconds < cfg.queueStallSeconds {
        return;
      }
      if !cfg.autoRecover {
        stallSince := Some(o.now);
        Record("auto_recover_disabled", o.now, RecoveryIsOff);
        return;
      }
      if spawnAttempts >= MAX_SPAWN_ATTEMPTS {
        stallSince := Some(o.now);
        Record("spawn_limit_reached", o.now, GaveUp(MAX_SPAWN_ATTEMPTS));
        return;
      }
      stallSince := Some(o.now);
      spawnAttempts := spawnAttempts + 1;
      spawnCalled := true;
      match o.spawned {
        case Err(error) =>
          Record("spawn_failed", o.now, SpawnFailed(error));
        case Ok(pid) =>
          recoveries := recoveries + 1;
          spawnedPids := spawnedPids + [pid];
          Record("spawned_worker", o.now, Spawned(pid));
      }
    }
  }

  // ----- whole runs -----

  function Run(cfg: Config, ticks: seq<Observation>): Watch {
    if ticks == [] then Fresh() else React(cfg, Run(cfg, ticks[..|ticks| - 1]), ticks[|ticks| - 1])
  }

  predicate SpawnsAt(cfg: Config, ticks: seq<Observation>, i: nat)
    requires i < |ticks|
  {
    Spawns(cfg, Run(cfg, ticks[..i]), ticks[i])
  }

  predicate ClockAdvances(ticks: seq<Observation>) {
    forall i, j :: 0 <= i < j < |ticks| ==> ticks[i].now <= ticks[j].now
  }

  lemma RunNext(cfg: Config, ticks: seq<Observation>, i: nat)
    requires i < |ticks|
    ensures Run(cfg, ticks[..i + 1]) == React(cfg, Run(cfg, ticks[..i]), ticks[i])
  {
    assert ticks[..i + 1][..i] == ticks[..i];
  }

  /** The stall clock was started at some tick, and every tick since then saw the stall. */
  ghost predicate StallRunning(cfg: Config, ticks: seq<Observation>, s: nat, n: nat) {
    s < n <= |ticks| && forall i :: s <= i < n ==> SeesStall(ticks[i], cfg)
  }

  /** How one tick moves the stall clock. */
  lemma StallClockMoves(cfg: Config, ticks: seq<Observation>, i: nat)
    requires i < |ticks|
    ensures var since := Run(cfg, ticks[..i + 1]).stallSince;
      && (since.Some? ==>
            SeesStall(ticks[i], cfg) && (since == Some(ticks[i].now) || since == Run(cfg, ticks[..i]).stallSince))
      && (SpawnsAt(cfg, ticks, i) ==> since == Some(ticks[i].now))
  {
    RunNext(cfg, ticks, i);
  }

  lemma {:induction false} StallClockStart(cfg: Config, ticks: seq<Observation>, n: nat) returns (s: nat)
    requires n <= |ticks| && Run(cfg, ticks[..n]).stallSince.Some?
    ensures StallRunning(cfg, ticks, s, n) && Run(cfg, ticks[..n]).stallSince.value == ticks[s].now
  {
    StallClockMoves(cfg, ticks, n - 1);
    if Run(cfg, ticks[..n]).stallSince == Some(ticks[n - 1].now) {
      s := n - 1;
    } else {
      s := StallClockStart(cfg, ticks, n - 1);
    }
  }

  /** A spawn follows an uninterrupted stall at least `queueStallSeconds` long. */
  lemma SpawnFollowsFullStall(cfg: Config, ticks: seq<Observation>, i: nat) returns (s: nat)
    requires i < |ticks| && SpawnsAt(cfg, ticks, i)
    ensures StallRunning(cfg, ticks, s, i + 1) && s < i
    ensures ticks[i].now - ticks[s].now >= cfg.queueStallSeconds
  {
    s := StallClockStart(cfg, ticks, i);
  }

  lemma ClockStaysLater(before: Option<real>, after: Option<real>, now: real, spawned: real)
    requires after.Some? ==> after == Some(now) || after == before
    requires (before.Some? ==> before.value >= spawned) && now >= spawned
    ensures after.Some? ==> after.value >= spawned
  {
  }

  /** After a spawn the stall clock never reads earlier than that spawn. */
  lemma {:induction false} StallClockAfterSpawn(cfg: Config, ticks: seq<Observation>, i: nat, n: nat)
    requires i < n <= |ticks| && SpawnsAt(cfg, ticks, i) && ClockAdvances(ticks)
    ensures var since := Run(cfg, ticks[..n]).stallSince; since.Some? ==> since.value >= ticks[i].now
  {
    StallClockMoves(cfg, ticks, n - 1);
    if i < n - 1 {
      StallClockAfterSpawn(cfg, ticks, i, n - 1);
      ClockStaysLater(Run(cfg, ticks[..n - 1]).stallSince, Run(cfg, ticks[..n]).stallSince, ticks[n - 1].now,
                      ticks[i].now);
    }
  }

  /** Any two spawns are at least `queueStallSeconds` apart. */
  lemma SpawnsAreSpaced(cfg: Config, ticks: seq<Observation>, i: nat, j: nat)
    requires i < j < |ticks| && ClockAdvances(ticks) && SpawnsAt(cfg, ticks, i) && SpawnsAt(cfg, ticks, j)
    ensures ticks[j].now - ticks[i].now >= cfg.queueStallSeconds
  {
    StallClockAfterSpawn(cfg, ticks, i, j);
  }

  function SpawnCount(cfg: Config, ticks: seq<Observation>, from: nat, to: nat): nat
    requires from <= to <= |ticks|
  {
    if from == to then 0 else SpawnCount(cfg, ticks, from, to - 1) + if SpawnsAt(cfg, ticks, to - 1) then 1 else 0
  }

  function LiveCount(cfg: Config, ticks: seq<Observation>, n: nat): nat
    requires n <= |ticks|
  {
    if n == 0 then 0 else LiveCount(cfg, ticks, n - 1) + if SeesLiveWorker(ticks[n - 1], cfg) then 1 else 0
  }

  /** How one tick moves the counters. */
  lemma CountersNext(cfg: Config, ticks: seq<Observation>, i: nat)
    requires i < |ticks|
    ensures var w, w' := Run(cfg, ticks[..i]), Run(cfg, ticks[..i + 1]);
      && w'.spawnAttempts == (if SeesLiveWorker(ticks[i], cfg) then 0
                              else w.spawnAttempts + if SpawnsAt(cfg, ticks, i) then 1 else 0)
      && w.recoveries <= w'.recoveries <= w.recoveries + (if SpawnsAt(cfg, ticks, i) then 1 else 0)
      && |w'.spawnedPids| - |w.spawnedPids| == w'.recoveries - w.recoveries
      && (SpawnsAt(cfg, ticks, i) ==> !SeesLiveWorker(ticks[i], cfg) && w.spawnAttempts < MAX_SPAWN_ATTEMPTS)
  {
    RunNext(cfg, ticks, i);
  }

  /** The attempt counter is exactly the number of spawns since the last sighting of a live worker. */
  lemma {:induction false} AttemptsSinceLive(cfg: Config, ticks: seq<Observation>, from: nat, to: nat)
    requires from <= to <= |ticks|
    requires from == 0 || SeesLiveWorker(ticks[from - 1], cfg)
    requires forall i :: from <= i < to ==> !SeesLiveWorker(ticks[i], cfg)
    ensures Run(cfg, ticks[..to]).spawnAttempts == SpawnCount(cfg, ticks, from, to)
  {
    if from < to {
      AttemptsSinceLive(cfg, ticks, from, to - 1);
      CountersNext(cfg, ticks, to - 1);
    } else if from > 0 {
      CountersNext(cfg, ticks, from - 1);
    }
  }

  lemma {:induction false} AttemptsNeverExceedLimit(cfg: Config, ticks: seq<Observation>)
    ensures Run(cfg, ticks).spawnAttempts <= MAX_SPAWN_ATTEMPTS
  {
    if ticks != [] { AttemptsNeverExceedLimit(cfg, ticks[..|ticks| - 1]); }
  }

  /** Between two sightings of a live worker, and before the first and after the last, at most three spawns. */
  lemma AtMostThreeSpawnsPerOutage(cfg: Config, ticks: seq<Observation>, from: nat, to: nat)
    requires from <= to <= |ticks|
    requires from == 0 || SeesLiveWorker(ticks[from - 1], cfg)
    requires forall i :: from <= i < to ==> !SeesLiveWorker(ticks[i], cfg)
    ensures SpawnCount(cfg, ticks, from, to) <= MAX_SPAWN_ATTEMPTS
  {
    AttemptsSinceLive(cfg, ticks, from, to);
    AttemptsNeverExceedLimit(cfg, ticks[..to]);
  }

  /** Spawns so far: three for every finished outage at most, plus those of the current one. */
  lemma {:induction false} SpawnsAccounted(cfg: Config, ticks: seq<Observation>, n: nat)
    requires n <= |ticks|
    ensures SpawnCount(cfg, ticks, 0, n)
         <= MAX_SPAWN_ATTEMPTS * LiveCount(cfg, ticks, n) + Run(cfg, ticks[..n]).spawnAttempts
    ensures Run(cfg, ticks[..n]).recoveries == |Run(cfg, ticks[..n]).spawnedPids| <= SpawnCount(cfg, ticks, 0, n)
  {
    if n > 0 {
      SpawnsAccounted(cfg, ticks, n - 1);
      CountersNext(cfg, ticks, n - 1);
      AttemptsNeverExceedLimit(cfg, ticks[..n - 1]);
    }
  }

  /** However long it runs, the watchdog starts at most three workers per sighting of a live one, plus three. */
  lemma RecoveriesAreBounded(cfg: Config, ticks: seq<Observation>)
    ensures Run(cfg, ticks).recoveries <= MAX_SPAWN_ATTEMPTS * (LiveCount(cfg, ticks, |ticks|) + 1)
  {
    assert ticks[..|ticks|] == ticks;
    SpawnsAccounted(cfg, ticks, |ticks|);
    AttemptsNeverExceedLimit(cfg, ticks);
  }

  /** How a tick that sees the stall moves the watchdog. */
  lemma StallTick(cfg: Config, ticks: seq<Observation>, n: nat)
    requires n < |ticks| && cfg.autoRecover && SeesStall(ticks[n], cfg)
    ensures var w, w' := Run(cfg, ticks[..n]), Run(cfg, ticks[..n + 1]);
      && w'.stallSince.Some? && w'.spawnAttempts >= w.spawnAttempts
      && (w.stallSince.Some? ==>
            w'.stallSince == w.stallSince || SpawnsAt(cfg, ticks, n) || w'.spawnAttempts >= MAX_SPAWN_ATTEMPTS)
      && (w.stallSince.Some? && ticks[n].now - w.stallSince.value >= cfg.queueStallSeconds ==>
            SpawnsAt(cfg, ticks, n) || w.spawnAttempts >= MAX_SPAWN_ATTEMPTS)
  {
    RunNext(cfg, ticks, n);
  }

  /** Throughout a stall its clock runs since its first tick or longer, unless it has been answered since. */
  lemma {:induction false} StallIsTimed(cfg: Config, ticks: seq<Observation>, s: nat, n: nat)
    requires cfg.autoRecover && ClockAdvances(ticks) && StallRunning(cfg, ticks, s, n)
    ensures var w := Run(cfg, ticks[..n]);
      && w.stallSince.Some?
      && (w.stallSince.value <= ticks[s].now || SpawnCount(cfg, ticks, s + 1, n) >= 1
          || w.spawnAttempts >= MAX_SPAWN_ATTEMPTS)
  {
    StallTick(cfg, ticks, n - 1);
    if n == s + 1 {
      var start := StallClockStart(cfg, ticks, n);
      assert start == s || ticks[start].now <= ticks[s].now;
    } else {
      StallIsTimed(cfg, ticks, s, n - 1);
    }
  }

  /** A stall is answered: by the tick that sees it as long as `queueStallSeconds` after its first, there has been a
      spawn, unless three were made already since a live worker was last seen.
    */
  lemma FullStallIsAnswered(cfg: Config, ticks: seq<Observation>, from: nat, s: nat, i: nat)
    requires cfg.autoRecover && ClockAdvances(ticks) && s < i && StallRunning(cfg, ticks, s, i + 1)
    requires ticks[i].now - ticks[s].now >= cfg.queueStallSeconds
    requires from <= s && (from == 0 || SeesLiveWorker(ticks[from - 1], cfg))
    requires forall k :: from <= k <= i ==> !SeesLiveWorker(ticks[k], cfg)
    ensures SpawnCount(cfg, ticks, s + 1, i + 1) >= 1 || SpawnCount(cfg, ticks, from, i) == MAX_SPAWN_ATTEMPTS
  {
    StallIsTimed(cfg, ticks, s, i);
    StallTick(cfg, ticks, i);
    AttemptsSinceLive(cfg, ticks, from, i);
    AttemptsNeverExceedLimit(cfg, ticks[..i]);
  }

  lemma {:induction false} NoSpawnCount(cfg: Config, ticks: seq<Observation>, n: nat)
    requires !cfg.autoRecover && n <= |ticks|
    ensures SpawnCount(cfg, ticks, 0, n) == 0
  {
    if n > 0 { NoSpawnCount(cfg, ticks, n - 1); }
  }

  /** With self-healing switched off no worker is ever spawned. */
  lemma DisabledNeverSpawns(cfg: Config, ticks: seq<Observation>)
    requires !cfg.autoRecover
    ensures Run(cfg, ticks).recoveries == 0 && SpawnCount(cfg, ticks, 0, |ticks|) == 0
  {
    NoSpawnCount(cfg, ticks, |ticks|);
    assert ticks[..|ticks|] == ticks;
    SpawnsAccounted(cfg, ticks, |ticks|);
  }
}
