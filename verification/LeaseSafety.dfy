/** With deadlines on: a worker's rsync is dead before its lease runs out, so rsync processes never
    work on overlapping directories. */
module LeaseSafety {
  import opened Common
  import opened Paths
  import opened SyncStore
  import opened StoreRuns
  import opened SyncWorker
  import opened WorkerInvariants
  import opened Fleet
  import opened FleetInvariants
  import opened FleetRuns

  /** From the last renewal that took effect to the cancellation of the context: the reply, a tick, a
      failing call, each with its slack. */
  function ReactWithin(c: Config): nat {
    CALL + TICK + CALL + 3 * c.slack
  }

  /** From that renewal to the death of rsync: the above, the window between the last look at the
      context and the start of rsync, noticing the cancellation, and the grace before the kill. */
  function DeadWithin(c: Config): nat {
    ReactWithin(c) + c.launch + c.slack + GRACE + c.slack
  }

  /** What whole seconds guarantee of a lease of 120 seconds. */
  const SURE_LEASE: nat := 119000

  /****** Deadlines *******/

  predicate MonitorTimes(c: Config, now: nat, mon: Monitor, t: Times) {
    && now <= t.monitorDue
    && (mon.pc == Selecting ==> t.monitorDue <= t.lease + CALL + TICK + 2 * c.slack)
    && (mon.pc == Reporting || mon.pc.CancelFor? ==> t.monitorDue <= t.lease + ReactWithin(c))
    && (mon.pc == Reporting && Succeeded(mon.call) ==> t.monitorDue <= t.lease + CALL + c.slack)
    && (mon.pc == Reporting ==> t.monitorDue <= now + CALL + c.slack)
  }

  predicate LaunchTimes(c: Config, now: nat, cancelled: bool, t: Times) {
    && t.launchAt <= now <= t.launchAt + c.launch
    && (cancelled ==> t.launchAt <= t.cancelAt <= now)
  }

  predicate ProcessTimes(c: Config, now: nat, r: Rsync, cancelled: bool, t: Times) {
    && t.startAt <= now
    && (cancelled ==> t.cancelAt <= now && t.startAt <= t.cancelAt + c.launch)
    && (cancelled && (r.watcher == Watching || r.watcher == Rechecking) ==>
          now <= Later(t.cancelAt, t.startAt) + c.slack)
    && (r.watcher == Grace || r.watcher == Quit ==>
          && cancelled
          && t.graceAt <= Later(t.cancelAt, t.startAt) + c.slack
          && now <= t.graceAt + GRACE + c.slack)
  }

  predicate TimesKept(c: Config, now: nat, w: Worker) {
    && w.times.lease <= now
    && (w.main.pc == Claiming ==> now <= w.times.claimDue <= w.times.lease + CALL + c.slack)
    && (w.main.claimed && !w.context.cancelled ==> MonitorTimes(c, now, w.monitor, w.times))
    && (w.main.claimed && w.context.cancelled && Stage(w.main.pc) <= 6 ==>
          w.times.cancelAt <= w.times.lease + ReactWithin(c))
    && (w.main.pc == Launching ==> LaunchTimes(c, now, w.context.cancelled, w.times))
    && (w.rsync.process == Alive ==> ProcessTimes(c, now, w.rsync, w.context.cancelled, w.times))
  }

  /** Rsync is running, or may still be started. */
  predicate Matters(w: Worker) {
    || (w.main.pc == Claiming && Succeeded(w.main.call))
    || (w.main.claimed && !w.context.cancelled && Stage(w.main.pc) <= 2)
    || w.main.pc == Launching
    || w.rsync.process == Alive
  }

  lemma MattersBounded(c: Config, now: nat, w: Worker)
    requires WorkerKept(c, w) && HasClaim(w) && TimesKept(c, now, w) && Matters(w)
    ensures now <= w.times.lease + DeadWithin(c)
  {}

  lemma MainTimes(c: Config, now: nat, w: Worker)
    requires AfterClaim(c, w) && TimesKept(c, now, w) && MainCanMove(w)
    ensures TimesKept(c, now, MainMove(c, w, now))
  {}

  lemma LateMainTimes(c: Config, now: nat, w: Worker, v: Worker)
    requires w.main.claimed && v.main.claimed && TimesKept(c, now, w) && Stage(v.main.pc) >= 7
    requires v.times == w.times && v.context == w.context && v.monitor == w.monitor && v.rsync == w.rsync
    ensures TimesKept(c, now, v)
  {}

  lemma MainReturnTimes(c: Config, now: nat, w: Worker, ok: bool)
    requires AfterClaim(c, w) && TimesKept(c, now, w) && Enabled(w, MainReturns(ok))
    ensures TimesKept(c, now, MainReturn(c, w, now, ok))
  {
    LateMainTimes(c, now, w, MainReturn(c, w, now, ok));
  }

  lemma ClaimReturnTimes(c: Config, now: nat, w: Worker, ok: bool)
    requires BeforeClaim(w) && HasClaim(w) && TimesKept(c, now, w) && Enabled(w, MainReturns(ok))
    ensures HasClaim(MainReturn(c, w, now, ok)) ==> TimesKept(c, now, MainReturn(c, w, now, ok))
  {}

  lemma LaunchedTimes(c: Config, now: nat, w: Worker, ok: bool, message: string)
    requires AfterClaim(c, w) && TimesKept(c, now, w) && w.main.pc == Launching
    ensures TimesKept(c, now, Launched(w, now, ok, message))
  {}

  lemma MonitorMoveTimes(c: Config, now: nat, w: Worker)
    requires AfterClaim(c, w) && TimesKept(c, now, w) && Enabled(w, MonitorMoves)
    ensures TimesKept(c, now, MonitorMove(w, now))
  {}

  lemma MonitorTickTimes(c: Config, now: nat, w: Worker)
    requires AfterClaim(c, w) && TimesKept(c, now, w) && w.monitor.pc == Selecting
    ensures TimesKept(c, now, MonitorTick(c, w, now))
  {}

  lemma MonitorReturnTimes(c: Config, now: nat, w: Worker, ok: bool, message: string)
    requires AfterClaim(c, w) && TimesKept(c, now, w) && Enabled(w, MonitorReturns(ok, message))
    ensures TimesKept(c, now, MonitorReturn(c, w, now, ok, message))
  {}

  lemma ParentCancelTimes(c: Config, now: nat, w: Worker)
    requires AfterClaim(c, w) && TimesKept(c, now, w)
    ensures TimesKept(c, now, ParentCancel(w, now))
  {}

  lemma RsyncMoveTimes(c: Config, now: nat, w: Worker, m: Move)
    requires AfterClaim(c, w) && TimesKept(c, now, w) && Enabled(w, m)
    requires m.Prints? || m.Exits? || m.WaiterMoves? || m.WatcherSeesDone? || m.WatcherSeesCancel?
          || m.WatcherRechecks? || m.TimerFires?
    ensures TimesKept(c, now, After(c, w, m, now))
  {}

  lemma MoveTimes(c: Config, now: nat, w: Worker, m: Move)
    requires WorkerKept(c, w) && HasClaim(w) && TimesKept(c, now, w) && Enabled(w, m)
    ensures HasClaim(After(c, w, m, now)) ==> TimesKept(c, now, After(c, w, m, now))
  {
    if !w.main.claimed {
      if m.MainReturns? { ClaimReturnTimes(c, now, w, m.ok); }
    } else {
      match m
      case MainMoves => MainTimes(c, now, w);
      case MainReturns(ok) => MainReturnTimes(c, now, w, ok);
      case Launch(ok, message) => LaunchedTimes(c, now, w, ok, message);
      case MonitorMoves => MonitorMoveTimes(c, now, w);
      case MonitorSeesCancel =>
      case MonitorTicks => MonitorTickTimes(c, now, w);
      case MonitorReturns(ok, message) => MonitorReturnTimes(c, now, w, ok, message);
      case ParentCancels => ParentCancelTimes(c, now, w);
      case _ => RsyncMoveTimes(c, now, w, m);
    }
  }

  lemma AnswerTimes(c: Config, now: nat, w: Worker, toMonitor: bool, reply: Result<Record, ScriptError>)
    requires WorkerKept(c, w) && Busy(w, toMonitor) && (HasClaim(w) ==> TimesKept(c, now, w))
    ensures HasClaim(Answered(c, w, toMonitor, reply, now)) ==> TimesKept(c, now, Answered(c, w, toMonitor, reply, now))
  {}

  lemma PassTimes(c: Config, now: nat, later: nat, w: Worker)
    requires WorkerKept(c, w) && HasClaim(w) && TimesKept(c, now, w) && now <= later && WithinDeadlines(c, w, later)
    ensures TimesKept(c, later, w)
  {}

  /****** Leases *******/

  /** The record is there, running, with at least the lease of the last renewal. */
  predicate Leased(h: Hash, w: Worker) {
    && w.id in h
    && h[w.id].state == Running
    && h[w.id].expires >= Seconds(w.times.lease) + LEASE_SECONDS
  }

  predicate Timely(c: Config, s: Fleet, w: Worker) {
    HasClaim(w) ==> TimesKept(c, s.now, w) && (Matters(w) ==> Leased(s.hash, w))
  }

  ghost predicate AllTimely(c: Config, s: Fleet) {
    forall k :: k in s.workers ==> Timely(c, s, s.workers[k])
  }

  predicate SafeConfig(c: Config) {
    c.timed && DeadWithin(c) <= SURE_LEASE
  }

  /** While rsync matters, the lease has not run out: this is where 119 seconds are enough. */
  lemma LeaseNotExpired(c: Config, s: Fleet, w: Worker)
    requires SafeConfig(c) && WorkerKept(c, w) && HasClaim(w) && Timely(c, s, w) && Matters(w)
    ensures Live(s.hash[w.id], Seconds(s.now))
  {
    MattersBounded(c, s.now, w);
  }

  lemma TolerableLease(c: Config, s: Fleet, s': Fleet, w: Worker)
    requires SafeConfig(c) && WorkerKept(c, w) && Timely(c, s, w) && s.now == s'.now
    requires HasClaim(w) ==> Tolerable(Seconds(s.now), s.hash, s'.hash, w.id)
    ensures Timely(c, s', w)
  {
    if HasClaim(w) && Matters(w) { LeaseNotExpired(c, s, w); }
  }

  /** Nothing a worker does makes rsync matter that did not matter before, or moves its lease. */
  predicate NoNewMatter(w: Worker, v: Worker) {
    HasClaim(v) ==> HasClaim(w) && (Matters(v) ==> Matters(w)) && v.times.lease == w.times.lease
  }

  lemma MainMatters(c: Config, w: Worker, now: nat)
    requires AfterClaim(c, w) && MainCanMove(w)
    ensures NoNewMatter(w, MainMove(c, w, now))
  {}

  lemma MainReturnMatters(c: Config, w: Worker, ok: bool, now: nat)
    requires AfterClaim(c, w) && Enabled(w, MainReturns(ok))
    ensures NoNewMatter(w, MainReturn(c, w, now, ok))
  {}

  lemma MonitorMatters(c: Config, w: Worker, m: Move, now: nat)
    requires AfterClaim(c, w) && Enabled(w, m)
    requires m.MonitorMoves? || m.MonitorSeesCancel? || m.MonitorTicks? || m.MonitorReturns? || m.ParentCancels?
    ensures NoNewMatter(w, After(c, w, m, now))
  {}

  lemma RsyncMatters(c: Config, w: Worker, m: Move, now: nat)
    requires AfterClaim(c, w) && Enabled(w, m)
    requires m.Prints? || m.Exits? || m.WaiterMoves? || m.WatcherSeesDone? || m.WatcherSeesCancel?
          || m.WatcherRechecks? || m.TimerFires? || m.Launch?
    ensures NoNewMatter(w, After(c, w, m, now))
  {}

  lemma UnclaimedMatters(c: Config, w: Worker, m: Move, now: nat)
    requires BeforeClaim(w) && Enabled(w, m)
    ensures NoNewMatter(w, After(c, w, m, now))
  {}

  lemma MattersMove(c: Config, w: Worker, m: Move, now: nat)
    requires WorkerKept(c, w) && Enabled(w, m)
    ensures NoNewMatter(w, After(c, w, m, now))
  {
    if !w.main.claimed {
      UnclaimedMatters(c, w, m, now);
    } else {
      match m
      case MainMoves => MainMatters(c, w, now);
      case MainReturns(ok) => MainReturnMatters(c, w, ok, now);
      case MonitorMoves => MonitorMatters(c, w, m, now);
      case MonitorSeesCancel => MonitorMatters(c, w, m, now);
      case MonitorTicks => MonitorMatters(c, w, m, now);
      case MonitorReturns(_, _) => MonitorMatters(c, w, m, now);
      case ParentCancels => MonitorMatters(c, w, m, now);
      case _ => RsyncMatters(c, w, m, now);
    }
  }

  lemma MoveTimely(c: Config, s: Fleet, w: Worker, m: Move)
    requires WorkerKept(c, w) && Timely(c, s, w) && Enabled(w, m)
    ensures Timely(c, s, After(c, w, m, s.now))
  {
    MattersMove(c, w, m, s.now);
    if HasClaim(w) {
      MoveTimes(c, s.now, w, m);
    }
  }

  lemma AnswerLeases(c: Config, s: Fleet, h': Hash, w: Worker, toMonitor: bool)
    requires SafeConfig(c) && WorkerFits(c, s, w) && Timely(c, s, w) && Busy(w, toMonitor)
    requires h' == AfterUpdate(Seconds(s.now), s.hash, w.id, CallOf(w, toMonitor).op)
    ensures
      var reply := Updated(Seconds(s.now), s.hash, w.id, CallOf(w, toMonitor).op);
      var v := Answered(c, w, toMonitor, reply, s.now);
      HasClaim(v) && Matters(v) ==> Leased(h', v)
  {
    if HasClaim(w) && Matters(w) { LeaseNotExpired(c, s, w); }
  }

  lemma AnswerTimely(c: Config, s: Fleet, s': Fleet, w: Worker, toMonitor: bool)
    requires SafeConfig(c) && WorkerFits(c, s, w) && Timely(c, s, w) && Busy(w, toMonitor) && s.now == s'.now
    requires s'.hash == AfterUpdate(Seconds(s.now), s.hash, w.id, CallOf(w, toMonitor).op)
    ensures
      var reply := Updated(Seconds(s.now), s.hash, w.id, CallOf(w, toMonitor).op);
      Timely(c, s', Answered(c, w, toMonitor, reply, s.now))
  {
    AnswerTimes(c, s.now, w, toMonitor, Updated(Seconds(s.now), s.hash, w.id, CallOf(w, toMonitor).op));
    AnswerLeases(c, s, s'.hash, w, toMonitor);
  }

  lemma LateTimely(c: Config, s: Fleet, s': Fleet, w: Worker, op: Op)
    requires SafeConfig(c) && WorkerFits(c, s, w) && Timely(c, s, w) && op in w.late && s.now == s'.now
    requires s'.hash == AfterUpdate(Seconds(s.now), s.hash, w.id, op)
    ensures Timely(c, s', w)
  {
    if HasClaim(w) && Matters(w) { LeaseNotExpired(c, s, w); }
  }

  lemma PassTimely(c: Config, s: Fleet, d: nat, w: Worker)
    requires WorkerKept(c, w) && Timely(c, s, w) && WithinDeadlines(c, w, s.now + d)
    ensures Timely(c, s.(now := s.now + d), w)
  {
    if HasClaim(w) { PassTimes(c, s.now, s.now + d, w); }
  }

  /****** Runs *******/

  lemma WebTimely(c: Config, s: Fleet, a: Action, s': Fleet)
    requires SafeConfig(c) && FleetKept(c, s) && AllTimely(c, s) && Next(c, s, a, s')
    requires a.Reserves? || a.Stops? || a.Lists? || a.LaunchFails? || a.RemoverUpdates?
    ensures AllTimely(c, s')
  {
    forall k | k in s'.workers ensures Timely(c, s', s'.workers[k]) {
      var w := s.workers[k];
      assert WorkerFits(c, s, w) && Timely(c, s, w);
      if HasClaim(w) { WebTolerable(c, s, a, s', w); }
      TolerableLease(c, s, s', w);
    }
  }

  lemma WorkerTimely(c: Config, s: Fleet, a: Action, s': Fleet)
    requires SafeConfig(c) && FleetKept(c, s) && AllTimely(c, s) && Next(c, s, a, s')
    requires a.Answers? || a.AnswersLate?
    ensures AllTimely(c, s')
  {
    var op := if a.Answers? then CallOf(s.workers[a.worker], a.toMonitor).op else a.op;
    OthersTolerate(c, s, a.worker, op);
    forall k | k in s'.workers ensures Timely(c, s', s'.workers[k]) {
      var w := s.workers[k];
      assert WorkerFits(c, s, w) && Timely(c, s, w);
      if k != a.worker {
        TolerableLease(c, s, s', w);
      } else if a.Answers? {
        AnswerTimely(c, s, s', w, a.toMonitor);
      } else {
        LateTimely(c, s, s', w, a.op);
      }
    }
  }

  lemma AllPassTimely(c: Config, s: Fleet, d: nat, s': Fleet)
    requires c.timed && FleetKept(c, s) && AllTimely(c, s) && Next(c, s, Pass(d), s')
    ensures AllTimely(c, s')
  {
    forall k | k in s'.workers ensures Timely(c, s', s'.workers[k]) {
      assert WorkerFits(c, s, s.workers[k]) && Timely(c, s, s.workers[k]);
      PassTimely(c, s, d, s.workers[k]);
    }
  }

  /** Actions that leave the clock and the hash alone. */
  lemma ActorTimely(c: Config, s: Fleet, s': Fleet, k: nat)
    requires AllTimely(c, s) && s'.now == s.now && s'.hash == s.hash
    requires k in s'.workers && Timely(c, s', s'.workers[k])
    requires forall j :: j in s'.workers && j != k ==> j in s.workers && s'.workers[j] == s.workers[j]
    ensures AllTimely(c, s')
  {
    forall j | j in s'.workers && j != k ensures Timely(c, s', s'.workers[j]) {
      assert Timely(c, s, s.workers[j]);
    }
  }

  lemma NextTimely(c: Config, s: Fleet, a: Action, s': Fleet)
    requires SafeConfig(c) && FleetKept(c, s) && AllTimely(c, s) && Next(c, s, a, s')
    ensures AllTimely(c, s')
  {
    match a
    case Pass(d) => AllPassTimely(c, s, d, s');
    case Moves(k, m) =>
      assert WorkerFits(c, s, s.workers[k]) && Timely(c, s, s.workers[k]);
      MoveTimely(c, s, s.workers[k], m);
      ActorTimely(c, s, s', k);
    case Spawns(k, id) => ActorTimely(c, s, s', k);
    case Answers(_, _) => WorkerTimely(c, s, a, s');
    case AnswersLate(_, _) => WorkerTimely(c, s, a, s');
    case _ => WebTimely(c, s, a, s');
  }

  lemma {:induction false} RunTimely(c: Config, ss: seq<Fleet>, actions: seq<Action>, i: nat)
    requires SafeConfig(c) && IsFleetRun(c, ss, actions) && i < |ss|
    ensures AllTimely(c, ss[i])
  {
    if i > 0 {
      RunTimely(c, ss, actions, i - 1);
      RunKeeps(c, ss, actions, i - 1);
      assert StepAt(c, ss, actions, i - 1);
      NextTimely(c, ss[i - 1], actions[i - 1], ss[i]);
    }
  }

  predicate RsyncAlive(s: Fleet, k: nat) {
    k in s.workers && s.workers[k].rsync.process == Alive
  }

  /** In every state of every timed run, a worker whose rsync is alive holds an active, unexpired
      record for the directory rsync works on. */
  lemma RsyncIsAlwaysLeased(c: Config, ss: seq<Fleet>, actions: seq<Action>, i: nat, k: nat)
    requires SafeConfig(c) && IsFleetRun(c, ss, actions) && i < |ss| && RsyncAlive(ss[i], k)
    ensures
      var w := ss[i].workers[k];
      && HasClaim(w)
      && w.id in ss[i].hash && Live(ss[i].hash[w.id], Seconds(ss[i].now)) && ss[i].hash[w.id].path == w.path
  {
    FitsAt(c, ss, actions, i, k);
    RunTimely(c, ss, actions, i);
    LeaseNotExpired(c, ss[i], ss[i].workers[k]);
  }

  /** No live reservation, be it another download or a removal, overlaps the directory of a running
      rsync. */
  lemma RsyncExcludesOtherReservations(c: Config, ss: seq<Fleet>, actions: seq<Action>, i: nat, k: nat, id: string)
    requires SafeConfig(c) && IsFleetRun(c, ss, actions) && i < |ss| && RsyncAlive(ss[i], k)
    requires id in ss[i].hash && id != ss[i].workers[k].id && Live(ss[i].hash[id], Seconds(ss[i].now))
    ensures !LuaOverlap(ss[i].workers[k].path, ss[i].hash[id].path)
  {
    RsyncIsAlwaysLeased(c, ss, actions, i, k);
    RunKeeps(c, ss, actions, i);
  }

  /** No two rsync processes ever work on overlapping directories. */
  lemma RsyncsNeverOverlap(c: Config, ss: seq<Fleet>, actions: seq<Action>, i: nat, j: nat, k: nat)
    requires SafeConfig(c) && IsFleetRun(c, ss, actions) && i < |ss| && j != k
    requires RsyncAlive(ss[i], j) && RsyncAlive(ss[i], k)
    ensures !LuaOverlap(ss[i].workers[j].path, ss[i].workers[k].path)
  {
    RsyncIsAlwaysLeased(c, ss, actions, i, j);
    RsyncIsAlwaysLeased(c, ss, actions, i, k);
    RunKeeps(c, ss, actions, i);
  }

  /****** Directories *******/

  ghost predicate CleanReservations(actions: seq<Action>) {
    forall i :: 0 <= i < |actions| && actions[i].Reserves? ==> CleanPath(actions[i].path)
  }

  lemma NextKeepsPaths(c: Config, s: Fleet, a: Action, s': Fleet, k: string)
    requires Next(c, s, a, s') && !a.Reserves? && k in s'.hash
    ensures k in s.hash && s'.hash[k].path == s.hash[k].path
  {}

  lemma NextKeepsCleanPaths(c: Config, s: Fleet, a: Action, s': Fleet)
    requires Next(c, s, a, s') && HoldsCleanPaths(s.hash) && (a.Reserves? ==> CleanPath(a.path))
    ensures HoldsCleanPaths(s'.hash)
  {
    if !a.Reserves? {
      forall k | k in s'.hash ensures CleanPath(s'.hash[k].path) {
        NextKeepsPaths(c, s, a, s', k);
      }
    }
  }

  lemma {:induction false} FleetKeepsCleanPaths(c: Config, ss: seq<Fleet>, actions: seq<Action>, i: nat)
    requires IsFleetRun(c, ss, actions) && CleanReservations(actions) && i < |ss|
    ensures HoldsCleanPaths(ss[i].hash)
  {
    if i > 0 {
      FleetKeepsCleanPaths(c, ss, actions, i - 1);
      assert StepAt(c, ss, actions, i - 1);
      NextKeepsCleanPaths(c, ss[i - 1], actions[i - 1], ss[i]);
    }
  }

  /** When the servers reserve clean absolute paths, no directory ever lies below the paths of two
      running rsync processes. */
  lemma NoDirectoryUnderTwoRsyncs(c: Config, ss: seq<Fleet>, actions: seq<Action>, i: nat, j: nat, k: nat)
    requires SafeConfig(c) && IsFleetRun(c, ss, actions) && CleanReservations(actions) && i < |ss| && j != k
    requires RsyncAlive(ss[i], j) && RsyncAlive(ss[i], k)
    ensures !SubtreesMeet(Names(ss[i].workers[j].path), Names(ss[i].workers[k].path))
  {
    RsyncIsAlwaysLeased(c, ss, actions, i, j);
    RsyncIsAlwaysLeased(c, ss, actions, i, k);
    FleetKeepsCleanPaths(c, ss, actions, i);
    RsyncsNeverOverlap(c, ss, actions, i, j, k);
    OverlapIsMeetingSubtrees(ss[i].workers[j].path, ss[i].workers[k].path);
  }
}
