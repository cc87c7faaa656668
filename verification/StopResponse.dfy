/** With deadlines on: how soon a stop request reaches rsync. */
module StopResponse {
  import opened SyncStore
  import opened SyncWorker
  import opened WorkerInvariants
  import opened Fleet
  import opened FleetInvariants
  import opened FleetRuns
  import opened FleetTheorems
  import opened LeaseSafety
  import opened WorkerReports

  /****** Deadlines hold in every timed run *******/

  lemma PassIsWithinDeadlines(c: Config, s: Fleet, a: Action, s': Fleet, k: nat)
    requires c.timed && Next(c, s, a, s') && k in s.workers && s.now < s'.now
    ensures a.Pass? && WithinDeadlines(c, s.workers[k], s'.now)
  {}

  lemma ClockMoves(c: Config, s: Fleet, a: Action, s': Fleet)
    requires Next(c, s, a, s')
    ensures s.now <= s'.now && (s.now < s'.now ==> a.Pass? && s'.hash == s.hash)
  {}

  lemma ActTimes(c: Config, s: Fleet, a: Action, s': Fleet, k: nat)
    requires k in s.workers && Acts(c, s, a, s', k) && WorkerKept(c, s.workers[k]) && s.now == s'.now
    requires HasClaim(s.workers[k]) ==> TimesKept(c, s.now, s.workers[k])
    ensures HasClaim(s'.workers[k]) ==> TimesKept(c, s'.now, s'.workers[k])
  {
    var w := s.workers[k];
    if a.Moves? && a.worker == k {
      MattersMove(c, w, a.move, s.now);
      if HasClaim(w) { MoveTimes(c, s.now, w, a.move); }
    } else if a.Answers? && a.worker == k {
      AnswerTimes(c, s.now, w, a.toMonitor, Updated(Seconds(s.now), s.hash, w.id, CallOf(w, a.toMonitor).op));
    }
  }

  /** In every timed run every worker meets its deadlines, whatever the slack. */
  lemma {:induction false} RunTimes(c: Config, ss: seq<Fleet>, actions: seq<Action>, i: nat, k: nat)
    requires c.timed && IsFleetRun(c, ss, actions) && i < |ss| && k in ss[i].workers && HasClaim(ss[i].workers[k])
    ensures TimesKept(c, ss[i].now, ss[i].workers[k])
  {
    if i > 0 {
      var s, a, s' := ss[i - 1], actions[i - 1], ss[i];
      assert StepAt(c, ss, actions, i - 1);
      if k !in s.workers {
        NewcomersAreNew(c, s, a, s', k);
      } else {
        ActsAt(c, ss, actions, i - 1, k);
        if HasClaim(s.workers[k]) { RunTimes(c, ss, actions, i - 1, k); }
        ClockMoves(c, s, a, s');
        if s.now < s'.now {
          PassIsWithinDeadlines(c, s, a, s', k);
          if HasClaim(s.workers[k]) { PassTimes(c, s.now, s'.now, s.workers[k]); }
        } else {
          ActTimes(c, s, a, s', k);
        }
      }
    }
  }

  /****** From the stop to the cancellation *******/

  predicate ToldOfStop(call: Call) {
    Succeeded(call) ==> call.reply.value.value.stop
  }

  predicate MonitorStopTimes(c: Config, stop: nat, mon: Monitor, due: nat) {
    && (mon.pc == Selecting ==> due <= stop + CALL + TICK + 2 * c.slack)
    && (mon.pc == Reporting || mon.pc.CancelFor? ==> due <= stop + ReactWithin(c))
    && (mon.pc == Reporting && !ToldOfStop(mon.call) ==> due <= stop + CALL + c.slack)
  }

  /** What a stop set at time `stop` means for a worker that did not learn of it with its claim. */
  predicate StopTimes(c: Config, stop: nat, w: Worker) {
    && (w.main.pc == Claiming && !ToldOfStop(w.main.call) ==> w.times.claimDue <= stop + CALL + c.slack)
    && (w.main.claimed && !w.main.stoppedAtClaim ==>
          && (!w.context.cancelled ==> MonitorStopTimes(c, stop, w.monitor, w.times.monitorDue))
          && (w.context.cancelled && Stage(w.main.pc) <= 6 ==> w.times.cancelAt <= stop + ReactWithin(c)))
  }

  lemma StopTimesBegin(c: Config, w: Worker, now: nat)
    requires WorkerKept(c, w) && (HasClaim(w) ==> TimesKept(c, now, w))
    ensures StopTimes(c, now, w)
  {}

  lemma StopMainMove(c: Config, stop: nat, w: Worker, now: nat)
    requires AfterClaim(c, w) && StopTimes(c, stop, w) && MainCanMove(w)
    ensures StopTimes(c, stop, MainMove(c, w, now))
  {}

  lemma StopMainReturn(c: Config, stop: nat, w: Worker, now: nat, ok: bool)
    requires AfterClaim(c, w) && StopTimes(c, stop, w) && Enabled(w, MainReturns(ok))
    ensures StopTimes(c, stop, MainReturn(c, w, now, ok))
  {}

  lemma StopMonitorMove(c: Config, stop: nat, w: Worker, m: Move, now: nat)
    requires AfterClaim(c, w) && StopTimes(c, stop, w) && TimesKept(c, now, w) && Enabled(w, m)
    requires m.MonitorMoves? || m.MonitorSeesCancel? || m.MonitorTicks? || m.MonitorReturns? || m.ParentCancels?
    ensures StopTimes(c, stop, After(c, w, m, now))
  {}

  lemma StopRsyncMove(c: Config, stop: nat, w: Worker, m: Move, now: nat)
    requires AfterClaim(c, w) && StopTimes(c, stop, w) && Enabled(w, m)
    requires m.Prints? || m.Exits? || m.WaiterMoves? || m.WatcherSeesDone? || m.WatcherSeesCancel?
          || m.WatcherRechecks? || m.TimerFires? || m.Launch?
    ensures StopTimes(c, stop, After(c, w, m, now))
  {}

  lemma StopUnclaimedMove(c: Config, stop: nat, w: Worker, m: Move, now: nat)
    requires BeforeClaim(w) && StopTimes(c, stop, w) && Enabled(w, m) && (HasClaim(w) ==> TimesKept(c, now, w))
    ensures StopTimes(c, stop, After(c, w, m, now))
  {}

  lemma StopMove(c: Config, stop: nat, w: Worker, m: Move, now: nat)
    requires WorkerKept(c, w) && StopTimes(c, stop, w) && Enabled(w, m) && (HasClaim(w) ==> TimesKept(c, now, w))
    ensures StopTimes(c, stop, After(c, w, m, now))
  {
    if !w.main.claimed {
      StopUnclaimedMove(c, stop, w, m, now);
    } else {
      match m
      case MainMoves => StopMainMove(c, stop, w, now);
      case MainReturns(ok) => StopMainReturn(c, stop, w, now, ok);
      case MonitorMoves => StopMonitorMove(c, stop, w, m, now);
      case MonitorSeesCancel => StopMonitorMove(c, stop, w, m, now);
      case MonitorTicks => StopMonitorMove(c, stop, w, m, now);
      case MonitorReturns(_, _) => StopMonitorMove(c, stop, w, m, now);
      case ParentCancels => StopMonitorMove(c, stop, w, m, now);
      case _ => StopRsyncMove(c, stop, w, m, now);
    }
  }

  lemma StopAnswer(c: Config, stop: nat, w: Worker, toMonitor: bool, h: Hash, now: int, ms: nat)
    requires WorkerKept(c, w) && StopTimes(c, stop, w) && Busy(w, toMonitor) && (w.id in h ==> h[w.id].stop)
    ensures StopTimes(c, stop, Answered(c, w, toMonitor, Updated(now, h, w.id, CallOf(w, toMonitor).op), ms))
  {}

  lemma StopAct(c: Config, s: Fleet, a: Action, s': Fleet, k: nat, stop: nat)
    requires k in s.workers && Acts(c, s, a, s', k) && WorkerKept(c, s.workers[k]) && StopTimes(c, stop, s.workers[k])
    requires HasClaim(s.workers[k]) ==> TimesKept(c, s.now, s.workers[k])
    requires s.workers[k].id in s.hash ==> s.hash[s.workers[k].id].stop
    ensures StopTimes(c, stop, s'.workers[k])
  {
    if a.Moves? && a.worker == k {
      StopMove(c, stop, s.workers[k], a.move, s.now);
    } else if a.Answers? && a.worker == k {
      StopAnswer(c, stop, s.workers[k], a.toMonitor, s.hash, Seconds(s.now), s.now);
    }
  }

  ghost predicate Stopping(s: Fleet, id: string) {
    id in s.syncIds && (id in s.hash ==> s.hash[id].stop)
  }

  lemma {:induction false} StillStopping(c: Config, ss: seq<Fleet>, actions: seq<Action>, i: nat, j: nat, id: string)
    requires IsFleetRun(c, ss, actions) && i <= j < |ss| && Stopping(ss[i], id)
    ensures Stopping(ss[j], id)
    decreases j - i
  {
    if i < j {
      StillStopping(c, ss, actions, i, j - 1, id);
      assert StepAt(c, ss, actions, j - 1);
      StopHoldsInHash(c, ss[j - 1], actions[j - 1], ss[j], id);
    }
  }

  lemma StopTimesOne(c: Config, ss: seq<Fleet>, actions: seq<Action>, i: nat, k: nat, stop: nat)
    requires c.timed && IsFleetRun(c, ss, actions) && i < |actions| && k in ss[i].workers
    requires Stopping(ss[i], ss[i].workers[k].id) && StopTimes(c, stop, ss[i].workers[k])
    ensures k in ss[i + 1].workers && ss[i + 1].workers[k].id == ss[i].workers[k].id
    ensures StopTimes(c, stop, ss[i + 1].workers[k])
  {
    ActsAt(c, ss, actions, i, k);
    if HasClaim(ss[i].workers[k]) { RunTimes(c, ss, actions, i, k); }
    SameId(c, ss[i], actions[i], ss[i + 1], k);
    StopAct(c, ss[i], actions[i], ss[i + 1], k, stop);
  }

  lemma {:induction false} StopTimesLater(c: Config, ss: seq<Fleet>, actions: seq<Action>, i: nat, j: nat, k: nat)
    requires c.timed && IsFleetRun(c, ss, actions) && i <= j < |ss| && k in ss[i].workers
    requires Stopping(ss[i], ss[i].workers[k].id)
    ensures k in ss[j].workers && ss[j].workers[k].id == ss[i].workers[k].id
    ensures StopTimes(c, ss[i].now, ss[j].workers[k])
    decreases j - i
  {
    if i == j {
      FitsAt(c, ss, actions, i, k);
      if HasClaim(ss[i].workers[k]) { RunTimes(c, ss, actions, i, k); }
      StopTimesBegin(c, ss[i].workers[k], ss[i].now);
    } else {
      StopTimesLater(c, ss, actions, i, j - 1, k);
      StillStopping(c, ss, actions, i, j - 1, ss[i].workers[k].id);
      StopTimesOne(c, ss, actions, j - 1, k, ss[i].now);
    }
  }

  /** The record of a download that has not ended. */
  predicate Unfinished(r: Record) {
    r.state == Queued || r.state == State.Running
  }

  lemma StoppedRsyncBound(c: Config, stop: nat, now: nat, w: Worker)
    requires WorkerKept(c, w) && TimesKept(c, now, w) && StopTimes(c, stop, w) && w.rsync.process == Alive
    ensures now <= stop + DeadWithin(c)
  {}

  /** Whatever the slack: once the stop flag is on a worker's record, its rsync is dead after at most
      two calls, a tick, the launch window, the grace before the kill and five times the slack. */
  lemma StopEndsRsync(c: Config, ss: seq<Fleet>, actions: seq<Action>, i: nat, j: nat, k: nat)
    requires c.timed && IsFleetRun(c, ss, actions) && i <= j < |ss| && k in ss[i].workers
    requires
      var id := ss[i].workers[k].id;
      id in ss[i].hash && ss[i].hash[id].stop && Unfinished(ss[i].hash[id])
    requires ss[j].now > ss[i].now + CALL + TICK + CALL + c.launch + GRACE + 5 * c.slack
    ensures k in ss[j].workers && ss[j].workers[k].rsync.process != Alive
  {
    RunKeeps(c, ss, actions, i);
    StopTimesLater(c, ss, actions, i, j, k);
    FitsAt(c, ss, actions, j, k);
    if ss[j].workers[k].rsync.process == Alive {
      RunTimes(c, ss, actions, j, k);
      StoppedRsyncBound(c, ss[i].now, ss[j].now, ss[j].workers[k]);
      assert false;
    }
  }

  /** A user who stops the path of a running or waiting download has its rsync dead within that time. */
  lemma UserStopEndsRsync(c: Config, ss: seq<Fleet>, actions: seq<Action>, i: nat, j: nat, k: nat)
    requires c.timed && IsFleetRun(c, ss, actions) && i < |actions| && i < j < |ss| && k in ss[i].workers
    requires
      var id := ss[i].workers[k].id;
      && id in ss[i].hash && Unfinished(ss[i].hash[id]) && ss[i].hash[id].expires > Seconds(ss[i].now)
      && actions[i] == Stops(ss[i].hash[id].path)
    requires ss[j].now > ss[i].now + CALL + TICK + CALL + c.launch + GRACE + 5 * c.slack
    ensures k in ss[j].workers && ss[j].workers[k].rsync.process != Alive
  {
    assert StepAt(c, ss, actions, i);
    var id := ss[i].workers[k].id;
    StopSetsFlag(c, ss[i], ss[i].hash[id].path, ss[i + 1], id);
    StopEndsRsync(c, ss, actions, i + 1, j, k);
  }

  lemma StopCancels(c: Config, stop: nat, now: nat, w: Worker)
    requires WorkerKept(c, w) && TimesKept(c, now, w) && StopTimes(c, stop, w)
    requires w.main.claimed && now > stop + ReactWithin(c)
    ensures w.context.cancelled
  {}

  /** Whatever the slack: a worker that is still before its last look at the context two calls, a tick
      and three times the slack after the stop flag was set has its context cancelled; from then on
      its run is reported as "cancelled" if and only if no store call of it fails and rsync, if it is
      just being started, can be started. */
  lemma StopIsReported(c: Config, ss: seq<Fleet>, actions: seq<Action>, i: nat, n: nat, j: nat, k: nat)
    requires c.timed && IsFleetRun(c, ss, actions) && i <= n <= j < |ss| && k in ss[i].workers
    requires
      var id := ss[i].workers[k].id;
      id in ss[i].hash && ss[i].hash[id].stop && Unfinished(ss[i].hash[id])
    requires ss[n].now > ss[i].now + CALL + TICK + CALL + 3 * c.slack
    requires k in ss[n].workers && ss[n].workers[k].main.claimed && Stage(ss[n].workers[k].main.pc) <= 6
    requires HasReturned(ss[j], k)
    ensures CancelledInTime(ss[n], k)
    ensures Reports(ss[j], k, CancelledEvent) <==>
      !CallFailed(actions, j, k) && !StartFailed(actions, n, j, k)
  {
    RunKeeps(c, ss, actions, i);
    StopTimesLater(c, ss, actions, i, n, k);
    FitsAt(c, ss, actions, n, k);
    RunTimes(c, ss, actions, n, k);
    StopCancels(c, ss[i].now, ss[n].now, ss[n].workers[k]);
    ReportedAsCancelled(c, ss, actions, n, j, k);
  }
}
