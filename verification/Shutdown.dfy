/** A worker never gets stuck, and once its context is cancelled it ends after a bounded number of
    its own steps. */
module Shutdown {
  import opened Common
  import opened SyncWorker
  import opened WorkerInvariants
  import opened Fleet
  import opened FleetRuns

  /** The steps of the worker's own threads and of its process, other than printing. */
  predicate Counted(m: Move) {
    !m.ParentCancels? && !m.Prints?
  }

  /** A call begun on a cancelled context fails. */
  predicate DoomedCallsFail(w: Worker, m: Move) {
    m.MonitorReturns? && m.ok && w.monitor.call.Out? ==> !w.monitor.call.doomed
  }

  function MonitorRank(mon: Monitor): nat {
    match mon.pc
    case NoMonitor => 0
    case Sent => 0
    case Sending(_) => 1
    case CancelFor(_) => 2
    case Reporting => if mon.call.Out? && mon.call.doomed then 3 else 5
    case Selecting => 4
  }

  function RsyncRank(r: Rsync): nat {
    (if r.process == Alive then 1 else 0)
    + (match r.waiter case Waiting => 2 case Closed => 1 case _ => 0)
    + (match r.watcher case Watching => 3 case Rechecking => 2 case Grace => 1 case _ => 0)
  }

  function Rank(w: Worker): nat {
    20 * (11 - Stage(w.main.pc)) + MonitorRank(w.monitor) + RsyncRank(w.rsync)
  }

  /** A worker that has not returned can always take a step: no send, receive or select of its
      threads waits for something that cannot come. */
  lemma NeverStuck(c: Config, w: Worker) returns (m: Move)
    requires WorkerKept(c, w) && w.main.pc != Returned
    ensures Enabled(w, m) && Counted(m) && DoomedCallsFail(w, m)
  {
    match w.main.pc
    case Claiming => m := MainReturns(false);
    case Launching => m := Launch(true, "");
    case AwaitResult =>
      if w.rsync.waitResult.Some? {
        m := MainMoves;
      } else if w.rsync.process == Alive {
        m := Exits(false);
      } else {
        m := WaiterMoves;
      }
    case AwaitWatcher =>
      if w.rsync.watcher == Quit {
        m := MainMoves;
      } else if w.rsync.watcher == Rechecking {
        m := WatcherRechecks;
      } else {
        m := WatcherSeesDone;
      }
    case AwaitMonitor =>
      if w.monitor.done.Some? {
        m := MainMoves;
      } else if w.monitor.pc == Selecting {
        m := MonitorSeesCancel;
      } else if w.monitor.pc == Reporting {
        m := MonitorReturns(false, "");
      } else {
        m := MonitorMoves;
      }
    case SavingProgress => m := MainReturns(false);
    case Finishing => m := MainReturns(false);
    case _ => m := MainMoves;
  }

  lemma ChannelsAreSound(c: Config, w: Worker)
    requires WorkerKept(c, w)
    ensures w.monitor.sends <= 1 && (w.monitor.pc.Sending? ==> w.monitor.done == None)
    ensures w.main.claimed && w.main.pc == Returned ==>
      && w.monitor.pc == Sent && w.monitor.sends == 1
      && (w.trace.launches > 0 ==> w.rsync.waiter == WaiterDone && w.rsync.watcher == Quit)
  {}

  /** In every state of every run a worker that has not returned can step; the monitor sends at most
      once and never on a full channel; when the worker has returned, its monitor has sent exactly
      once and the goroutines around rsync are over. */
  lemma NoDeadlock(c: Config, ss: seq<Fleet>, actions: seq<Action>, i: nat, k: nat)
    requires IsFleetRun(c, ss, actions) && i < |ss| && k in ss[i].workers
    ensures
      var w := ss[i].workers[k];
      && (w.main.pc != Returned ==> exists m :: Counted(m) && Enabled(w, m))
      && w.monitor.sends <= 1
      && (w.monitor.pc.Sending? ==> w.monitor.done == None)
      && (w.main.claimed && w.main.pc == Returned ==>
            && w.monitor.pc == Sent && w.monitor.sends == 1
            && (w.trace.launches > 0 ==> w.rsync.waiter == WaiterDone && w.rsync.watcher == Quit))
  {
    FitsAt(c, ss, actions, i, k);
    var w := ss[i].workers[k];
    ChannelsAreSound(c, w);
    if w.main.pc != Returned {
      var m := NeverStuck(c, w);
    }
  }

  /** The watcher signals the process group exactly when the context is cancelled and the wait for rsync has
      not come back; a signal never goes to a process that is known to be over. */
  lemma SignalsOnlyUnfinishedRsync(c: Config, ss: seq<Fleet>, actions: seq<Action>, i: nat, k: nat)
    requires IsFleetRun(c, ss, actions) && i < |actions| && actions[i] == Moves(k, WatcherRechecks)
    ensures k in ss[i].workers && k in ss[i + 1].workers && ss[i].workers[k].context.cancelled
    ensures ss[i + 1].workers[k].rsync.watcher == Grace <==> ss[i].workers[k].rsync.waiter == Waiting
    ensures ss[i + 1].workers[k].rsync.watcher != Grace ==> ss[i + 1].workers[k].rsync.watcher == Quit
  {
    assert StepAt(c, ss, actions, i);
    ActsAt(c, ss, actions, i, k);
    RecheckMeans(c, ss[i].workers[k], ss[i].now);
  }

  lemma RecheckMeans(c: Config, w: Worker, now: nat)
    requires WorkerKept(c, w) && w.rsync.watcher == Rechecking
    ensures w.context.cancelled
    ensures Recheck(w, now).rsync.watcher == if w.rsync.waiter == Waiting then Grace else Quit
  {}

  /****** After cancellation *******/

  lemma MainDescends(c: Config, w: Worker, now: nat)
    requires AfterClaim(c, w) && w.context.cancelled && MainCanMove(w)
    ensures Rank(MainMove(c, w, now)) < Rank(w) && MainMove(c, w, now).context.cancelled
  {}

  lemma ReturnDescends(c: Config, w: Worker, now: nat, ok: bool)
    requires AfterClaim(c, w) && w.context.cancelled && Enabled(w, MainReturns(ok))
    ensures Rank(MainReturn(c, w, now, ok)) < Rank(w) && MainReturn(c, w, now, ok).context.cancelled
  {
    if w.main.pc == SavingProgress {
      assert MainReturn(c, w, now, ok) == SaveReturn(w, ok);
    } else {
      assert MainReturn(c, w, now, ok) == FinishReturn(w, ok);
    }
  }

  lemma MonitorDescends(c: Config, w: Worker, m: Move, now: nat)
    requires AfterClaim(c, w) && w.context.cancelled && Enabled(w, m) && DoomedCallsFail(w, m)
    requires m.MonitorMoves? || m.MonitorSeesCancel? || m.MonitorTicks? || m.MonitorReturns?
    ensures Rank(After(c, w, m, now)) < Rank(w) && After(c, w, m, now).context.cancelled
  {}

  lemma RsyncDescends(c: Config, w: Worker, m: Move, now: nat)
    requires AfterClaim(c, w) && w.context.cancelled && Enabled(w, m)
    requires m.Launch? || m.Exits? || m.WaiterMoves? || m.WatcherSeesDone? || m.WatcherSeesCancel?
          || m.WatcherRechecks? || m.TimerFires?
    ensures Rank(After(c, w, m, now)) < Rank(w) && After(c, w, m, now).context.cancelled
  {}

  /** After cancellation every step of the worker's threads brings it closer to its end. */
  lemma EveryMoveDescends(c: Config, w: Worker, m: Move, now: nat)
    requires AfterClaim(c, w) && w.context.cancelled && Enabled(w, m) && Counted(m) && DoomedCallsFail(w, m)
    ensures Rank(After(c, w, m, now)) < Rank(w) && After(c, w, m, now).context.cancelled
  {
    match m
    case MainMoves => MainDescends(c, w, now);
    case MainReturns(ok) => ReturnDescends(c, w, now, ok);
    case MonitorMoves => MonitorDescends(c, w, m, now);
    case MonitorSeesCancel => MonitorDescends(c, w, m, now);
    case MonitorTicks => MonitorDescends(c, w, m, now);
    case MonitorReturns(_, _) => MonitorDescends(c, w, m, now);
    case _ => RsyncDescends(c, w, m, now);
  }

  predicate IsCounted(a: Action, k: nat) {
    a.Moves? && a.worker == k && Counted(a.move)
  }

  /** How many steps of worker `k` lie between two states of a run. */
  function Steps(actions: seq<Action>, i: nat, j: nat, k: nat): nat
    requires i <= j <= |actions|
    decreases j - i
  {
    if i == j then 0 else Steps(actions, i, j - 1, k) + if IsCounted(actions[j - 1], k) then 1 else 0
  }

  ghost predicate DoomedCallsFailIn(ss: seq<Fleet>, actions: seq<Action>, k: nat)
    requires |ss| == |actions| + 1
  {
    forall i :: 0 <= i < |actions| && actions[i].Moves? && actions[i].worker == k && k in ss[i].workers ==>
      DoomedCallsFail(ss[i].workers[k], actions[i].move)
  }

  lemma NextDescends(c: Config, s: Fleet, a: Action, s': Fleet, k: nat)
    requires k in s.workers && Acts(c, s, a, s', k) && AfterClaim(c, s.workers[k])
    requires s.workers[k].main.claimed && s.workers[k].context.cancelled
    requires a.Moves? && a.worker == k ==> DoomedCallsFail(s.workers[k], a.move)
    ensures k in s'.workers && s'.workers[k].main.claimed && s'.workers[k].context.cancelled
    ensures Rank(s'.workers[k]) + (if IsCounted(a, k) then 1 else 0) <= Rank(s.workers[k])
  {
    var w := s.workers[k];
    if a.Moves? && a.worker == k {
      if Counted(a.move) {
        EveryMoveDescends(c, w, a.move, s.now);
      }
    }
  }

  lemma {:induction false} StepsAreBounded(c: Config, ss: seq<Fleet>, actions: seq<Action>, i: nat, j: nat, k: nat)
    requires IsFleetRun(c, ss, actions) && i <= j < |ss| && DoomedCallsFailIn(ss, actions, k)
    requires k in ss[i].workers && ss[i].workers[k].main.claimed && ss[i].workers[k].context.cancelled
    ensures k in ss[j].workers && ss[j].workers[k].main.claimed && ss[j].workers[k].context.cancelled
    ensures Rank(ss[j].workers[k]) + Steps(actions, i, j, k) <= Rank(ss[i].workers[k])
    decreases j - i
  {
    if i < j {
      StepsAreBounded(c, ss, actions, i, j - 1, k);
      ActsAt(c, ss, actions, j - 1, k);
      NextDescends(c, ss[j - 1], actions[j - 1], ss[j], k);
    }
  }

  /** Whatever the rest of the installation does, a worker whose context is cancelled takes at most
      231 more steps; having taken all it can, it has returned. */
  lemma CancelledWorkerEnds(c: Config, ss: seq<Fleet>, actions: seq<Action>, i: nat, j: nat, k: nat)
    requires IsFleetRun(c, ss, actions) && i <= j < |ss| && DoomedCallsFailIn(ss, actions, k)
    requires k in ss[i].workers && ss[i].workers[k].main.claimed && ss[i].workers[k].context.cancelled
    ensures Steps(actions, i, j, k) <= 231
    ensures k in ss[j].workers
    ensures (forall m :: Counted(m) && DoomedCallsFail(ss[j].workers[k], m) ==> !Enabled(ss[j].workers[k], m)) ==>
      ss[j].workers[k].main.pc == Returned
  {
    StepsAreBounded(c, ss, actions, i, j, k);
    FitsAt(c, ss, actions, j, k);
    var w := ss[j].workers[k];
    if w.main.pc != Returned {
      var m := NeverStuck(c, w);
    }
  }
}
