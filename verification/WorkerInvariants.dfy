/** What every step of a worker keeps, whatever the store answers and however its threads interleave. */
module WorkerInvariants {
  import opened Common
  import opened SyncStore
  import opened SyncWorker

  /** How far the main thread has come. */
  function Stage(m: MainPc): nat {
    match m
    case Claiming => 0
    case FirstCheck => 1
    case SecondCheck => 2
    case Launching => 3
    case AwaitResult => 4
    case AwaitWatcher => 5
    case ReadContext => 6
    case SelfCancel => 7
    case AwaitMonitor => 8
    case SavingProgress => 9
    case Finishing => 10
    case Returned => 11
  }

  /** A worker that holds no claim has done nothing but ask for one. */
  predicate BeforeClaim(w: Worker) {
    && (w.main.pc == Claiming || w.main.pc == Returned)
    && (w.main.pc == Claiming ==> w.main.call.Out? && w.main.call.op == Claim && w.late == {})
    && (w.main.pc == Returned ==> w.main.call == Idle)
    && w.main == Main(w.main.pc, w.main.call, false, false, NoErr, None, false, None)
    && w.monitor == Monitor(NoMonitor, Idle, None, 0)
    && !w.context.cancelled && !w.context.stopSeen
    && w.rsync == NO_RSYNC && w.trace == Trace([], 0)
    && w.late <= {Claim}
  }

  /** The monitor sends exactly once, and the main thread takes what it sent before saving. */
  predicate ChannelKept(pc: MainPc, monitorErr: Option<string>, mon: Monitor) {
    && mon.pc != NoMonitor
    && (mon.pc == Sent <==> mon.sends == 1)
    && (mon.pc != Sent ==> mon.sends == 0 && mon.done == None && Stage(pc) <= 8)
    && (mon.pc == Sent ==> (mon.done.Some? <==> Stage(pc) <= 8))
    && (Stage(pc) <= 8 ==> monitorErr == None)
    && (mon.call.Out? <==> mon.pc == Reporting)
    && (mon.pc == Reporting ==> mon.call.op.Report?)
  }

  predicate ContextKept(pc: MainPc, mon: MonitorPc, x: Context) {
    && (mon.Sending? || mon == Sent ==> x.cancelled)
    && (Stage(pc) >= 8 ==> x.cancelled)
    && (x.parent ==> x.cancelled)
  }

  predicate MainKept(c: Config, main: Main, output: Text) {
    && main.pc != Claiming && main.claimed
    && (main.call.Out? <==> main.pc == SavingProgress || main.pc == Finishing)
    && (main.pc == SavingProgress ==> main.call.op == Report(FieldsOf(c, output)))
    && (main.pc == Finishing ==>
          var message := Message(FinalErr(main.runErr, main.monitorErr));
          main.call.op == Finish(Outcome(main.runErr, main.monitorErr), message))
    && (main.saved.Some? ==> main.pc == Returned)
    && (main.updateFailed ==> Stage(main.pc) >= 10)
    && (Stage(main.pc) < 7 ==> main.runErr == NoErr)
    && !main.runErr.LostRedis?
  }

  /** The process, the goroutine that waits for it and the one that kills it. */
  predicate RsyncKept(pc: MainPc, r: Rsync, cancelled: bool) {
    && (r.process == NotStarted ==> r == NO_RSYNC)
    && (r.process != NotStarted ==> r.waiter != NoWaiter && r.watcher != NoWatcher)
    && (Stage(pc) <= 3 ==> r.process == NotStarted)
    && (4 <= Stage(pc) <= 6 ==> r.process != NotStarted)
    && (ProcessDone(r) ==> r.process.Exited?)
    && (r.waiter != WaiterDone ==> r.waitResult == None)
    && (r.waitResult.Some? ==> r.process == Exited(r.waitResult.value))
    && (pc == AwaitResult && r.waiter == WaiterDone ==> r.waitResult.Some?)
    && (Stage(pc) >= 5 && r.process != NotStarted ==> r.waiter == WaiterDone && r.waitResult == None)
    && (Stage(pc) >= 6 && r.process != NotStarted ==> r.watcher == Quit)
    && (r.watcher == Rechecking || r.watcher == Grace ==> cancelled)
  }

  /** Without a cancellation, the result is that of rsync. */
  predicate ResultKept(pc: MainPc, process: Process, runErr: RunErr) {
    Stage(pc) >= 7 && runErr != Canceled ==>
      && (runErr == NoErr <==> process == Exited(true))
      && (process == Exited(false) ==> runErr == OtherErr("rsync failed"))
  }

  /** The monitor is failing or has failed. */
  predicate MonitorFailing(mon: Monitor, monitorErr: Option<string>) {
    || (mon.pc.Sending? && mon.pc.err.Some?)
    || (mon.done.Some? && mon.done.value.Some?)
    || monitorErr.Some?
  }

  /** Why the context was cancelled, if not by the main thread at the end. */
  predicate CausesKept(main: Main, x: Context, mon: Monitor) {
    && (x.cancelled && Stage(main.pc) <= 7 ==> x.stopSeen || x.parent || MonitorFailing(mon, main.monitorErr))
    && (main.runErr == Canceled ==>
          x.cancelled && (x.stopSeen || x.parent || MonitorFailing(mon, main.monitorErr)))
    && (mon.pc == CancelFor(None) ==> x.stopSeen)
  }

  predicate TraceKept(main: Main, t: Trace, process: Process, cancelled: bool) {
    && t.launches == (if process == NotStarted then 0 else 1)
    && (main.pc == FirstCheck ==> t.events == [])
    && (2 <= Stage(main.pc) <= 6 ==> t.events == [Start])
    && (7 <= Stage(main.pc) <= 10 ==> t.events == [] || t.events == [Start])
    && (main.pc == Returned ==>
          var last := TerminalEvent(main.runErr, main.monitorErr, main.updateFailed, main.saved == None);
          t.events == [last] || t.events == [Start, last])
    && (t.launches > 0 ==> t.events != [] && t.events[0] == Start)
    && (main.stoppedAtClaim ==>
          && cancelled && t.launches == 0 && !(2 <= Stage(main.pc) <= 6)
          && (Stage(main.pc) >= 7 ==> main.runErr == Canceled))
  }

  /** Some store call of the worker has failed. */
  predicate SomeCallFailed(main: Main, mon: Monitor) {
    || MonitorFailing(mon, main.monitorErr)
    || (mon.pc.CancelFor? && mon.pc.err.Some?)
    || main.updateFailed
    || (main.pc == Returned && main.saved == None)
  }

  /** Calls given up on, which the store may still execute: there are some exactly when a call has
      failed, and a final update is among them only after the worker has returned without it. */
  predicate LateKept(late: set<Op>, main: Main, mon: Monitor) {
    && (late != {} <==> SomeCallFailed(main, mon))
    && (forall op :: op in late ==> op.Report? || op.Finish?)
    && (forall op :: op in late && op.Finish? ==> main.pc == Returned && main.saved == None)
  }

  predicate AfterClaim(c: Config, w: Worker) {
    && ChannelKept(w.main.pc, w.main.monitorErr, w.monitor)
    && ContextKept(w.main.pc, w.monitor.pc, w.context)
    && MainKept(c, w.main, w.rsync.output)
    && RsyncKept(w.main.pc, w.rsync, w.context.cancelled)
    && ResultKept(w.main.pc, w.rsync.process, w.main.runErr)
    && CausesKept(w.main, w.context, w.monitor)
    && TraceKept(w.main, w.trace, w.rsync.process, w.context.cancelled)
    && LateKept(w.late, w.main, w.monitor)
  }

  predicate WorkerKept(c: Config, w: Worker) {
    if w.main.claimed then AfterClaim(c, w) else BeforeClaim(w)
  }

  /****** Every move keeps them *******/

  lemma UnclaimedKeeps(c: Config, w: Worker, m: Move, now: nat)
    requires BeforeClaim(w) && Enabled(w, m)
    ensures WorkerKept(c, After(c, w, m, now))
  {}

  lemma CheckFirstKeeps(c: Config, w: Worker)
    requires AfterClaim(c, w) && w.main.pc == FirstCheck
    ensures AfterClaim(c, CheckFirst(w))
  {}

  lemma CheckSecondKeeps(c: Config, w: Worker, now: nat)
    requires AfterClaim(c, w) && w.main.pc == SecondCheck
    ensures AfterClaim(c, CheckSecond(w, now))
  {}

  lemma ReadResultKeeps(c: Config, w: Worker)
    requires AfterClaim(c, w) && w.main.pc == ReadContext
    ensures AfterClaim(c, ReadResult(w))
  {}

  lemma TakeMonitorKeeps(c: Config, w: Worker)
    requires AfterClaim(c, w) && w.main.pc == AwaitMonitor && w.monitor.done.Some?
    ensures AfterClaim(c, TakeMonitor(c, w))
  {}

  lemma WaitKeeps(c: Config, w: Worker, now: nat)
    requires AfterClaim(c, w) && MainCanMove(w)
    requires w.main.pc == AwaitResult || w.main.pc == AwaitWatcher || w.main.pc == SelfCancel
    ensures AfterClaim(c, MainMove(c, w, now))
  {}

  lemma MainMoveKeeps(c: Config, w: Worker, now: nat)
    requires AfterClaim(c, w) && MainCanMove(w)
    ensures AfterClaim(c, MainMove(c, w, now))
  {
    match w.main.pc
    case FirstCheck => CheckFirstKeeps(c, w);
    case SecondCheck => CheckSecondKeeps(c, w, now);
    case ReadContext => ReadResultKeeps(c, w);
    case AwaitMonitor => TakeMonitorKeeps(c, w);
    case _ => WaitKeeps(c, w, now);
  }

  lemma LaunchKeeps(c: Config, w: Worker, now: nat, ok: bool, message: string)
    requires AfterClaim(c, w) && w.main.pc == Launching
    ensures AfterClaim(c, Launched(w, now, ok, message))
  {}

  lemma SaveReturnKeeps(c: Config, w: Worker, ok: bool)
    requires AfterClaim(c, w) && w.main.pc == SavingProgress && w.main.call.Out?
    ensures AfterClaim(c, SaveReturn(w, ok))
  {}

  lemma FinishReturnKeeps(c: Config, w: Worker, ok: bool)
    requires AfterClaim(c, w) && w.main.pc == Finishing && w.main.call.Out? && (ok ==> Succeeded(w.main.call))
    ensures AfterClaim(c, FinishReturn(w, ok))
  {}

  lemma MainReturnKeeps(c: Config, w: Worker, now: nat, ok: bool)
    requires AfterClaim(c, w) && Enabled(w, MainReturns(ok))
    ensures AfterClaim(c, MainReturn(c, w, now, ok))
  {
    if w.main.pc == SavingProgress {
      SaveReturnKeeps(c, w, ok);
    } else {
      FinishReturnKeeps(c, w, ok);
    }
  }

  lemma MonitorMoveKeeps(c: Config, w: Worker, now: nat)
    requires AfterClaim(c, w) && Enabled(w, MonitorMoves)
    ensures AfterClaim(c, MonitorMove(w, now))
  {}

  lemma MonitorTickKeeps(c: Config, w: Worker, now: nat)
    requires AfterClaim(c, w) && w.monitor.pc == Selecting
    ensures AfterClaim(c, MonitorTick(c, w, now))
  {}

  lemma MonitorReturnKeeps(c: Config, w: Worker, now: nat, ok: bool, message: string)
    requires AfterClaim(c, w) && Enabled(w, MonitorReturns(ok, message))
    ensures AfterClaim(c, MonitorReturn(c, w, now, ok, message))
  {
    if ok {
      assert MonitorReturn(c, w, now, ok, message).late == w.late;
    }
  }

  lemma ParentCancelKeeps(c: Config, w: Worker, now: nat)
    requires AfterClaim(c, w)
    ensures AfterClaim(c, ParentCancel(w, now))
  {}

  /** A change of the process or its goroutines alone. */
  lemma RsyncChangeKeeps(c: Config, w: Worker, v: Worker)
    requires AfterClaim(c, w) && v.rsync.process != NotStarted && w.rsync.process != NotStarted
    requires v == w.(rsync := v.rsync, times := v.times)
    requires RsyncKept(w.main.pc, v.rsync, w.context.cancelled)
    requires w.rsync.process.Exited? ==> v.rsync.process == w.rsync.process && v.rsync.output == w.rsync.output
    ensures AfterClaim(c, v)
  {}

  lemma RsyncMoveKeeps(c: Config, w: Worker, m: Move, now: nat)
    requires AfterClaim(c, w) && Enabled(w, m)
    requires m.Prints? || m.Exits? || m.WaiterMoves? || m.WatcherSeesDone? || m.WatcherSeesCancel?
          || m.WatcherRechecks? || m.TimerFires?
    ensures AfterClaim(c, After(c, w, m, now))
  {
    RsyncChangeKeeps(c, w, After(c, w, m, now));
  }

  /** Every move of every thread keeps the worker's invariant. */
  lemma MoveKeepsWorker(c: Config, w: Worker, m: Move, now: nat)
    requires WorkerKept(c, w) && Enabled(w, m)
    ensures WorkerKept(c, After(c, w, m, now))
  {
    if !w.main.claimed {
      UnclaimedKeeps(c, w, m, now);
    } else {
      match m
      case MainMoves => MainMoveKeeps(c, w, now);
      case Launch(ok, message) => LaunchKeeps(c, w, now, ok, message);
      case MainReturns(ok) => MainReturnKeeps(c, w, now, ok);
      case MonitorMoves => MonitorMoveKeeps(c, w, now);
      case MonitorSeesCancel =>
      case MonitorTicks => MonitorTickKeeps(c, w, now);
      case MonitorReturns(ok, message) => MonitorReturnKeeps(c, w, now, ok, message);
      case ParentCancels => ParentCancelKeeps(c, w, now);
      case _ => RsyncMoveKeeps(c, w, m, now);
    }
  }

  lemma AnswerKeepsWorker(c: Config, w: Worker, toMonitor: bool, reply: Result<Record, ScriptError>, now: nat)
    requires WorkerKept(c, w)
    requires if toMonitor then w.monitor.call.Out? else w.main.call.Out?
    ensures WorkerKept(c, Answered(c, w, toMonitor, reply, now))
  {}

  /****** What happens to rsync *******/

  lemma MainLeavesRsync(c: Config, w: Worker, m: Move, now: nat)
    requires Enabled(w, m) && (m.MainMoves? || m.MainReturns?)
    ensures After(c, w, m, now).rsync.process == w.rsync.process && After(c, w, m, now).rsync.output == w.rsync.output
  {}

  lemma LaunchIsTheStart(c: Config, w: Worker)
    requires WorkerKept(c, w) && w.main.pc == Launching
    ensures w.rsync == NO_RSYNC
  {}

  lemma OthersLeaveRsync(c: Config, w: Worker, m: Move, now: nat)
    requires Enabled(w, m) && !m.MainMoves? && !m.MainReturns? && !m.Launch? && !m.Prints? && !m.Exits?
    ensures After(c, w, m, now).rsync.process == w.rsync.process && After(c, w, m, now).rsync.output == w.rsync.output
  {}

  /** Rsync is started, prints and exits only by the moves that say so. */
  lemma RsyncAfterMove(c: Config, w: Worker, m: Move, now: nat)
    requires WorkerKept(c, w) && Enabled(w, m)
    ensures
      var v := After(c, w, m, now);
      && v.rsync.output == w.rsync.output + (if m.Prints? then m.chunk else [])
      && v.rsync.process ==
         (if m.Launch? && m.ok then Alive else if m.Exits? then Exited(m.ok) else w.rsync.process)
      && (m.Launch? ==> w.rsync.process == NotStarted) && (m.Exits? ==> w.rsync.process == Alive)
  {
    if m.Launch? {
      LaunchIsTheStart(c, w);
    } else if m.MainMoves? || m.MainReturns? {
      MainLeavesRsync(c, w, m, now);
    } else if !m.Prints? && !m.Exits? {
      OthersLeaveRsync(c, w, m, now);
    }
  }
}
