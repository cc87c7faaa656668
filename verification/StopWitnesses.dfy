/** Stop requests that are not reported as "cancelled", each in a run of the installation: one for each
    clause of the exact condition, and one run that meets the condition. */
module StopWitnesses {
  import opened Common
  import opened SyncStore
  import opened SyncWorker
  import opened Fleet
  import opened LeaseLimit
  import opened WorkerReports

  /****** One worker under way *******/

  /** The installation with one reservation and one worker, at one moment. */
  function Solo(h: Hash, stopped: set<string>, w: Worker): Fleet {
    One(BEGIN, h, w).(stopped := stopped)
  }

  /** The record is running and not expired. */
  predicate Held(h: Hash) {
    "a" in h && h["a"].state == Running && !Expired(h["a"], Seconds(BEGIN))
  }

  lemma Does(c: Config, h: Hash, stopped: set<string>, w: Worker, m: Move) returns (v: Worker)
    requires Reachable(c, Solo(h, stopped, w)) && Enabled(w, m)
    ensures v == After(c, w, m, BEGIN) && Reachable(c, Solo(h, stopped, v))
  {
    v := After(c, w, m, BEGIN);
    assert map[0 := w][0 := v] == map[0 := v];
    ReachNext(c, Solo(h, stopped, w), Moves(0, m), Solo(h, stopped, v));
  }

  /** The store executes a report or the final update of the worker. */
  lemma Executes(c: Config, h: Hash, stopped: set<string>, w: Worker, toMonitor: bool)
    returns (h': Hash, stopped': set<string>, v: Worker)
    requires Reachable(c, Solo(h, stopped, w)) && Held(h) && w.id == "a" && Busy(w, toMonitor)
    requires var op := CallOf(w, toMonitor).op; op.Report? || op.Finish?
    ensures Reachable(c, Solo(h', stopped', v)) && stopped <= stopped'
    ensures "a" in h' && h'["a"].stop == h["a"].stop && (CallOf(w, toMonitor).op.Report? ==> Held(h'))
    ensures v == Answered(c, w, toMonitor, Ok(h'["a"]), BEGIN)
  {
    var op, now := CallOf(w, toMonitor).op, Seconds(BEGIN);
    h' := AfterUpdate(now, h, "a", op);
    v := Answered(c, w, toMonitor, Updated(now, h, "a", op), BEGIN);
    stopped' := stopped + set k | k in h' && h'[k].stop;
    assert map[0 := w][0 := v] == map[0 := v];
    ReachNext(c, Solo(h, stopped, w), Answers(0, toMonitor), Solo(h', stopped', v));
  }

  const FLAGGED: Hash := map["a" := ClaimedRecord(0, "a", "/p").(stop := true)]

  /** A user presses stop. */
  lemma UserStops(c: Config, w: Worker)
    requires Reachable(c, Solo(LEASED, {}, w))
    ensures Reachable(c, Solo(FLAGGED, {"a"}, w)) && Held(FLAGGED)
  {
    assert AfterStop(LEASED, Seconds(BEGIN), "/p") == FLAGGED;
    assert {} + (set k | k in FLAGGED && FLAGGED[k].stop) == {"a"};
    ReachNext(c, Solo(LEASED, {}, w), Stops("/p"), Solo(FLAGGED, {"a"}, w));
  }

  /** A worker about to look at its context for the second time, with nothing amiss. */
  predicate Early(w: Worker) {
    && w.id == "a" && w.main.claimed && w.main.runErr == NoErr
    && w.monitor == Monitor(Selecting, Idle, None, 0) && w.context == Context(false, false, false)
    && w.trace.events == [Start] && w.late == {} && w.rsync == NO_RSYNC
  }

  lemma Starts(c: Config) returns (w: Worker)
    ensures Reachable(c, Solo(LEASED, {}, w)) && Early(w) && w.main.pc == SecondCheck
  {
    ClaimedLate(c);
    w := ClaimedWorker(c, BEGIN, "a", "/p");
    w := Does(c, LEASED, {}, w, MainReturns(true));
    w := Does(c, LEASED, {}, w, MainMoves);
  }

  /** The user stops, the monitor's next report brings the flag, and the context is cancelled. */
  lemma LearnsOfStop(c: Config, w: Worker) returns (h: Hash, stopped: set<string>, v: Worker)
    requires Reachable(c, Solo(LEASED, {}, w)) && Early(w)
    ensures Reachable(c, Solo(h, stopped, v)) && Held(h) && h["a"].stop
    ensures v.id == "a" && v.main == w.main && v.trace == w.trace && v.late == {}
    ensures v.context == Context(true, false, true) && v.monitor == Monitor(Sent, Idle, Some(None), 1)
  {
    UserStops(c, w);
    v := Does(c, FLAGGED, {"a"}, w, MonitorTicks);
    h, stopped, v := Executes(c, FLAGGED, {"a"}, v, true);
    v := Does(c, h, stopped, v, MonitorReturns(true, ""));
    v := Does(c, h, stopped, v, MonitorMoves);
    v := Does(c, h, stopped, v, MonitorMoves);
  }

  /** The last report of progress comes back as `saves` says. */
  lemma Saves(c: Config, h: Hash, stopped: set<string>, w: Worker, saves: bool)
    returns (h': Hash, stopped': set<string>, v: Worker)
    requires Reachable(c, Solo(h, stopped, w)) && Held(h)
    requires w.id == "a" && w.main.claimed && w.main.pc == SavingProgress
    requires w.main.call.Out? && w.main.call.op.Report?
    ensures Reachable(c, Solo(h', stopped', v)) && Held(h') && h'["a"].stop == h["a"].stop
    ensures v.id == "a" && v.main.claimed && v.main.pc == Finishing && v.main.call.Out? && v.main.call.op.Finish?
    ensures v.main.runErr == w.main.runErr && v.main.monitorErr == w.main.monitorErr && v.rsync == w.rsync
    ensures v.main.updateFailed == !saves && v.context == w.context
    ensures v.late == {} <==> w.late == {} && saves
  {
    if saves {
      h', stopped', v := Executes(c, h, stopped, w, false);
      v := Does(c, h', stopped', v, MainReturns(true));
    } else {
      h', stopped' := h, stopped;
      v := Does(c, h, stopped, w, MainReturns(false));
      assert v.late == w.late + {w.main.call.op};
    }
  }

  /** The final update comes back with success, and the worker reports and returns. */
  lemma Finishes(c: Config, h: Hash, stopped: set<string>, w: Worker) returns (s: Fleet)
    requires Reachable(c, Solo(h, stopped, w)) && Held(h)
    requires w.id == "a" && w.main.claimed && w.main.pc == Finishing && w.main.call.Out? && w.main.call.op.Finish?
    ensures Reachable(c, s) && HasReturned(s, 0) && "a" in s.hash && s.hash["a"].stop == h["a"].stop
    ensures s.workers[0].context == w.context && s.workers[0].late == w.late && s.workers[0].rsync == w.rsync
    ensures Reports(s, 0, TerminalEvent(w.main.runErr, w.main.monitorErr, w.main.updateFailed, false))
  {
    var h1, stopped1, v := Executes(c, h, stopped, w, false);
    v := Does(c, h1, stopped1, v, MainReturns(true));
    s := Solo(h1, stopped1, v);
  }

  /** From the receipt of the monitor's result to the return. */
  lemma Concludes(c: Config, h: Hash, stopped: set<string>, w: Worker, saves: bool) returns (s: Fleet)
    requires Reachable(c, Solo(h, stopped, w)) && Held(h) && h["a"].stop
    requires w.id == "a" && w.main.claimed && w.main.pc == AwaitMonitor && w.monitor.done == Some(None) && w.late == {}
    ensures Reachable(c, s) && HasReturned(s, 0) && "a" in s.hash && s.hash["a"].stop
    ensures s.workers[0].context == w.context && (s.workers[0].late == {} <==> saves)
    ensures Reports(s, 0, TerminalEvent(w.main.runErr, None, !saves, false))
  {
    var v := Does(c, h, stopped, w, MainMoves);
    var h1, stopped1;
    h1, stopped1, v := Saves(c, h, stopped, v, saves);
    s := Finishes(c, h1, stopped1, v);
  }

  /****** The runs *******/

  /** The run behind a reachable state, and what the worker's calls in it came to. */
  lemma RunTo(c: Config, s: Fleet) returns (ss: seq<Fleet>, actions: seq<Action>)
    requires Reachable(c, s) && 0 in s.workers
    ensures EndsIn(c, ss, actions, s)
    ensures s.workers[0].late != {} <==> CallFailed(actions, |actions|, 0)
  {
    ss, actions :| EndsIn(c, ss, actions, s);
    LateMeansFailure(c, ss, actions, |actions|, 0);
  }

  lemma StopsWhileLaunching(c: Config) returns (h: Hash, stopped: set<string>, v: Worker)
    ensures Reachable(c, Solo(h, stopped, v)) && Held(h) && h["a"].stop
    ensures v.id == "a" && v.main.claimed && v.main.pc == AwaitMonitor && v.main.runErr.OtherErr?
    ensures v.context == Context(true, false, true) && v.monitor == Monitor(Sent, Idle, Some(None), 1) && v.late == {}
  {
    var w := Starts(c);
    w := Does(c, LEASED, {}, w, MainMoves);
    h, stopped, v := LearnsOfStop(c, w);
    v := Does(c, h, stopped, v, Launch(false, "create path"));
    v := Does(c, h, stopped, v, MainMoves);
  }

  /** The worker has been told of a stop, and all its calls succeed; but rsync was just being started
      and cannot be, and the report is "error". */
  lemma FailedStartHidesStop(c: Config) returns (ss: seq<Fleet>, actions: seq<Action>, s: Fleet)
    ensures EndsIn(c, ss, actions, s) && HasReturned(s, 0) && s.workers[0].context.stopSeen
    ensures !CallFailed(actions, |actions|, 0) && Reports(s, 0, ErrorEvent)
  {
    var h, stopped, v := StopsWhileLaunching(c);
    s := Concludes(c, h, stopped, v, true);
    ss, actions := RunTo(c, s);
  }

  /** The worker has been told of a stop in time; but its last report of progress comes
      back as failed, and the report is "error". */
  lemma FailedCallHidesStop(c: Config) returns (ss: seq<Fleet>, actions: seq<Action>, s: Fleet)
    ensures EndsIn(c, ss, actions, s) && HasReturned(s, 0) && s.workers[0].context.stopSeen
    ensures CallFailed(actions, |actions|, 0) && Reports(s, 0, ErrorEvent)
  {
    var h, stopped, v := StopsBeforeLaunch(c);
    s := Concludes(c, h, stopped, v, false);
    ss, actions := RunTo(c, s);
  }

  lemma StopsBeforeLaunch(c: Config) returns (h: Hash, stopped: set<string>, v: Worker)
    ensures Reachable(c, Solo(h, stopped, v)) && Held(h) && h["a"].stop
    ensures v.id == "a" && v.main.claimed && v.main.pc == AwaitMonitor && v.main.runErr == Canceled
    ensures v.context == Context(true, false, true) && v.monitor == Monitor(Sent, Idle, Some(None), 1) && v.late == {}
  {
    var w := Starts(c);
    h, stopped, v := LearnsOfStop(c, w);
    v := Does(c, h, stopped, v, MainMoves);
    v := Does(c, h, stopped, v, MainMoves);
  }

  lemma RsyncRuns(c: Config) returns (w: Worker)
    ensures Reachable(c, Solo(LEASED, {}, w))
    ensures Unaware(w) && w.main.pc == AwaitResult && w.rsync == Rsync(Alive, Waiting, None, Watching, [])
  {
    w := Starts(c);
    w := Does(c, LEASED, {}, w, MainMoves);
    w := Does(c, LEASED, {}, w, Launch(true, ""));
  }

  /** A worker at work that has heard of nothing. */
  predicate Unaware(w: Worker) {
    && w.id == "a" && w.main.claimed && w.main.runErr == NoErr && w.late == {}
    && w.monitor == Monitor(Selecting, Idle, None, 0) && w.context == Context(false, false, false)
  }

  lemma RsyncExits(c: Config, h: Hash, stopped: set<string>, w0: Worker) returns (w: Worker)
    requires Reachable(c, Solo(h, stopped, w0))
    requires Unaware(w0) && w0.main.pc == AwaitResult && w0.rsync == Rsync(Alive, Waiting, None, Watching, [])
    ensures Reachable(c, Solo(h, stopped, w)) && Unaware(w) && w.main.pc == AwaitResult
    ensures w.rsync == Rsync(Exited(true), WaiterDone, Some(true), Quit, [])
  {
    w := Does(c, h, stopped, w0, Exits(true));
    w := Does(c, h, stopped, w, WaiterMoves);
    w := Does(c, h, stopped, w, WaiterMoves);
    w := Does(c, h, stopped, w, WatcherSeesDone);
  }

  lemma ResultIsRead(c: Config, h: Hash, stopped: set<string>, w0: Worker) returns (w: Worker)
    requires Reachable(c, Solo(h, stopped, w0)) && Unaware(w0) && w0.main.pc == AwaitResult
    requires w0.rsync == Rsync(Exited(true), WaiterDone, Some(true), Quit, [])
    ensures Reachable(c, Solo(h, stopped, w)) && Unaware(w) && w.main.pc == SelfCancel
    ensures w.rsync.process == Exited(true)
  {
    w := Does(c, h, stopped, w0, MainMoves);
    w := Does(c, h, stopped, w, MainMoves);
    w := Does(c, h, stopped, w, MainMoves);
  }

  lemma MonitorIsEnded(c: Config, h: Hash, stopped: set<string>, w0: Worker) returns (w: Worker)
    requires Reachable(c, Solo(h, stopped, w0)) && Unaware(w0) && w0.main.pc == SelfCancel
    ensures Reachable(c, Solo(h, stopped, w)) && w.id == "a" && w.main.claimed && w.main.pc == AwaitMonitor
    ensures w.main.runErr == NoErr && w.late == {} && w.monitor.done == Some(None)
  {
    w := Does(c, h, stopped, w0, MainMoves);
    w := Does(c, h, stopped, w, MonitorSeesCancel);
    w := Does(c, h, stopped, w, MonitorMoves);
  }

  /** The stop flag is set while rsync is running, but rsync ends before the monitor's next report: all
      calls succeed and the report is "complete". */
  lemma LateStopIsUnseen(c: Config) returns (ss: seq<Fleet>, actions: seq<Action>, s: Fleet)
    ensures EndsIn(c, ss, actions, s) && HasReturned(s, 0) && "a" in s.hash && s.hash["a"].stop
    ensures !CallFailed(actions, |actions|, 0) && Reports(s, 0, Complete)
  {
    var w := RsyncRuns(c);
    UserStops(c, w);
    w := RsyncExits(c, FLAGGED, {"a"}, w);
    w := ResultIsRead(c, FLAGGED, {"a"}, w);
    w := MonitorIsEnded(c, FLAGGED, {"a"}, w);
    s := Concludes(c, FLAGGED, {"a"}, w, true);
    ss, actions := RunTo(c, s);
  }

  /** And a run that goes as promised. */
  lemma StopGoesAsPromised(c: Config) returns (ss: seq<Fleet>, actions: seq<Action>, s: Fleet)
    ensures EndsIn(c, ss, actions, s) && HasReturned(s, 0) && s.workers[0].context.stopSeen
    ensures !CallFailed(actions, |actions|, 0) && Reports(s, 0, CancelledEvent)
  {
    var h, stopped, v := StopsBeforeLaunch(c);
    s := Concludes(c, h, stopped, v, true);
    ss, actions := RunTo(c, s);
  }

  /****** Success that is not reported *******/

  lemma RsyncSucceeds(c: Config) returns (w: Worker)
    ensures Reachable(c, Solo(LEASED, {}, w))
    ensures Unaware(w) && w.main.pc == SelfCancel && w.rsync.process == Exited(true)
  {
    w := RsyncRuns(c);
    w := RsyncExits(c, LEASED, {}, w);
    w := ResultIsRead(c, LEASED, {}, w);
  }

  /** The monitor ticks once more after the context is cancelled, and its call fails for that. */
  lemma LastHeartbeatFails(c: Config, w0: Worker) returns (w: Worker)
    requires Reachable(c, Solo(LEASED, {}, w0))
    requires Unaware(w0) && w0.main.pc == SelfCancel && w0.rsync.process == Exited(true)
    ensures Reachable(c, Solo(LEASED, {}, w)) && w.id == "a" && w.main.claimed && w.main.pc == AwaitMonitor
    ensures w.rsync.process == Exited(true) && w.late != {}
    ensures w.main.runErr == NoErr && w.monitor.done == Some(Some("context canceled"))
  {
    w := Does(c, LEASED, {}, w0, MainMoves);
    w := Does(c, LEASED, {}, w, MonitorTicks);
    assert w.monitor.call.doomed;
    var op := w.monitor.call.op;
    w := Does(c, LEASED, {}, w, MonitorReturns(false, "context canceled"));
    assert op in w.late;
    w := Does(c, LEASED, {}, w, MonitorMoves);
    w := Does(c, LEASED, {}, w, MonitorMoves);
  }

  lemma TakesLoss(c: Config, w: Worker) returns (v: Worker)
    requires Reachable(c, Solo(LEASED, {}, w)) && w.id == "a" && w.main.claimed && w.main.pc == AwaitMonitor
    requires w.late != {} && w.monitor.done.Some? && w.monitor.done.value.Some?
    ensures Reachable(c, Solo(LEASED, {}, v)) && v.id == "a" && v.main.claimed && v.main.pc == SavingProgress
    ensures v.main.call.Out? && v.main.call.op.Report? && v.main.monitorErr.Some?
    ensures v.late != {} && v.rsync == w.rsync
  {
    v := Does(c, LEASED, {}, w, MainMoves);
  }

  lemma ConcludesWithLoss(c: Config, w: Worker) returns (s: Fleet)
    requires Reachable(c, Solo(LEASED, {}, w)) && w.id == "a" && w.main.claimed && w.main.pc == AwaitMonitor
    requires w.late != {} && w.monitor.done.Some? && w.monitor.done.value.Some?
    ensures Reachable(c, s) && HasReturned(s, 0) && "a" in s.hash && !s.hash["a"].stop
    ensures s.workers[0].late != {} && s.workers[0].rsync == w.rsync && Reports(s, 0, ErrorEvent)
  {
    assert Held(LEASED);
    var v := TakesLoss(c, w);
    var h, stopped;
    h, stopped, v := Saves(c, LEASED, {}, v, true);
    s := Finishes(c, h, stopped, v);
  }

  /** Nobody stops anything and rsync succeeds; but the worker's own cancellation of its monitor makes a
      last heartbeat fail, and the report is "error". */
  lemma SuccessCanBeAnError(c: Config) returns (ss: seq<Fleet>, actions: seq<Action>, s: Fleet)
    ensures EndsIn(c, ss, actions, s) && HasReturned(s, 0) && s.workers[0].rsync.process == Exited(true)
    ensures "a" in s.hash && !s.hash["a"].stop
    ensures CallFailed(actions, |actions|, 0) && Reports(s, 0, ErrorEvent)
  {
    var w := RsyncSucceeds(c);
    w := LastHeartbeatFails(c, w);
    s := ConcludesWithLoss(c, w);
    ss, actions := RunTo(c, s);
  }
}
