/** What a worker reports at the end, in terms of what happened to it: which store calls came back as
    failed, whether rsync could be started and how it ended, and whether the worker looked at its
    context after the cancellation. */
module WorkerReports {
  import opened Common
  import opened SyncStore
  import opened SyncWorker
  import opened WorkerInvariants
  import opened Fleet
  import opened FleetInvariants
  import opened FleetRuns
  import opened FleetTheorems

  /****** What happens to a worker *******/

  /** A store call of worker `k` comes back as failed. */
  predicate FailsCall(a: Action, k: nat) {
    && a.Moves? && a.worker == k
    && ((a.move.MainReturns? && !a.move.ok) || (a.move.MonitorReturns? && !a.move.ok))
  }

  /** Rsync of worker `k` cannot be started. */
  predicate FailsStart(a: Action, k: nat) {
    a.Moves? && a.worker == k && a.move.Launch? && !a.move.ok
  }

  /** Rsync of worker `k` exits, with success or not. */
  predicate ExitsWith(a: Action, k: nat, ok: bool) {
    a == Moves(k, Exits(ok))
  }

  /** Worker `k` looks at its context and finds it cancelled. */
  predicate SeesCancel(s: Fleet, a: Action, k: nat) {
    && k in s.workers && a == Moves(k, MainMoves)
    && Looking(s.workers[k].main.pc) && s.workers[k].context.cancelled
  }

  ghost predicate CallFailed(actions: seq<Action>, j: nat, k: nat)
    requires j <= |actions|
  {
    exists n :: 0 <= n < j && FailsCall(actions[n], k)
  }

  ghost predicate HasExited(actions: seq<Action>, j: nat, k: nat, ok: bool)
    requires j <= |actions|
  {
    exists n :: 0 <= n < j && ExitsWith(actions[n], k, ok)
  }

  ghost predicate StartFailed(actions: seq<Action>, i: nat, j: nat, k: nat)
    requires j <= |actions|
  {
    exists n :: i <= n < j && FailsStart(actions[n], k)
  }

  ghost predicate SawCancel(ss: seq<Fleet>, actions: seq<Action>, j: nat, k: nat)
    requires j <= |actions| < |ss|
  {
    exists n :: 0 <= n < j && SeesCancel(ss[n], actions[n], k)
  }

  /** Worker `k` has returned from a claimed run, and this was its last event. */
  predicate Reports(s: Fleet, k: nat, e: Event) {
    && k in s.workers && s.workers[k].main.claimed && s.workers[k].main.pc == Returned
    && s.workers[k].trace.events != []
    && s.workers[k].trace.events[|s.workers[k].trace.events| - 1] == e
  }

  predicate HasReturned(s: Fleet, k: nat) {
    k in s.workers && s.workers[k].main.claimed && s.workers[k].main.pc == Returned
  }

  lemma {:induction false} WorkersStay(c: Config, ss: seq<Fleet>, actions: seq<Action>, i: nat, j: nat, k: nat)
    requires IsFleetRun(c, ss, actions) && i <= j < |ss| && k in ss[i].workers
    ensures k in ss[j].workers && ss[j].workers[k].id == ss[i].workers[k].id
    decreases j - i
  {
    if i < j {
      WorkersStay(c, ss, actions, i, j - 1, k);
      ActsAt(c, ss, actions, j - 1, k);
      SameId(c, ss[j - 1], actions[j - 1], ss[j], k);
    }
  }

  /** Nothing has happened yet to a worker that was spawned last. */
  lemma NewcomersHaveNoPast(c: Config, ss: seq<Fleet>, actions: seq<Action>, j: nat, k: nat)
    requires IsFleetRun(c, ss, actions) && j < |actions| && k !in ss[j].workers && k in ss[j + 1].workers
    ensures !CallFailed(actions, j + 1, k) && !SawCancel(ss, actions, j + 1, k)
    ensures !HasExited(actions, j + 1, k, true) && !HasExited(actions, j + 1, k, false)
    ensures ss[j + 1].workers[k] == NewWorker(ss[j + 1].workers[k].id)
  {
    assert StepAt(c, ss, actions, j);
    NewcomersAreNew(c, ss[j], actions[j], ss[j + 1], k);
    forall n | 0 <= n <= j
      ensures !FailsCall(actions[n], k) && !SeesCancel(ss[n], actions[n], k)
      ensures !ExitsWith(actions[n], k, true) && !ExitsWith(actions[n], k, false)
    {
      assert StepAt(c, ss, actions, n);
      if k in ss[n].workers {
        WorkersStay(c, ss, actions, n, j, k);
      }
    }
  }

  /****** How a worker comes to its result *******/

  /** The places where the main thread looks at the context. */
  predicate Looking(pc: MainPc) {
    pc == FirstCheck || pc == SecondCheck || pc == ReadContext
  }

  /** What a move of a claimed worker means for its result: once there, it stays; it comes from a look
      at the context or from a failed start; a cancelled context stays cancelled and keeps rsync from
      being started. */
  predicate Proceeds(w: Worker, v: Worker, m: Move) {
    && v.main.claimed
    && (w.context.cancelled ==> v.context.cancelled)
    && (Stage(w.main.pc) >= 7 ==> Stage(v.main.pc) >= 7 && v.main.runErr == w.main.runErr)
    && (Stage(w.main.pc) <= 6 && Stage(v.main.pc) >= 7 ==>
          || (m.Launch? && !m.ok && v.main.runErr.OtherErr?)
          || (m.MainMoves? && Looking(w.main.pc) && (v.main.runErr == Canceled <==> w.context.cancelled)))
    && (m.MainMoves? && Looking(w.main.pc) && w.context.cancelled ==> Stage(v.main.pc) >= 7)
    && (m.Launch? && !m.ok ==> w.main.pc == Launching && Stage(v.main.pc) >= 7)
    && (v.main.pc == Launching && w.main.pc != Launching ==> !w.context.cancelled)
  }

  lemma SideMoveProceeds(c: Config, w: Worker, m: Move, now: nat)
    requires Enabled(w, m) && w.main.claimed && !m.MainMoves? && !m.Launch? && !m.MainReturns?
    ensures Proceeds(w, After(c, w, m, now), m)
  {}

  lemma MainMoveProceeds(c: Config, w: Worker, now: nat)
    requires AfterClaim(c, w) && MainCanMove(w)
    ensures Proceeds(w, MainMove(c, w, now), MainMoves)
  {}

  lemma ReturnProceeds(c: Config, w: Worker, ok: bool, now: nat)
    requires AfterClaim(c, w) && Enabled(w, MainReturns(ok))
    ensures Proceeds(w, MainReturn(c, w, now, ok), MainReturns(ok))
  {
    if w.main.pc == SavingProgress {
      assert MainReturn(c, w, now, ok) == SaveReturn(w, ok);
    } else {
      assert MainReturn(c, w, now, ok) == FinishReturn(w, ok);
    }
  }

  lemma MoveProceeds(c: Config, w: Worker, m: Move, now: nat)
    requires AfterClaim(c, w) && Enabled(w, m)
    ensures Proceeds(w, After(c, w, m, now), m)
  {
    match m
    case MainMoves => MainMoveProceeds(c, w, now);
    case MainReturns(ok) => ReturnProceeds(c, w, ok, now);
    case Launch(_, _) =>
    case _ => SideMoveProceeds(c, w, m, now);
  }

  /** The same main thread, but for an answer to its call, and the same context. */
  predicate StandsStill(w: Worker, v: Worker) {
    v.main.(call := w.main.call) == w.main && v.context == w.context
  }

  /** One action: a move of the worker, or nothing that matters to its result. */
  lemma ActProceeds(c: Config, s: Fleet, a: Action, s': Fleet, k: nat)
    requires k in s.workers && Acts(c, s, a, s', k) && WorkerKept(c, s.workers[k]) && s.workers[k].main.claimed
    ensures if a.Moves? && a.worker == k then Proceeds(s.workers[k], s'.workers[k], a.move)
            else StandsStill(s.workers[k], s'.workers[k])
    ensures WorkerKept(c, s'.workers[k])
  {
    var w := s.workers[k];
    if a.Moves? && a.worker == k {
      MoveProceeds(c, w, a.move, s.now);
      MoveKeepsWorker(c, w, a.move, s.now);
    } else if a.Answers? && a.worker == k {
      AnswerKeepsWorker(c, w, a.toMonitor, Updated(Seconds(s.now), s.hash, w.id, CallOf(w, a.toMonitor).op), s.now);
    }
  }

  /****** The two facts behind the report *******/

  lemma LateOne(c: Config, s: Fleet, a: Action, s': Fleet, k: nat)
    requires k in s.workers && Acts(c, s, a, s', k)
    ensures s'.workers[k].late != {} <==> s.workers[k].late != {} || FailsCall(a, k)
  {}

  lemma LateAt(c: Config, ss: seq<Fleet>, actions: seq<Action>, i: nat, k: nat)
    requires IsFleetRun(c, ss, actions) && i < |actions| && k in ss[i].workers
    ensures k in ss[i + 1].workers
    ensures ss[i + 1].workers[k].late != {} <==> ss[i].workers[k].late != {} || FailsCall(actions[i], k)
  {
    ActsAt(c, ss, actions, i, k);
    LateOne(c, ss[i], actions[i], ss[i + 1], k);
  }

  lemma {:induction false} LateMeansFailure(c: Config, ss: seq<Fleet>, actions: seq<Action>, j: nat, k: nat)
    requires IsFleetRun(c, ss, actions) && j < |ss| && k in ss[j].workers
    ensures ss[j].workers[k].late != {} <==> CallFailed(actions, j, k)
  {
    if j > 0 {
      if k in ss[j - 1].workers {
        LateMeansFailure(c, ss, actions, j - 1, k);
        LateAt(c, ss, actions, j - 1, k);
      } else {
        NewcomersHaveNoPast(c, ss, actions, j - 1, k);
      }
    }
  }

  lemma UnclaimedHasNoResult(c: Config, s: Fleet, a: Action, s': Fleet, k: nat)
    requires k in s.workers && Acts(c, s, a, s', k) && BeforeClaim(s.workers[k])
    ensures s'.workers[k].main.runErr == NoErr
  {}

  lemma CanceledOne(c: Config, s: Fleet, a: Action, s': Fleet, k: nat)
    requires k in s.workers && Acts(c, s, a, s', k) && WorkerKept(c, s.workers[k])
    ensures s'.workers[k].main.runErr == Canceled <==> s.workers[k].main.runErr == Canceled || SeesCancel(s, a, k)
  {
    if s.workers[k].main.claimed {
      ActProceeds(c, s, a, s', k);
    } else {
      UnclaimedHasNoResult(c, s, a, s', k);
    }
  }

  lemma CanceledAt(c: Config, ss: seq<Fleet>, actions: seq<Action>, i: nat, k: nat)
    requires IsFleetRun(c, ss, actions) && i < |actions| && k in ss[i].workers
    ensures k in ss[i + 1].workers
    ensures ss[i + 1].workers[k].main.runErr == Canceled <==>
      ss[i].workers[k].main.runErr == Canceled || SeesCancel(ss[i], actions[i], k)
  {
    ActsAt(c, ss, actions, i, k);
    CanceledOne(c, ss[i], actions[i], ss[i + 1], k);
  }

  lemma {:induction false} CanceledMeansSeen(c: Config, ss: seq<Fleet>, actions: seq<Action>, j: nat, k: nat)
    requires IsFleetRun(c, ss, actions) && j < |ss| && k in ss[j].workers
    ensures ss[j].workers[k].main.runErr == Canceled <==> SawCancel(ss, actions, j, k)
  {
    if j > 0 {
      if k in ss[j - 1].workers {
        CanceledMeansSeen(c, ss, actions, j - 1, k);
        CanceledAt(c, ss, actions, j - 1, k);
      } else {
        NewcomersHaveNoPast(c, ss, actions, j - 1, k);
      }
    }
  }

  lemma ExitOne(c: Config, s: Fleet, a: Action, s': Fleet, k: nat, ok: bool)
    requires k in s.workers && Acts(c, s, a, s', k) && WorkerKept(c, s.workers[k])
    ensures s'.workers[k].rsync.process == Exited(ok) <==>
      s.workers[k].rsync.process == Exited(ok) || ExitsWith(a, k, ok)
  {
    if a.Moves? && a.worker == k {
      RsyncAfterMove(c, s.workers[k], a.move, s.now);
    }
  }

  lemma ExitAt(c: Config, ss: seq<Fleet>, actions: seq<Action>, i: nat, k: nat, ok: bool)
    requires IsFleetRun(c, ss, actions) && i < |actions| && k in ss[i].workers
    ensures k in ss[i + 1].workers
    ensures ss[i + 1].workers[k].rsync.process == Exited(ok) <==>
      ss[i].workers[k].rsync.process == Exited(ok) || ExitsWith(actions[i], k, ok)
  {
    ActsAt(c, ss, actions, i, k);
    ExitOne(c, ss[i], actions[i], ss[i + 1], k, ok);
  }

  /** How rsync ended, as the worker knows it, is how it ended. */
  lemma {:induction false} ExitIsWhatHappened(c: Config, ss: seq<Fleet>, actions: seq<Action>, j: nat, k: nat, ok: bool)
    requires IsFleetRun(c, ss, actions) && j < |ss| && k in ss[j].workers
    ensures ss[j].workers[k].rsync.process == Exited(ok) <==> HasExited(actions, j, k, ok)
  {
    if j > 0 {
      if k in ss[j - 1].workers {
        ExitIsWhatHappened(c, ss, actions, j - 1, k, ok);
        ExitAt(c, ss, actions, j - 1, k, ok);
      } else {
        NewcomersHaveNoPast(c, ss, actions, j - 1, k);
      }
    }
  }

  lemma ReportOf(c: Config, w: Worker)
    requires WorkerKept(c, w) && w.main.claimed && w.main.pc == Returned
    ensures w.trace.events != []
    ensures
      var last := w.trace.events[|w.trace.events| - 1];
      && (last == CancelledEvent <==> w.late == {} && w.main.runErr == Canceled)
      && (last == Complete <==> w.late == {} && w.main.runErr == NoErr)
      && last != Start
  {}

  /** Which event ends a worker's run, exactly: "cancelled" if all its store calls succeeded and it
      saw the cancellation, "complete" if they all succeeded, it saw none and rsync succeeded, and
      "error" in all other cases. A stop that was set before the claim is always seen. */
  lemma LastEventExplained(c: Config, ss: seq<Fleet>, actions: seq<Action>, j: nat, k: nat)
    requires IsFleetRun(c, ss, actions) && j < |ss| && HasReturned(ss[j], k)
    ensures Reports(ss[j], k, CancelledEvent) <==> !CallFailed(actions, j, k) && SawCancel(ss, actions, j, k)
    ensures Reports(ss[j], k, Complete) <==>
      !CallFailed(actions, j, k) && !SawCancel(ss, actions, j, k) && HasExited(actions, j, k, true)
    ensures Reports(ss[j], k, ErrorEvent) <==>
      || CallFailed(actions, j, k)
      || (!SawCancel(ss, actions, j, k) && !HasExited(actions, j, k, true))
    ensures ss[j].workers[k].main.stoppedAtClaim ==> SawCancel(ss, actions, j, k)
  {
    FitsAt(c, ss, actions, j, k);
    LateMeansFailure(c, ss, actions, j, k);
    CanceledMeansSeen(c, ss, actions, j, k);
    ExitIsWhatHappened(c, ss, actions, j, k, true);
    ReportOf(c, ss[j].workers[k]);
  }

  /****** A cancellation in time *******/

  /** The context was cancelled before the worker's last look at it. */
  predicate CancelledInTime(s: Fleet, k: nat) {
    && k in s.workers && s.workers[k].main.claimed && s.workers[k].context.cancelled
    && Stage(s.workers[k].main.pc) <= 6
  }

  /** The cancellation has been seen or is going to be. */
  predicate OnCourse(w: Worker) {
    w.main.claimed && w.context.cancelled && (Stage(w.main.pc) <= 6 || w.main.runErr == Canceled)
  }

  predicate StartLost(w: Worker) {
    w.main.claimed && Stage(w.main.pc) >= 7 && w.main.runErr.OtherErr?
  }

  lemma OnCourseOne(c: Config, s: Fleet, a: Action, s': Fleet, k: nat)
    requires k in s.workers && Acts(c, s, a, s', k) && WorkerKept(c, s.workers[k]) && OnCourse(s.workers[k])
    ensures if FailsStart(a, k) then StartLost(s'.workers[k]) else OnCourse(s'.workers[k])
    ensures s.workers[k].main.pc != Launching ==> !FailsStart(a, k) && s'.workers[k].main.pc != Launching
  {
    ActProceeds(c, s, a, s', k);
  }

  lemma StartLostOne(c: Config, s: Fleet, a: Action, s': Fleet, k: nat)
    requires k in s.workers && Acts(c, s, a, s', k) && WorkerKept(c, s.workers[k]) && StartLost(s.workers[k])
    ensures StartLost(s'.workers[k]) && !FailsStart(a, k)
  {
    ActProceeds(c, s, a, s', k);
  }

  lemma {:induction false} CourseKept(c: Config, ss: seq<Fleet>, actions: seq<Action>, i: nat, j: nat, k: nat)
    requires IsFleetRun(c, ss, actions) && i <= j < |ss| && CancelledInTime(ss[i], k)
    ensures k in ss[j].workers
    ensures if StartFailed(actions, i, j, k) then StartLost(ss[j].workers[k]) else OnCourse(ss[j].workers[k])
    ensures ss[i].workers[k].main.pc != Launching ==>
      !StartFailed(actions, i, j, k) && ss[j].workers[k].main.pc != Launching
    decreases j - i
  {
    if i < j {
      CourseKept(c, ss, actions, i, j - 1, k);
      ActsAt(c, ss, actions, j - 1, k);
      if StartFailed(actions, i, j - 1, k) {
        StartLostOne(c, ss[j - 1], actions[j - 1], ss[j], k);
      } else {
        OnCourseOne(c, ss[j - 1], actions[j - 1], ss[j], k);
      }
    }
  }

  /** When the context is cancelled before the worker's last look at it, by a stop request or
      otherwise, the run is reported as "cancelled" if and only if no store call of the worker fails
      and rsync, if it is just being started, can be started. */
  lemma ReportedAsCancelled(c: Config, ss: seq<Fleet>, actions: seq<Action>, i: nat, j: nat, k: nat)
    requires IsFleetRun(c, ss, actions) && i <= j < |ss| && CancelledInTime(ss[i], k) && HasReturned(ss[j], k)
    ensures Reports(ss[j], k, CancelledEvent) <==>
      !CallFailed(actions, j, k) && !StartFailed(actions, i, j, k)
    ensures !Reports(ss[j], k, CancelledEvent) ==> Reports(ss[j], k, ErrorEvent)
    ensures ss[i].workers[k].main.pc != Launching ==> !StartFailed(actions, i, j, k)
  {
    CourseKept(c, ss, actions, i, j, k);
    FitsAt(c, ss, actions, j, k);
    LateMeansFailure(c, ss, actions, j, k);
    ReportOf(c, ss[j].workers[k]);
  }

  predicate Decided(w: Worker) {
    w.main.claimed && Stage(w.main.pc) >= 7 && w.main.runErr != Canceled
  }

  lemma DecidedOne(c: Config, s: Fleet, a: Action, s': Fleet, k: nat)
    requires k in s.workers && Acts(c, s, a, s', k) && WorkerKept(c, s.workers[k]) && Decided(s.workers[k])
    ensures Decided(s'.workers[k])
  {
    ActProceeds(c, s, a, s', k);
  }

  lemma DecidedAt(c: Config, ss: seq<Fleet>, actions: seq<Action>, i: nat, k: nat)
    requires IsFleetRun(c, ss, actions) && i < |actions| && k in ss[i].workers && Decided(ss[i].workers[k])
    ensures k in ss[i + 1].workers && Decided(ss[i + 1].workers[k])
  {
    ActsAt(c, ss, actions, i, k);
    DecidedOne(c, ss[i], actions[i], ss[i + 1], k);
  }

  lemma {:induction false} StaysDecided(c: Config, ss: seq<Fleet>, actions: seq<Action>, i: nat, j: nat, k: nat)
    requires IsFleetRun(c, ss, actions) && i <= j < |ss| && k in ss[i].workers && Decided(ss[i].workers[k])
    ensures k in ss[j].workers && Decided(ss[j].workers[k])
    decreases j - i
  {
    if i < j {
      StaysDecided(c, ss, actions, i, j - 1, k);
      DecidedAt(c, ss, actions, j - 1, k);
    }
  }

  lemma PastItsLastLook(c: Config, w: Worker)
    requires WorkerKept(c, w) && w.main.claimed && !w.context.cancelled && Stage(w.main.pc) >= 7
    ensures Decided(w)
  {}

  /** A cancellation that comes after the worker's last look is never reported as "cancelled". */
  lemma TooLateToReport(c: Config, ss: seq<Fleet>, actions: seq<Action>, i: nat, j: nat, k: nat)
    requires IsFleetRun(c, ss, actions) && i <= j < |ss|
    requires k in ss[i].workers && ss[i].workers[k].main.claimed
    requires !ss[i].workers[k].context.cancelled && Stage(ss[i].workers[k].main.pc) >= 7
    ensures !Reports(ss[j], k, CancelledEvent)
  {
    FitsAt(c, ss, actions, i, k);
    PastItsLastLook(c, ss[i].workers[k]);
    StaysDecided(c, ss, actions, i, j, k);
    FitsAt(c, ss, actions, j, k);
    if HasReturned(ss[j], k) { ReportOf(c, ss[j].workers[k]); }
  }

  /** Over the whole run: "cancelled" is reported if and only if no store call of the worker failed and
      there was a moment at which its context was cancelled, its last look was still to come, and
      after which no start of rsync failed. */
  lemma CancelledExactly(c: Config, ss: seq<Fleet>, actions: seq<Action>, j: nat, k: nat)
    requires IsFleetRun(c, ss, actions) && j < |ss| && HasReturned(ss[j], k)
    ensures Reports(ss[j], k, CancelledEvent) <==>
      && !CallFailed(actions, j, k)
      && exists i :: 0 <= i <= j && CancelledInTime(ss[i], k) && !StartFailed(actions, i, j, k)
  {
    LastEventExplained(c, ss, actions, j, k);
    if Reports(ss[j], k, CancelledEvent) {
      var n :| 0 <= n < j && SeesCancel(ss[n], actions[n], k);
      FitsAt(c, ss, actions, n, k);
      ReportedAsCancelled(c, ss, actions, n, j, k);
    }
    if i :| 0 <= i <= j && CancelledInTime(ss[i], k) && !StartFailed(actions, i, j, k) {
      ReportedAsCancelled(c, ss, actions, i, j, k);
    }
  }

  lemma CancelledLocally(c: Config, w: Worker)
    requires WorkerKept(c, w) && w.main.claimed && w.main.pc == Returned && w.late == {} && w.main.runErr == Canceled
    ensures w.main.saved.Some? && w.main.monitorErr == None
  {}

  /** What is reported as "cancelled" is stored as cancelled, in every later state of the run until the
      record's day has passed. */
  lemma CancelledIsStored(c: Config, ss: seq<Fleet>, actions: seq<Action>, i: nat, j: nat, k: nat)
    requires IsFleetRun(c, ss, actions) && i <= j < |ss| && Reports(ss[i], k, CancelledEvent)
    ensures
      var w := ss[i].workers[k];
      && w.main.saved.Some? && w.main.saved.value.state == Cancelled && w.main.saved.value.path == w.path
      && w.main.saved.value.error == "context canceled"
      && Ends(ss[j], w.id, w.main.saved.value)
  {
    FitsAt(c, ss, actions, i, k);
    ReportOf(c, ss[i].workers[k]);
    CancelledLocally(c, ss[i].workers[k]);
    FinalRecordExplained(c, ss, actions, i, k);
    ReturnedStays(c, ss, actions, i, j, k);
    FinalRecordExplained(c, ss, actions, j, k);
  }

  /****** A failed start *******/

  /** The worker has failed with this message. */
  predicate FailedWith(w: Worker, message: string) {
    w.main.claimed && Stage(w.main.pc) >= 7 && w.main.runErr == OtherErr(message)
  }

  lemma FailedWithOne(c: Config, s: Fleet, a: Action, s': Fleet, k: nat, message: string)
    requires k in s.workers && Acts(c, s, a, s', k) && WorkerKept(c, s.workers[k]) && s.workers[k].main.claimed
    requires a == Moves(k, Launch(false, message)) || FailedWith(s.workers[k], message)
    ensures FailedWith(s'.workers[k], message)
  {
    ActProceeds(c, s, a, s', k);
  }

  lemma {:induction false} StaysFailedWith(c: Config, ss: seq<Fleet>, actions: seq<Action>, n: nat, j: nat, k: nat)
    requires IsFleetRun(c, ss, actions) && n < j < |ss| && FailsStart(actions[n], k)
    ensures k in ss[j].workers && FailedWith(ss[j].workers[k], actions[n].move.message)
    decreases j - n
  {
    if n + 1 < j { StaysFailedWith(c, ss, actions, n, j - 1, k); }
    assert StepAt(c, ss, actions, n);
    ActsAt(c, ss, actions, j - 1, k);
    LaunchingIsClaimed(c, ss[j - 1].workers[k]);
    FailedWithOne(c, ss[j - 1], actions[j - 1], ss[j], k, actions[n].move.message);
  }

  lemma LaunchingIsClaimed(c: Config, w: Worker)
    requires WorkerKept(c, w)
    ensures w.main.pc == Launching ==> w.main.claimed
  {}

  /** The message of a failed start is the error text of the record the worker ends with, unless the worker
      lost the store. */
  lemma FailedStartIsStored(c: Config, ss: seq<Fleet>, actions: seq<Action>, n: nat, j: nat, k: nat)
    requires IsFleetRun(c, ss, actions) && n < j < |ss| && FailsStart(actions[n], k)
    requires k in ss[j].workers && ss[j].workers[k].main.saved.Some? && ss[j].workers[k].main.monitorErr == None
    ensures
      var r := ss[j].workers[k].main.saved.value;
      r.state == Failed && r.error == actions[n].move.message && Ends(ss[j], ss[j].workers[k].id, r)
  {
    StaysFailedWith(c, ss, actions, n, j, k);
    FinalRecordExplained(c, ss, actions, j, k);
  }

  /****** Cancelled is justified *******/

  /** The monitor of a claimed worker has lost the store. */
  predicate Lost(w: Worker) {
    w.main.claimed && MonitorFailing(w.monitor, w.main.monitorErr)
  }

  lemma LostMove(c: Config, w: Worker, m: Move, now: nat)
    requires WorkerKept(c, w) && Lost(w) && Enabled(w, m)
    ensures Lost(After(c, w, m, now))
  {}

  lemma LostOne(c: Config, s: Fleet, a: Action, s': Fleet, k: nat)
    requires k in s.workers && Acts(c, s, a, s', k) && WorkerKept(c, s.workers[k]) && Lost(s.workers[k])
    ensures Lost(s'.workers[k])
  {
    if a.Moves? && a.worker == k {
      LostMove(c, s.workers[k], a.move, s.now);
    }
  }

  lemma LostAt(c: Config, ss: seq<Fleet>, actions: seq<Action>, i: nat, k: nat)
    requires IsFleetRun(c, ss, actions) && i < |actions| && k in ss[i].workers && Lost(ss[i].workers[k])
    ensures k in ss[i + 1].workers && Lost(ss[i + 1].workers[k])
  {
    ActsAt(c, ss, actions, i, k);
    LostOne(c, ss[i], actions[i], ss[i + 1], k);
  }

  lemma {:induction false} StillLost(c: Config, ss: seq<Fleet>, actions: seq<Action>, i: nat, j: nat, k: nat)
    requires IsFleetRun(c, ss, actions) && i <= j < |ss| && k in ss[i].workers && Lost(ss[i].workers[k])
    ensures k in ss[j].workers && Lost(ss[j].workers[k])
    decreases j - i
  {
    if i < j {
      StillLost(c, ss, actions, i, j - 1, k);
      LostAt(c, ss, actions, j - 1, k);
    }
  }

  /** A worker whose context is cancelled before its last look, and that has not lost the store, was told
      of a stop or cancelled by its parent. */
  lemma CauseOf(c: Config, s: Fleet, w: Worker)
    requires WorkerFits(c, s, w) && w.main.claimed && w.context.cancelled && Stage(w.main.pc) <= 6 && !Lost(w)
    ensures w.context.parent || w.id in s.stopped
  {}

  lemma LookingIsClaimed(c: Config, w: Worker)
    requires WorkerKept(c, w) && Looking(w.main.pc)
    ensures w.main.claimed && Stage(w.main.pc) <= 6
  {}

  /** Deciding on "cancelled" means having seen the cancellation and not having lost the store. */
  lemma CancelledOutcome(c: Config, w: Worker)
    requires WorkerKept(c, w) && w.main.claimed && Stage(w.main.pc) >= 9
    requires Outcome(w.main.runErr, w.main.monitorErr) == Cancelled
    ensures w.main.runErr == Canceled && w.main.monitorErr == None && !Lost(w)
  {}

  /** The record of worker `k` carried the stop flag at some moment up to state `n`. */
  ghost predicate WasFlagged(ss: seq<Fleet>, n: nat, id: string)
    requires n < |ss|
  {
    exists f :: 0 <= f <= n && id in ss[f].hash && ss[f].hash[id].stop
  }

  /** When a worker decides on "cancelled", it has looked at its context and found it cancelled, and
      already by that look its record had carried the stop flag or the parent context was cancelled;
      the loss of the store never looks like a cancellation. */
  lemma CancelledIsJustified(c: Config, ss: seq<Fleet>, actions: seq<Action>, i: nat, k: nat) returns (n: nat)
    requires IsFleetRun(c, ss, actions) && i < |ss| && k in ss[i].workers
    requires
      var w := ss[i].workers[k];
      w.main.claimed && Stage(w.main.pc) >= 9 && Outcome(w.main.runErr, w.main.monitorErr) == Cancelled
    ensures ss[i].workers[k].main.monitorErr == None
    ensures n < i && SeesCancel(ss[n], actions[n], k)
    ensures ss[n].workers[k].context.parent || WasFlagged(ss, n, ss[i].workers[k].id)
  {
    FitsAt(c, ss, actions, i, k);
    CancelledOutcome(c, ss[i].workers[k]);
    CanceledMeansSeen(c, ss, actions, i, k);
    n :| 0 <= n < i && SeesCancel(ss[n], actions[n], k);
    var w := ss[n].workers[k];
    FitsAt(c, ss, actions, n, k);
    LookingIsClaimed(c, w);
    if Lost(w) { StillLost(c, ss, actions, n, i, k); }
    CauseOf(c, ss[n], w);
    if !w.context.parent {
      StoppedWasFlagged(c, ss, actions, n, w.id);
      WorkersStay(c, ss, actions, n, i, k);
    }
  }
}
