/** What is true of every worker in every run, whatever the interleaving and whichever calls fail. */
module FleetTheorems {
  import opened Common
  import opened SyncStore
  import opened StoreRuns
  import opened RsyncProgress
  import opened SyncWorker
  import opened WorkerInvariants
  import opened Fleet
  import opened FleetInvariants
  import opened FleetRuns

  /****** What a worker publishes and starts *******/

  predicate Terminal(e: Event) {
    e != Start
  }

  /** Nothing, a terminal event, a start event, or a start event and a terminal event. */
  predicate ProperTrace(events: seq<Event>) {
    || events == []
    || (|events| == 1)
    || (|events| == 2 && events[0] == Start && Terminal(events[1]))
  }

  /** A worker's events are empty if it never got its claim, and otherwise one terminal event or a
      start event and one terminal event; rsync is started at most once and only after the start
      event. */
  lemma WorkerTraces(c: Config, ss: seq<Fleet>, actions: seq<Action>, i: nat, k: nat)
    requires IsFleetRun(c, ss, actions) && i < |ss| && k in ss[i].workers
    ensures
      var w := ss[i].workers[k];
      && ProperTrace(w.trace.events)
      && w.trace.launches <= 1
      && (w.trace.launches == 1 ==> w.trace.events != [] && w.trace.events[0] == Start)
      && (!w.main.claimed ==> w.trace.events == [])
      && (w.main.claimed && w.main.pc == Returned ==>
            w.trace.events != [] && Terminal(w.trace.events[|w.trace.events| - 1]))
      && (w.main.pc != Returned ==> w.trace.events == [] || w.trace.events == [Start])
  {
    FitsAt(c, ss, actions, i, k);
  }

  /** Of all the workers started for one reservation, at most one ever starts rsync. */
  lemma OneRsyncPerReservation(c: Config, ss: seq<Fleet>, actions: seq<Action>, i: nat, j: nat, k: nat)
    requires IsFleetRun(c, ss, actions) && i < |ss| && j in ss[i].workers && k in ss[i].workers && j != k
    requires ss[i].workers[j].id == ss[i].workers[k].id
    ensures ss[i].workers[j].trace.launches + ss[i].workers[k].trace.launches <= 1
  {
    RunKeeps(c, ss, actions, i);
    assert WorkerFits(c, ss[i], ss[i].workers[j]) && WorkerFits(c, ss[i], ss[i].workers[k]);
  }

  /****** Stop flags *******/

  lemma NextStopped(c: Config, s: Fleet, a: Action, s': Fleet, id: string)
    requires Next(c, s, a, s') && id in s'.stopped
    ensures id in s.stopped || (id in s'.hash && s'.hash[id].stop)
  {}

  /** An id counts as stopped only if its record carried the stop flag at some earlier moment. */
  lemma {:induction false} StoppedWasFlagged(c: Config, ss: seq<Fleet>, actions: seq<Action>, i: nat, id: string)
    requires IsFleetRun(c, ss, actions) && i < |ss| && id in ss[i].stopped
    ensures exists j :: 0 <= j <= i && id in ss[j].hash && ss[j].hash[id].stop
  {
    if i > 0 {
      assert StepAt(c, ss, actions, i - 1);
      NextStopped(c, ss[i - 1], actions[i - 1], ss[i], id);
      if id in ss[i - 1].stopped {
        StoppedWasFlagged(c, ss, actions, i - 1, id);
      }
    }
  }

  /****** Complete is end to end *******/

  /** The record `r` ends the run: it is in the store until it expires, and nothing changes it. */
  predicate Ends(s: Fleet, id: string, r: Record) {
    Final(s.hash, Seconds(s.now), id, r)
  }

  lemma CompleteLocally(c: Config, w: Worker)
    requires WorkerKept(c, w) && Complete in w.trace.events
    ensures w.main.claimed && w.main.pc == Returned && w.rsync.process == Exited(true) && w.main.monitorErr == None
    ensures w.main.saved.Some? && !w.main.updateFailed && Outcome(w.main.runErr, w.main.monitorErr) == Completed
  {}

  lemma CompleteNow(c: Config, s: Fleet, w: Worker)
    requires WorkerFits(c, s, w) && Complete in w.trace.events
    ensures
      && w.main.pc == Returned && w.rsync.process == Exited(true) && w.main.monitorErr == None
      && w.main.saved.Some? && w.main.saved.value.state == Completed && w.main.saved.value.error == ""
      && w.main.saved.value.path == w.path
      && w.main.saved.value.fields == FieldsOf(c, w.rsync.output)
      && Ends(s, w.id, w.main.saved.value)
  {
    CompleteLocally(c, w);
  }

  lemma ReturnedMove(c: Config, w: Worker, m: Move, now: nat)
    requires WorkerKept(c, w) && w.main.pc == Returned && Enabled(w, m)
    ensures
      var v := After(c, w, m, now);
      v.main == w.main && v.trace == w.trace && v.rsync == w.rsync && v.id == w.id && v.path == w.path
  {}

  predicate SameReport(v: Worker, w: Worker) {
    v.main == w.main && v.trace == w.trace && v.rsync == w.rsync && v.id == w.id && v.path == w.path
  }

  lemma ReturnedStaysOne(c: Config, s: Fleet, a: Action, s': Fleet, k: nat)
    requires k in s.workers && Acts(c, s, a, s', k) && WorkerKept(c, s.workers[k]) && s.workers[k].main.pc == Returned
    ensures SameReport(s'.workers[k], s.workers[k])
  {
    if a.Moves? && a.worker == k {
      ReturnedMove(c, s.workers[k], a.move, s.now);
    }
  }

  lemma {:induction false} ReturnedStays(c: Config, ss: seq<Fleet>, actions: seq<Action>, i: nat, j: nat, k: nat)
    requires IsFleetRun(c, ss, actions) && i <= j < |ss| && k in ss[i].workers && ss[i].workers[k].main.pc == Returned
    ensures k in ss[j].workers && SameReport(ss[j].workers[k], ss[i].workers[k])
    decreases j - i
  {
    if i < j {
      ReturnedStays(c, ss, actions, i, j - 1, k);
      ActsAt(c, ss, actions, j - 1, k);
      ReturnedStaysOne(c, ss[j - 1], actions[j - 1], ss[j], k);
    }
  }

  /** If a worker has published "complete", rsync had succeeded and the monitor had not failed, the
      store was given a record in state completed whose progress is what all of rsync's output
      amounts to, and in every later state of the run that record is still there, unchanged, until
      its day has passed. */
  lemma CompleteIsEndToEnd(c: Config, ss: seq<Fleet>, actions: seq<Action>, i: nat, j: nat, k: nat)
    requires IsFleetRun(c, ss, actions) && i <= j < |ss| && k in ss[i].workers
    requires Complete in ss[i].workers[k].trace.events
    ensures
      var w := ss[i].workers[k];
      && w.rsync.process == Exited(true)
      && w.main.monitorErr == None
      && w.main.saved.Some?
      && w.main.saved.value.state == Completed
      && w.main.saved.value.error == ""
      && w.main.saved.value.path == w.path
      && w.main.saved.value.fields ==
         Folded(c.speedOf, NO_PROGRESS, Split(w.rsync.output, IsSpace).done)
      && Ends(ss[i], w.id, w.main.saved.value)
      && Ends(ss[j], w.id, w.main.saved.value)
  {
    FitsAt(c, ss, actions, i, k);
    CompleteNow(c, ss[i], ss[i].workers[k]);
    ReturnedStays(c, ss, actions, i, j, k);
    FitsAt(c, ss, actions, j, k);
    CompleteNow(c, ss[j], ss[j].workers[k]);
  }

  /** The record a worker has ended with: its state, its path and the text of its error, in every later
      state of the run until its day has passed. */
  lemma FinalRecordExplained(c: Config, ss: seq<Fleet>, actions: seq<Action>, i: nat, k: nat)
    requires IsFleetRun(c, ss, actions) && i < |ss| && k in ss[i].workers && ss[i].workers[k].main.saved.Some?
    ensures
      var w := ss[i].workers[k];
      var r := w.main.saved.value;
      && r.path == w.path && Ends(ss[i], w.id, r)
      && (w.main.monitorErr.Some? ==>
            r.state == Failed && r.error == "worker lost Redis connection: " + w.main.monitorErr.value)
      && (w.main.monitorErr == None && w.main.runErr == Canceled ==>
            r.state == Cancelled && r.error == "context canceled")
      && (w.main.monitorErr == None && w.main.runErr == NoErr ==> r.state == Completed && r.error == "")
      && (w.main.monitorErr == None && w.main.runErr.OtherErr? ==>
            && r.state == Failed && r.error == w.main.runErr.message
            && (w.rsync.process == Exited(false) ==> r.error == "rsync failed"))
  {
    FitsAt(c, ss, actions, i, k);
  }

  /****** A stop before the claim *******/

  /** Once stopped, a reservation's workers learn of the stop with the claim itself. */
  predicate Harmless(w: Worker) {
    && (w.main.pc == Claiming && Succeeded(w.main.call) ==> w.main.call.reply.value.value.stop)
    && (w.main.claimed ==> w.main.stoppedAtClaim)
  }

  ghost predicate StopHolds(s: Fleet, id: string) {
    && id in s.syncIds
    && (id in s.hash ==> s.hash[id].stop)
    && (forall k :: k in s.workers && s.workers[k].id == id ==> Harmless(s.workers[k]))
  }

  lemma HarmlessReturn(c: Config, w: Worker, ok: bool, now: nat)
    requires WorkerKept(c, w) && Harmless(w) && Enabled(w, MainReturns(ok))
    ensures Harmless(MainReturn(c, w, now, ok))
  {}

  lemma HarmlessMove(c: Config, w: Worker, m: Move, now: nat)
    requires WorkerKept(c, w) && Harmless(w) && Enabled(w, m)
    ensures Harmless(After(c, w, m, now))
  {
    if m.MainReturns? {
      HarmlessReturn(c, w, m.ok, now);
    } else if w.main.claimed {
      MoveKeepsWorker(c, w, m, now);
    }
  }

  lemma HarmlessAnswer(c: Config, now: int, h: Hash, w: Worker, toMonitor: bool, ms: nat)
    requires WorkerKept(c, w) && Harmless(w) && Busy(w, toMonitor) && (w.id in h ==> h[w.id].stop)
    ensures Harmless(Answered(c, w, toMonitor, Updated(now, h, w.id, CallOf(w, toMonitor).op), ms))
  {}

  lemma StopHoldsInHash(c: Config, s: Fleet, a: Action, s': Fleet, id: string)
    requires Next(c, s, a, s') && id in s.syncIds && (id in s.hash ==> s.hash[id].stop)
    ensures id in s'.syncIds && (id in s'.hash ==> s'.hash[id].stop)
  {}

  lemma HarmlessOn(c: Config, s: Fleet, a: Action, s': Fleet, k: nat)
    requires k in s.workers && Acts(c, s, a, s', k) && WorkerKept(c, s.workers[k]) && Harmless(s.workers[k])
    requires s.workers[k].id in s.hash ==> s.hash[s.workers[k].id].stop
    ensures Harmless(s'.workers[k])
  {
    var w := s.workers[k];
    if a.Moves? && a.worker == k {
      HarmlessMove(c, w, a.move, s.now);
    } else if a.Answers? && a.worker == k {
      HarmlessAnswer(c, Seconds(s.now), s.hash, w, a.toMonitor, s.now);
    }
  }

  lemma SameId(c: Config, s: Fleet, a: Action, s': Fleet, k: nat)
    requires k in s.workers && Acts(c, s, a, s', k) && WorkerKept(c, s.workers[k])
    ensures s'.workers[k].id == s.workers[k].id
  {}

  lemma NewcomersAreNew(c: Config, s: Fleet, a: Action, s': Fleet, k: nat)
    requires Next(c, s, a, s') && k in s'.workers && k !in s.workers
    ensures s'.workers[k] == NewWorker(s'.workers[k].id)
  {}

  lemma StopHoldsOn(c: Config, ss: seq<Fleet>, actions: seq<Action>, i: nat, id: string)
    requires IsFleetRun(c, ss, actions) && i < |actions| && StopHolds(ss[i], id)
    ensures StopHolds(ss[i + 1], id)
  {
    assert id in ss[i + 1].syncIds && (id in ss[i + 1].hash ==> ss[i + 1].hash[id].stop) by {
      assert StepAt(c, ss, actions, i);
      StopHoldsInHash(c, ss[i], actions[i], ss[i + 1], id);
    }
    var s' := ss[i + 1];
    forall k | k in s'.workers && s'.workers[k].id == id ensures Harmless(s'.workers[k]) {
      if k in ss[i].workers {
        ActsAt(c, ss, actions, i, k);
        SameId(c, ss[i], actions[i], ss[i + 1], k);
        HarmlessOn(c, ss[i], actions[i], ss[i + 1], k);
      } else {
        assert StepAt(c, ss, actions, i);
        NewcomersAreNew(c, ss[i], actions[i], ss[i + 1], k);
      }
    }
  }

  lemma {:induction false} StopHoldsLater(c: Config, ss: seq<Fleet>, actions: seq<Action>, i: nat, j: nat, id: string)
    requires IsFleetRun(c, ss, actions) && i <= j < |ss| && StopHolds(ss[i], id)
    ensures StopHolds(ss[j], id)
    decreases j - i
  {
    if i < j {
      StopHoldsLater(c, ss, actions, i, j - 1, id);
      StopHoldsOn(c, ss, actions, j - 1, id);
    }
  }

  /** A stop that arrives while a reservation is still queued means that no worker ever starts rsync
      for it, now or later. */
  lemma StopBeforeClaimPreventsRsync(c: Config, ss: seq<Fleet>, actions: seq<Action>, i: nat, j: nat, id: string,
                                     k: nat)
    requires IsFleetRun(c, ss, actions) && i <= j < |ss|
    requires QueuedUnder(ss[i].hash, id) && ss[i].hash[id].stop
    requires k in ss[j].workers && ss[j].workers[k].id == id
    ensures ss[j].workers[k].trace.launches == 0
  {
    RunKeeps(c, ss, actions, i);
    forall n | n in ss[i].workers && ss[i].workers[n].id == id ensures Harmless(ss[i].workers[n]) {
      assert WorkerFits(c, ss[i], ss[i].workers[n]);
    }
    StopHoldsLater(c, ss, actions, i, j, id);
    FitsAt(c, ss, actions, j, k);
  }

  /** A user's stop request sets the flag on the live download of that path, queued or running. */
  lemma StopSetsFlag(c: Config, s: Fleet, path: string, s': Fleet, id: string)
    requires Next(c, s, Stops(path), s') && id in s.hash
    requires s.hash[id].path == path && s.hash[id].expires > Seconds(s.now)
    requires s.hash[id].state == Queued || s.hash[id].state == Running
    ensures id in s'.hash && s'.hash[id] == s.hash[id].(stop := true)
  {}

  /** When a user stops the path of a reservation that is still waiting, no worker ever starts rsync for
      it. */
  lemma UserStopPreventsRsync(c: Config, ss: seq<Fleet>, actions: seq<Action>, i: nat, j: nat, id: string, k: nat)
    requires IsFleetRun(c, ss, actions) && i < |actions| && i < j < |ss|
    requires id in ss[i].hash && ss[i].hash[id].state == Queued && ss[i].hash[id].expires > Seconds(ss[i].now)
    requires actions[i] == Stops(ss[i].hash[id].path)
    requires k in ss[j].workers && ss[j].workers[k].id == id
    ensures ss[j].workers[k].trace.launches == 0
  {
    assert StepAt(c, ss, actions, i);
    StopSetsFlag(c, ss[i], ss[i].hash[id].path, ss[i + 1], id);
    StopBeforeClaimPreventsRsync(c, ss, actions, i + 1, j, id, k);
  }
}
