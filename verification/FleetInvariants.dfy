/** What ties each worker to its record, kept by every action of every party. */
module FleetInvariants {
  import opened Common
  import opened SyncStore
  import opened StoreRuns
  import opened SyncWorker
  import opened WorkerInvariants
  import opened Fleet

  /** The worker's claim has taken effect and the worker knows or is about to learn it. */
  predicate HasClaim(w: Worker) {
    w.main.claimed || (w.main.pc == Claiming && Succeeded(w.main.call))
  }

  /** The final record, once written, stays as written until it is deleted after its expiry. */
  predicate Final(h: Hash, now: int, id: string, r: Record) {
    && !Active(r)
    && (id in h ==> h[id] == r)
    && (now < r.expires ==> id in h)
  }

  /** The record that ends a run of this worker. */
  predicate FinalFor(c: Config, main: Main, output: Text, path: string, r: Record) {
    && r.state == Outcome(main.runErr, main.monitorErr)
    && r.error == Message(FinalErr(main.runErr, main.monitorErr))
    && r.path == path
    && (main.monitorErr == None && !main.updateFailed ==> r.fields == FieldsOf(c, output))
  }

  /** The worker's last report of progress is in the store. */
  predicate ProgressSaved(main: Main) {
    && main.monitorErr == None
    && ((main.pc == SavingProgress && Succeeded(main.call)) || (main.pc == Finishing && !main.updateFailed))
  }

  predicate ClaimReply(main: Main, h: Hash, id: string) {
    main.pc == Claiming && Succeeded(main.call) && id in h ==> h[id].path == main.call.reply.value.value.path
  }

  predicate RecordKept(c: Config, now: int, h: Hash, w: Worker) {
    && (w.id in h ==> h[w.id].state != Queued && h[w.id].state != Removing)
    && (w.id in h && !(w.main.claimed && Stage(w.main.pc) >= 10) ==> h[w.id].state == Running)
    && (w.main.claimed && w.id in h ==> h[w.id].path == w.path)
    && ClaimReply(w.main, h, w.id)
    && (ProgressSaved(w.main) && w.id in h && h[w.id].state == Running ==>
          h[w.id].fields == FieldsOf(c, w.rsync.output))
    && (w.main.pc == Finishing && Succeeded(w.main.call) ==>
          var r := w.main.call.reply.value.value;
          Final(h, now, w.id, r) && FinalFor(c, w.main, w.rsync.output, w.path, r))
    && (w.main.saved.Some? ==>
          Final(h, now, w.id, w.main.saved.value) && FinalFor(c, w.main, w.rsync.output, w.path, w.main.saved.value))
  }

  /** Every stop flag the worker has been told of was in the store. */
  predicate StopsKept(w: Worker, stopped: set<string>) {
    && (w.context.stopSeen ==> w.id in stopped)
    && (Succeeded(w.main.call) && w.main.call.reply.value.value.stop ==> w.id in stopped)
    && (Succeeded(w.monitor.call) && w.monitor.call.reply.value.value.stop ==> w.id in stopped)
  }

  predicate StoreKept(c: Config, now: int, h: Hash, syncIds: set<string>, w: Worker) {
    HasClaim(w) ==> w.id in syncIds && RecordKept(c, now, h, w)
  }

  predicate IdsKept(h: Hash, syncIds: set<string>, removalIds: set<string>) {
    && syncIds !! removalIds
    && (forall k :: k in h ==>
          && (k in syncIds || k in removalIds)
          && (h[k].state == Queued || h[k].state == Running ==> k in syncIds)
          && (h[k].state == Removing ==> k in removalIds))
  }

  predicate FlagsKept(h: Hash, stopped: set<string>) {
    forall k :: k in h && h[k].stop ==> k in stopped
  }

  ghost predicate HashKept(s: Fleet) {
    && IdsKept(s.hash, s.syncIds, s.removalIds)
    && FlagsKept(s.hash, s.stopped)
    && Exclusive(s.hash, Seconds(s.now))
    && Bounded(s.hash, Seconds(s.now))
  }

  predicate WorkerFits(c: Config, s: Fleet, w: Worker) {
    && WorkerKept(c, w)
    && StoreKept(c, Seconds(s.now), s.hash, s.syncIds, w)
    && StopsKept(w, s.stopped)
  }

  ghost predicate ClaimsDiffer(workers: map<nat, Worker>) {
    forall j, k :: j in workers && k in workers && j != k && HasClaim(workers[j]) && HasClaim(workers[k]) ==>
      workers[j].id != workers[k].id
  }

  ghost predicate FleetKept(c: Config, s: Fleet) {
    && HashKept(s)
    && (forall k :: k in s.workers ==> WorkerFits(c, s, s.workers[k]))
    && ClaimsDiffer(s.workers)
  }

  /****** What the others may do to a claimed record *******/

  /** Anyone but the claiming worker may at most set the stop flag and the error text, extend the
      lease, or delete the record once it has expired. */
  predicate Tolerable(now: int, h: Hash, h': Hash, id: string) {
    && (id in h' ==>
          && id in h
          && h'[id].path == h[id].path && h'[id].state == h[id].state && h'[id].fields == h[id].fields
          && h'[id].expires >= h[id].expires
          && (!Active(h[id]) ==> h'[id] == h[id]))
    && (id in h && !Expired(h[id], now) ==> id in h')
  }

  lemma OtherIdTolerable(now: int, h: Hash, id: string, other: string, op: Op)
    requires other != id
    ensures Tolerable(now, h, AfterUpdate(now, h, other, op), id)
  {}

  lemma LaunchFailureTolerable(now: int, h: Hash, id: string, other: string, message: string)
    requires Bounded(h, now) && (id in h ==> h[id].state != Queued && h[id].state != Removing)
    ensures Tolerable(now, h, AfterUpdate(now, h, other, LaunchFailed(message)), id)
  {
    if other == id && id in h {
      assert BoundedRecord(h[id], now);
    }
  }

  lemma ClaimTolerable(now: int, h: Hash, id: string)
    requires id in h ==> h[id].state != Queued
    ensures Tolerable(now, h, AfterUpdate(now, h, id, Claim), id)
  {}

  lemma ReserveTolerable(now: int, h: Hash, request: Request, h': Hash, reply: Reply, id: string)
    requires request.Reserve? && request.id != id && Step(now, h, request, h', reply)
    ensures Tolerable(now, h, h', id)
  {}

  lemma ListTolerable(now: int, h: Hash, id: string)
    ensures Tolerable(now, h, Unexpired(h, now), id)
  {}

  lemma StopTolerable(now: int, h: Hash, path: string, id: string)
    ensures Tolerable(now, h, AfterStop(h, now, path), id)
  {}

  lemma RecordStable(c: Config, now: int, h: Hash, h': Hash, w: Worker)
    requires RecordKept(c, now, h, w) && Tolerable(now, h, h', w.id)
    ensures RecordKept(c, now, h', w)
  {}

  lemma StoreStable(c: Config, now: int, h: Hash, h': Hash, syncIds: set<string>, syncIds': set<string>, w: Worker)
    requires StoreKept(c, now, h, syncIds, w) && syncIds <= syncIds'
    requires HasClaim(w) ==> Tolerable(now, h, h', w.id)
    ensures StoreKept(c, now, h', syncIds', w)
  {
    if HasClaim(w) { RecordStable(c, now, h, h', w); }
  }

  lemma StoreOverTime(c: Config, now: int, later: int, h: Hash, syncIds: set<string>, w: Worker)
    requires StoreKept(c, now, h, syncIds, w) && now <= later
    ensures StoreKept(c, later, h, syncIds, w)
  {}

  /****** The worker's own moves *******/

  lemma MainMoveFits(c: Config, now: int, h: Hash, w: Worker, ms: nat)
    requires AfterClaim(c, w) && RecordKept(c, now, h, w) && MainCanMove(w)
    ensures RecordKept(c, now, h, MainMove(c, w, ms))
  {}

  lemma SaveReturnFits(c: Config, now: int, h: Hash, w: Worker, ok: bool)
    requires AfterClaim(c, w) && RecordKept(c, now, h, w)
    requires w.main.pc == SavingProgress && w.main.call.Out? && (ok ==> Succeeded(w.main.call))
    ensures RecordKept(c, now, h, SaveReturn(w, ok))
  {}

  lemma FinishReturnFits(c: Config, now: int, h: Hash, w: Worker, ok: bool)
    requires AfterClaim(c, w) && RecordKept(c, now, h, w)
    requires w.main.pc == Finishing && w.main.call.Out? && (ok ==> Succeeded(w.main.call))
    ensures RecordKept(c, now, h, FinishReturn(w, ok))
  {}

  /** Moves that leave the main thread's own data, the path and the output alone. */
  lemma SideMoveFits(c: Config, now: int, h: Hash, w: Worker, v: Worker)
    requires RecordKept(c, now, h, w)
    requires v.id == w.id && v.path == w.path && v.main == w.main && v.rsync.output == w.rsync.output
    ensures RecordKept(c, now, h, v)
  {}

  lemma EarlyMoveFits(c: Config, now: int, h: Hash, w: Worker, v: Worker)
    requires RecordKept(c, now, h, w) && w.main.claimed && v.main.claimed
    requires v.id == w.id && v.path == w.path && v.main.saved == w.main.saved
    requires w.main.saved == None && Stage(w.main.pc) <= 8 && Stage(v.main.pc) <= 8 && v.main.pc != Claiming
    ensures RecordKept(c, now, h, v)
  {}

  lemma ClaimReturnFits(c: Config, now: int, h: Hash, w: Worker, ms: nat, ok: bool)
    requires BeforeClaim(w) && w.main.pc == Claiming && (ok ==> Succeeded(w.main.call))
    requires HasClaim(w) ==> RecordKept(c, now, h, w)
    ensures HasClaim(ClaimReturn(c, w, ms, ok)) ==> HasClaim(w) && RecordKept(c, now, h, ClaimReturn(c, w, ms, ok))
  {}

  lemma RsyncMoveFits(c: Config, now: int, h: Hash, w: Worker, m: Move, ms: nat)
    requires AfterClaim(c, w) && RecordKept(c, now, h, w) && Enabled(w, m)
    requires m.Prints? || m.Exits? || m.WaiterMoves? || m.WatcherSeesDone? || m.WatcherSeesCancel?
          || m.WatcherRechecks? || m.TimerFires? || m.Launch?
    ensures RecordKept(c, now, h, After(c, w, m, ms))
  {
    if m.Prints? || m.Launch? {
      EarlyMoveFits(c, now, h, w, After(c, w, m, ms));
    } else {
      SideMoveFits(c, now, h, w, After(c, w, m, ms));
    }
  }

  lemma MonitorMoveFits(c: Config, now: int, h: Hash, w: Worker, m: Move, ms: nat)
    requires AfterClaim(c, w) && RecordKept(c, now, h, w) && Enabled(w, m)
    requires m.MonitorMoves? || m.MonitorSeesCancel? || m.MonitorTicks? || m.MonitorReturns? || m.ParentCancels?
    ensures RecordKept(c, now, h, After(c, w, m, ms))
  {
    SideMoveFits(c, now, h, w, After(c, w, m, ms));
  }

  lemma ClaimedMoveFits(c: Config, now: int, h: Hash, w: Worker, m: Move, ms: nat)
    requires AfterClaim(c, w) && RecordKept(c, now, h, w) && Enabled(w, m)
    ensures RecordKept(c, now, h, After(c, w, m, ms))
  {
    match m
    case MainMoves => MainMoveFits(c, now, h, w, ms);
    case MainReturns(ok) =>
      if w.main.pc == SavingProgress {
        SaveReturnFits(c, now, h, w, ok);
      } else {
        FinishReturnFits(c, now, h, w, ok);
      }
    case MonitorMoves => MonitorMoveFits(c, now, h, w, m, ms);
    case MonitorSeesCancel => MonitorMoveFits(c, now, h, w, m, ms);
    case MonitorTicks => MonitorMoveFits(c, now, h, w, m, ms);
    case MonitorReturns(_, _) => MonitorMoveFits(c, now, h, w, m, ms);
    case ParentCancels => MonitorMoveFits(c, now, h, w, m, ms);
    case _ => RsyncMoveFits(c, now, h, w, m, ms);
  }

  lemma UnclaimedMoveFits(c: Config, now: int, h: Hash, w: Worker, m: Move, ms: nat)
    requires BeforeClaim(w) && Enabled(w, m)
    requires HasClaim(w) ==> RecordKept(c, now, h, w)
    ensures HasClaim(After(c, w, m, ms)) ==> HasClaim(w) && RecordKept(c, now, h, After(c, w, m, ms))
  {
    if m.MainReturns? {
      ClaimReturnFits(c, now, h, w, ms, m.ok);
    } else {
      assert m.ParentCancels?;
      if HasClaim(w) { SideMoveFits(c, now, h, w, After(c, w, m, ms)); }
    }
  }

  lemma MainReturnStops(c: Config, w: Worker, ok: bool, ms: nat, stopped: set<string>)
    requires WorkerKept(c, w) && Enabled(w, MainReturns(ok)) && StopsKept(w, stopped)
    ensures StopsKept(MainReturn(c, w, ms, ok), stopped)
  {}

  lemma MonitorReturnStops(c: Config, w: Worker, ok: bool, message: string, ms: nat, stopped: set<string>)
    requires Enabled(w, MonitorReturns(ok, message)) && StopsKept(w, stopped)
    ensures StopsKept(MonitorReturn(c, w, ms, ok, message), stopped)
  {}

  lemma MainMoveStops(c: Config, w: Worker, ms: nat, stopped: set<string>)
    requires MainCanMove(w) && StopsKept(w, stopped)
    ensures StopsKept(MainMove(c, w, ms), stopped)
  {}

  lemma MoveStops(c: Config, w: Worker, m: Move, ms: nat, stopped: set<string>)
    requires WorkerKept(c, w) && Enabled(w, m) && StopsKept(w, stopped)
    ensures StopsKept(After(c, w, m, ms), stopped)
  {
    match m
    case MainMoves => MainMoveStops(c, w, ms, stopped);
    case MainReturns(ok) => MainReturnStops(c, w, ok, ms, stopped);
    case MonitorReturns(ok, message) => MonitorReturnStops(c, w, ok, message, ms, stopped);
    case _ =>
  }

  /** A worker's own move keeps it in step with its record. */
  lemma MoveFits(c: Config, s: Fleet, w: Worker, m: Move)
    requires WorkerFits(c, s, w) && Enabled(w, m)
    ensures WorkerFits(c, s, After(c, w, m, s.now))
    ensures HasClaim(After(c, w, m, s.now)) ==> HasClaim(w)
    ensures After(c, w, m, s.now).id == w.id
  {
    MoveKeepsWorker(c, w, m, s.now);
    MoveStops(c, w, m, s.now, s.stopped);
    if w.main.claimed {
      ClaimedMoveFits(c, Seconds(s.now), s.hash, w, m, s.now);
    } else {
      UnclaimedMoveFits(c, Seconds(s.now), s.hash, w, m, s.now);
    }
  }

  /****** The store executing a worker's own calls *******/

  lemma ClaimAnswerFits(c: Config, now: int, h: Hash, w: Worker, ms: nat)
    requires BeforeClaim(w) && w.main.pc == Claiming
    ensures
      var reply := Updated(now, h, w.id, Claim);
      var v := Answered(c, w, false, reply, ms);
      HasClaim(v) ==> QueuedUnder(h, w.id) && RecordKept(c, now, AfterUpdate(now, h, w.id, Claim), v)
  {}

  lemma SaveAnswerFits(c: Config, now: int, h: Hash, w: Worker, ms: nat)
    requires AfterClaim(c, w) && RecordKept(c, now, h, w) && w.main.pc == SavingProgress
    ensures
      var v := Answered(c, w, false, Updated(now, h, w.id, w.main.call.op), ms);
      RecordKept(c, now, AfterUpdate(now, h, w.id, w.main.call.op), v)
  {}

  lemma FinishAnswerFits(c: Config, now: int, h: Hash, w: Worker, ms: nat)
    requires AfterClaim(c, w) && RecordKept(c, now, h, w) && w.main.pc == Finishing
    ensures
      var v := Answered(c, w, false, Updated(now, h, w.id, w.main.call.op), ms);
      RecordKept(c, now, AfterUpdate(now, h, w.id, w.main.call.op), v)
  {}

  lemma MonitorAnswerFits(c: Config, now: int, h: Hash, w: Worker, ms: nat)
    requires AfterClaim(c, w) && RecordKept(c, now, h, w) && w.monitor.call.Out?
    ensures
      var v := Answered(c, w, true, Updated(now, h, w.id, w.monitor.call.op), ms);
      RecordKept(c, now, AfterUpdate(now, h, w.id, w.monitor.call.op), v)
  {}

  lemma LateAnswerFits(c: Config, now: int, h: Hash, w: Worker, op: Op)
    requires AfterClaim(c, w) && RecordKept(c, now, h, w) && op in w.late
    ensures RecordKept(c, now, AfterUpdate(now, h, w.id, op), w)
  {}

  lemma AnswerStays(c: Config, w: Worker, toMonitor: bool, reply: Result<Record, ScriptError>, ms: nat)
    requires Busy(w, toMonitor)
    ensures
      var v := Answered(c, w, toMonitor, reply, ms);
      && v.id == w.id && v.main.claimed == w.main.claimed && v.main.pc == w.main.pc
      && (reply.Err? && !w.main.claimed && !toMonitor ==> !HasClaim(v))
  {}

  lemma AnswerStops(c: Config, now: int, h: Hash, w: Worker, toMonitor: bool, ms: nat, stopped: set<string>)
    requires Busy(w, toMonitor) && StopsKept(w, stopped)
    ensures
      var op := CallOf(w, toMonitor).op;
      var h' := AfterUpdate(now, h, w.id, op);
      StopsKept(Answered(c, w, toMonitor, Updated(now, h, w.id, op), ms), stopped + set k | k in h' && h'[k].stop)
  {
    var op := CallOf(w, toMonitor).op;
    var reply := Updated(now, h, w.id, op);
    var h' := AfterUpdate(now, h, w.id, op);
    if reply.Ok? {
      assert w.id in h' && h'[w.id] == reply.value;
    }
  }

  /** The store executing the call in a worker's hands keeps the worker in step with its record. */
  lemma AnswerFits(c: Config, s: Fleet, w: Worker, toMonitor: bool)
    requires WorkerFits(c, s, w) && IdsKept(s.hash, s.syncIds, s.removalIds) && Busy(w, toMonitor)
    ensures
      var op, now := CallOf(w, toMonitor).op, Seconds(s.now);
      var v := Answered(c, w, toMonitor, Updated(now, s.hash, w.id, op), s.now);
      && WorkerFits(c, WithHash(s, AfterUpdate(now, s.hash, w.id, op)), v)
      && v.id == w.id
      && (HasClaim(v) ==> HasClaim(w) || QueuedUnder(s.hash, w.id))
  {
    var op, now := CallOf(w, toMonitor).op, Seconds(s.now);
    var reply := Updated(now, s.hash, w.id, op);
    AnswerKeepsWorker(c, w, toMonitor, reply, s.now);
    AnswerStays(c, w, toMonitor, reply, s.now);
    AnswerStops(c, now, s.hash, w, toMonitor, s.now, s.stopped);
    if !w.main.claimed {
      ClaimAnswerFits(c, now, s.hash, w, s.now);
    } else if toMonitor {
      MonitorAnswerFits(c, now, s.hash, w, s.now);
    } else if w.main.pc == SavingProgress {
      SaveAnswerFits(c, now, s.hash, w, s.now);
    } else {
      FinishAnswerFits(c, now, s.hash, w, s.now);
    }
  }
}
