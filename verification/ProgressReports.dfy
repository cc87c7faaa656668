/** The progress that the store shows: at every moment it is what some part of rsync's output, from its
    beginning, amounts to. */
module ProgressReports {
  import opened Common
  import opened SyncStore
  import opened StoreRuns
  import opened RsyncProgress
  import opened SyncWorker
  import opened WorkerInvariants
  import opened Fleet
  import opened FleetInvariants
  import opened FleetRuns
  import opened FleetTheorems

  /** The progress that reading a text yields: split all of it at white space, apply the tokens. */
  function Amounts(c: Config, t: Text): Progress {
    Folded(c.speedOf, NO_PROGRESS, Split(t, IsSpace).done)
  }

  /** These fields are what some beginning of the output amounts to, the empty one included. */
  ghost predicate Real(c: Config, output: Text, fields: Progress) {
    exists t: Text :: t <= output && fields == Amounts(c, t)
  }

  lemma RealNow(c: Config, output: Text)
    ensures Real(c, output, FieldsOf(c, output))
  {
    assert output <= output && FieldsOf(c, output) == Amounts(c, output);
  }

  lemma RealAtFirst(c: Config, output: Text)
    ensures Real(c, output, Progress(0, 0, 0, []))
  {
    var t: Text := [];
    assert t <= output && Amounts(c, t) == Progress(0, 0, 0, []);
  }

  lemma RealLater(c: Config, output: Text, more: Text, fields: Progress)
    requires Real(c, output, fields) && output <= more
    ensures Real(c, more, fields)
  {
    var t: Text :| t <= output && fields == Amounts(c, t);
    assert t <= more;
  }

  /** A report sends real progress. */
  ghost predicate Sends(c: Config, output: Text, op: Op) {
    op.Report? ==> Real(c, output, op.fields)
  }

  lemma SendsLater(c: Config, output: Text, more: Text, op: Op)
    requires Sends(c, output, op) && output <= more
    ensures Sends(c, more, op)
  {
    if op.Report? { RealLater(c, output, more, op.fields); }
  }

  /** All the calls of a worker, under way or given up on, send real progress. */
  ghost predicate Truthful(c: Config, w: Worker) {
    && (w.main.call.Out? ==> Sends(c, w.rsync.output, w.main.call.op))
    && (w.monitor.call.Out? ==> Sends(c, w.rsync.output, w.monitor.call.op))
    && (forall op :: op in w.late ==> Sends(c, w.rsync.output, op))
  }

  /****** Moves *******/

  /** Output only grows, and a call begun by a move reports the output of that moment. */
  predicate MovesOn(c: Config, w: Worker, v: Worker) {
    && w.rsync.output <= v.rsync.output
    && (v.main.call.Out? ==>
          || (w.main.call.Out? && v.main.call.op == w.main.call.op)
          || v.main.call.op == Report(FieldsOf(c, w.rsync.output))
          || v.main.call.op.Finish?)
    && (v.monitor.call.Out? ==>
          || (w.monitor.call.Out? && v.monitor.call.op == w.monitor.call.op)
          || v.monitor.call.op == Report(FieldsOf(c, w.rsync.output)))
    && (forall op :: op in v.late ==>
          || op in w.late
          || (w.main.call.Out? && op == w.main.call.op)
          || (w.monitor.call.Out? && op == w.monitor.call.op))
  }

  lemma MainMoveMovesOn(c: Config, w: Worker, now: nat)
    requires WorkerKept(c, w) && MainCanMove(w)
    ensures MovesOn(c, w, MainMove(c, w, now))
  {}

  lemma MainReturnMovesOn(c: Config, w: Worker, ok: bool, now: nat)
    requires Enabled(w, MainReturns(ok))
    ensures MovesOn(c, w, MainReturn(c, w, now, ok))
  {
    match w.main.pc
    case Claiming => assert MainReturn(c, w, now, ok) == ClaimReturn(c, w, now, ok);
    case SavingProgress => assert MainReturn(c, w, now, ok) == SaveReturn(w, ok);
    case _ => assert MainReturn(c, w, now, ok) == FinishReturn(w, ok);
  }

  lemma LaunchMovesOn(c: Config, w: Worker, ok: bool, message: string, now: nat)
    requires WorkerKept(c, w) && w.main.pc == Launching
    ensures MovesOn(c, w, Launched(w, now, ok, message))
  {}

  lemma SideMovesOn(c: Config, w: Worker, m: Move, now: nat)
    requires Enabled(w, m) && !m.MainMoves? && !m.MainReturns? && !m.Launch?
    ensures MovesOn(c, w, After(c, w, m, now))
  {}

  lemma EveryMoveMovesOn(c: Config, w: Worker, m: Move, now: nat)
    requires WorkerKept(c, w) && Enabled(w, m)
    ensures MovesOn(c, w, After(c, w, m, now))
  {
    match m
    case MainMoves => MainMoveMovesOn(c, w, now);
    case MainReturns(ok) => MainReturnMovesOn(c, w, ok, now);
    case Launch(ok, message) => LaunchMovesOn(c, w, ok, message, now);
    case _ => SideMovesOn(c, w, m, now);
  }

  lemma MovesOnStaysTruthful(c: Config, w: Worker, v: Worker)
    requires Truthful(c, w) && MovesOn(c, w, v)
    ensures Truthful(c, v)
  {
    var before, after := w.rsync.output, v.rsync.output;
    RealNow(c, before);
    RealLater(c, before, after, FieldsOf(c, before));
    if w.main.call.Out? { SendsLater(c, before, after, w.main.call.op); }
    if w.monitor.call.Out? { SendsLater(c, before, after, w.monitor.call.op); }
    forall op | op in w.late ensures Sends(c, after, op) { SendsLater(c, before, after, op); }
  }

  lemma MoveStaysTruthful(c: Config, w: Worker, m: Move, now: nat)
    requires WorkerKept(c, w) && Truthful(c, w) && Enabled(w, m)
    ensures Truthful(c, After(c, w, m, now)) && w.rsync.output <= After(c, w, m, now).rsync.output
  {
    EveryMoveMovesOn(c, w, m, now);
    MovesOnStaysTruthful(c, w, After(c, w, m, now));
  }

  /****** Records *******/

  /** What waits in the queue has no progress yet. */
  ghost predicate QueuedHaveNone(h: Hash) {
    forall id :: id in h && h[id].state == Queued ==> h[id].fields == Progress(0, 0, 0, [])
  }

  /** The record a worker has claimed shows real progress of that worker. */
  ghost predicate ShowsReal(c: Config, h: Hash, w: Worker) {
    HasClaim(w) && w.id in h ==> Real(c, w.rsync.output, h[w.id].fields)
  }

  ghost predicate ClaimedBySome(s: Fleet, id: string) {
    exists k :: k in s.workers && HasClaim(s.workers[k]) && s.workers[k].id == id
  }

  /** What no worker has claimed, be it queued, a removal, or claimed by a worker that never learnt of it,
      shows no progress. */
  ghost predicate UnclaimedHaveNone(s: Fleet) {
    forall id :: id in s.hash && !ClaimedBySome(s, id) ==> s.hash[id].fields == Progress(0, 0, 0, [])
  }

  ghost predicate WorkersShowReal(c: Config, s: Fleet) {
    && QueuedHaveNone(s.hash)
    && (forall k :: k in s.workers ==> Truthful(c, s.workers[k]) && ShowsReal(c, s.hash, s.workers[k]))
  }

  ghost predicate ProgressKept(c: Config, s: Fleet) {
    WorkersShowReal(c, s) && UnclaimedHaveNone(s)
  }

  lemma UpdateQueue(c: Config, now: int, h: Hash, id: string, op: Op)
    requires QueuedHaveNone(h) && (op.Report? ==> id in h ==> h[id].state != Queued)
    ensures QueuedHaveNone(AfterUpdate(now, h, id, op))
  {}

  /** A worker that does not act. */
  lemma BystanderShowsReal(c: Config, now: int, h: Hash, h': Hash, w: Worker)
    requires ShowsReal(c, h, w) && (HasClaim(w) ==> Tolerable(now, h, h', w.id))
    ensures ShowsReal(c, h', w)
  {}

  /** The worker whose call the store executes. */
  lemma ExecutionShowsReal(c: Config, now: int, h: Hash, w: Worker, op: Op, v: Worker)
    requires ShowsReal(c, h, w) && QueuedHaveNone(h) && Sends(c, w.rsync.output, op)
    requires v.id == w.id && v.rsync == w.rsync
    requires HasClaim(v) ==> HasClaim(w) || (QueuedUnder(h, w.id) && op == Claim)
    ensures ShowsReal(c, AfterUpdate(now, h, w.id, op), v)
  {
    RealAtFirst(c, w.rsync.output);
  }

  /** A claim that the worker never learns of leaves the record without progress. */
  lemma LostClaim(c: Config, h: Hash, w: Worker)
    requires WorkerKept(c, w) && ShowsReal(c, h, w) && HasClaim(w) && !w.main.claimed && w.id in h
    ensures h[w.id].fields == Progress(0, 0, 0, [])
  {
    var t: Text :| t <= w.rsync.output && h[w.id].fields == Amounts(c, t);
    assert t == [];
  }

  /** The action is the execution of a report of worker `k`. */
  predicate ExecutesReport(s: Fleet, a: Action, k: nat) {
    && k in s.workers
    && ((a.Answers? && a.worker == k && Busy(s.workers[k], a.toMonitor) && CallOf(s.workers[k], a.toMonitor).op.Report?)
        || (a.AnswersLate? && a.worker == k && a.op in s.workers[k].late && a.op.Report?))
  }

  /** Only a new reservation or the execution of a report sets progress. */
  lemma FieldsChange(c: Config, s: Fleet, a: Action, s': Fleet, id: string) returns (k: nat)
    requires Next(c, s, a, s') && id in s'.hash
    ensures || s'.hash[id].fields == Progress(0, 0, 0, [])
            || (id in s.hash && s'.hash[id].fields == s.hash[id].fields)
            || (ExecutesReport(s, a, k) && s.workers[k].id == id)
  {
    k := if a.Answers? || a.AnswersLate? then a.worker else 0;
  }

  lemma ClaimKeptOrUnlearnt(c: Config, s: Fleet, a: Action, s': Fleet, k: nat)
    requires k in s.workers && Acts(c, s, a, s', k) && WorkerKept(c, s.workers[k]) && HasClaim(s.workers[k])
    ensures s'.workers[k].id == s.workers[k].id
    ensures s.workers[k].main.claimed ==> HasClaim(s'.workers[k])
  {}

  lemma UnclaimedStayEmpty(c: Config, s: Fleet, a: Action, s': Fleet, id: string)
    requires FleetKept(c, s) && ProgressKept(c, s) && Next(c, s, a, s')
    requires id in s'.hash && !ClaimedBySome(s', id)
    ensures s'.hash[id].fields == Progress(0, 0, 0, [])
  {
    var k := FieldsChange(c, s, a, s', id);
    if ExecutesReport(s, a, k) && s.workers[k].id == id {
      ReportIsOwned(c, s, a, s', k);
      assert false;
    } else if id in s.hash && ClaimedBySome(s, id) {
      var j :| j in s.workers && HasClaim(s.workers[j]) && s.workers[j].id == id;
      assert WorkerFits(c, s, s.workers[j]) && ShowsReal(c, s.hash, s.workers[j]);
      NextActs(c, s, a, s', j);
      ClaimKeptOrUnlearnt(c, s, a, s', j);
      LostClaim(c, s.hash, s.workers[j]);
    }
  }

  lemma ReportIsOwned(c: Config, s: Fleet, a: Action, s': Fleet, k: nat)
    requires FleetKept(c, s) && Next(c, s, a, s') && ExecutesReport(s, a, k)
    ensures ClaimedBySome(s', s.workers[k].id)
  {
    var w := s.workers[k];
    assert WorkerFits(c, s, w);
    ReportsAreClaimed(c, s, w, if a.Answers? then CallOf(w, a.toMonitor).op else a.op);
    NextActs(c, s, a, s', k);
    ClaimKeptOrUnlearnt(c, s, a, s', k);
    assert k in s'.workers && HasClaim(s'.workers[k]);
  }

  lemma NextUnclaimed(c: Config, s: Fleet, a: Action, s': Fleet)
    requires FleetKept(c, s) && ProgressKept(c, s) && Next(c, s, a, s')
    ensures UnclaimedHaveNone(s')
  {
    forall id | id in s'.hash && !ClaimedBySome(s', id) ensures s'.hash[id].fields == Progress(0, 0, 0, []) {
      UnclaimedStayEmpty(c, s, a, s', id);
    }
  }

  lemma WebProgress(c: Config, s: Fleet, a: Action, s': Fleet)
    requires FleetKept(c, s) && ProgressKept(c, s) && Next(c, s, a, s')
    requires a.Reserves? || a.Stops? || a.Lists? || a.LaunchFails? || a.RemoverUpdates?
    ensures WorkersShowReal(c, s')
  {
    WebQueue(c, s, a, s');
    forall k | k in s'.workers ensures Truthful(c, s'.workers[k]) && ShowsReal(c, s'.hash, s'.workers[k]) {
      var w := s.workers[k];
      assert WorkerFits(c, s, w) && ShowsReal(c, s.hash, w);
      if HasClaim(w) { WebTolerable(c, s, a, s', w); }
      BystanderShowsReal(c, Seconds(s.now), s.hash, s'.hash, w);
    }
  }

  lemma WebQueue(c: Config, s: Fleet, a: Action, s': Fleet)
    requires QueuedHaveNone(s.hash) && Next(c, s, a, s')
    requires a.Reserves? || a.Stops? || a.Lists? || a.LaunchFails? || a.RemoverUpdates?
    ensures QueuedHaveNone(s'.hash)
  {}

  /** The calls a worker has begun, as the store may execute them. */
  lemma ReportsAreClaimed(c: Config, s: Fleet, w: Worker, op: Op)
    requires WorkerFits(c, s, w) && op.Report?
    requires || op in w.late || (w.main.call.Out? && op == w.main.call.op)
             || (w.monitor.call.Out? && op == w.monitor.call.op)
    ensures w.main.claimed && (w.id in s.hash ==> s.hash[w.id].state != Queued)
  {}

  lemma AnswerGivesClaim(c: Config, s: Fleet, w: Worker, toMonitor: bool)
    requires WorkerFits(c, s, w) && Busy(w, toMonitor)
    ensures
      var op := CallOf(w, toMonitor).op;
      var v := Answered(c, w, toMonitor, Updated(Seconds(s.now), s.hash, w.id, op), s.now);
      && v.id == w.id && v.rsync == w.rsync
      && (HasClaim(v) ==> HasClaim(w) || (QueuedUnder(s.hash, w.id) && op == Claim))
  {}

  lemma AnswerStaysTruthful(c: Config, w: Worker, toMonitor: bool, reply: Result<Record, ScriptError>, now: nat)
    requires Truthful(c, w) && Busy(w, toMonitor)
    ensures Truthful(c, Answered(c, w, toMonitor, reply, now))
  {}

  /** The executing worker's side of it. */
  lemma ExecutorShowsReal(c: Config, s: Fleet, a: Action, s': Fleet, op: Op)
    requires Next(c, s, a, s') && (a.Answers? || a.AnswersLate?)
    requires op == if a.Answers? then CallOf(s.workers[a.worker], a.toMonitor).op else a.op
    requires
      var w := s.workers[a.worker];
      WorkerFits(c, s, w) && QueuedHaveNone(s.hash) && Truthful(c, w) && ShowsReal(c, s.hash, w)
    ensures QueuedHaveNone(s'.hash)
    ensures Truthful(c, s'.workers[a.worker]) && ShowsReal(c, s'.hash, s'.workers[a.worker])
  {
    var w, now := s.workers[a.worker], Seconds(s.now);
    if op.Report? { ReportsAreClaimed(c, s, w, op); }
    UpdateQueue(c, now, s.hash, w.id, op);
    if a.Answers? {
      AnswerGivesClaim(c, s, w, a.toMonitor);
      AnswerStaysTruthful(c, w, a.toMonitor, Updated(now, s.hash, w.id, op), s.now);
    }
    ExecutionShowsReal(c, now, s.hash, w, op, s'.workers[a.worker]);
  }

  lemma ExecutionProgress(c: Config, s: Fleet, a: Action, s': Fleet)
    requires FleetKept(c, s) && WorkersShowReal(c, s) && Next(c, s, a, s') && (a.Answers? || a.AnswersLate?)
    ensures WorkersShowReal(c, s')
  {
    var k := a.worker;
    var op := if a.Answers? then CallOf(s.workers[k], a.toMonitor).op else a.op;
    assert WorkerFits(c, s, s.workers[k]) && Truthful(c, s.workers[k]);
    ExecutorShowsReal(c, s, a, s', op);
    OthersTolerate(c, s, k, op);
    forall j | j in s'.workers && j != k ensures Truthful(c, s'.workers[j]) && ShowsReal(c, s'.hash, s'.workers[j]) {
      assert Truthful(c, s.workers[j]) && ShowsReal(c, s.hash, s.workers[j]);
      BystanderShowsReal(c, Seconds(s.now), s.hash, s'.hash, s.workers[j]);
    }
  }

  lemma MoverShowsReal(c: Config, s: Fleet, w: Worker, m: Move)
    requires WorkerFits(c, s, w) && Truthful(c, w) && ShowsReal(c, s.hash, w) && Enabled(w, m)
    ensures Truthful(c, After(c, w, m, s.now)) && ShowsReal(c, s.hash, After(c, w, m, s.now))
  {
    MoveStaysTruthful(c, w, m, s.now);
    MoveFits(c, s, w, m);
    if HasClaim(w) && w.id in s.hash {
      RealLater(c, w.rsync.output, After(c, w, m, s.now).rsync.output, s.hash[w.id].fields);
    }
  }

  lemma MoveProgress(c: Config, s: Fleet, k: nat, m: Move, s': Fleet)
    requires FleetKept(c, s) && WorkersShowReal(c, s) && Next(c, s, Moves(k, m), s')
    ensures WorkersShowReal(c, s')
  {
    assert WorkerFits(c, s, s.workers[k]) && Truthful(c, s.workers[k]);
    MoverShowsReal(c, s, s.workers[k], m);
  }

  lemma SpawnProgress(c: Config, s: Fleet, k: nat, id: string, s': Fleet)
    requires ProgressKept(c, s) && Next(c, s, Spawns(k, id), s')
    ensures WorkersShowReal(c, s')
  {}

  lemma NextProgress(c: Config, s: Fleet, a: Action, s': Fleet)
    requires FleetKept(c, s) && ProgressKept(c, s) && Next(c, s, a, s')
    ensures ProgressKept(c, s')
  {
    NextUnclaimed(c, s, a, s');
    match a
    case Pass(_) =>
    case Spawns(k, id) => SpawnProgress(c, s, k, id, s');
    case Moves(k, m) => MoveProgress(c, s, k, m, s');
    case Answers(_, _) => ExecutionProgress(c, s, a, s');
    case AnswersLate(_, _) => ExecutionProgress(c, s, a, s');
    case _ => WebProgress(c, s, a, s');
  }

  /** In every state of every run, whatever is queued shows no progress, and every record that a worker
      has claimed shows what some beginning of that worker's rsync output amounts to; every report of
      progress under way, or still to be executed late, is of the same kind; any other record shows
      none. */
  lemma {:induction false} ShownProgressIsReal(c: Config, ss: seq<Fleet>, actions: seq<Action>, i: nat)
    requires IsFleetRun(c, ss, actions) && i < |ss|
    ensures ProgressKept(c, ss[i])
  {
    if i > 0 {
      ShownProgressIsReal(c, ss, actions, i - 1);
      RunKeeps(c, ss, actions, i - 1);
      assert StepAt(c, ss, actions, i - 1);
      NextProgress(c, ss[i - 1], actions[i - 1], ss[i]);
    }
  }

  /** All that rsync of worker `k` has printed in the first `j` actions. */
  function Printed(actions: seq<Action>, j: nat, k: nat): Text
    requires j <= |actions|
  {
    if j == 0 then []
    else
      var a := actions[j - 1];
      Printed(actions, j - 1, k) + if a.Moves? && a.worker == k && a.move.Prints? then a.move.chunk else []
  }

  lemma PrintsOne(c: Config, s: Fleet, a: Action, s': Fleet, k: nat)
    requires k in s.workers && Acts(c, s, a, s', k) && WorkerKept(c, s.workers[k])
    ensures s'.workers[k].rsync.output ==
            s.workers[k].rsync.output + if a.Moves? && a.worker == k && a.move.Prints? then a.move.chunk else []
  {
    if a.Moves? && a.worker == k {
      RsyncAfterMove(c, s.workers[k], a.move, s.now);
    }
  }

  lemma {:induction false} NothingPrintedBefore(c: Config, ss: seq<Fleet>, actions: seq<Action>, j: nat, k: nat)
    requires IsFleetRun(c, ss, actions) && j < |ss| && k !in ss[j].workers
    ensures Printed(actions, j, k) == []
  {
    if j > 0 {
      assert StepAt(c, ss, actions, j - 1);
      if k in ss[j - 1].workers { NextActs(c, ss[j - 1], actions[j - 1], ss[j], k); }
      NothingPrintedBefore(c, ss, actions, j - 1, k);
    }
  }

  /** The output that the progress is read from is all that rsync has printed, in order. */
  lemma {:induction false} OutputIsPrinted(c: Config, ss: seq<Fleet>, actions: seq<Action>, j: nat, k: nat)
    requires IsFleetRun(c, ss, actions) && j < |ss| && k in ss[j].workers
    ensures ss[j].workers[k].rsync.output == Printed(actions, j, k)
  {
    if j > 0 {
      if k in ss[j - 1].workers {
        OutputIsPrinted(c, ss, actions, j - 1, k);
        ActsAt(c, ss, actions, j - 1, k);
        PrintsOne(c, ss[j - 1], actions[j - 1], ss[j], k);
      } else {
        assert StepAt(c, ss, actions, j - 1);
        NewcomersAreNew(c, ss[j - 1], actions[j - 1], ss[j], k);
        NothingPrintedBefore(c, ss, actions, j - 1, k);
      }
    }
  }

  /** The record of a claimed download shows what some beginning of its rsync's output amounts to. */
  lemma RecordShowsProgress(c: Config, ss: seq<Fleet>, actions: seq<Action>, i: nat, k: nat) returns (t: Text)
    requires IsFleetRun(c, ss, actions) && i < |ss| && k in ss[i].workers && HasClaim(ss[i].workers[k])
    requires ss[i].workers[k].id in ss[i].hash
    ensures t <= ss[i].workers[k].rsync.output
    ensures ss[i].hash[ss[i].workers[k].id].fields == Folded(c.speedOf, NO_PROGRESS, Split(t, IsSpace).done)
  {
    ShownProgressIsReal(c, ss, actions, i);
    var w := ss[i].workers[k];
    assert ShowsReal(c, ss[i].hash, w);
    t :| t <= w.rsync.output && ss[i].hash[w.id].fields == Amounts(c, t);
  }

  /****** Heartbeats *******/

  /** Worker `k` ticks in state `n`, and the call it begins is still under way in state `i`. */
  ghost predicate BegunBy(c: Config, ss: seq<Fleet>, actions: seq<Action>, n: nat, i: nat, k: nat)
    requires n < i < |ss| && |ss| == |actions| + 1
  {
    && actions[n] == Moves(k, MonitorTicks)
    && (forall j :: n <= j <= i ==> k in ss[j].workers)
    && (forall j :: n < j <= i ==> ss[j].workers[k].monitor.call.Out?)
  }

  /** What one action does to the monitor's call. */
  predicate CallGoesOn(c: Config, w: Worker, v: Worker, ticks: bool) {
    && w.rsync.output <= v.rsync.output
    && (v.monitor.call.Out? ==>
          if ticks then v.monitor.call.op == Report(Amounts(c, w.rsync.output))
          else w.monitor.call.Out? && v.monitor.call.op == w.monitor.call.op)
  }

  lemma MoveGoesOn(c: Config, w: Worker, m: Move, now: nat)
    requires WorkerKept(c, w) && Enabled(w, m)
    ensures CallGoesOn(c, w, After(c, w, m, now), m.MonitorTicks?)
  {
    EveryMoveMovesOn(c, w, m, now);
  }

  lemma ActGoesOn(c: Config, s: Fleet, a: Action, s': Fleet, k: nat)
    requires k in s.workers && Acts(c, s, a, s', k) && WorkerKept(c, s.workers[k])
    ensures CallGoesOn(c, s.workers[k], s'.workers[k], a == Moves(k, MonitorTicks))
  {
    if a.Moves? && a.worker == k {
      MoveGoesOn(c, s.workers[k], a.move, s.now);
    }
  }

  lemma GoesOnAt(c: Config, ss: seq<Fleet>, actions: seq<Action>, i: nat, k: nat)
    requires IsFleetRun(c, ss, actions) && 0 < i < |ss| && k in ss[i].workers && ss[i].workers[k].monitor.call.Out?
    ensures k in ss[i - 1].workers
    ensures CallGoesOn(c, ss[i - 1].workers[k], ss[i].workers[k], actions[i - 1] == Moves(k, MonitorTicks))
  {
    if k in ss[i - 1].workers {
      ActsAt(c, ss, actions, i - 1, k);
      ActGoesOn(c, ss[i - 1], actions[i - 1], ss[i], k);
    } else {
      assert StepAt(c, ss, actions, i - 1);
      NewcomersAreNew(c, ss[i - 1], actions[i - 1], ss[i], k);
      assert false;
    }
  }

  /** Whenever a heartbeat is under way, it carries the progress of all that rsync had printed when it
      was begun, by the tick that began it. */
  lemma {:induction false} HeartbeatsCarryProgress(c: Config, ss: seq<Fleet>, actions: seq<Action>, i: nat, k: nat)
    returns (n: nat)
    requires IsFleetRun(c, ss, actions) && i < |ss| && k in ss[i].workers && ss[i].workers[k].monitor.call.Out?
    ensures n < i && BegunBy(c, ss, actions, n, i, k)
    ensures
      var t := ss[n].workers[k].rsync.output;
      && t <= ss[i].workers[k].rsync.output
      && ss[i].workers[k].monitor.call.op == Report(Folded(c.speedOf, NO_PROGRESS, Split(t, IsSpace).done))
  {
    assert i > 0;
    GoesOnAt(c, ss, actions, i, k);
    if actions[i - 1] == Moves(k, MonitorTicks) {
      n := i - 1;
    } else {
      n := HeartbeatsCarryProgress(c, ss, actions, i - 1, k);
    }
  }
}
