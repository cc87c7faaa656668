/** The whole installation: one store, one clock, any number of workers (several may be started for
    the same reservation), web servers that reserve, list, stop and report failed launches, and
    removals that keep and finish their own reservations. */
module Fleet {
  import opened Common
  import opened SyncStore
  import opened SyncWorker

  /** `syncIds` and `removalIds` are the reservation ids used so far; `stopped` are the ids whose
      record has had its stop flag set at some moment. */
  datatype Fleet = Fleet(now: nat, hash: Hash, syncIds: set<string>, removalIds: set<string>, stopped: set<string>,
                         workers: map<nat, Worker>)

  datatype Action =
    | Pass(d: nat)
    | Reserves(id: string, path: string, kind: FirstState, post: Hash)
    | Stops(stopPath: string)
    | Lists
    | LaunchFails(id: string, message: string)
    | RemoverUpdates(id: string, op: Op)
    | Spawns(worker: nat, id: string)
    | Moves(worker: nat, move: Move)
    | Answers(worker: nat, toMonitor: bool)
    | AnswersLate(worker: nat, op: Op)

  /** What a script reads as the time: whole seconds. */
  function Seconds(ms: nat): nat {
    ms / 1000
  }

  /** Replace the hash, remembering which records carry the stop flag. */
  function WithHash(s: Fleet, h: Hash): Fleet {
    s.(hash := h, stopped := s.stopped + set k | k in h && h[k].stop)
  }

  predicate Busy(w: Worker, toMonitor: bool) {
    if toMonitor then w.monitor.call.Out? else w.main.call.Out?
  }

  function CallOf(w: Worker, toMonitor: bool): Call {
    if toMonitor then w.monitor.call else w.main.call
  }

  ghost predicate Next(c: Config, s: Fleet, a: Action, s': Fleet) {
    var now := Seconds(s.now);
    match a
    case Pass(d) =>
      && (c.timed ==> forall k :: k in s.workers ==> WithinDeadlines(c, s.workers[k], s.now + d))
      && s' == s.(now := s.now + d)
    case Reserves(id, path, kind, post) =>
      && id !in s.syncIds && id !in s.removalIds
      && Step(now, s.hash, Reserve(id, path, kind), post, if Conflict(s.hash, now, path) then Rejected else Accepted)
      && s' == (if kind == Queued then WithHash(s, post).(syncIds := s.syncIds + {id})
                else WithHash(s, post).(removalIds := s.removalIds + {id}))
    case Stops(path) =>
      s' == WithHash(s, AfterStop(s.hash, now, path))
    case Lists =>
      s' == WithHash(s, Unexpired(s.hash, now))
    case LaunchFails(id, message) =>
      s' == WithHash(s, AfterUpdate(now, s.hash, id, LaunchFailed(message)))
    case RemoverUpdates(id, op) =>
      && id in s.removalIds && (op.Heartbeat? || op.Finish?)
      && s' == WithHash(s, AfterUpdate(now, s.hash, id, op))
    case Spawns(k, id) =>
      k !in s.workers && s' == s.(workers := s.workers[k := NewWorker(id)])
    case Moves(k, m) =>
      && k in s.workers && Enabled(s.workers[k], m)
      && s' == s.(workers := s.workers[k := After(c, s.workers[k], m, s.now)])
    case Answers(k, toMonitor) =>
      && k in s.workers && Busy(s.workers[k], toMonitor)
      && (var w := s.workers[k];
          var op := CallOf(w, toMonitor).op;
          s' == WithHash(s, AfterUpdate(now, s.hash, w.id, op))
                .(workers := s.workers[k := Answered(c, w, toMonitor, Updated(now, s.hash, w.id, op), s.now)]))
    case AnswersLate(k, op) =>
      && k in s.workers && op in s.workers[k].late
      && s' == WithHash(s, AfterUpdate(now, s.hash, s.workers[k].id, op))
  }

  ghost predicate Initial(s: Fleet) {
    && s.hash == map[] && s.workers == map[]
    && s.syncIds == {} && s.removalIds == {} && s.stopped == {}
  }

  /** The states of a run and the actions between them. */
  ghost predicate IsFleetRun(c: Config, ss: seq<Fleet>, actions: seq<Action>) {
    && |ss| == |actions| + 1
    && Initial(ss[0])
    && forall i :: 0 <= i < |actions| ==> StepAt(c, ss, actions, i)
  }

  ghost predicate StepAt(c: Config, ss: seq<Fleet>, actions: seq<Action>, i: nat)
    requires |ss| == |actions| + 1 && i < |actions|
  {
    Next(c, ss[i], actions[i], ss[i + 1])
  }

  lemma RunExtends(c: Config, ss: seq<Fleet>, actions: seq<Action>, a: Action, s': Fleet)
    requires IsFleetRun(c, ss, actions) && Next(c, ss[|ss| - 1], a, s')
    ensures IsFleetRun(c, ss + [s'], actions + [a])
  {
    var ss', actions' := ss + [s'], actions + [a];
    forall i | 0 <= i < |actions'| ensures StepAt(c, ss', actions', i) {
      if i < |actions| {
        assert StepAt(c, ss, actions, i);
      }
    }
  }

  /****** Reaching states *******/

  ghost predicate EndsIn(c: Config, ss: seq<Fleet>, actions: seq<Action>, s: Fleet) {
    IsFleetRun(c, ss, actions) && ss[|ss| - 1] == s
  }

  ghost predicate Reachable(c: Config, s: Fleet) {
    exists ss: seq<Fleet>, actions: seq<Action> :: EndsIn(c, ss, actions, s)
  }

  lemma ReachNext(c: Config, s: Fleet, a: Action, s': Fleet)
    requires Reachable(c, s) && Next(c, s, a, s')
    ensures Reachable(c, s')
  {
    var ss, actions :| EndsIn(c, ss, actions, s);
    RunExtends(c, ss, actions, a, s');
    assert EndsIn(c, ss + [s'], actions + [a], s');
  }

  lemma ReachInitial(c: Config, s: Fleet)
    requires Initial(s)
    ensures Reachable(c, s)
  {
    assert EndsIn(c, [s], [], s);
  }

  /****** One worker in a run *******/

  /** What one action does to one worker: nothing, a move of its own, or an answer to it. */
  predicate Acts(c: Config, s: Fleet, a: Action, s': Fleet, k: nat)
    requires k in s.workers
  {
    && k in s'.workers
    && (var w, v := s.workers[k], s'.workers[k];
        if a.Moves? && a.worker == k then Enabled(w, a.move) && v == After(c, w, a.move, s.now)
        else if a.Answers? && a.worker == k then
          && Busy(w, a.toMonitor)
          && v == Answered(c, w, a.toMonitor, Updated(Seconds(s.now), s.hash, w.id, CallOf(w, a.toMonitor).op), s.now)
        else v == w)
  }

  lemma NextActs(c: Config, s: Fleet, a: Action, s': Fleet, k: nat)
    requires Next(c, s, a, s') && k in s.workers
    ensures Acts(c, s, a, s', k)
  {}

  /****** What may happen *******/

  ghost predicate MayHappen(c: Config, s: Fleet, a: Action) {
    exists s' :: Next(c, s, a, s')
  }

  lemma MoveMayHappen(c: Config, s: Fleet, k: nat, m: Move)
    requires k in s.workers && Enabled(s.workers[k], m)
    ensures MayHappen(c, s, Moves(k, m))
  {
    var s' := s.(workers := s.workers[k := After(c, s.workers[k], m, s.now)]);
    assert Next(c, s, Moves(k, m), s');
  }

  /** In every state servers and removals may ask the store anything they ever ask it, a worker may be
      started for any id, and the store may execute any call that is out or was given up on. */
  lemma PartiesMayAct(c: Config, s: Fleet, id: string, path: string, kind: FirstState, message: string, op: Op, k: nat)
    ensures MayHappen(c, s, Stops(path)) && MayHappen(c, s, Lists) && MayHappen(c, s, LaunchFails(id, message))
    ensures id !in s.syncIds && id !in s.removalIds ==> exists h :: MayHappen(c, s, Reserves(id, path, kind, h))
    ensures id in s.removalIds && (op.Heartbeat? || op.Finish?) ==> MayHappen(c, s, RemoverUpdates(id, op))
    ensures k !in s.workers ==> MayHappen(c, s, Spawns(k, id))
    ensures k in s.workers && s.workers[k].main.call.Out? ==> MayHappen(c, s, Answers(k, false))
    ensures k in s.workers && s.workers[k].monitor.call.Out? ==> MayHappen(c, s, Answers(k, true))
    ensures k in s.workers && op in s.workers[k].late ==> MayHappen(c, s, AnswersLate(k, op))
  {
    var now := Seconds(s.now);
    ScanMayHappen(c, s, path);
    UpdateMayHappen(c, s, id, message, op);
    ReserveMayHappen(c, s, id, path, kind);
    if k !in s.workers {
      assert Next(c, s, Spawns(k, id), s.(workers := s.workers[k := NewWorker(id)]));
    } else {
      if s.workers[k].main.call.Out? { AnswerMayHappen(c, s, k, false); }
      if s.workers[k].monitor.call.Out? { AnswerMayHappen(c, s, k, true); }
      if op in s.workers[k].late {
        assert Next(c, s, AnswersLate(k, op), WithHash(s, AfterUpdate(now, s.hash, s.workers[k].id, op)));
      }
    }
  }

  lemma ScanMayHappen(c: Config, s: Fleet, path: string)
    ensures MayHappen(c, s, Stops(path)) && MayHappen(c, s, Lists)
  {
    var now := Seconds(s.now);
    assert Next(c, s, Stops(path), WithHash(s, AfterStop(s.hash, now, path)));
    assert Next(c, s, Lists, WithHash(s, Unexpired(s.hash, now)));
  }

  lemma UpdateMayHappen(c: Config, s: Fleet, id: string, message: string, op: Op)
    ensures MayHappen(c, s, LaunchFails(id, message))
    ensures id in s.removalIds && (op.Heartbeat? || op.Finish?) ==> MayHappen(c, s, RemoverUpdates(id, op))
  {
    var now := Seconds(s.now);
    assert Next(c, s, LaunchFails(id, message), WithHash(s, AfterUpdate(now, s.hash, id, LaunchFailed(message))));
    if id in s.removalIds && (op.Heartbeat? || op.Finish?) {
      assert Next(c, s, RemoverUpdates(id, op), WithHash(s, AfterUpdate(now, s.hash, id, op)));
    }
  }

  lemma ReserveMayHappen(c: Config, s: Fleet, id: string, path: string, kind: FirstState)
    ensures id !in s.syncIds && id !in s.removalIds ==> exists h :: MayHappen(c, s, Reserves(id, path, kind, h))
  {
    if id !in s.syncIds && id !in s.removalIds {
      var now := Seconds(s.now);
      var h := if Conflict(s.hash, now, path) then s.hash
               else Unexpired(s.hash, now)[id := Fresh(now, id, path, kind)];
      var s' := if kind == Queued then WithHash(s, h).(syncIds := s.syncIds + {id})
                else WithHash(s, h).(removalIds := s.removalIds + {id});
      assert Next(c, s, Reserves(id, path, kind, h), s');
      assert MayHappen(c, s, Reserves(id, path, kind, h));
    }
  }

  lemma AnswerMayHappen(c: Config, s: Fleet, k: nat, toMonitor: bool)
    requires k in s.workers && Busy(s.workers[k], toMonitor)
    ensures MayHappen(c, s, Answers(k, toMonitor))
  {
    var w, now := s.workers[k], Seconds(s.now);
    var op := CallOf(w, toMonitor).op;
    var v := Answered(c, w, toMonitor, Updated(now, s.hash, w.id, op), s.now);
    assert Next(c, s, Answers(k, toMonitor),
                WithHash(s, AfterUpdate(now, s.hash, w.id, op)).(workers := s.workers[k := v]));
  }

  /** Nothing holds a worker back that does not hold back the program: its parent may cancel it at any
      time, a running rsync may print anything and end either way, a call may come back as failed at any
      time and with success once executed, a ticker and a cancelled context may be noticed in either
      order, and a start may succeed or fail. */
  lemma WorkersMayAct(c: Config, s: Fleet, k: nat, chunk: Text, message: string)
    requires k in s.workers
    ensures MayHappen(c, s, Moves(k, ParentCancels))
    ensures s.workers[k].rsync.process == Alive ==>
      && MayHappen(c, s, Moves(k, Prints(chunk)))
      && MayHappen(c, s, Moves(k, Exits(true))) && MayHappen(c, s, Moves(k, Exits(false)))
    ensures s.workers[k].main.call.Out? ==> MayHappen(c, s, Moves(k, MainReturns(false)))
    ensures Succeeded(s.workers[k].main.call) ==> MayHappen(c, s, Moves(k, MainReturns(true)))
    ensures s.workers[k].monitor.pc == Reporting && s.workers[k].monitor.call.Out? ==>
      && MayHappen(c, s, Moves(k, MonitorReturns(false, message)))
      && (Succeeded(s.workers[k].monitor.call) ==> MayHappen(c, s, Moves(k, MonitorReturns(true, message))))
    ensures s.workers[k].monitor.pc == Selecting ==> MayHappen(c, s, Moves(k, MonitorTicks))
    ensures s.workers[k].monitor.pc == Selecting && s.workers[k].context.cancelled ==>
      MayHappen(c, s, Moves(k, MonitorSeesCancel))
    ensures s.workers[k].main.pc == Launching ==>
      MayHappen(c, s, Moves(k, Launch(true, message))) && MayHappen(c, s, Moves(k, Launch(false, message)))
    ensures s.workers[k].rsync.watcher == Watching && s.workers[k].context.cancelled ==>
      MayHappen(c, s, Moves(k, WatcherSeesCancel))
    ensures s.workers[k].rsync.watcher == Grace ==> MayHappen(c, s, Moves(k, TimerFires))
  {
    var w := s.workers[k];
    forall m | Enabled(w, m) ensures MayHappen(c, s, Moves(k, m)) {
      MoveMayHappen(c, s, k, m);
    }
  }
}
