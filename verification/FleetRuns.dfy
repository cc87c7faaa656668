/** Every action keeps the invariant of the installation, and what that says about whole runs. */
module FleetRuns {
  import opened SyncStore
  import opened StoreRuns
  import opened SyncWorker
  import opened WorkerInvariants
  import opened Fleet
  import opened FleetInvariants

  /****** The hash *******/

  lemma UpdateKeepsIds(now: int, h: Hash, id: string, op: Op, syncIds: set<string>, removalIds: set<string>)
    requires IdsKept(h, syncIds, removalIds)
    ensures IdsKept(AfterUpdate(now, h, id, op), syncIds, removalIds)
  {}

  lemma UpdateKeepsHash(s: Fleet, id: string, op: Op)
    requires HashKept(s)
    ensures HashKept(WithHash(s, AfterUpdate(Seconds(s.now), s.hash, id, op)))
  {
    var now := Seconds(s.now);
    var h' := AfterUpdate(now, s.hash, id, op);
    UpdateKeepsIds(now, s.hash, id, op, s.syncIds, s.removalIds);
    var reply := match Updated(now, s.hash, id, op) case Ok(r) => Changed(r) case Err(e) => Refused(e);
    StepKeepsExclusion(now, s.hash, Update(id, op), h', reply);
    StepKeepsBounds(now, s.hash, Update(id, op), h', reply);
  }

  lemma ScanKeepsHash(s: Fleet, h': Hash)
    requires HashKept(s)
    requires h' == Unexpired(s.hash, Seconds(s.now)) || exists path :: h' == AfterStop(s.hash, Seconds(s.now), path)
    ensures HashKept(WithHash(s, h'))
  {
    var now := Seconds(s.now);
    if h' == Unexpired(s.hash, now) {
      StepKeepsExclusion(now, s.hash, List, h', Rows(Listed(s.hash, now)));
      StepKeepsBounds(now, s.hash, List, h', Rows(Listed(s.hash, now)));
    } else {
      var path :| h' == AfterStop(s.hash, now, path);
      StepKeepsExclusion(now, s.hash, Stop(path), h', Marked);
      StepKeepsBounds(now, s.hash, Stop(path), h', Marked);
    }
  }

  lemma ReserveKeepsHash(s: Fleet, id: string, path: string, kind: FirstState, post: Hash, reply: Reply, s': Fleet)
    requires HashKept(s) && id !in s.syncIds && id !in s.removalIds
    requires Step(Seconds(s.now), s.hash, Reserve(id, path, kind), post, reply)
    requires s' == (if kind == Queued then WithHash(s, post).(syncIds := s.syncIds + {id})
                    else WithHash(s, post).(removalIds := s.removalIds + {id}))
    ensures HashKept(s')
  {
    StepKeepsExclusion(Seconds(s.now), s.hash, Reserve(id, path, kind), post, reply);
    StepKeepsBounds(Seconds(s.now), s.hash, Reserve(id, path, kind), post, reply);
  }

  lemma TimeKeepsHash(s: Fleet, d: nat)
    requires HashKept(s)
    ensures HashKept(s.(now := s.now + d))
  {
    TimeKeepsExclusion(s.hash, Seconds(s.now), Seconds(s.now + d));
    TimeKeepsBounds(s.hash, Seconds(s.now), Seconds(s.now + d));
  }

  /****** Workers that do not act *******/

  /** A worker fits the new state when its record was treated tolerably. */
  lemma BystanderFits(c: Config, s: Fleet, s': Fleet, w: Worker)
    requires WorkerFits(c, s, w)
    requires s.now == s'.now && s.syncIds <= s'.syncIds && s.stopped <= s'.stopped
    requires HasClaim(w) ==> Tolerable(Seconds(s.now), s.hash, s'.hash, w.id)
    ensures WorkerFits(c, s', w)
  {
    StoreStable(c, Seconds(s.now), s.hash, s'.hash, s.syncIds, s'.syncIds, w);
  }

  /** What a worker without the claim asks of the store does no harm to the one that has it. */
  lemma OtherWorkerTolerable(c: Config, s: Fleet, j: nat, k: nat, op: Op)
    requires FleetKept(c, s) && j in s.workers && k in s.workers && j != k && HasClaim(s.workers[j])
    requires || op in s.workers[k].late
             || (s.workers[k].main.call.Out? && op == s.workers[k].main.call.op)
             || (s.workers[k].monitor.call.Out? && op == s.workers[k].monitor.call.op)
    ensures Tolerable(Seconds(s.now), s.hash, AfterUpdate(Seconds(s.now), s.hash, s.workers[k].id, op), s.workers[j].id)
  {
    var w, v := s.workers[j], s.workers[k];
    assert WorkerFits(c, s, w) && WorkerFits(c, s, v);
    if v.id != w.id {
      OtherIdTolerable(Seconds(s.now), s.hash, w.id, v.id, op);
    } else {
      assert !HasClaim(v) && BeforeClaim(v);
      assert op == Claim;
      ClaimTolerable(Seconds(s.now), s.hash, w.id);
    }
  }

  /** Actions that touch no worker. */
  lemma AllBystand(c: Config, s: Fleet, s': Fleet)
    requires FleetKept(c, s) && s'.workers == s.workers
    requires s.now == s'.now && s.syncIds <= s'.syncIds && s.stopped <= s'.stopped
    requires forall k :: k in s.workers && HasClaim(s.workers[k]) ==>
      Tolerable(Seconds(s.now), s.hash, s'.hash, s.workers[k].id)
    ensures forall k :: k in s'.workers ==> WorkerFits(c, s', s'.workers[k])
  {
    forall k | k in s'.workers ensures WorkerFits(c, s', s'.workers[k]) {
      BystanderFits(c, s, s', s.workers[k]);
    }
  }

  /****** Each action *******/

  /** What web servers and removals do to the hash is tolerable to every worker with a claim. */
  lemma WebTolerable(c: Config, s: Fleet, a: Action, s': Fleet, w: Worker)
    requires HashKept(s) && WorkerFits(c, s, w) && HasClaim(w) && Next(c, s, a, s')
    requires a.Reserves? || a.Stops? || a.Lists? || a.LaunchFails? || a.RemoverUpdates?
    ensures Tolerable(Seconds(s.now), s.hash, s'.hash, w.id)
  {
    var now := Seconds(s.now);
    match a {
      case Reserves(id, path, kind, post) =>
        ReserveTolerable(now, s.hash, Reserve(id, path, kind), post,
                         if Conflict(s.hash, now, path) then Rejected else Accepted, w.id);
      case Stops(path) => StopTolerable(now, s.hash, path, w.id);
      case Lists => ListTolerable(now, s.hash, w.id);
      case LaunchFails(id, message) => LaunchFailureTolerable(now, s.hash, w.id, id, message);
      case RemoverUpdates(id, op) => OtherIdTolerable(now, s.hash, w.id, id, op);
    }
  }

  lemma WebKeeps(c: Config, s: Fleet, a: Action, s': Fleet)
    requires FleetKept(c, s) && Next(c, s, a, s')
    requires a.Reserves? || a.Stops? || a.Lists? || a.LaunchFails? || a.RemoverUpdates?
    ensures FleetKept(c, s')
  {
    var now := Seconds(s.now);
    match a {
      case Reserves(id, path, kind, post) =>
        ReserveKeepsHash(s, id, path, kind, post, if Conflict(s.hash, now, path) then Rejected else Accepted, s');
      case LaunchFails(id, message) => UpdateKeepsHash(s, id, LaunchFailed(message));
      case RemoverUpdates(id, op) => UpdateKeepsHash(s, id, op);
      case _ => ScanKeepsHash(s, s'.hash);
    }
    forall k | k in s.workers && HasClaim(s.workers[k])
      ensures Tolerable(now, s.hash, s'.hash, s.workers[k].id)
    {
      assert WorkerFits(c, s, s.workers[k]);
      WebTolerable(c, s, a, s', s.workers[k]);
    }
    AllBystand(c, s, s');
  }

  lemma PassKeeps(c: Config, s: Fleet, d: nat)
    requires FleetKept(c, s)
    ensures FleetKept(c, s.(now := s.now + d))
  {
    TimeKeepsHash(s, d);
    forall k | k in s.workers ensures WorkerFits(c, s.(now := s.now + d), s.workers[k]) {
      assert WorkerFits(c, s, s.workers[k]);
      StoreOverTime(c, Seconds(s.now), Seconds(s.now + d), s.hash, s.syncIds, s.workers[k]);
    }
  }

  lemma SpawnKeeps(c: Config, s: Fleet, k: nat, id: string)
    requires FleetKept(c, s) && k !in s.workers
    ensures FleetKept(c, s.(workers := s.workers[k := NewWorker(id)]))
  {
    var s' := s.(workers := s.workers[k := NewWorker(id)]);
    forall j | j in s'.workers ensures WorkerFits(c, s', s'.workers[j]) {
      if j != k { assert WorkerFits(c, s, s.workers[j]); }
    }
  }

  /** One worker acts, the others bystand. */
  lemma ActorKeeps(c: Config, s: Fleet, s': Fleet, k: nat, v: Worker)
    requires FleetKept(c, s) && k in s.workers && s'.workers == s.workers[k := v]
    requires HashKept(s') && WorkerFits(c, s', v) && v.id == s.workers[k].id
    requires HasClaim(v) ==> HasClaim(s.workers[k]) || QueuedUnder(s.hash, v.id)
    requires s.now == s'.now && s.syncIds <= s'.syncIds && s.stopped <= s'.stopped
    requires forall j :: j in s.workers && j != k && HasClaim(s.workers[j]) ==>
      Tolerable(Seconds(s.now), s.hash, s'.hash, s.workers[j].id)
    ensures FleetKept(c, s')
  {
    forall j | j in s'.workers ensures WorkerFits(c, s', s'.workers[j]) {
      if j != k { BystanderFits(c, s, s', s.workers[j]); }
    }
    forall j | j in s'.workers && j != k && HasClaim(s'.workers[j]) && HasClaim(v)
      ensures s'.workers[j].id != v.id
    {
      assert WorkerFits(c, s, s.workers[j]);
    }
  }

  lemma MoveKeeps(c: Config, s: Fleet, k: nat, m: Move)
    requires FleetKept(c, s) && k in s.workers && Enabled(s.workers[k], m)
    ensures FleetKept(c, s.(workers := s.workers[k := After(c, s.workers[k], m, s.now)]))
  {
    assert WorkerFits(c, s, s.workers[k]);
    MoveFits(c, s, s.workers[k], m);
    var v := After(c, s.workers[k], m, s.now);
    ActorKeeps(c, s, s.(workers := s.workers[k := v]), k, v);
  }

  lemma OthersTolerate(c: Config, s: Fleet, k: nat, op: Op)
    requires FleetKept(c, s) && k in s.workers
    requires || op in s.workers[k].late
             || (s.workers[k].main.call.Out? && op == s.workers[k].main.call.op)
             || (s.workers[k].monitor.call.Out? && op == s.workers[k].monitor.call.op)
    ensures forall j :: j in s.workers && j != k && HasClaim(s.workers[j]) ==>
      Tolerable(Seconds(s.now), s.hash, AfterUpdate(Seconds(s.now), s.hash, s.workers[k].id, op), s.workers[j].id)
  {
    var now := Seconds(s.now);
    forall j | j in s.workers && j != k && HasClaim(s.workers[j])
      ensures Tolerable(now, s.hash, AfterUpdate(now, s.hash, s.workers[k].id, op), s.workers[j].id)
    {
      OtherWorkerTolerable(c, s, j, k, op);
    }
  }

  lemma AnswerKeeps(c: Config, s: Fleet, k: nat, toMonitor: bool, s': Fleet)
    requires FleetKept(c, s) && Next(c, s, Answers(k, toMonitor), s')
    ensures FleetKept(c, s')
  {
    var w := s.workers[k];
    var op := CallOf(w, toMonitor).op;
    assert WorkerFits(c, s, w);
    UpdateKeepsHash(s, w.id, op);
    AnswerFits(c, s, w, toMonitor);
    OthersTolerate(c, s, k, op);
    ActorKeeps(c, s, s', k, s'.workers[k]);
  }

  lemma LateAnswerStaysFit(c: Config, s: Fleet, w: Worker, op: Op)
    requires WorkerFits(c, s, w) && op in w.late
    ensures WorkerFits(c, WithHash(s, AfterUpdate(Seconds(s.now), s.hash, w.id, op)), w)
  {
    if w.main.claimed { LateAnswerFits(c, Seconds(s.now), s.hash, w, op); }
  }

  lemma LateAnswerKeeps(c: Config, s: Fleet, k: nat, op: Op, s': Fleet)
    requires FleetKept(c, s) && Next(c, s, AnswersLate(k, op), s')
    ensures FleetKept(c, s')
  {
    var w := s.workers[k];
    assert WorkerFits(c, s, w);
    UpdateKeepsHash(s, w.id, op);
    OthersTolerate(c, s, k, op);
    LateAnswerStaysFit(c, s, w, op);
    assert s'.workers == s.workers[k := w];
    ActorKeeps(c, s, s', k, w);
  }

  ghost predicate IsScript(s: Fleet, request: Request, s': Fleet) {
    exists reply :: Step(Seconds(s.now), s.hash, request, s'.hash, reply)
  }

  lemma UpdateIsScript(s: Fleet, id: string, op: Op, s': Fleet)
    requires s'.hash == AfterUpdate(Seconds(s.now), s.hash, id, op)
    ensures IsScript(s, Update(id, op), s')
  {
    var reply := match Updated(Seconds(s.now), s.hash, id, op) case Ok(r) => Changed(r) case Err(e) => Refused(e);
    assert Step(Seconds(s.now), s.hash, Update(id, op), s'.hash, reply);
  }

  /** Every action runs the script it stands for, at the current second, or leaves the hash alone. */
  lemma ActionsAreScripts(c: Config, s: Fleet, a: Action, s': Fleet)
    requires Next(c, s, a, s')
    ensures match a
      case Reserves(id, path, kind, _) => IsScript(s, Reserve(id, path, kind), s')
      case Stops(path) => IsScript(s, Stop(path), s')
      case Lists => IsScript(s, List, s')
      case LaunchFails(id, message) => IsScript(s, Update(id, LaunchFailed(message)), s')
      case RemoverUpdates(id, op) => IsScript(s, Update(id, op), s')
      case Answers(k, toMonitor) => IsScript(s, Update(s.workers[k].id, CallOf(s.workers[k], toMonitor).op), s')
      case AnswersLate(k, op) => IsScript(s, Update(s.workers[k].id, op), s')
      case _ => s'.hash == s.hash
  {
    var now := Seconds(s.now);
    match a
    case Reserves(id, path, kind, _) =>
    case Stops(path) => assert Step(now, s.hash, Stop(path), s'.hash, Marked);
    case Lists => assert Step(now, s.hash, List, s'.hash, Rows(Listed(s.hash, now)));
    case LaunchFails(id, message) => UpdateIsScript(s, id, LaunchFailed(message), s');
    case RemoverUpdates(id, op) => UpdateIsScript(s, id, op, s');
    case Answers(k, toMonitor) => UpdateIsScript(s, s.workers[k].id, CallOf(s.workers[k], toMonitor).op, s');
    case AnswersLate(k, op) => UpdateIsScript(s, s.workers[k].id, op, s');
    case _ =>
  }

  /** Every action of every party keeps the invariant. */
  lemma NextKeeps(c: Config, s: Fleet, a: Action, s': Fleet)
    requires FleetKept(c, s) && Next(c, s, a, s')
    ensures FleetKept(c, s')
  {
    match a
    case Pass(d) => PassKeeps(c, s, d);
    case Spawns(k, id) => SpawnKeeps(c, s, k, id);
    case Moves(k, m) => MoveKeeps(c, s, k, m);
    case Answers(k, toMonitor) => AnswerKeeps(c, s, k, toMonitor, s');
    case AnswersLate(k, op) => LateAnswerKeeps(c, s, k, op, s');
    case _ => WebKeeps(c, s, a, s');
  }

  /** The invariant holds in every state of every run. */
  lemma {:induction false} RunKeeps(c: Config, ss: seq<Fleet>, actions: seq<Action>, i: nat)
    requires IsFleetRun(c, ss, actions) && i < |ss|
    ensures FleetKept(c, ss[i])
  {
    if i > 0 {
      RunKeeps(c, ss, actions, i - 1);
      assert StepAt(c, ss, actions, i - 1);
      NextKeeps(c, ss[i - 1], actions[i - 1], ss[i]);
    }
  }

  /** In a run, one action does one thing to each worker, and the worker fits before it. */
  lemma ActsAt(c: Config, ss: seq<Fleet>, actions: seq<Action>, i: nat, k: nat)
    requires IsFleetRun(c, ss, actions) && i < |actions| && k in ss[i].workers
    ensures Acts(c, ss[i], actions[i], ss[i + 1], k)
    ensures WorkerFits(c, ss[i], ss[i].workers[k])
  {
    RunKeeps(c, ss, actions, i);
    assert StepAt(c, ss, actions, i);
    NextActs(c, ss[i], actions[i], ss[i + 1], k);
  }

  lemma FitsAt(c: Config, ss: seq<Fleet>, actions: seq<Action>, i: nat, k: nat)
    requires IsFleetRun(c, ss, actions) && i < |ss| && k in ss[i].workers
    ensures WorkerFits(c, ss[i], ss[i].workers[k])
  {
    RunKeeps(c, ss, actions, i);
  }
}
