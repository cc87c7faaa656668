/** With deadlines on: they never block the clock. Every run can go on to any later time by steps of
    the workers' own threads alone. */
module TimePasses {
  import opened SyncWorker
  import opened WorkerInvariants
  import opened Fleet
  import opened FleetRuns
  import opened Shutdown

  /** The clock or a thread of a worker. */
  predicate OwnStep(a: Action) {
    a.Pass? || (a.Moves? && Counted(a.move))
  }

  function MonitorPending(w: Worker): nat {
    match w.monitor.pc
    case Selecting => if w.context.cancelled then 0 else 3
    case Reporting => 2
    case CancelFor(_) => 1
    case _ => 0
  }

  /** How many steps of a worker the clock may have to wait for. */
  function Pending(w: Worker): nat {
    MonitorPending(w) + (if w.rsync.process == Alive then 1 else 0)
    + (if w.main.pc == Claiming || w.main.pc == Launching then 1 else 0)
  }

  /** A worker that holds up the clock can take a step, after which fewer are due. */
  lemma OverdueWorkersCanAct(c: Config, w: Worker, t: nat, now: nat) returns (m: Move)
    requires WorkerKept(c, w) && !WithinDeadlines(c, w, t)
    ensures Enabled(w, m) && Counted(m) && Pending(After(c, w, m, now)) < Pending(w)
  {
    if w.rsync.process == Alive {
      m := Exits(false);
    } else if w.main.pc == Claiming {
      m := MainReturns(false);
    } else if w.main.pc == Launching {
      m := Launch(false, "");
    } else if w.monitor.pc == Selecting {
      m := MonitorTicks;
    } else if w.monitor.pc == Reporting {
      m := MonitorReturns(false, "");
    } else {
      m := MonitorMoves;
    }
  }

  /** A longer run, whose further actions are own steps only. */
  ghost predicate GoesOn(c: Config, ss: seq<Fleet>, actions: seq<Action>, ss': seq<Fleet>, actions': seq<Action>) {
    && IsFleetRun(c, ss', actions') && ss <= ss' && actions <= actions'
    && forall i :: |actions| <= i < |actions'| ==> OwnStep(actions'[i])
  }

  /** One worker acts until it no longer holds up the clock; nothing else changes. */
  lemma {:induction false} SettleOne(c: Config, ss: seq<Fleet>, actions: seq<Action>, k: nat, t: nat)
    returns (ss': seq<Fleet>, actions': seq<Action>)
    requires IsFleetRun(c, ss, actions) && k in ss[|ss| - 1].workers
    ensures GoesOn(c, ss, actions, ss', actions')
    ensures
      var s, s' := ss[|ss| - 1], ss'[|ss'| - 1];
      && s'.now == s.now && k in s'.workers && WithinDeadlines(c, s'.workers[k], t)
      && s'.workers == s.workers[k := s'.workers[k]]
    decreases Pending(ss[|ss| - 1].workers[k])
  {
    var s := ss[|ss| - 1];
    var w := s.workers[k];
    if WithinDeadlines(c, w, t) {
      ss', actions' := ss, actions;
    } else {
      FitsAt(c, ss, actions, |ss| - 1, k);
      var m := OverdueWorkersCanAct(c, w, t, s.now);
      var next := s.(workers := s.workers[k := After(c, w, m, s.now)]);
      RunExtends(c, ss, actions, Moves(k, m), next);
      ss', actions' := SettleOne(c, ss + [next], actions + [Moves(k, m)], k, t);
    }
  }

  lemma {:induction false} SettleAll(c: Config, ss: seq<Fleet>, actions: seq<Action>, ks: set<nat>, t: nat)
    returns (ss': seq<Fleet>, actions': seq<Action>)
    requires IsFleetRun(c, ss, actions) && ks <= ss[|ss| - 1].workers.Keys
    ensures GoesOn(c, ss, actions, ss', actions')
    ensures
      var s, s' := ss[|ss| - 1], ss'[|ss'| - 1];
      && s'.now == s.now && s'.workers.Keys == s.workers.Keys
      && (forall k :: k in ks ==> WithinDeadlines(c, s'.workers[k], t))
      && (forall k :: k in s.workers && k !in ks ==> s'.workers[k] == s.workers[k])
    decreases ks
  {
    if ks == {} {
      ss', actions' := ss, actions;
    } else {
      var k :| k in ks;
      var ss1, actions1 := SettleAll(c, ss, actions, ks - {k}, t);
      ss', actions' := SettleOne(c, ss1, actions1, k, t);
    }
  }

  /** From every state of every run, whatever its deadlines, time can reach any later moment: some
      continuation by the workers' own steps and the clock gets there. */
  lemma TimeNeverStops(c: Config, ss: seq<Fleet>, actions: seq<Action>, d: nat)
    returns (ss': seq<Fleet>, actions': seq<Action>)
    requires IsFleetRun(c, ss, actions)
    ensures GoesOn(c, ss, actions, ss', actions')
    ensures ss'[|ss'| - 1].now == ss[|ss| - 1].now + d
  {
    var s := ss[|ss| - 1];
    var ss1, actions1 := SettleAll(c, ss, actions, s.workers.Keys, s.now + d);
    var s1 := ss1[|ss1| - 1];
    var s2 := s1.(now := s1.now + d);
    RunExtends(c, ss1, actions1, Pass(d), s2);
    ss', actions' := ss1 + [s2], actions1 + [Pass(d)];
  }
}
