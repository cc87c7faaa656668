/** How much delay the lease can stand, exactly: beyond the limit there is a run in which two rsync
    processes work on the same directory. */
module LeaseLimit {
  import opened Common
  import opened Paths
  import opened SyncStore
  import opened SyncWorker
  import opened Fleet
  import opened LeaseSafety

  /****** One worker *******/

  /** The installation with one reservation and one worker. */
  function One(now: nat, h: Hash, w: Worker): Fleet {
    Fleet(now, h, {"a"}, {}, {}, map[0 := w])
  }

  lemma OneMoves(c: Config, now: nat, h: Hash, w: Worker, m: Move)
    requires Reachable(c, One(now, h, w)) && Enabled(w, m)
    ensures Reachable(c, One(now, h, After(c, w, m, now)))
  {
    assert map[0 := w][0 := After(c, w, m, now)] == map[0 := After(c, w, m, now)];
    ReachNext(c, One(now, h, w), Moves(0, m), One(now, h, After(c, w, m, now)));
  }

  lemma OneWaits(c: Config, now: nat, h: Hash, w: Worker, d: nat)
    requires Reachable(c, One(now, h, w)) && WithinDeadlines(c, w, now + d)
    ensures Reachable(c, One(now + d, h, w))
  {
    ReachNext(c, One(now, h, w), Pass(d), One(now + d, h, w));
  }

  /** When everything in the hash has expired, any path can be reserved. */
  lemma ReachReserve(c: Config, s: Fleet, id: string, path: string, s': Fleet)
    requires Reachable(c, s) && id !in s.syncIds && id !in s.removalIds
    requires forall k :: k in s.hash ==> Expired(s.hash[k], Seconds(s.now))
    requires s' == s.(hash := map[id := Fresh(Seconds(s.now), id, path, Queued)], syncIds := s.syncIds + {id})
    ensures Reachable(c, s')
  {
    var t := Seconds(s.now);
    assert !Conflict(s.hash, t, path);
    assert Unexpired(s.hash, t)[id := Fresh(t, id, path, Queued)] == s'.hash;
    assert (set k | k in s'.hash && s'.hash[k].stop) == {};
    assert Step(t, s.hash, Reserve(id, path, Queued), s'.hash, Accepted);
    ReachNext(c, s, Reserves(id, path, Queued, s'.hash), s');
  }

  /** The store executes the claim of a new worker. */
  lemma ReachClaim(c: Config, s: Fleet, k: nat, id: string, path: string, s': Fleet)
    requires Reachable(c, s) && k in s.workers && s.workers[k] == NewWorker(id)
    requires s.hash == map[id := Fresh(Seconds(s.now), id, path, Queued)]
    requires s' == s.(hash := map[id := ClaimedRecord(Seconds(s.now), id, path)],
                      workers := s.workers[k := ClaimedWorker(c, s.now, id, path)])
    ensures Reachable(c, s')
  {
    var t := Seconds(s.now);
    var r := ClaimedRecord(t, id, path);
    assert Updated(t, s.hash, id, Claim) == Ok(r);
    assert AfterUpdate(t, s.hash, id, Claim) == s'.hash;
    assert (set q | q in s'.hash && s'.hash[q].stop) == {};
    ReachNext(c, s, Answers(k, false), s');
  }

  function ClaimedRecord(t: int, id: string, path: string): Record {
    Fresh(t, id, path, Queued).(state := State.Running, expires := t + LEASE_SECONDS)
  }

  function ClaimedWorker(c: Config, now: nat, id: string, path: string): Worker {
    Answered(c, NewWorker(id), false, Ok(ClaimedRecord(Seconds(now), id, path)), now)
  }

  /****** The slow worker *******/

  const BEGIN: nat := 999

  const LEASED := map["a" := ClaimedRecord(0, "a", "/p")]

  /** The reservation is made and claimed in the last millisecond of a second. */
  lemma ClaimedLate(c: Config)
    ensures Reachable(c, One(BEGIN, LEASED, ClaimedWorker(c, BEGIN, "a", "/p")))
  {
    var s0 := Fleet(BEGIN, map[], {}, {}, {}, map[]);
    ReachInitial(c, s0);
    var s1 := Fleet(BEGIN, map["a" := Fresh(0, "a", "/p", Queued)], {"a"}, {}, {}, map[]);
    ReachReserve(c, s0, "a", "/p", s1);
    var s2 := One(BEGIN, s1.hash, NewWorker("a"));
    ReachNext(c, s1, Spawns(0, "a"), s2);
    var w := ClaimedWorker(c, BEGIN, "a", "/p");
    assert s2.workers[0 := w] == map[0 := w];
    ReachClaim(c, s2, 0, "a", "/p", One(BEGIN, LEASED, w));
  }

  /** The reply to the claim comes late, and the start event goes out. */
  lemma ReplyIsLate(c: Config, h: Hash, w0: Worker) returns (now: nat, w: Worker)
    requires Reachable(c, One(BEGIN, h, w0)) && w0 == ClaimedWorker(c, BEGIN, "a", "/p")
    ensures Reachable(c, One(now, h, w)) && now == BEGIN + CALL + c.slack
    ensures w.main.pc == SecondCheck && w.monitor.pc == Selecting && w.path == "/p"
    ensures w.context == Context(false, false, false) && w.rsync == NO_RSYNC
    ensures w.times.monitorDue == now + TICK + c.slack
  {
    OneWaits(c, BEGIN, h, w0, CALL + c.slack);
    now := BEGIN + CALL + c.slack;
    OneMoves(c, now, h, w0, MainReturns(true));
    var w1 := After(c, w0, MainReturns(true), now);
    OneMoves(c, now, h, w1, MainMoves);
    w := After(c, w1, MainMoves, now);
  }

  /** The first heartbeat is late, and about to fail. */
  lemma HeartbeatFails(c: Config, h: Hash, now0: nat, w0: Worker) returns (now: nat, w: Worker)
    requires Reachable(c, One(now0, h, w0))
    requires w0.main.pc == SecondCheck && w0.monitor.pc == Selecting && w0.path == "/p"
    requires w0.context == Context(false, false, false) && w0.rsync == NO_RSYNC
    requires w0.times.monitorDue == now0 + TICK + c.slack
    ensures Reachable(c, One(now, h, w)) && now == now0 + TICK + c.slack + CALL + c.slack
    ensures w.main.pc == SecondCheck && w.monitor.pc == Reporting && w.monitor.call.Out?
    ensures w.context == Context(false, false, false) && w.rsync == NO_RSYNC && w.times.monitorDue == now
    ensures w.path == "/p"
  {
    OneWaits(c, now0, h, w0, TICK + c.slack);
    now := now0 + (TICK + c.slack);
    OneMoves(c, now, h, w0, MonitorTicks);
    w := After(c, w0, MonitorTicks, now);
    OneWaits(c, now, h, w, CALL + c.slack);
    now := now + (CALL + c.slack);
  }

  /** The context is cancelled just after the worker's last look at it, and rsync starts late. */
  lemma RsyncStartsLate(c: Config, h: Hash, now0: nat, w0: Worker) returns (now: nat, w: Worker)
    requires Reachable(c, One(now0, h, w0))
    requires w0.main.pc == SecondCheck && w0.monitor.pc == Reporting && w0.monitor.call.Out?
    requires w0.context == Context(false, false, false) && w0.rsync == NO_RSYNC && w0.times.monitorDue == now0
    requires w0.path == "/p"
    ensures Reachable(c, One(now, h, w)) && now == now0 + c.launch
    ensures w.main.pc == AwaitResult && w.monitor.pc.Sending? && w.context.cancelled
    ensures w.rsync == Rsync(Alive, Waiting, None, Watching, [])
    ensures w.times.startAt == now && w.times.cancelAt == now0 && w.path == "/p"
  {
    now := now0;
    OneMoves(c, now, h, w0, MainMoves);
    var w1 := After(c, w0, MainMoves, now);
    OneMoves(c, now, h, w1, MonitorReturns(false, "timeout"));
    var w2 := After(c, w1, MonitorReturns(false, "timeout"), now);
    OneMoves(c, now, h, w2, MonitorMoves);
    var w3 := After(c, w2, MonitorMoves, now);
    OneWaits(c, now, h, w3, c.launch);
    now := now + c.launch;
    OneMoves(c, now, h, w3, Launch(true, ""));
    w := After(c, w3, Launch(true, ""), now);
  }

  /** The cancellation is noticed as late as it may be. */
  lemma SignalIsLate(c: Config, h: Hash, now0: nat, w0: Worker) returns (now: nat, w: Worker)
    requires Reachable(c, One(now0, h, w0))
    requires w0.main.pc == AwaitResult && w0.monitor.pc.Sending? && w0.context.cancelled
    requires w0.rsync == Rsync(Alive, Waiting, None, Watching, [])
    requires w0.times.startAt == now0 && w0.times.cancelAt <= now0 && w0.path == "/p"
    ensures Reachable(c, One(now, h, w)) && now == now0 + c.slack
    ensures w.main.pc == AwaitResult && w.monitor.pc.Sending?
    ensures w.rsync == Rsync(Alive, Waiting, None, Grace, []) && w.times.graceAt == now && w.path == "/p"
  {
    OneWaits(c, now0, h, w0, c.slack);
    now := now0 + c.slack;
    OneMoves(c, now, h, w0, WatcherSeesCancel);
    var w1 := After(c, w0, WatcherSeesCancel, now);
    OneMoves(c, now, h, w1, WatcherRechecks);
    w := After(c, w1, WatcherRechecks, now);
  }

  /** And so is the kill. */
  lemma RsyncLingers(c: Config, h: Hash, now0: nat, w: Worker)
    requires Reachable(c, One(now0, h, w))
    requires w.main.pc == AwaitResult && w.monitor.pc.Sending?
    requires w.rsync == Rsync(Alive, Waiting, None, Grace, []) && w.times.graceAt == now0
    ensures Reachable(c, One(now0 + (GRACE + c.slack), h, w))
  {
    OneWaits(c, now0, h, w, GRACE + c.slack);
  }

  /****** The second worker *******/

  function Two(now: nat, h: Hash, w: Worker, v: Worker): Fleet {
    Fleet(now, h, {"a", "b"}, {}, {}, map[0 := w, 1 := v])
  }

  lemma SecondMoves(c: Config, now: nat, h: Hash, w: Worker, v: Worker, m: Move)
    requires Reachable(c, Two(now, h, w, v)) && Enabled(v, m)
    ensures Reachable(c, Two(now, h, w, After(c, v, m, now)))
  {
    assert map[0 := w, 1 := v][1 := After(c, v, m, now)] == map[0 := w, 1 := After(c, v, m, now)];
    ReachNext(c, Two(now, h, w, v), Moves(1, m), Two(now, h, w, After(c, v, m, now)));
  }

  /** Once the first lease has run out, a second worker claims the same path. */
  lemma SecondClaims(c: Config, now: nat, w: Worker)
    requires Reachable(c, One(now, LEASED, w)) && Seconds(now) >= LEASE_SECONDS
    ensures Reachable(c, Two(now, map["b" := ClaimedRecord(Seconds(now), "b", "/p")], w,
                             ClaimedWorker(c, now, "b", "/p")))
  {
    var t := Seconds(now);
    var s1 := Fleet(now, map["b" := Fresh(t, "b", "/p", Queued)], {"a", "b"}, {}, {}, map[0 := w]);
    assert {"a"} + {"b"} == {"a", "b"};
    ReachReserve(c, One(now, LEASED, w), "b", "/p", s1);
    var s2 := Two(now, s1.hash, w, NewWorker("b"));
    assert map[0 := w][1 := NewWorker("b")] == map[0 := w, 1 := NewWorker("b")];
    ReachNext(c, s1, Spawns(1, "b"), s2);
    var v := ClaimedWorker(c, now, "b", "/p");
    assert s2.workers[1 := v] == map[0 := w, 1 := v];
    ReachClaim(c, s2, 1, "b", "/p", Two(now, map["b" := ClaimedRecord(t, "b", "/p")], w, v));
  }

  lemma SecondStarts(c: Config, now: nat, h: Hash, w: Worker, v0: Worker) returns (v: Worker)
    requires Reachable(c, Two(now, h, w, v0))
    requires v0 == ClaimedWorker(c, now, "b", "/p")
    ensures Reachable(c, Two(now, h, w, v)) && v.rsync.process == Alive && v.path == "/p"
  {
    SecondMoves(c, now, h, w, v0, MainReturns(true));
    var v1 := After(c, v0, MainReturns(true), now);
    SecondMoves(c, now, h, w, v1, MainMoves);
    var v2 := After(c, v1, MainMoves, now);
    SecondMoves(c, now, h, w, v2, MainMoves);
    var v3 := After(c, v2, MainMoves, now);
    SecondMoves(c, now, h, w, v3, Launch(true, ""));
    v := After(c, v3, Launch(true, ""), now);
  }

  /****** The limit *******/

  ghost predicate Clash(s: Fleet) {
    exists j, k :: j != k && RsyncAlive(s, j) && RsyncAlive(s, k) && LuaOverlap(s.workers[j].path, s.workers[k].path)
  }

  /** Beyond the limit, two rsync processes can be at work on the same directory. */
  lemma TooSlowClashes(c: Config) returns (s: Fleet)
    requires DeadWithin(c) > SURE_LEASE
    ensures Reachable(c, s) && Clash(s)
  {
    ClaimedLate(c);
    var now, w := ReplyIsLate(c, LEASED, ClaimedWorker(c, BEGIN, "a", "/p"));
    now, w := HeartbeatFails(c, LEASED, now, w);
    now, w := RsyncStartsLate(c, LEASED, now, w);
    now, w := SignalIsLate(c, LEASED, now, w);
    RsyncLingers(c, LEASED, now, w);
    now := now + (GRACE + c.slack);
    assert now == BEGIN + DeadWithin(c);
    SecondClaims(c, now, w);
    var h := map["b" := ClaimedRecord(Seconds(now), "b", "/p")];
    var v := SecondStarts(c, now, h, w, ClaimedWorker(c, now, "b", "/p"));
    s := Two(now, h, w, v);
    assert RsyncAlive(s, 0) && RsyncAlive(s, 1);
  }

  /** The leases keep rsync processes apart in every run exactly when the launch window and five
      times the slack stay within 103 seconds. */
  lemma LeaseLimitIsExact(c: Config)
    requires c.timed
    ensures (forall s :: Reachable(c, s) ==> !Clash(s)) <==> c.launch + 5 * c.slack <= 103000
  {
    if c.launch + 5 * c.slack <= 103000 {
      forall s | Reachable(c, s) ensures !Clash(s) {
        var ss, actions :| EndsIn(c, ss, actions, s);
        if Clash(s) {
          var j, k :| j != k && RsyncAlive(s, j) && RsyncAlive(s, k)
            && LuaOverlap(s.workers[j].path, s.workers[k].path);
          RsyncsNeverOverlap(c, ss, actions, |ss| - 1, j, k);
          assert false;
        }
      }
    } else {
      var s := TooSlowClashes(c);
      assert Reachable(c, s) && Clash(s);
    }
  }
}
