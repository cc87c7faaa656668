/** Whole runs of the store: any sequence of scripts, by any callers, at times that never decrease. */
module StoreRuns {
  import opened Paths
  import opened SyncStore

  /** One script of a run: when it ran, what was asked and answered, and the hash it left. */
  datatype Entry = Entry(now: int, request: Request, reply: Reply, post: Hash)

  /** `es` is a run from hash `h` at time `t`. */
  ghost predicate IsRun(t: int, h: Hash, es: seq<Entry>)
    decreases |es|
  {
    es == [] ||
    (&& t <= es[0].now
     && Step(es[0].now, h, es[0].request, es[0].post, es[0].reply)
     && IsRun(es[0].now, es[0].post, es[1..]))
  }

  function End(h: Hash, es: seq<Entry>): Hash {
    if es == [] then h else es[|es| - 1].post
  }

  function EndTime(t: int, es: seq<Entry>): int {
    if es == [] then t else es[|es| - 1].now
  }

  lemma EndOfTail(t: int, h: Hash, es: seq<Entry>)
    requires es != []
    ensures End(es[0].post, es[1..]) == End(h, es)
    ensures EndTime(es[0].now, es[1..]) == EndTime(t, es)
  {}

  /** No request in the run reserves under this id. */
  ghost predicate NeverReserved(es: seq<Entry>, id: string) {
    forall i :: 0 <= i < |es| && es[i].request.Reserve? ==> es[i].request.id != id
  }

  /** Reservation ids are fresh: no two requests of the run use the same one. */
  ghost predicate FreshIds(es: seq<Entry>) {
    forall i, j :: 0 <= i < j < |es| && es[i].request.Reserve? && es[j].request.Reserve? ==>
      es[i].request.id != es[j].request.id
  }

  /****** Exclusion and expiry bounds *******/

  /** No two live records overlap. */
  ghost predicate Exclusive(h: Hash, now: int) {
    forall j, k :: j in h && k in h && j != k && Live(h[j], now) && Live(h[k], now) ==>
      !LuaOverlap(h[j].path, h[k].path)
  }

  predicate BoundedRecord(r: Record, now: int) {
    && (r.state == Running ==> r.expires <= now + LEASE_SECONDS)
    && (Active(r) ==> r.expires <= now + QUEUE_SECONDS)
    && r.expires <= now + KEEP_SECONDS
  }

  ghost predicate Bounded(h: Hash, now: int) {
    forall k :: k in h ==> BoundedRecord(h[k], now)
  }

  lemma ReserveKeepsExclusion(now: int, h: Hash, request: Request, h': Hash, reply: Reply)
    requires Exclusive(h, now) && request.Reserve? && Step(now, h, request, h', reply)
    ensures Exclusive(h', now)
  {
    if reply.Accepted? {
      forall j, k | j in h' && k in h' && j != k && Live(h'[j], now) && Live(h'[k], now)
        ensures !LuaOverlap(h'[j].path, h'[k].path)
      {
        OverlapSymmetric(h'[j].path, h'[k].path);
        if j == request.id {
          assert k in h && h[k] == h'[k];
        } else if k == request.id {
          assert j in h && h[j] == h'[j];
        }
      }
    }
  }

  lemma StepKeepsExclusion(now: int, h: Hash, request: Request, h': Hash, reply: Reply)
    requires Exclusive(h, now) && Step(now, h, request, h', reply)
    ensures Exclusive(h', now)
  {
    if request.Reserve? {
      ReserveKeepsExclusion(now, h, request, h', reply);
    } else {
      forall k | k in h' && Live(h'[k], now)
        ensures k in h && Live(h[k], now) && h[k].path == h'[k].path
      {}
    }
  }

  lemma StepKeepsBounds(now: int, h: Hash, request: Request, h': Hash, reply: Reply)
    requires Bounded(h, now) && Step(now, h, request, h', reply)
    ensures Bounded(h', now)
  {}

  lemma TimeKeepsExclusion(h: Hash, now: int, later: int)
    requires Exclusive(h, now) && now <= later
    ensures Exclusive(h, later)
  {
    forall k | k in h && Live(h[k], later) ensures Live(h[k], now) {}
  }

  lemma TimeKeepsBounds(h: Hash, now: int, later: int)
    requires Bounded(h, now) && now <= later
    ensures Bounded(h, later)
  {
    forall k | k in h ensures BoundedRecord(h[k], later) {
      assert BoundedRecord(h[k], now);
    }
  }

  lemma {:induction false} RunKeepsExclusion(t: int, h: Hash, es: seq<Entry>)
    requires IsRun(t, h, es) && Exclusive(h, t) && Bounded(h, t)
    ensures Exclusive(End(h, es), EndTime(t, es)) && Bounded(End(h, es), EndTime(t, es))
    decreases |es|
  {
    if es != [] {
      var e := es[0];
      TimeKeepsExclusion(h, t, e.now);
      TimeKeepsBounds(h, t, e.now);
      StepKeepsExclusion(e.now, h, e.request, e.post, e.reply);
      StepKeepsBounds(e.now, h, e.request, e.post, e.reply);
      RunKeepsExclusion(e.now, e.post, es[1..]);
      EndOfTail(t, h, es);
    }
  }

  /** The store's paths are what the server sends: cleaned absolute paths. */
  predicate CleanPath(p: string) {
    Rooted(p) && Clean(p) == p
  }

  ghost predicate ReservesCleanPaths(es: seq<Entry>) {
    forall i :: 0 <= i < |es| && es[i].request.Reserve? ==> CleanPath(es[i].request.path)
  }

  ghost predicate HoldsCleanPaths(h: Hash) {
    forall k :: k in h ==> CleanPath(h[k].path)
  }

  lemma {:induction false} RunKeepsCleanPaths(t: int, h: Hash, es: seq<Entry>)
    requires IsRun(t, h, es) && HoldsCleanPaths(h) && ReservesCleanPaths(es)
    ensures HoldsCleanPaths(End(h, es))
    decreases |es|
  {
    if es != [] {
      var e := es[0];
      forall k | k in e.post ensures CleanPath(e.post[k].path) {
        assert (e.request.Reserve? && e.post[k].path == e.request.path) || (k in h && h[k].path == e.post[k].path);
      }
      assert ReservesCleanPaths(es[1..]);
      RunKeepsCleanPaths(e.now, e.post, es[1..]);
      EndOfTail(t, h, es);
    }
  }

  /** After any run of an initially empty store, and at any later time, no directory lies in the
      subtrees of two live reservations. */
  lemma NoDirectoryHeldTwice(t: int, es: seq<Entry>, later: int, j: string, k: string)
    requires IsRun(t, map[], es) && ReservesCleanPaths(es) && EndTime(t, es) <= later
    requires j in End(map[], es) && k in End(map[], es) && j != k
    requires Live(End(map[], es)[j], later) && Live(End(map[], es)[k], later)
    ensures !SubtreesMeet(Names(End(map[], es)[j].path), Names(End(map[], es)[k].path))
  {
    RunKeepsExclusion(t, map[], es);
    RunKeepsCleanPaths(t, map[], es);
    TimeKeepsExclusion(End(map[], es), EndTime(t, es), later);
    OverlapIsMeetingSubtrees(End(map[], es)[j].path, End(map[], es)[k].path);
  }

  /** One stop request marks at most one record, whatever ran before it. */
  lemma StopMarksAtMostOne(t: int, es: seq<Entry>, now: int, path: string, j: string, k: string)
    requires IsRun(t, map[], es) && EndTime(t, es) <= now
    requires j in End(map[], es) && k in End(map[], es)
    requires StopMarks(End(map[], es)[j], now, path) && StopMarks(End(map[], es)[k], now, path)
    ensures j == k
  {
    RunKeepsExclusion(t, map[], es);
    TimeKeepsExclusion(End(map[], es), EndTime(t, es), now);
  }

  /****** Nothing is locked for ever *******/

  /** Only listings and stop requests. */
  ghost predicate Quiet(es: seq<Entry>) {
    forall i :: 0 <= i < |es| ==> es[i].request.List? || es[i].request.Stop?
  }

  /** The two records hold the same directory for the same time. */
  predicate SameHold(r: Record, s: Record) {
    r.path == s.path && r.state == s.state && r.expires == s.expires
  }

  lemma {:induction false} QuietRunsRenewNothing(t: int, h: Hash, es: seq<Entry>)
    requires IsRun(t, h, es) && Quiet(es)
    ensures forall k :: k in End(h, es) ==>
      k in h && SameHold(End(h, es)[k], h[k])
    decreases |es|
  {
    if es != [] {
      QuietRunsRenewNothing(es[0].now, es[0].post, es[1..]);
      EndOfTail(t, h, es);
      forall k | k in End(h, es) ensures k in h && SameHold(End(h, es)[k], h[k]) {
        assert k in es[0].post && SameHold(es[0].post[k], h[k]);
      }
    }
  }

  /** Left alone, every path can be reserved again: after two minutes when only running downloads
      hold it, after ten minutes in any case. */
  lemma EveryPathComesFree(t: int, es: seq<Entry>, quiet: seq<Entry>, now: int, path: string)
    requires IsRun(t, map[], es)
    requires IsRun(EndTime(t, es), End(map[], es), quiet) && Quiet(quiet)
    requires EndTime(EndTime(t, es), quiet) <= now
    requires
      || now >= EndTime(t, es) + QUEUE_SECONDS
      || (&& now >= EndTime(t, es) + LEASE_SECONDS
          && forall k :: k in End(map[], es) && Blocks(End(map[], es)[k], EndTime(t, es), path) ==>
            End(map[], es)[k].state == Running)
    ensures !Conflict(End(End(map[], es), quiet), now, path)
  {
    var h, mid := End(map[], es), EndTime(t, es);
    RunKeepsExclusion(t, map[], es);
    QuietRunsRenewNothing(mid, h, quiet);
    var last := End(h, quiet);
    forall k | k in last ensures !Blocks(last[k], now, path) {
      assert SameHold(last[k], h[k]) && BoundedRecord(h[k], mid);
      assert Blocks(last[k], now, path) ==> Blocks(h[k], mid, path);
    }
  }

  /****** Finished and expired records are final *******/

  /** No live record under this id. */
  predicate Gone(h: Hash, now: int, id: string) {
    id in h ==> !Live(h[id], now)
  }

  /** After a record is finished or expired, every update of its id fails and the record is never
      changed, only removed. */
  lemma {:induction false} DeadRecordsAreFinal(t: int, h: Hash, es: seq<Entry>, id: string)
    requires IsRun(t, h, es) && NeverReserved(es, id) && Gone(h, t, id)
    ensures Gone(End(h, es), EndTime(t, es), id)
    ensures id in End(h, es) ==> id in h && End(h, es)[id] == h[id]
    ensures forall i :: 0 <= i < |es| && es[i].request.Update? && es[i].request.id == id ==> es[i].reply.Refused?
    decreases |es|
  {
    if es != [] {
      var e := es[0];
      assert Gone(h, e.now, id);
      assert id in e.post ==> id in h && e.post[id] == h[id];
      assert NeverReserved(es[1..], id);
      DeadRecordsAreFinal(e.now, e.post, es[1..], id);
      EndOfTail(t, h, es);
      forall i | 0 <= i < |es| && es[i].request.Update? && es[i].request.id == id ensures es[i].reply.Refused? {
        if i > 0 { assert es[i] == es[1..][i - 1]; }
      }
    }
  }

  /****** Claiming *******/

  predicate IsClaim(e: Entry, id: string) {
    e.request == Update(id, Claim) && e.reply.Changed?
  }

  /** How many claims of this id took effect. */
  function Claims(es: seq<Entry>, id: string): nat {
    if es == [] then 0 else (if IsClaim(es[0], id) then 1 else 0) + Claims(es[1..], id)
  }

  predicate QueuedUnder(h: Hash, id: string) {
    id in h && h[id].state == Queued
  }

  /** A record that has left the queue never returns to it, and no claim of it takes effect. */
  lemma {:induction false} NeverQueuedAgain(t: int, h: Hash, es: seq<Entry>, id: string)
    requires IsRun(t, h, es) && NeverReserved(es, id) && !QueuedUnder(h, id)
    ensures forall i :: 0 <= i < |es| ==> !QueuedUnder(es[i].post, id)
    ensures Claims(es, id) == 0
    decreases |es|
  {
    if es != [] {
      var e := es[0];
      assert !QueuedUnder(e.post, id);
      assert NeverReserved(es[1..], id);
      NeverQueuedAgain(e.now, e.post, es[1..], id);
      forall i | 0 <= i < |es| ensures !QueuedUnder(es[i].post, id) {
        if i > 0 { assert es[i] == es[1..][i - 1]; }
      }
    }
  }

  lemma {:induction false} ReservedIdsAreClaimedOnce(t: int, h: Hash, es: seq<Entry>, id: string)
    requires IsRun(t, h, es) && NeverReserved(es, id)
    ensures Claims(es, id) <= 1
    decreases |es|
  {
    if es != [] {
      var e := es[0];
      assert NeverReserved(es[1..], id);
      if IsClaim(e, id) {
        NeverQueuedAgain(e.now, e.post, es[1..], id);
      } else {
        ReservedIdsAreClaimedOnce(e.now, e.post, es[1..], id);
      }
    }
  }

  lemma {:induction false} UnseenIdsAreClaimedOnce(t: int, h: Hash, es: seq<Entry>, id: string)
    requires IsRun(t, h, es) && FreshIds(es) && id !in h
    ensures Claims(es, id) <= 1
    decreases |es|
  {
    if es != [] {
      var e := es[0];
      assert FreshIds(es[1..]) by {
        forall i, j | 0 <= i < j < |es[1..]| && es[1..][i].request.Reserve? && es[1..][j].request.Reserve?
          ensures es[1..][i].request.id != es[1..][j].request.id
        {
          assert es[1..][i] == es[i + 1] && es[1..][j] == es[j + 1];
        }
      }
      if e.request.Reserve? && e.request.id == id {
        assert NeverReserved(es[1..], id);
        ReservedIdsAreClaimedOnce(e.now, e.post, es[1..], id);
      } else {
        UnseenIdsAreClaimedOnce(e.now, e.post, es[1..], id);
      }
    }
  }

  /** Over any run of an initially empty store in which reservation ids are fresh, at most one claim
      of each id takes effect, however many workers try and however often. */
  lemma ClaimedAtMostOnce(t: int, es: seq<Entry>, id: string)
    requires IsRun(t, map[], es) && FreshIds(es)
    ensures Claims(es, id) <= 1
  {
    UnseenIdsAreClaimedOnce(t, map[], es, id);
  }

  /****** Stop requests are durable *******/

  /** Once set, the stop flag stays set on the record and in every reply about it. */
  lemma {:induction false} StopIsDurable(t: int, h: Hash, es: seq<Entry>, id: string)
    requires IsRun(t, h, es) && NeverReserved(es, id)
    requires id in h ==> h[id].stop
    ensures forall i :: 0 <= i < |es| && id in es[i].post ==> es[i].post[id].stop
    ensures forall i :: 0 <= i < |es| && es[i].request.Update? && es[i].request.id == id && es[i].reply.Changed? ==>
      es[i].reply.record.stop
    decreases |es|
  {
    if es != [] {
      var e := es[0];
      assert NeverReserved(es[1..], id);
      assert id in e.post ==> e.post[id].stop;
      StopIsDurable(e.now, e.post, es[1..], id);
      forall i | 0 <= i < |es|
        ensures id in es[i].post ==> es[i].post[id].stop
        ensures es[i].request.Update? && es[i].request.id == id && es[i].reply.Changed? ==> es[i].reply.record.stop
      {
        if i > 0 { assert es[i] == es[1..][i - 1]; }
      }
    }
  }

  /****** A failed launch against a claim *******/

  predicate IsFinish(e: Entry, id: string) {
    e.request.Update? && e.request.id == id && e.request.op.Finish?
  }

  /** No script of the run finishes the record, and none runs after its lease ran out. */
  ghost predicate Uninterrupted(h: Hash, es: seq<Entry>, id: string)
    decreases |es|
  {
    es == [] ||
    (&& !IsFinish(es[0], id)
     && (id in h ==> !Expired(h[id], es[0].now))
     && Uninterrupted(es[0].post, es[1..], id))
  }

  /** A record that has left the queue holds its directory until it finishes or expires. */
  lemma {:induction false} HeldUntilFinishedOrExpired(t: int, h: Hash, es: seq<Entry>, id: string)
    requires IsRun(t, h, es) && NeverReserved(es, id) && Uninterrupted(h, es, id)
    requires id in h && Active(h[id]) && h[id].state != Queued
    ensures id in End(h, es) && End(h, es)[id].state == h[id].state && End(h, es)[id].path == h[id].path
    ensures h[id].stop ==> End(h, es)[id].stop
    ensures forall i :: 0 <= i < |es| && es[i].request.Reserve? && LuaOverlap(h[id].path, es[i].request.path) ==>
      es[i].reply == Rejected
    decreases |es|
  {
    if es != [] {
      var e := es[0];
      assert id in e.post && e.post[id].state == h[id].state && e.post[id].path == h[id].path;
      assert NeverReserved(es[1..], id);
      HeldUntilFinishedOrExpired(e.now, e.post, es[1..], id);
      EndOfTail(t, h, es);
      if e.request.Reserve? && LuaOverlap(h[id].path, e.request.path) {
        assert Conflict(h, e.now, e.request.path);
      }
      forall i | 0 <= i < |es| && es[i].request.Reserve? && LuaOverlap(h[id].path, es[i].request.path)
        ensures es[i].reply == Rejected
      {
        if i > 0 { assert es[i] == es[1..][i - 1]; }
      }
    }
  }

  /** A launch reported as failed either kills the reservation before any claim, or leaves a claimed
      one in place with its stop flag set until it finishes or expires; it never frees the
      directory of a claimed reservation. */
  lemma LaunchFailureNeverReleasesAClaim(t: int, h: Hash, es: seq<Entry>, id: string, message: string)
    requires es != [] && IsRun(t, h, es) && NeverReserved(es, id)
    requires es[0].request == Update(id, LaunchFailed(message)) && es[0].reply.Changed?
    ensures id in h
    ensures h[id].state == Queued ==>
      && Claims(es, id) == 0
      && forall i :: 1 <= i < |es| && es[i].request.Update? && es[i].request.id == id ==> es[i].reply.Refused?
    ensures h[id].state != Queued && Uninterrupted(es[0].post, es[1..], id) ==>
      && id in End(h, es) && End(h, es)[id].state == h[id].state && End(h, es)[id].stop
      && forall i :: 1 <= i < |es| && es[i].request.Reserve? && LuaOverlap(h[id].path, es[i].request.path) ==>
        es[i].reply == Rejected
  {
    var e, rest := es[0], es[1..];
    assert NeverReserved(rest, id);
    assert forall i :: 1 <= i < |es| ==> es[i] == rest[i - 1];
    EndOfTail(t, h, es);
    if h[id].state == Queued {
      DeadRecordsAreFinal(e.now, e.post, rest, id);
      NeverQueuedAgain(e.now, e.post, rest, id);
    } else if Uninterrupted(e.post, rest, id) {
      HeldUntilFinishedOrExpired(e.now, e.post, rest, id);
    }
  }

  /****** Nothing is released early *******/

  /** No update of the run concerns this id. */
  ghost predicate NeverUpdated(es: seq<Entry>, id: string) {
    forall i :: 0 <= i < |es| && es[i].request.Update? ==> es[i].request.id != id
  }

  lemma {:induction false} KeptUntilExpiry(t: int, h: Hash, es: seq<Entry>, id: string)
    requires IsRun(t, h, es) && NeverReserved(es, id) && NeverUpdated(es, id)
    requires id in h && EndTime(t, es) < h[id].expires
    ensures id in End(h, es) && SameHold(End(h, es)[id], h[id]) && End(h, es)[id].fields == h[id].fields
    ensures !Active(h[id]) ==> End(h, es)[id] == h[id]
    ensures Active(h[id]) ==>
      forall i :: 0 <= i < |es| && es[i].request.Reserve? && LuaOverlap(h[id].path, es[i].request.path) ==>
        es[i].reply == Rejected
    decreases |es|
  {
    if es != [] {
      var e := es[0];
      EndOfTail(t, h, es);
      TimesGrow(e.now, e.post, es[1..]);
      assert NeverReserved(es[1..], id) && NeverUpdated(es[1..], id);
      assert id in e.post && SameHold(e.post[id], h[id]) && e.post[id].fields == h[id].fields;
      KeptUntilExpiry(e.now, e.post, es[1..], id);
      if e.request.Reserve? && Active(h[id]) && LuaOverlap(h[id].path, e.request.path) {
        assert Conflict(h, e.now, e.request.path);
      }
      forall i | 0 <= i < |es| && es[i].request.Reserve? && Active(h[id]) && LuaOverlap(h[id].path, es[i].request.path)
        ensures es[i].reply == Rejected
      {
        if i > 0 { assert es[i] == es[1..][i - 1]; }
      }
    }
  }

  lemma {:induction false} TimesGrow(t: int, h: Hash, es: seq<Entry>)
    requires IsRun(t, h, es)
    ensures t <= EndTime(t, es)
    decreases |es|
  {
    if es != [] {
      TimesGrow(es[0].now, es[0].post, es[1..]);
      EndOfTail(t, h, es);
    }
  }

  /** A reservation nobody claims keeps its directory for exactly the ten minutes it was given: until
      then every overlapping reservation is turned down. A renewed lease lasts two minutes, a final
      record is there, unchanged, for a day. */
  lemma HeldForItsTerm(t: int, h: Hash, es: seq<Entry>, id: string)
    requires es != [] && IsRun(t, h, es)
    requires NeverReserved(es[1..], id) && NeverUpdated(es[1..], id)
    requires || (es[0].request.Reserve? && es[0].request.id == id && es[0].reply == Accepted)
             || (es[0].request.Update? && es[0].request.id == id && es[0].reply.Changed?)
    requires EndTime(t, es) < es[0].now + (if es[0].request.Reserve? then QUEUE_SECONDS
                                           else if Active(es[0].reply.record) then LEASE_SECONDS
                                           else KEEP_SECONDS)
    ensures id in es[0].post && id in End(h, es) && SameHold(End(h, es)[id], es[0].post[id])
    ensures !Active(es[0].post[id]) ==> End(h, es)[id] == es[0].post[id]
    ensures Active(es[0].post[id]) ==>
      forall i :: 1 <= i < |es| && es[i].request.Reserve? && LuaOverlap(es[0].post[id].path, es[i].request.path) ==>
        es[i].reply == Rejected
  {
    EndOfTail(t, h, es);
    KeptUntilExpiry(es[0].now, es[0].post, es[1..], id);
    assert forall i :: 1 <= i < |es| ==> es[i] == es[1..][i - 1];
  }

  /****** What listings show *******/

  /** The script ends the download: it finishes it, or reports its launch as failed while it waits. */
  predicate EndsDownload(h: Hash, e: Entry, id: string) {
    && e.request.Update? && e.request.id == id
    && (e.request.op.Finish? || (e.request.op.LaunchFailed? && QueuedUnder(h, id)))
  }

  /** No script of the run ends the download, and none runs after its expiry. */
  ghost predicate Lasts(h: Hash, es: seq<Entry>, id: string)
    decreases |es|
  {
    es == [] ||
    (&& !EndsDownload(h, es[0], id)
     && (id in h ==> es[0].now < h[id].expires)
     && Lasts(es[0].post, es[1..], id))
  }

  predicate Download(h: Hash, id: string) {
    id in h && (h[id].state == Queued || h[id].state == Running)
  }

  /** The reply lists the id, with the id and the path it was reserved for. */
  predicate Shows(reply: Reply, id: string, path: string) {
    reply.Rows? && id in reply.rows && reply.rows[id].id == id && reply.rows[id].path == path
  }

  lemma {:induction false} ListedWhileItLasts(t: int, h: Hash, es: seq<Entry>, id: string)
    requires IsRun(t, h, es) && NeverReserved(es, id) && Lasts(h, es, id) && Download(h, id) && h[id].id == id
    ensures forall i :: 0 <= i < |es| && es[i].request == List ==> Shows(es[i].reply, id, h[id].path)
    decreases |es|
  {
    if es != [] {
      var e := es[0];
      assert Download(e.post, id) && e.post[id].id == id && e.post[id].path == h[id].path;
      assert NeverReserved(es[1..], id);
      ListedWhileItLasts(e.now, e.post, es[1..], id);
      forall i | 0 <= i < |es| && es[i].request == List ensures Shows(es[i].reply, id, h[id].path) {
        if i > 0 { assert es[i] == es[1..][i - 1]; }
      }
    }
  }

  lemma {:induction false} OthersAreNeverListed(t: int, h: Hash, es: seq<Entry>, id: string)
    requires IsRun(t, h, es) && NeverReserved(es, id) && !Download(h, id)
    ensures forall i :: 0 <= i < |es| && es[i].request == List ==> es[i].reply.Rows? && id !in es[i].reply.rows
    decreases |es|
  {
    if es != [] {
      var e := es[0];
      assert !Download(e.post, id);
      assert NeverReserved(es[1..], id);
      OthersAreNeverListed(e.now, e.post, es[1..], id);
      forall i | 0 <= i < |es| && es[i].request == List ensures es[i].reply.Rows? && id !in es[i].reply.rows {
        if i > 0 { assert es[i] == es[1..][i - 1]; }
      }
    }
  }

  /** A download is in every listing from its reservation until it is finished, expires, or its launch
      is reported as failed before it is claimed; a removal is in none. */
  lemma ReservationsAreListed(t: int, h: Hash, es: seq<Entry>, id: string, path: string, kind: FirstState)
    requires es != [] && IsRun(t, h, es) && NeverReserved(es[1..], id)
    requires es[0].request == Reserve(id, path, kind) && es[0].reply == Accepted
    ensures kind == Queued && Lasts(es[0].post, es[1..], id) ==>
      forall i :: 1 <= i < |es| && es[i].request == List ==> Shows(es[i].reply, id, path)
    ensures kind == Removing ==>
      forall i :: 1 <= i < |es| && es[i].request == List ==> es[i].reply.Rows? && id !in es[i].reply.rows
  {
    var e, rest := es[0], es[1..];
    assert forall i :: 1 <= i < |es| ==> es[i] == rest[i - 1];
    if kind == Queued {
      if Lasts(e.post, rest, id) { ListedWhileItLasts(e.now, e.post, rest, id); }
    } else {
      OthersAreNeverListed(e.now, e.post, rest, id);
    }
  }

  lemma {:induction false} GoneIsNeverListed(t: int, h: Hash, es: seq<Entry>, id: string)
    requires IsRun(t, h, es) && NeverReserved(es, id) && Gone(h, t, id)
    ensures forall i :: 0 <= i < |es| && es[i].request == List ==> es[i].reply.Rows? && id !in es[i].reply.rows
    decreases |es|
  {
    if es != [] {
      var e := es[0];
      assert Gone(h, e.now, id) && Gone(e.post, e.now, id);
      assert NeverReserved(es[1..], id);
      GoneIsNeverListed(e.now, e.post, es[1..], id);
      forall i | 0 <= i < |es| && es[i].request == List ensures es[i].reply.Rows? && id !in es[i].reply.rows {
        if i > 0 { assert es[i] == es[1..][i - 1]; }
      }
    }
  }

  /** Once a download has ended or expired, no listing shows it again. */
  lemma EndedDownloadsAreNotListed(t: int, h: Hash, es: seq<Entry>, id: string)
    requires es != [] && IsRun(t, h, es) && NeverReserved(es, id)
    requires EndsDownload(h, es[0], id) || (id in h && h[id].expires <= es[0].now)
    ensures forall i :: 1 <= i < |es| && es[i].request == List ==> es[i].reply.Rows? && id !in es[i].reply.rows
  {
    var e, rest := es[0], es[1..];
    assert Gone(e.post, e.now, id);
    assert NeverReserved(rest, id);
    GoneIsNeverListed(e.now, e.post, rest, id);
    assert forall i :: 1 <= i < |es| ==> es[i] == rest[i - 1];
  }
}
