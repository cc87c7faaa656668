/** Deleting expired records lazily, in any order and sometimes only in part, cannot be told from a
    store that never holds an expired record. */
module Pruning {
  import opened Common
  import opened Paths
  import opened SyncStore
  import opened StoreRuns

  /** The ideal store: before each script, everything expired is gone. */
  ghost function IdealHash(now: int, m: Hash, request: Request): Hash {
    var live := Unexpired(m, now);
    match request
    case Reserve(id, path, kind) =>
      if Conflict(live, now, path) then live else live[id := Fresh(now, id, path, kind)]
    case Update(id, op) => AfterUpdate(now, live, id, op)
    case List => live
    case Stop(path) => AfterStop(live, now, path)
  }

  ghost function IdealReply(now: int, m: Hash, request: Request): Reply {
    var live := Unexpired(m, now);
    match request
    case Reserve(id, path, kind) => if Conflict(live, now, path) then Rejected else Accepted
    case Update(id, op) => (match Updated(now, live, id, op) case Ok(r) => Changed(r) case Err(e) => Refused(e))
    case List => Rows(Listed(live, now))
    case Stop(path) => Marked
  }

  /** Equal replies, except that "missing" and "expired" are the same failure. */
  predicate SameReply(a: Reply, b: Reply) {
    || a == b
    || (a.Refused? && b.Refused? && a.error != AlreadyClaimed && b.error != AlreadyClaimed)
  }

  /** Both hashes hold the same unexpired records. */
  ghost predicate Alike(h: Hash, m: Hash, now: int) {
    Unexpired(h, now) == Unexpired(m, now)
  }

  lemma AlikeLater(h: Hash, m: Hash, now: int, later: int)
    requires Alike(h, m, now) && now <= later
    ensures Alike(h, m, later)
  {
    forall k ensures k in Unexpired(h, later) <==> k in Unexpired(m, later) {
      assert k in Unexpired(h, now) <==> k in Unexpired(m, now);
    }
    forall k | k in Unexpired(h, later) ensures Unexpired(h, later)[k] == Unexpired(m, later)[k] {
      assert Unexpired(h, now)[k] == Unexpired(m, now)[k];
    }
  }

  lemma UnexpiredTwice(h: Hash, now: int)
    ensures Unexpired(Unexpired(h, now), now) == Unexpired(h, now)
    ensures Listed(Unexpired(h, now), now) == Listed(h, now)
  {}

  lemma ConflictIgnoresExpired(h: Hash, now: int, path: string)
    ensures Conflict(Unexpired(h, now), now, path) == Conflict(h, now, path)
  {
    var live := Unexpired(h, now);
    if Conflict(h, now, path) {
      var k :| k in h && Live(h[k], now) && LuaOverlap(h[k].path, path);
      assert k in live && live[k] == h[k];
    }
    if Conflict(live, now, path) {
      var k :| k in live && Live(live[k], now) && LuaOverlap(live[k].path, path);
      assert k in h && live[k] == h[k];
    }
  }

  lemma UpdateIgnoresExpired(h: Hash, now: int, id: string, op: Op)
    ensures Unexpired(AfterUpdate(now, h, id, op), now) == Unexpired(AfterUpdate(now, Unexpired(h, now), id, op), now)
    ensures
      var a, b := Updated(now, h, id, op), Updated(now, Unexpired(h, now), id, op);
      a == b || (a == Err(LeaseExpired) && b == Err(Missing))
  {
    var a, b := Updated(now, h, id, op), Updated(now, Unexpired(h, now), id, op);
    if a.Ok? {
      assert b == a;
      assert Unexpired(h[id := a.value], now) == Unexpired(Unexpired(h, now)[id := a.value], now);
    }
  }

  lemma StopIgnoresExpired(h: Hash, now: int, path: string)
    ensures Unexpired(AfterStop(h, now, path), now) == AfterStop(Unexpired(h, now), now, path)
  {}

  /** One script of the real store is matched by one step of the ideal store. */
  lemma StepSimulated(now: int, h: Hash, m: Hash, request: Request, h': Hash, reply: Reply)
    requires Alike(h, m, now) && Step(now, h, request, h', reply)
    ensures SameReply(reply, IdealReply(now, m, request))
    ensures Alike(h', IdealHash(now, m, request), now)
  {
    UnexpiredTwice(h, now);
    UnexpiredTwice(m, now);
    match request
    case Reserve(id, path, kind) =>
      ConflictIgnoresExpired(h, now, path);
      if reply == Rejected {
        assert Unexpired(h', now) == Unexpired(h, now);
      }
    case Update(id, op) =>
      UpdateIgnoresExpired(h, now, id, op);
    case List =>
    case Stop(path) =>
      StopIgnoresExpired(h, now, path);
      StopIgnoresExpired(Unexpired(m, now), now, path);
  }

  /** The ideal store's replies to the requests of a run. */
  ghost function IdealReplies(m: Hash, es: seq<Entry>): (rs: seq<Reply>)
    ensures |rs| == |es|
    decreases |es|
  {
    if es == [] then []
    else [IdealReply(es[0].now, m, es[0].request)] + IdealReplies(IdealHash(es[0].now, m, es[0].request), es[1..])
  }

  /** Over every run, in whatever order and however partially expired records were deleted, each
      reply is the reply of the ideal store. */
  lemma {:induction false} LazyPruningIsInvisible(t: int, h: Hash, m: Hash, es: seq<Entry>)
    requires IsRun(t, h, es) && Alike(h, m, t)
    ensures forall i :: 0 <= i < |es| ==> SameReply(es[i].reply, IdealReplies(m, es)[i])
    decreases |es|
  {
    if es != [] {
      var e := es[0];
      AlikeLater(h, m, t, e.now);
      StepSimulated(e.now, h, m, e.request, e.post, e.reply);
      var m' := IdealHash(e.now, m, e.request);
      LazyPruningIsInvisible(e.now, e.post, m', es[1..]);
      forall i | 0 <= i < |es| ensures SameReply(es[i].reply, IdealReplies(m, es)[i]) {
        if i > 0 {
          assert es[i] == es[1..][i - 1];
          assert IdealReplies(m, es)[i] == IdealReplies(m', es[1..])[i - 1];
        }
      }
    }
  }

  /** In every state the real store answers every request. */
  lemma EveryRequestIsAnswered(now: int, h: Hash, request: Request) returns (h': Hash, reply: Reply)
    ensures Step(now, h, request, h', reply)
  {
    match request
    case Reserve(id, path, kind) =>
      if Conflict(h, now, path) {
        h', reply := h, Rejected;
      } else {
        h', reply := Unexpired(h, now)[id := Fresh(now, id, path, kind)], Accepted;
      }
    case Update(id, op) =>
      h', reply := AfterUpdate(now, h, id, op),
        (match Updated(now, h, id, op) case Ok(r) => Changed(r) case Err(e) => Refused(e));
    case List =>
      h', reply := Unexpired(h, now), Rows(Listed(h, now));
    case Stop(path) =>
      h', reply := AfterStop(h, now, path), Marked;
  }

  /** A request and its time. */
  datatype Ask = Ask(now: int, request: Request)

  /** The times of the requests never decrease, from `t` on. */
  ghost predicate InOrder(t: int, asks: seq<Ask>)
    decreases |asks|
  {
    asks == [] || (t <= asks[0].now && InOrder(asks[0].now, asks[1..]))
  }

  ghost predicate Answers(es: seq<Entry>, asks: seq<Ask>) {
    |es| == |asks| && forall i :: 0 <= i < |es| ==> Ask(es[i].now, es[i].request) == asks[i]
  }

  /** The other direction: the real store can take part in every exchange of the ideal store. Whatever
      is asked, in whatever order, there is a run of the real store with these requests, and its
      replies are those of the ideal store. */
  lemma {:induction false} EveryExchangeIsPossible(t: int, h: Hash, m: Hash, asks: seq<Ask>) returns (es: seq<Entry>)
    requires InOrder(t, asks) && Alike(h, m, t)
    ensures IsRun(t, h, es) && Answers(es, asks)
    ensures forall i :: 0 <= i < |es| ==> SameReply(es[i].reply, IdealReplies(m, es)[i])
    decreases |asks|
  {
    es := [];
    if asks != [] {
      var now, request := asks[0].now, asks[0].request;
      var h', reply := EveryRequestIsAnswered(now, h, request);
      var rest := EveryExchangeIsPossible(now, h', h', asks[1..]);
      es := [Entry(now, request, reply, h')] + rest;
      assert es[1..] == rest;
    }
    LazyPruningIsInvisible(t, h, m, es);
  }

  /** The same requests at the same times. */
  ghost predicate SameRequests(es: seq<Entry>, fs: seq<Entry>) {
    |es| == |fs| && forall i :: 0 <= i < |es| ==> es[i].now == fs[i].now && es[i].request == fs[i].request
  }

  lemma {:induction false} IdealRepliesDependOnRequests(m: Hash, es: seq<Entry>, fs: seq<Entry>)
    requires SameRequests(es, fs)
    ensures IdealReplies(m, es) == IdealReplies(m, fs)
    decreases |es|
  {
    if es != [] {
      assert es[0].now == fs[0].now && es[0].request == fs[0].request;
      assert SameRequests(es[1..], fs[1..]);
      IdealRepliesDependOnRequests(IdealHash(es[0].now, m, es[0].request), es[1..], fs[1..]);
    }
  }

  /** Two runs of the same requests from hashes that differ only in expired records, each with its
      own scan orders, cannot be told apart by their replies. */
  lemma ScanOrderIsInvisible(t: int, h: Hash, g: Hash, es: seq<Entry>, fs: seq<Entry>)
    requires Alike(h, g, t) && IsRun(t, h, es) && IsRun(t, g, fs) && SameRequests(es, fs)
    ensures forall i :: 0 <= i < |es| ==> SameReply(es[i].reply, fs[i].reply)
  {
    LazyPruningIsInvisible(t, h, h, es);
    LazyPruningIsInvisible(t, g, h, fs);
    IdealRepliesDependOnRequests(h, es, fs);
  }

  /** The text of the failure is all that can differ: an expired record still in the hash answers
      "expired", a deleted one answers "missing". */
  lemma OnlyTheErrorTextDiffers(r: Record, now: int, op: Op)
    requires Expired(r, now)
    ensures Alike(map[r.id := r], map[], now)
    ensures Updated(now, map[r.id := r], r.id, op) == Err(LeaseExpired)
    ensures Updated(now, map[], r.id, op) == Err(Missing)
  {
    assert Unexpired(map[r.id := r], now) == map[] == Unexpired(map[], now);
  }
}
