/** The reservation store: one hash of records that Lua scripts read and change atomically.
    The clock value `now` is what the script reads from the server, in whole seconds. */
module SyncStore {
  import opened Common
  import opened Paths

  datatype State = Queued | Running | Removing | Completed | Failed | Cancelled

  predicate ActiveState(s: State) {
    s == Queued || s == Running || s == Removing
  }

  /** The states a finishing caller passes. */
  type FinalState = s: State | !ActiveState(s) witness Completed

  /** The states a reserving caller passes. */
  type FirstState = s: State | s == Queued || s == Removing witness Queued

  datatype Record = Record(id: string, path: string, fields: Progress, state: State, error: string, stop: bool,
                           expires: int)

  type Hash = map<string, Record>

  const QUEUE_SECONDS := 600
  const LEASE_SECONDS := 120
  const KEEP_SECONDS := 86400

  predicate Active(r: Record) {
    ActiveState(r.state)
  }

  predicate Expired(r: Record, now: int) {
    r.expires <= now
  }

  /** A live record is one that holds its directory: active and not expired. */
  predicate Live(r: Record, now: int) {
    Active(r) && !Expired(r, now)
  }

  datatype Op = Claim | LaunchFailed(message: string) | Finish(state: FinalState, message: string)
              | Report(fields: Progress) | Heartbeat

  datatype ScriptError = Missing | LeaseExpired | AlreadyClaimed

  datatype Request = Reserve(id: string, path: string, kind: FirstState) | Update(id: string, op: Op) | List
                   | Stop(path: string)

  datatype Reply = Accepted | Rejected | Changed(record: Record) | Refused(error: ScriptError) | Rows(rows: Hash)
                 | Marked

  /****** What one script does *******/

  /** The records that have not expired. */
  function Unexpired(h: Hash, now: int): Hash {
    map k | k in h && !Expired(h[k], now) :: h[k]
  }

  ghost predicate Conflict(h: Hash, now: int, path: string) {
    exists k :: k in h && Live(h[k], now) && LuaOverlap(h[k].path, path)
  }

  function Fresh(now: int, id: string, path: string, kind: FirstState): Record {
    Record(id, path, NO_PROGRESS, kind, "", false, now + QUEUE_SECONDS)
  }

  /** The record an update writes, or the error it replies with. */
  function Updated(now: int, h: Hash, id: string, op: Op): Result<Record, ScriptError> {
    if id !in h then Err(Missing)
    else if !Live(h[id], now) then Err(LeaseExpired)
    else if op.Claim? && h[id].state != Queued then Err(AlreadyClaimed)
    else
      var r := h[id];
      var changed := match op
        case Claim => r.(state := Running)
        case LaunchFailed(m) =>
          if r.state == Queued then r.(error := m, state := Failed) else r.(error := m, stop := true)
        case Finish(s, m) => r.(state := s, error := m)
        case Report(f) => r.(fields := f)
        case Heartbeat => r;
      Ok(changed.(expires := now + if Active(changed) then LEASE_SECONDS else KEEP_SECONDS))
  }

  function AfterUpdate(now: int, h: Hash, id: string, op: Op): Hash {
    match Updated(now, h, id, op)
    case Ok(r) => h[id := r]
    case Err(_) => h
  }

  predicate ListedRecord(r: Record, now: int) {
    Live(r, now) && r.state != Removing
  }

  function Listed(h: Hash, now: int): Hash {
    map k | k in h && ListedRecord(h[k], now) :: h[k]
  }

  predicate StopMarks(r: Record, now: int, path: string) {
    r.path == path && !Expired(r, now) && (r.state == Queued || r.state == Running)
  }

  function AfterStop(h: Hash, now: int, path: string): Hash {
    map k | k in h :: if StopMarks(h[k], now, path) then h[k].(stop := true) else h[k]
  }

  /** `h'` is `h` with some of its expired records deleted. */
  ghost predicate Pruned(h: Hash, now: int, h': Hash) {
    && (forall k :: k in h' ==> k in h && h'[k] == h[k])
    && (forall k :: k in h && !Expired(h[k], now) ==> k in h')
  }

  /** One atomic script: request, hash before and after, and reply. A rejected reservation may have
      deleted any part of the expired records before it met the conflict. */
  ghost predicate Step(now: int, h: Hash, request: Request, h': Hash, reply: Reply) {
    match request
    case Reserve(id, path, kind) =>
      if Conflict(h, now, path) then reply == Rejected && Pruned(h, now, h')
      else reply == Accepted && h' == Unexpired(h, now)[id := Fresh(now, id, path, kind)]
    case Update(id, op) =>
      && h' == AfterUpdate(now, h, id, op)
      && reply == (match Updated(now, h, id, op) case Ok(r) => Changed(r) case Err(e) => Refused(e))
    case List =>
      h' == Unexpired(h, now) && reply == Rows(Listed(h, now))
    case Stop(path) =>
      h' == AfterStop(h, now, path) && reply == Marked
  }

  /****** What that means, field by field *******/

  /** The record is unexpired and in one of the three states that hold a directory. */
  predicate Holds(r: Record, now: int) {
    r.expires > now && (r.state == Queued || r.state == Running || r.state == Removing)
  }

  /** When an update takes effect, and which error it meets otherwise; it never touches another id. */
  lemma UpdateAnswers(now: int, h: Hash, id: string, op: Op, h': Hash, reply: Reply)
    requires Step(now, h, Update(id, op), h', reply)
    ensures reply.Changed? || reply.Refused?
    ensures reply.Changed? <==> id in h && Holds(h[id], now) && (op.Claim? ==> h[id].state == Queued)
    ensures reply == Refused(Missing) <==> id !in h
    ensures reply == Refused(LeaseExpired) <==> id in h && !Holds(h[id], now)
    ensures reply.Changed? ==> h' == h[id := reply.record]
    ensures reply.Refused? ==> h' == h
  {}

  /** A claim makes a queued record running and gives it two minutes. */
  lemma ClaimWrites(now: int, h: Hash, id: string, h': Hash, r': Record)
    requires Step(now, h, Update(id, Claim), h', Changed(r'))
    ensures id in h && h[id].state == Queued
    ensures r' == Record(h[id].id, h[id].path, h[id].fields, Running, h[id].error, h[id].stop, now + 120)
  {}

  /** A failed launch ends a queued record as failed and asks a claimed one to stop. */
  lemma LaunchFailureWrites(now: int, h: Hash, id: string, message: string, h': Hash, r': Record)
    requires Step(now, h, Update(id, LaunchFailed(message)), h', Changed(r'))
    ensures id in h
    ensures h[id].state == Queued ==>
      r' == Record(h[id].id, h[id].path, h[id].fields, Failed, message, h[id].stop, now + 86400)
    ensures h[id].state != Queued ==>
      r' == Record(h[id].id, h[id].path, h[id].fields, h[id].state, message, true, now + 120)
  {}

  /** Finishing stores the state and the message it was given, for a day. */
  lemma FinishWrites(now: int, h: Hash, id: string, state: FinalState, message: string, h': Hash, r': Record)
    requires Step(now, h, Update(id, Finish(state, message)), h', Changed(r'))
    ensures id in h
    ensures r' == Record(h[id].id, h[id].path, h[id].fields, state, message, h[id].stop, now + 86400)
  {}

  /** A report of progress changes the four fields and renews the lease, no more. */
  lemma ReportWrites(now: int, h: Hash, id: string, fields: Progress, h': Hash, r': Record)
    requires Step(now, h, Update(id, Report(fields)), h', Changed(r'))
    ensures id in h
    ensures r' == Record(h[id].id, h[id].path, fields, h[id].state, h[id].error, h[id].stop, now + 120)
  {}

  /** A heartbeat renews the lease, no more. */
  lemma HeartbeatWrites(now: int, h: Hash, id: string, h': Hash, r': Record)
    requires Step(now, h, Update(id, Heartbeat), h', Changed(r'))
    ensures id in h
    ensures r' == Record(h[id].id, h[id].path, h[id].fields, h[id].state, h[id].error, h[id].stop, now + 120)
  {}

  /** `h'` keeps exactly the unexpired records of `h`. */
  ghost predicate KeepsUnexpired(h: Hash, now: int, h': Hash) {
    && (forall k :: k in h' <==> k in h && h[k].expires > now)
    && (forall k :: k in h' ==> h'[k] == h[k])
  }

  /** `rows` are the downloads of `h`, queued or running and unexpired, each once. */
  ghost predicate AreDownloads(rows: seq<Record>, h: Hash, now: int) {
    exists keys: seq<string> :: AreDownloadsOf(keys, rows, h, now)
  }

  ghost predicate AreDownloadsOf(keys: seq<string>, rows: seq<Record>, h: Hash, now: int) {
    && |keys| == |rows|
    && (forall i, j :: 0 <= i < j < |keys| ==> keys[i] != keys[j])
    && (forall i :: 0 <= i < |keys| ==> keys[i] in h && h[keys[i]] == rows[i])
    && (forall k :: k in keys <==> k in h && h[k].expires > now && (h[k].state == Queued || h[k].state == Running))
  }

  /****** The scripts themselves *******/

  /** The pairs of a hash, each key once, in some order. */
  ghost predicate Enumerates(pairs: seq<(string, Record)>, h: Hash) {
    && (forall i :: 0 <= i < |pairs| ==> pairs[i].0 in h && h[pairs[i].0] == pairs[i].1)
    && (forall i, j :: 0 <= i < j < |pairs| ==> pairs[i].0 != pairs[j].0)
    && (forall k :: k in h ==> exists i :: 0 <= i < |pairs| && pairs[i].0 == k)
  }

  function Values(pairs: seq<(string, Record)>): seq<Record> {
    seq(|pairs|, i requires 0 <= i < |pairs| => pairs[i].1)
  }

  /** The records of a hash, each once, in some order. */
  ghost predicate RowsOf(rows: seq<Record>, h: Hash) {
    exists pairs: seq<(string, Record)> :: Enumerates(pairs, h) && rows == Values(pairs)
  }

  /** The record under a scan stands in the way of a reservation. */
  predicate Blocks(r: Record, now: int, path: string) {
    Live(r, now) && LuaOverlap(r.path, path)
  }

  /** The hash after a pruning loop has passed the first `n` pairs. */
  ghost function Scanned(h: Hash, now: int, pairs: seq<(string, Record)>, n: nat): Hash
    requires n <= |pairs|
  {
    var seen := set i | 0 <= i < n :: pairs[i].0;
    map k | k in h && !(Expired(h[k], now) && k in seen) :: h[k]
  }

  lemma ScanOne(h: Hash, now: int, pairs: seq<(string, Record)>, n: nat)
    requires Enumerates(pairs, h) && n < |pairs|
    ensures Scanned(h, now, pairs, n + 1) ==
            if Expired(pairs[n].1, now) then Scanned(h, now, pairs, n) - {pairs[n].0} else Scanned(h, now, pairs, n)
  {
    assert (set i | 0 <= i < n + 1 :: pairs[i].0) == (set i | 0 <= i < n :: pairs[i].0) + {pairs[n].0};
  }

  lemma ScanBounds(h: Hash, now: int, pairs: seq<(string, Record)>, n: nat)
    requires Enumerates(pairs, h) && n <= |pairs|
    ensures Pruned(h, now, Scanned(h, now, pairs, n))
    ensures Scanned(h, now, pairs, 0) == h
    ensures Scanned(h, now, pairs, |pairs|) == Unexpired(h, now)
  {}

  lemma ScanMeetsEveryRecord(h: Hash, now: int, pairs: seq<(string, Record)>, path: string)
    requires Enumerates(pairs, h)
    requires forall i :: 0 <= i < |pairs| ==> !Blocks(pairs[i].1, now, path)
    ensures !Conflict(h, now, path)
  {
    forall k | k in h ensures !Blocks(h[k], now, path) {
      var i :| 0 <= i < |pairs| && pairs[i].0 == k;
      assert !Blocks(pairs[i].1, now, path);
    }
  }

  /** A scan that meets a blocking record may stop with any part of the expired records deleted. */
  lemma StoppedScanRejects(now: int, h: Hash, h': Hash, id: string, path: string, kind: FirstState, k: string)
    requires k in h && Blocks(h[k], now, path) && Pruned(h, now, h')
    ensures Step(now, h, Reserve(id, path, kind), h', Rejected)
  {}

  lemma FinishedScanAccepts(now: int, h: Hash, id: string, path: string, kind: FirstState)
    requires !Conflict(h, now, path)
    ensures Step(now, h, Reserve(id, path, kind), Unexpired(h, now)[id := Fresh(now, id, path, kind)], Accepted)
  {}

  /** The pairs a listing keeps. */
  ghost function Kept(pairs: seq<(string, Record)>, now: int): seq<(string, Record)> {
    if pairs == [] then []
    else
      var last := pairs[|pairs| - 1];
      Kept(pairs[..|pairs| - 1], now) + if ListedRecord(last.1, now) then [last] else []
  }

  lemma {:induction false} KeptMembers(pairs: seq<(string, Record)>, now: int)
    requires forall i, j :: 0 <= i < j < |pairs| ==> pairs[i].0 != pairs[j].0
    ensures forall p :: p in Kept(pairs, now) <==> p in pairs && ListedRecord(p.1, now)
    ensures forall i, j :: 0 <= i < j < |Kept(pairs, now)| ==> Kept(pairs, now)[i].0 != Kept(pairs, now)[j].0
  {
    if pairs != [] {
      var front, last := pairs[..|pairs| - 1], pairs[|pairs| - 1];
      KeptMembers(front, now);
      assert pairs == front + [last];
      forall i, j | 0 <= i < j < |Kept(pairs, now)|
        ensures Kept(pairs, now)[i].0 != Kept(pairs, now)[j].0
      {
        assert Kept(front, now)[i] in front;
      }
    }
  }

  /** The rows of a listing after the first `n` pairs. */
  ghost function RowsUpTo(pairs: seq<(string, Record)>, now: int, n: nat): seq<Record>
    requires n <= |pairs|
  {
    Values(Kept(pairs[..n], now))
  }

  lemma RowsOne(pairs: seq<(string, Record)>, now: int, n: nat)
    requires n < |pairs|
    ensures RowsUpTo(pairs, now, n + 1) ==
      RowsUpTo(pairs, now, n) + if ListedRecord(pairs[n].1, now) then [pairs[n].1] else []
  {
    assert pairs[..n + 1][..n] == pairs[..n];
  }

  lemma KeptEnumerates(pairs: seq<(string, Record)>, h: Hash, now: int)
    requires Enumerates(pairs, h)
    ensures Enumerates(Kept(pairs, now), Listed(h, now))
    ensures RowsOf(RowsUpTo(pairs, now, |pairs|), Listed(h, now))
  {
    assert pairs[..|pairs|] == pairs;
    KeptMembers(pairs, now);
    var kept, listed := Kept(pairs, now), Listed(h, now);
    forall i | 0 <= i < |kept| ensures kept[i].0 in listed && listed[kept[i].0] == kept[i].1 {
      assert kept[i] in pairs;
    }
    forall k | k in listed ensures exists i :: 0 <= i < |kept| && kept[i].0 == k {
      var i :| 0 <= i < |pairs| && pairs[i].0 == k;
      assert pairs[i] in kept;
    }
  }

  function KeysOf(pairs: seq<(string, Record)>): seq<string> {
    seq(|pairs|, i requires 0 <= i < |pairs| => pairs[i].0)
  }

  lemma EnumeratedKeys(pairs: seq<(string, Record)>, h: Hash, k: string)
    requires Enumerates(pairs, h)
    ensures k in KeysOf(pairs) <==> k in h
  {
    if k in KeysOf(pairs) {
      var i :| 0 <= i < |pairs| && KeysOf(pairs)[i] == k;
    }
    if k in h {
      var i :| 0 <= i < |pairs| && pairs[i].0 == k;
      assert KeysOf(pairs)[i] == k;
    }
  }

  lemma ListedAreDownloads(rows: seq<Record>, h: Hash, now: int)
    requires RowsOf(rows, Listed(h, now))
    ensures AreDownloads(rows, h, now)
  {
    var pairs: seq<(string, Record)> :| Enumerates(pairs, Listed(h, now)) && rows == Values(pairs);
    forall k ensures k in KeysOf(pairs) <==> k in Listed(h, now) {
      EnumeratedKeys(pairs, Listed(h, now), k);
    }
    assert AreDownloadsOf(KeysOf(pairs), rows, h, now);
  }

  /** The record after a stop request has passed it. */
  function StopRecord(r: Record, now: int, path: string): Record {
    if StopMarks(r, now, path) then r.(stop := true) else r
  }

  /** The hash after a stop request has passed the first `n` pairs. */
  ghost function StoppedUpTo(h: Hash, now: int, path: string, pairs: seq<(string, Record)>, n: nat): Hash
    requires n <= |pairs|
    decreases n
  {
    if n == 0 then h
    else
      var before := StoppedUpTo(h, now, path, pairs, n - 1);
      var (k, r) := pairs[n - 1];
      if StopMarks(r, now, path) then before[k := r.(stop := true)] else before
  }

  lemma {:induction false} StoppedValues(h: Hash, now: int, path: string, pairs: seq<(string, Record)>, n: nat)
    requires Enumerates(pairs, h) && n <= |pairs|
    ensures StoppedUpTo(h, now, path, pairs, n).Keys == h.Keys
    ensures forall i :: 0 <= i < |pairs| ==>
      StoppedUpTo(h, now, path, pairs, n)[pairs[i].0] ==
      if i < n then StopRecord(pairs[i].1, now, path) else pairs[i].1
  {
    if n > 0 { StoppedValues(h, now, path, pairs, n - 1); }
  }

  lemma StoppedAll(h: Hash, now: int, path: string, pairs: seq<(string, Record)>)
    requires Enumerates(pairs, h)
    ensures StoppedUpTo(h, now, path, pairs, |pairs|) == AfterStop(h, now, path)
  {
    var all := StoppedUpTo(h, now, path, pairs, |pairs|);
    StoppedValues(h, now, path, pairs, |pairs|);
    forall k | k in h ensures all[k] == AfterStop(h, now, path)[k] {
      var i :| 0 <= i < |pairs| && pairs[i].0 == k;
    }
  }

  class RedisSyncStore {
    var hash: Hash

    constructor ()
      ensures hash == map[]
    {
      hash := map[];
    }

    /** HGETALL: every pair of the hash, in an arbitrary order. */
    method HGetAll() returns (pairs: seq<(string, Record)>)
      ensures Enumerates(pairs, hash)
    {
      pairs := [];
      var rest := hash.Keys;
      while rest != {}
        invariant rest <= hash.Keys
        invariant forall i :: 0 <= i < |pairs| ==>
          pairs[i].0 in hash && hash[pairs[i].0] == pairs[i].1 && pairs[i].0 !in rest
        invariant forall i, j :: 0 <= i < j < |pairs| ==> pairs[i].0 != pairs[j].0
        invariant forall k :: k in hash && k !in rest ==> exists i :: 0 <= i < |pairs| && pairs[i].0 == k
        decreases rest
      {
        var k :| k in rest;
        ghost var before := pairs;
        pairs := pairs + [(k, hash[k])];
        rest := rest - {k};
        assert pairs[|before|].0 == k;
        forall q | q in hash && q !in rest
          ensures exists i :: 0 <= i < |pairs| && pairs[i].0 == q
        {
          if q != k {
            var i :| 0 <= i < |before| && before[i].0 == q;
            assert pairs[i].0 == q;
          }
        }
      }
    }

    /** The loop of reserveScript: delete expired records on the way; give up at the first conflict. */
    method ScanForConflict(now: int, path: string) returns (blocked: bool)
      modifies this
      ensures blocked ==> Pruned(old(hash), now, hash) && exists k :: k in old(hash) && Blocks(old(hash)[k], now, path)
      ensures !blocked ==> hash == Unexpired(old(hash), now) && !Conflict(old(hash), now, path)
    {
      var records := HGetAll();
      ScanBounds(hash, now, records, 0);
      var i := 0;
      while i < |records|
        invariant 0 <= i <= |records|
        invariant hash == Scanned(old(hash), now, records, i)
        invariant forall j :: 0 <= j < i ==> !Blocks(records[j].1, now, path)
      {
        var r := records[i].1;
        ScanOne(old(hash), now, records, i);
        if r.expires <= now {
          hash := hash - {records[i].0};
        } else if Active(r) && LuaOverlap(r.path, path) {
          ScanBounds(old(hash), now, records, i);
          assert records[i].0 in old(hash) && Blocks(old(hash)[records[i].0], now, path);
          return true;
        }
        i := i + 1;
      }
      ScanBounds(old(hash), now, records, i);
      ScanMeetsEveryRecord(old(hash), now, records, path);
      return false;
    }

    /** reserveScript. */
    method Reserve(now: int, id: string, path: string, kind: FirstState) returns (n: int)
      modifies this
      ensures n == 0 || n == 1
      ensures Step(now, old(hash), Request.Reserve(id, path, kind), hash, if n == 1 then Accepted else Rejected)
      ensures n == 0 <==> exists k :: k in old(hash) && Holds(old(hash)[k], now) && LuaOverlap(old(hash)[k].path, path)
      ensures n == 1 ==>
        && id in hash && hash[id] == Record(id, path, Progress(0, 0, 0, []), kind, "", false, now + 600)
        && KeepsUnexpired(old(hash) - {id}, now, hash - {id})
      ensures n == 0 ==>
        && (forall k :: k in hash ==> k in old(hash) && hash[k] == old(hash)[k])
        && (forall k :: k in old(hash) && k !in hash ==> old(hash)[k].expires <= now)
    {
      var blocked := ScanForConflict(now, path);
      if blocked {
        ghost var k :| k in old(hash) && Blocks(old(hash)[k], now, path);
        StoppedScanRejects(now, old(hash), hash, id, path, kind, k);
        assert Holds(old(hash)[k], now);
        return 0;
      }
      FinishedScanAccepts(now, old(hash), id, path, kind);
      hash := hash[id := Record(id, path, NO_PROGRESS, kind, "", false, now + QUEUE_SECONDS)];
      return 1;
    }

    /** updateScript: amend one live record and renew its expiry. */
    method Update(now: int, id: string, op: Op) returns (reply: Result<Record, ScriptError>)
      modifies this
      ensures reply == Updated(now, old(hash), id, op)
      ensures Step(now, old(hash), Request.Update(id, op), hash,
                   if reply.Ok? then Changed(reply.value) else Refused(reply.error))
    {
      if id !in hash {
        return Err(Missing);
      }
      var r := hash[id];
      if r.expires <= now || !Active(r) {
        return Err(LeaseExpired);
      }
      match op {
        case Claim =>
          if r.state != Queued {
            return Err(AlreadyClaimed);
          }
          r := r.(state := Running);
        case LaunchFailed(message) =>
          r := r.(error := message);
          if r.state == Queued {
            r := r.(state := Failed);
          } else {
            r := r.(stop := true);
          }
        case Finish(state, message) =>
          r := r.(state := state, error := message);
        case Report(fields) =>
          r := r.(fields := fields);
        case Heartbeat =>
      }
      r := r.(expires := now + LEASE_SECONDS);
      if !Active(r) {
        r := r.(expires := now + KEEP_SECONDS);
      }
      hash := hash[id := r];
      return Ok(r);
    }

    /** listScript: delete expired records and return the active downloads. */
    method List(now: int) returns (rows: seq<Record>)
      modifies this
      ensures AreDownloads(rows, old(hash), now)
      ensures KeepsUnexpired(old(hash), now, hash)
      ensures RowsOf(rows, Listed(old(hash), now))
      ensures Step(now, old(hash), Request.List, hash, Rows(Listed(old(hash), now)))
    {
      rows := [];
      var records := HGetAll();
      ScanBounds(hash, now, records, 0);
      var i := 0;
      while i < |records|
        invariant 0 <= i <= |records|
        invariant hash == Scanned(old(hash), now, records, i)
        invariant rows == RowsUpTo(records, now, i)
      {
        var r := records[i].1;
        ScanOne(old(hash), now, records, i);
        RowsOne(records, now, i);
        if r.expires <= now {
          hash := hash - {records[i].0};
        } else if Active(r) && r.state != Removing {
          rows := rows + [r];
        }
        i := i + 1;
      }
      ScanBounds(old(hash), now, records, i);
      KeptEnumerates(records, old(hash), now);
      ListedAreDownloads(rows, old(hash), now);
    }

    /** stopScript: set the stop flag on the live downloads of one path. */
    method Stop(now: int, path: string)
      modifies this
      ensures hash.Keys == old(hash).Keys
      ensures forall k :: k in old(hash) ==>
        var r := old(hash)[k];
        hash[k] == if r.path == path && r.expires > now && (r.state == Queued || r.state == Running)
                   then r.(stop := true) else r
      ensures Step(now, old(hash), Request.Stop(path), hash, Marked)
    {
      var records := HGetAll();
      var i := 0;
      while i < |records|
        invariant 0 <= i <= |records|
        invariant hash == StoppedUpTo(old(hash), now, path, records, i)
      {
        var r := records[i].1;
        if r.path == path && r.expires > now && (r.state == Queued || r.state == Running) {
          r := r.(stop := true);
          hash := hash[records[i].0 := r];
        }
        i := i + 1;
      }
      StoppedAll(old(hash), now, path, records);
    }
  }
}
