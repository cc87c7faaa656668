/** The command line of a worker: the server's own, with the worker flag replaced. */
module WorkerArgs {

  function TrimPrefix(s: string, prefix: string): string {
    if prefix <= s then s[|prefix|..] else s
  }

  /** What precedes the first equals sign, or everything if there is none. */
  function KeyOf(name: string): string {
    if name == "" || name[0] == '=' then "" else [name[0]] + KeyOf(name[1..])
  }

  function NameOf(arg: string): string {
    TrimPrefix(TrimPrefix(arg, "-"), "-")
  }

  predicate IsWorkerFlag(arg: string) {
    "-" <= arg && (KeyOf(NameOf(arg)) == "sync_worker" || KeyOf(NameOf(arg)) == "sync-worker")
  }

  predicate HasValue(arg: string) {
    '=' in NameOf(arg)
  }

  function WorkerFlag(id: string): string {
    "--sync_worker=" + id
  }

  /** The arguments passed on, read from the left. */
  function Forwarded(args: seq<string>): seq<string>
    decreases |args|
  {
    if args == [] || args[0] == "--" then args
    else if !IsWorkerFlag(args[0]) then [args[0]] + Forwarded(args[1..])
    else if HasValue(args[0]) || |args| == 1 then Forwarded(args[1..])
    else Forwarded(args[2..])
  }

  function Rewritten(id: string, args: seq<string>): seq<string> {
    [WorkerFlag(id)] + Forwarded(args)
  }

  /** What is forwarded from position `i` on. */
  lemma ForwardedFrom(args: seq<string>, i: nat)
    requires i < |args|
    ensures
      Forwarded(args[i..]) ==
      if args[i] == "--" then args[i..]
      else if !IsWorkerFlag(args[i]) then [args[i]] + Forwarded(args[i + 1..])
      else if HasValue(args[i]) || i + 1 == |args| then Forwarded(args[i + 1..])
      else Forwarded(args[i + 2..])
  {
    assert args[i..][1..] == args[i + 1..];
    if i + 1 < |args| { assert args[i..][2..] == args[i + 2..]; }
  }

  /** syncWorkerArgs. */
  method SyncWorkerArgs(id: string, serverArgs: seq<string>) returns (args: seq<string>)
    ensures args == Rewritten(id, serverArgs)
  {
    args := ["--sync_worker=" + id];
    var i := 0;
    while i < |serverArgs|
      invariant 0 <= i <= |serverArgs|
      invariant args + Forwarded(serverArgs[i..]) == Rewritten(id, serverArgs)
    {
      var arg := serverArgs[i];
      ForwardedFrom(serverArgs, i);
      if arg == "--" {
        return args + serverArgs[i..];
      }
      var name := TrimPrefix(TrimPrefix(arg, "-"), "-");
      var key, hasValue := KeyOf(name), '=' in name;
      assert hasValue == HasValue(arg);
      if "-" <= arg && (key == "sync_worker" || key == "sync-worker") {
        assert IsWorkerFlag(arg);
        if !hasValue && i + 1 < |serverArgs| {
          i := i + 1;
        }
        i := i + 1;
        continue;
      }
      assert args + ([arg] + Forwarded(serverArgs[i + 1..])) == args + [arg] + Forwarded(serverArgs[i + 1..]);
      args := args + [arg];
      i := i + 1;
    }
  }

  /****** What the rewriting promises *******/

  /** `s` keeps some of `t`, in order. */
  predicate Subsequence(s: seq<string>, t: seq<string>)
    decreases |t|
  {
    if s == [] then true
    else if t == [] then false
    else (s[0] == t[0] && Subsequence(s[1..], t[1..])) || Subsequence(s, t[1..])
  }

  /** Free of worker flags and of the end-of-flags mark. */
  predicate Plain(args: seq<string>) {
    forall i :: 0 <= i < |args| ==> args[i] != "--" && !IsWorkerFlag(args[i])
  }

  lemma {:induction false} SubsequenceSkips(s: seq<string>, t: seq<string>)
    requires t != [] && Subsequence(s, t[1..])
    ensures Subsequence(s, t)
  {}

  lemma {:induction false} SubsequenceSelf(t: seq<string>)
    ensures Subsequence(t, t)
  {
    if t != [] { SubsequenceSelf(t[1..]); }
  }

  lemma {:induction false} ForwardedIsSubsequence(args: seq<string>)
    ensures Subsequence(Forwarded(args), args)
    decreases |args|
  {
    if args == [] || args[0] == "--" {
      SubsequenceSelf(args);
    } else if !IsWorkerFlag(args[0]) {
      ForwardedIsSubsequence(args[1..]);
      assert Forwarded(args)[1..] == Forwarded(args[1..]);
    } else if HasValue(args[0]) || |args| == 1 {
      ForwardedIsSubsequence(args[1..]);
    } else {
      ForwardedIsSubsequence(args[2..]);
      assert args[2..] == args[1..][1..];
      SubsequenceSkips(Forwarded(args), args[1..]);
    }
  }

  /** How many of the first arguments are the worker flag with its value, if any. */
  function Dropped(args: seq<string>): nat
    requires args != []
  {
    if !IsWorkerFlag(args[0]) then 0 else if HasValue(args[0]) || |args| == 1 then 1 else 2
  }

  /** Where the verbatim tail begins. */
  function CutAt(args: seq<string>): (n: nat)
    ensures n <= |args| && (n == |args| || args[n] == "--")
    decreases |args|
  {
    if args == [] || args[0] == "--" then 0
    else
      var d := if Dropped(args) == 0 then 1 else Dropped(args);
      d + CutAt(args[d..])
  }

  /** What is kept before the tail. */
  function Front(args: seq<string>): (front: seq<string>)
    ensures Plain(front)
    decreases |args|
  {
    if args == [] || args[0] == "--" then []
    else if Dropped(args) == 0 then [args[0]] + Front(args[1..])
    else Front(args[Dropped(args)..])
  }

  /** The forwarded arguments are a front without worker flags and a verbatim tail of the original,
      which is empty or starts with the end-of-flags mark. */
  lemma {:induction false} ForwardedSplits(args: seq<string>)
    ensures Forwarded(args) == Front(args) + args[CutAt(args)..]
    decreases |args|
  {
    if args != [] && args[0] != "--" {
      var d := if Dropped(args) == 0 then 1 else Dropped(args);
      ForwardedSplits(args[d..]);
      assert args[d..][CutAt(args[d..])..] == args[CutAt(args)..];
      if Dropped(args) == 0 {
        assert Forwarded(args) == [args[0]] + (Front(args[1..]) + args[CutAt(args)..]);
      } else {
        assert Forwarded(args) == Forwarded(args[d..]);
      }
    }
  }

  lemma {:induction false} FrontIsSubsequence(args: seq<string>)
    ensures Subsequence(Front(args), args[..CutAt(args)])
    decreases |args|
  {
    if args != [] && args[0] != "--" {
      var d := if Dropped(args) == 0 then 1 else Dropped(args);
      FrontIsSubsequence(args[d..]);
      var t := args[..CutAt(args)];
      assert t[d..] == args[d..][..CutAt(args[d..])];
      if Dropped(args) == 0 {
        assert Front(args)[1..] == Front(args[1..]);
      } else if d == 2 {
        assert t[1..][1..] == t[2..];
        SubsequenceSkips(Front(args), t[1..]);
      }
    }
  }

  lemma {:induction false} PlainIsForwarded(front: seq<string>, tail: seq<string>)
    requires Plain(front) && (tail == [] || tail[0] == "--")
    ensures Forwarded(front + tail) == front + tail
  {
    if front == [] {
      assert front + tail == tail;
    } else {
      PlainIsForwarded(front[1..], tail);
      assert (front + tail)[1..] == front[1..] + tail;
      assert front + tail == [front[0]] + (front[1..] + tail);
    }
  }

  lemma ForwardedTwice(args: seq<string>)
    ensures Forwarded(Forwarded(args)) == Forwarded(args)
  {
    ForwardedSplits(args);
    PlainIsForwarded(Front(args), args[CutAt(args)..]);
  }

  lemma {:induction false} KeyUpTo(key: string, value: string)
    requires '=' !in key
    ensures KeyOf(key + "=" + value) == key
  {
    if key == "" {
      assert key + "=" + value == "=" + value;
    } else {
      KeyUpTo(key[1..], value);
      assert (key + "=" + value)[1..] == key[1..] + "=" + value;
    }
  }

  lemma {:induction false} KeySplits(name: string)
    ensures KeyOf(name) <= name && '=' !in KeyOf(name)
    ensures name == KeyOf(name) || (|KeyOf(name)| < |name| && name[|KeyOf(name)|] == '=')
  {
    if name != "" && name[0] != '=' { KeySplits(name[1..]); }
  }

  lemma {:induction false} KeyAlone(key: string)
    requires '=' !in key
    ensures KeyOf(key) == key
  {
    if key != "" { KeyAlone(key[1..]); }
  }

  /** The argument is the flag, alone or with a value after an equals sign. */
  predicate Spells(arg: string, flag: string) {
    arg == flag || flag + "=" <= arg
  }

  predicate ProperKey(key: string) {
    key != "" && key[0] != '-' && '=' !in key
  }

  lemma NameAfterDashes(dashes: string, name: string)
    requires (dashes == "-" || dashes == "--") && (name == "" || name[0] != '-')
    ensures NameOf(dashes + name) == name
  {
    if dashes == "--" {
      assert (dashes + name)[1..] == "-" + name;
      assert ("-" + name)[1..] == name;
    } else {
      assert (dashes + name)[1..] == name;
    }
  }

  /** An argument spelled with a key has that key, and a value unless it stands alone. */
  lemma SpelledHasKey(arg: string, dashes: string, key: string)
    requires (dashes == "-" || dashes == "--") && ProperKey(key) && Spells(arg, dashes + key)
    ensures "-" <= arg && KeyOf(NameOf(arg)) == key
    ensures HasValue(arg) <==> arg != dashes + key
  {
    if arg == dashes + key {
      NameAfterDashes(dashes, key);
      KeyAlone(key);
    } else {
      var n := |dashes + key|;
      var value := arg[n + 1..];
      var name := key + "=" + value;
      assert arg == dashes + key + "=" + value == dashes + name && name[|key|] == '=';
      NameAfterDashes(dashes, name);
      KeyUpTo(key, value);
    }
  }

  lemma DashesOf(arg: string) returns (dashes: string)
    requires "-" <= arg
    ensures (dashes == "-" || dashes == "--") && arg == dashes + NameOf(arg)
  {
    dashes := if "-" <= arg[1..] then "--" else "-";
    if dashes == "--" {
      assert arg[1..][1..] == arg[2..];
      assert arg == dashes + arg[2..];
    }
  }

  /** Every argument with a dash is spelled with its key. */
  lemma SpelledByItsKey(arg: string) returns (dashes: string)
    requires "-" <= arg
    ensures (dashes == "-" || dashes == "--") && Spells(arg, dashes + KeyOf(NameOf(arg)))
  {
    dashes := DashesOf(arg);
    var name := NameOf(arg);
    var key := KeyOf(name);
    KeySplits(name);
    if name != key {
      assert name == key + "=" + name[|key| + 1..];
      assert arg == (dashes + key + "=") + name[|key| + 1..];
    }
  }

  lemma KeyExactly(arg: string, key: string)
    requires ProperKey(key)
    ensures "-" <= arg && KeyOf(NameOf(arg)) == key <==> Spells(arg, "-" + key) || Spells(arg, "--" + key)
    ensures "-" <= arg && KeyOf(NameOf(arg)) == key ==> (HasValue(arg) <==> arg != "-" + key && arg != "--" + key)
  {
    if "-" <= arg && KeyOf(NameOf(arg)) == key {
      var dashes := SpelledByItsKey(arg);
      SpelledHasKey(arg, dashes, key);
    }
    if Spells(arg, "-" + key) { SpelledHasKey(arg, "-", key); }
    if Spells(arg, "--" + key) { SpelledHasKey(arg, "--", key); }
  }

  /** Exactly "sync_worker" and "sync-worker" after one or two dashes, alone or with "=" and a value, are
      worker flags; those that stand alone are without a value. */
  lemma WorkerFlagsExactly(arg: string)
    ensures IsWorkerFlag(arg) <==>
      || Spells(arg, "-" + "sync_worker") || Spells(arg, "--" + "sync_worker")
      || Spells(arg, "-" + "sync-worker") || Spells(arg, "--" + "sync-worker")
    ensures IsWorkerFlag(arg) ==> (HasValue(arg) <==>
      && arg != "-" + "sync_worker" && arg != "--" + "sync_worker"
      && arg != "-" + "sync-worker" && arg != "--" + "sync-worker")
  {
    KeyExactly(arg, "sync_worker");
    KeyExactly(arg, "sync-worker");
  }

  lemma WorkerFlagIsRecognised(id: string)
    ensures IsWorkerFlag(WorkerFlag(id)) && HasValue(WorkerFlag(id)) && WorkerFlag(id) != "--"
  {
    var flag := "--" + "sync_worker";
    assert flag + "=" == "--sync_worker=";
    assert |WorkerFlag(id)| > |flag|;
    SpelledHasKey(WorkerFlag(id), "--", "sync_worker");
  }

  /** For every command line: the result begins with the new flag; up to the first remaining mark
      there is no other worker flag; from the mark on it is the original, verbatim; what is in
      between is in the original's order; and rewriting a rewritten line is rewriting the original
      with the later id. */
  lemma RewrittenIsRight(id: string, later: string, args: seq<string>) returns (front: seq<string>, n: nat)
    ensures n <= |args| && Rewritten(id, args) == [WorkerFlag(id)] + front + args[n..]
    ensures n == |args| || args[n] == "--"
    ensures Plain(front) && Subsequence(front, args[..n])
    ensures Subsequence(Rewritten(id, args)[1..], args)
    ensures Rewritten(later, Rewritten(id, args)) == Rewritten(later, args)
  {
    front, n := Front(args), CutAt(args);
    ForwardedSplits(args);
    FrontIsSubsequence(args);
    ForwardedIsSubsequence(args);
    ForwardedTwice(args);
    WorkerFlagIsRecognised(id);
    var r := Rewritten(id, args);
    assert r[1..] == Forwarded(args);
    assert r == [WorkerFlag(id)] + front + args[n..];
  }

  /** A line without worker flags before its mark is passed on whole. */
  lemma OtherArgumentsSurvive(id: string, front: seq<string>, tail: seq<string>)
    requires Plain(front) && (tail == [] || tail[0] == "--")
    ensures Rewritten(id, front + tail) == [WorkerFlag(id)] + front + tail
  {
    PlainIsForwarded(front, tail);
  }

  lemma {:induction false} ForwardedAfterPlain(front: seq<string>, rest: seq<string>)
    requires Plain(front)
    ensures Forwarded(front + rest) == front + Forwarded(rest)
  {
    if front == [] {
      assert front + rest == rest;
    } else {
      ForwardedAfterPlain(front[1..], rest);
      assert (front + rest)[1..] == front[1..] + rest;
      assert front + Forwarded(rest) == [front[0]] + (front[1..] + Forwarded(rest));
    }
  }

  /** Nothing else is dropped: a worker flag goes alone when it carries its value or stands last, and
      otherwise takes the next argument with it, even when that is the mark. */
  lemma OnlyTheFlagIsDropped(front: seq<string>, flag: string, next: string, rest: seq<string>)
    requires Plain(front) && IsWorkerFlag(flag) && flag != "--"
    ensures Forwarded(front + [flag]) == front
    ensures HasValue(flag) ==> Forwarded(front + ([flag, next] + rest)) == front + Forwarded([next] + rest)
    ensures !HasValue(flag) ==> Forwarded(front + ([flag, next] + rest)) == front + Forwarded(rest)
  {
    ForwardedAfterPlain(front, [flag]);
    ForwardedAfterPlain(front, [flag, next] + rest);
    assert ([flag, next] + rest)[1..] == [next] + rest;
    assert ([flag, next] + rest)[2..] == rest;
  }
}
