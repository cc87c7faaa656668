/** Reading rsync's progress output: a writer that receives the stream in arbitrary pieces, cuts it
    at white space and applies each field to the sync. */
module RsyncProgress {
  import opened Common

  const MAX_TOKEN: nat := 1024 * 1024
  const UINT64: nat := 0x1_0000_0000_0000_0000

  /****** Splitting *******/

  /** The finished pieces of a text and what follows the last separator. */
  datatype Pieces = Pieces(done: seq<Text>, rest: Text)

  function Split(s: Text, sep: byte -> bool): Pieces {
    if s == [] then Pieces([], [])
    else
      var front, c := Split(s[..|s| - 1], sep), s[|s| - 1];
      if sep(c) then Pieces(front.done + [front.rest], [])
      else front.(rest := front.rest + [c])
  }

  /** The separators of a text, in order. */
  function Separators(s: Text, sep: byte -> bool): Text {
    if s == [] then []
    else Separators(s[..|s| - 1], sep) + if sep(s[|s| - 1]) then [s[|s| - 1]] else []
  }

  /** Pieces put back together, each followed by its separator. */
  function Joined(done: seq<Text>, seps: Text, rest: Text): Text
    requires |done| == |seps|
    decreases |done|
  {
    if done == [] then rest
    else
      var n := |done| - 1;
      Joined(done[..n], seps[..n], done[n]) + [seps[n]] + rest
  }

  ghost predicate Unbroken(s: Text, sep: byte -> bool) {
    forall i :: 0 <= i < |s| ==> !sep(s[i])
  }

  ghost predicate AllSeparators(s: Text, sep: byte -> bool) {
    forall i :: 0 <= i < |s| ==> sep(s[i])
  }

  lemma {:induction false} SplitShape(s: Text, sep: byte -> bool)
    ensures |Split(s, sep).done| == |Separators(s, sep)|
    ensures Unbroken(Split(s, sep).rest, sep) && AllSeparators(Separators(s, sep), sep)
    ensures forall i :: 0 <= i < |Split(s, sep).done| ==> Unbroken(Split(s, sep).done[i], sep)
  {
    if s != [] { SplitShape(s[..|s| - 1], sep); }
  }

  lemma JoinedGrows(done: seq<Text>, seps: Text, rest: Text, tail: Text)
    requires |done| == |seps|
    ensures Joined(done, seps, rest + tail) == Joined(done, seps, rest) + tail
  {}

  /** Splitting loses nothing: the pieces and the separators, put together, are the text. */
  lemma {:induction false} SplitThenJoin(s: Text, sep: byte -> bool)
    ensures |Split(s, sep).done| == |Separators(s, sep)|
    ensures Joined(Split(s, sep).done, Separators(s, sep), Split(s, sep).rest) == s
  {
    SplitShape(s, sep);
    if s != [] {
      var front, c := s[..|s| - 1], s[|s| - 1];
      SplitShape(front, sep);
      SplitThenJoin(front, sep);
      var p, seps := Split(front, sep), Separators(front, sep);
      assert s == front + [c];
      if sep(c) {
        var n := |p.done|;
        assert (p.done + [p.rest])[..n] == p.done && (seps + [c])[..n] == seps;
        assert Joined(p.done + [p.rest], seps + [c], []) == Joined(p.done, seps, p.rest) + [c] + [];
      } else {
        assert Separators(s, sep) == seps;
        JoinedGrows(p.done, seps, p.rest, [c]);
      }
    }
  }

  lemma {:induction false} SplitUnbrokenTail(s: Text, tail: Text, sep: byte -> bool)
    requires Unbroken(tail, sep)
    ensures Split(s + tail, sep) == Split(s, sep).(rest := Split(s, sep).rest + tail)
    decreases |tail|
  {
    if tail == [] {
      assert s + tail == s;
      assert Split(s, sep).rest + tail == Split(s, sep).rest;
    } else {
      var n := |tail| - 1;
      SplitUnbrokenTail(s, tail[..n], sep);
      assert (s + tail)[..|s + tail| - 1] == s + tail[..n];
      assert Split(s, sep).rest + tail[..n] + [tail[n]] == Split(s, sep).rest + tail;
    }
  }

  /** Splitting is the only way to read a text as pieces and separators. */
  lemma {:induction false} JoinThenSplit(done: seq<Text>, seps: Text, rest: Text, sep: byte -> bool)
    requires |done| == |seps| && AllSeparators(seps, sep) && Unbroken(rest, sep)
    requires forall i :: 0 <= i < |done| ==> Unbroken(done[i], sep)
    ensures Split(Joined(done, seps, rest), sep) == Pieces(done, rest)
    decreases |done|
  {
    if done == [] {
      SplitUnbrokenTail([], rest, sep);
      assert [] + rest == rest;
    } else {
      var n := |done| - 1;
      JoinThenSplit(done[..n], seps[..n], done[n], sep);
      var before := Joined(done[..n], seps[..n], done[n]);
      var closed := before + [seps[n]];
      assert closed[..|closed| - 1] == before;
      assert done[..n] + [done[n]] == done;
      SplitUnbrokenTail(closed, rest, sep);
      assert [] + rest == rest;
    }
  }

  /****** One field *******/

  predicate IsSpace(c: byte) { c <= 32 }
  predicate IsColon(c: byte) { c == 58 }
  predicate IsDigit(c: byte) { 48 <= c <= 57 }
  predicate IsComma(c: byte) { c == 44 }

  predicate DigitsAndCommas(text: Text, allowCommas: bool) {
    forall i :: 0 <= i < |text| ==> IsDigit(text[i]) || (allowCommas && IsComma(text[i]))
  }

  predicate IsDuration(text: Text) {
    var pieces := Split(text, IsColon);
    var parts := pieces.done + [pieces.rest];
    |parts| == 3 && forall i :: 0 <= i < |parts| ==> parts[i] != [] && DigitsAndCommas(parts[i], false)
  }

  predicate IsByteCount(text: Text) {
    text != [] && DigitsAndCommas(text, true)
  }

  function Value(digits: Text): nat
    requires DigitsAndCommas(digits, false)
  {
    if digits == [] then 0
    else 10 * Value(digits[..|digits| - 1]) + (digits[|digits| - 1] as int - 48)
  }

  /** strconv.ParseUint(text, 10, 64). */
  function ParseUint(text: Text): Option<nat> {
    if text != [] && DigitsAndCommas(text, false) && Value(text) < UINT64 then Some(Value(text)) else None
  }

  function WithoutCommas(text: Text): Text {
    if text == [] then []
    else WithoutCommas(text[..|text| - 1]) + if IsComma(text[|text| - 1]) then [] else [text[|text| - 1]]
  }

  /** The parser of human-readable sizes, which is not part of this model; its result is signed. */
  type SpeedParser = Text -> Option<int>

  /** The fields after one token, and whether the token was malformed. */
  function ParsedToken(speedOf: SpeedParser, p: Progress, text: Text): (Progress, bool) {
    var n := |text|;
    if n >= 1 && text[n - 1] == 37 then
      match ParseUint(text[..n - 1])
      case Some(v) => (p.(percent := v), false)
      case None => (p, true)
    else if n >= 2 && text[n - 2..] == [47, 115] then
      match speedOf(text[..n - 2])
      case Some(v) => (p.(speed := v % UINT64), false)
      case None => (p, true)
    else if IsDuration(text) then (p.(timeLeft := text), false)
    else if IsByteCount(text) then
      match ParseUint(WithoutCommas(text))
      case Some(v) => (p.(downloaded := v), false)
      case None => (p, true)
    else (p, false)
  }

  function Decimal(n: nat): (r: Text)
    ensures r != [] && DigitsAndCommas(r, false)
  {
    if n < 10 then [(48 + n) as byte] else Decimal(n / 10) + [(48 + n % 10) as byte]
  }

  lemma {:induction false} ValueOfDecimal(n: nat)
    ensures Value(Decimal(n)) == n
  {
    if n >= 10 {
      ValueOfDecimal(n / 10);
      var d := Decimal(n);
      assert d[..|d| - 1] == Decimal(n / 10);
    } else {
      assert Decimal(n)[..0] == [];
    }
  }

  lemma {:induction false} WithoutCommasDigits(text: Text)
    requires DigitsAndCommas(text, true)
    ensures DigitsAndCommas(WithoutCommas(text), false)
  {
    if text != [] { WithoutCommasDigits(text[..|text| - 1]); }
  }

  lemma {:induction false} ColonSplitOfDigits(text: Text)
    requires DigitsAndCommas(text, true)
    ensures Split(text, IsColon).done == []
  {
    if text != [] { ColonSplitOfDigits(text[..|text| - 1]); }
  }

  /** What rsync prints is what is stored: a byte count, written with commas anywhere, is read back
      exactly and changes no other field. */
  lemma ByteCountsAreReadBack(speedOf: SpeedParser, p: Progress, n: nat, text: Text)
    requires n < UINT64 && DigitsAndCommas(text, true) && WithoutCommas(text) == Decimal(n)
    ensures ParsedToken(speedOf, p, text) == (p.(downloaded := n), false)
  {
    assert text != [];
    DigitsAreNoOtherField(text);
    assert ParseUint(WithoutCommas(text)) == Some(n) by { ValueOfDecimal(n); }
  }

  lemma DigitsAreNoOtherField(text: Text)
    requires text != [] && DigitsAndCommas(text, true)
    ensures text[|text| - 1] != 37 && (|text| >= 2 ==> text[|text| - 2..] != [47, 115]) && !IsDuration(text)
  {
    var last := text[|text| - 1];
    assert IsDigit(last) || IsComma(last);
    assert |text| >= 2 ==> text[|text| - 2..][1] == last;
    ColonSplitOfDigits(text);
  }

  /** So is a percentage. */
  lemma PercentagesAreReadBack(speedOf: SpeedParser, p: Progress, n: nat)
    requires n < UINT64
    ensures ParsedToken(speedOf, p, Decimal(n) + [37]) == (p.(percent := n), false)
  {
    var text := Decimal(n) + [37];
    assert text[..|text| - 1] == Decimal(n);
    assert ParseUint(Decimal(n)) == Some(n) by { ValueOfDecimal(n); }
  }

  /** A number that does not fit in 64 bits is malformed, and so is a percent sign without a number. */
  lemma BadNumbersAreMalformed(speedOf: SpeedParser, p: Progress, n: nat, t: Text)
    requires n >= 0x1_0000_0000_0000_0000
    ensures ParsedToken(speedOf, p, Decimal(n) + [37]) == (p, true)
    ensures ParsedToken(speedOf, p, Decimal(n)) == (p, true)
    ensures t == [] || !AllDigits(t) ==> ParsedToken(speedOf, p, t + [37]) == (p, true)
  {
    ValueOfDecimal(n);
    assert (Decimal(n) + [37])[..|Decimal(n)|] == Decimal(n);
    assert (t + [37])[..|t|] == t;
    DigitsAreNoOtherField(Decimal(n));
    NoCommas(Decimal(n));
  }

  lemma {:induction false} NoCommas(text: Text)
    requires DigitsAndCommas(text, false)
    ensures WithoutCommas(text) == text
  {
    if text != [] { NoCommas(text[..|text| - 1]); }
  }

  predicate AllDigits(text: Text) {
    forall i :: 0 <= i < |text| ==> 48 <= text[i] <= 57
  }

  /** A speed is what the parser of sizes makes of it, in 64 bits. */
  lemma SpeedsAreReadBack(speedOf: SpeedParser, p: Progress, t: Text)
    ensures ParsedToken(speedOf, p, t + [47, 115]) ==
            if speedOf(t).Some? then (p.(speed := speedOf(t).value % 0x1_0000_0000_0000_0000), false) else (p, true)
  {
    var text := t + [47, 115];
    assert text[|text| - 2..] == [47, 115] && text[..|text| - 2] == t;
  }

  /** The text of a duration: three numbers with colons between them. */
  function Clock(h: Text, m: Text, s: Text): Text {
    h + [58] + m + [58] + s
  }

  lemma ClockSplits(h: Text, m: Text, s: Text)
    requires AllDigits(h) && AllDigits(m) && AllDigits(s)
    ensures Split(Clock(h, m, s), IsColon) == Pieces([h, m], s)
  {
    assert [h, m][..1] == [h] && [58 as byte, 58][..1] == [58] && [h][..0] == [];
    assert Joined([h], [58], m) == h + [58] + m;
    assert Joined([h, m], [58, 58], s) == Clock(h, m, s);
    JoinThenSplit([h, m], [58, 58], s, IsColon);
  }

  /** So is a duration, whatever number of digits its parts have: it is kept as it was printed. */
  lemma DurationsAreReadBack(speedOf: SpeedParser, p: Progress, h: Text, m: Text, s: Text)
    requires h != [] && m != [] && s != [] && AllDigits(h) && AllDigits(m) && AllDigits(s)
    ensures ParsedToken(speedOf, p, Clock(h, m, s)) == (p.(timeLeft := Clock(h, m, s)), false)
  {
    var text := Clock(h, m, s);
    ClockSplits(h, m, s);
    assert text[|text| - 1] == s[|s| - 1];
    assert text[|text| - 2..][1] == s[|s| - 1];
  }

  lemma DurationIsClock(text: Text) returns (h: Text, m: Text, s: Text)
    requires IsDuration(text)
    ensures h != [] && m != [] && s != [] && AllDigits(h) && AllDigits(m) && AllDigits(s)
    ensures text == Clock(h, m, s)
  {
    var pieces, seps := Split(text, IsColon), Separators(text, IsColon);
    var parts := pieces.done + [pieces.rest];
    h, m, s := parts[0], parts[1], parts[2];
    SplitThenJoin(text, IsColon);
    SplitShape(text, IsColon);
    assert IsColon(seps[0]) && IsColon(seps[1]);
    assert pieces.done == [h, m] && seps == [58, 58] && pieces.rest == s;
    assert [h, m][..1] == [h] && [58 as byte, 58][..1] == [58] && [h][..0] == [];
    assert Joined([h], [58], m) == h + [58] + m;
  }

  /** Nothing but a duration changes the time left. */
  lemma OnlyDurationsSetTimeLeft(speedOf: SpeedParser, p: Progress, text: Text) returns (h: Text, m: Text, s: Text)
    requires ParsedToken(speedOf, p, text).0.timeLeft != p.timeLeft
    ensures h != [] && m != [] && s != [] && AllDigits(h) && AllDigits(m) && AllDigits(s)
    ensures text == Clock(h, m, s) && multiset(text)[58] == 2
  {
    h, m, s := DurationIsClock(text);
    DigitsHaveNoColon(h);
    DigitsHaveNoColon(m);
    DigitsHaveNoColon(s);
  }

  lemma DigitsHaveNoColon(text: Text)
    requires AllDigits(text)
    ensures multiset(text)[58] == 0
  {
    assert 58 !in text;
  }

  /** Status fields such as "(xfr#1," and "to-chk=0/1)" are no error and change nothing. */
  lemma StatusFieldsAreIgnored(speedOf: SpeedParser, p: Progress, text: Text, i: nat)
    requires i < |text| && !(48 <= text[i] <= 57) && text[i] != 44 && text[i] != 58
    requires text[|text| - 1] != 37 && (|text| >= 2 ==> text[|text| - 2..] != [47, 115])
    ensures ParsedToken(speedOf, p, text) == (p, false)
  {
    if IsDuration(text) {
      var h, m, s := DurationIsClock(text);
      assert false;
    }
  }

  /** A malformed token is reported and changes nothing. */
  lemma MalformedTokensChangeNothing(speedOf: SpeedParser, p: Progress, text: Text)
    ensures ParsedToken(speedOf, p, text).1 ==> ParsedToken(speedOf, p, text).0 == p
  {}

  /****** The whole stream *******/

  /** The fields after all pieces, where empty pieces and oversize pieces count for nothing. */
  function Folded(speedOf: SpeedParser, start: Progress, pieces: seq<Text>): Progress {
    if pieces == [] then start
    else
      var p, last := Folded(speedOf, start, pieces[..|pieces| - 1]), pieces[|pieces| - 1];
      if 0 < |last| <= MAX_TOKEN then ParsedToken(speedOf, p, last).0 else p
  }

  /** What a reader of the whole stream has: the fields, the unfinished token, and whether that
      token is already too long to keep. */
  datatype Reading = Reading(fields: Progress, pending: Text, discarding: bool)

  /** The meaning of a stream: split all of it at white space, drop what is too long, apply the rest. */
  function ReadStream(speedOf: SpeedParser, start: Progress, stream: Text): Reading {
    var pieces := Split(stream, IsSpace);
    var oversize := |pieces.rest| > MAX_TOKEN;
    Reading(Folded(speedOf, start, pieces.done), if oversize then [] else pieces.rest, oversize)
  }

  /** One more byte of the stream. */
  function NextReading(speedOf: SpeedParser, r: Reading, c: byte): Reading {
    if IsSpace(c) then
      Reading(if r.pending == [] then r.fields else ParsedToken(speedOf, r.fields, r.pending).0, [], false)
    else if r.discarding then r
    else if |r.pending| >= MAX_TOKEN then Reading(r.fields, [], true)
    else r.(pending := r.pending + [c])
  }

  lemma ReadOneMore(speedOf: SpeedParser, start: Progress, s: Text, c: byte)
    ensures ReadStream(speedOf, start, s + [c]) == NextReading(speedOf, ReadStream(speedOf, start, s), c)
  {
    assert (s + [c])[..|s + [c]| - 1] == s;
    var p, q := Split(s, IsSpace), Split(s + [c], IsSpace);
    if IsSpace(c) {
      assert q.done[..|q.done| - 1] == p.done;
    }
  }

  lemma BoundaryHasNoRest(s: Text)
    requires s == [] || s[|s| - 1] <= 32
    ensures Split(s, IsSpace).rest == []
  {}

  /** At a boundary between tokens, a token followed by white space is applied, up to a mebibyte of it;
      a longer one is dropped whole. */
  lemma TokensAreApplied(speedOf: SpeedParser, start: Progress, s: Text, token: Text, c: byte)
    requires s == [] || s[|s| - 1] <= 32
    requires token != [] && (forall i :: 0 <= i < |token| ==> token[i] > 32) && c <= 32
    ensures
      var before := ReadStream(speedOf, start, s).fields;
      ReadStream(speedOf, start, s + token + [c]) ==
      Reading(if |token| <= 1048576 then ParsedToken(speedOf, before, token).0 else before, [], false)
  {
    BoundaryHasNoRest(s);
    SplitUnbrokenTail(s, token, IsSpace);
    assert [] + token == token;
    ReadOneMore(speedOf, start, s + token, c);
  }

  lemma TwoTokensAreApplied(speedOf: SpeedParser, start: Progress, a: Text, b: Text)
    requires 0 < |a| <= 1048576 && (forall i :: 0 <= i < |a| ==> a[i] > 32)
    requires 0 < |b| <= 1048576 && (forall i :: 0 <= i < |b| ==> b[i] > 32)
    ensures ReadStream(speedOf, start, a + [32] + b + [10]) ==
            Reading(ParsedToken(speedOf, ParsedToken(speedOf, start, a).0, b).0, [], false)
  {
    TokensAreApplied(speedOf, start, [], a, 32);
    assert [] + a + [32] == a + [32];
    TokensAreApplied(speedOf, start, a + [32], b, 10);
  }

  /** The start of a typical stream: "5%", a space, "1,234" and a newline. */
  lemma PercentThenBytes(speedOf: SpeedParser, start: Progress)
    ensures ReadStream(speedOf, start, [53, 37] + [32] + [49, 44, 50, 51, 52] + [10]) ==
            Reading(start.(percent := 5, downloaded := 1234), [], false)
  {
    PercentOf5(speedOf, start);
    BytesOf1234(speedOf, start.(percent := 5));
    TwoTokensAreApplied(speedOf, start, [53, 37], [49, 44, 50, 51, 52]);
  }

  lemma PercentOf5(speedOf: SpeedParser, p: Progress)
    ensures ParsedToken(speedOf, p, [53, 37]) == (p.(percent := 5), false)
  {
    assert Decimal(5) + [37] == [53, 37];
    PercentagesAreReadBack(speedOf, p, 5);
  }

  lemma WithoutCommasOneMore(text: Text, c: byte)
    ensures WithoutCommas(text + [c]) == WithoutCommas(text) + if IsComma(c) then [] else [c]
  {
    assert (text + [c])[..|text + [c]| - 1] == text;
  }

  lemma BytesOf1234(speedOf: SpeedParser, p: Progress)
    ensures ParsedToken(speedOf, p, [49, 44, 50, 51, 52]) == (p.(downloaded := 1234), false)
  {
    assert Decimal(1) == [49] && Decimal(12) == [49] + [50] && Decimal(123) == [49] + [50] + [51];
    assert Decimal(1234) == [49] + [50] + [51] + [52];
    var one: Text := [] + [49];
    WithoutCommasOneMore([], 49);
    WithoutCommasOneMore(one, 44);
    WithoutCommasOneMore(one + [44], 50);
    WithoutCommasOneMore(one + [44] + [50], 51);
    WithoutCommasOneMore(one + [44] + [50] + [51], 52);
    var bytes := one + [44] + [50] + [51] + [52];
    assert bytes == [49, 44, 50, 51, 52];
    ByteCountsAreReadBack(speedOf, p, 1234, bytes);
  }

  /** The part of a sync that the writer fills in. */
  class Sync {
    var percent: nat
    var speed: nat
    var downloaded: nat
    var timeLeft: Text

    constructor ()
      ensures Fields() == NO_PROGRESS
    {
      percent, speed, downloaded, timeLeft := 0, 0, 0, [];
    }

    function Fields(): Progress
      reads this
    {
      Progress(percent, speed, downloaded, timeLeft)
    }

    /** parseRsyncProgressToken. */
    method Parse(speedOf: SpeedParser, text: Text) returns (malformed: bool)
      modifies this
      ensures (Fields(), malformed) == ParsedToken(speedOf, old(Fields()), text)
    {
      var n := |text|;
      if n >= 1 && text[n - 1] == 37 {
        var v := ParseUint(text[..n - 1]);
        if v.None? { return true; }
        percent := v.value;
        return false;
      }
      if n >= 2 && text[n - 2..] == [47, 115] {
        var v := speedOf(text[..n - 2]);
        if v.None? { return true; }
        speed := v.value % UINT64;
        return false;
      }
      if IsDuration(text) {
        timeLeft := text;
        return false;
      }
      if IsByteCount(text) {
        var v := ParseUint(WithoutCommas(text));
        if v.None? { return true; }
        downloaded := v.value;
      }
      return false;
    }
  }

  class ProgressWriter {
    const speedOf: SpeedParser
    const currentSync: Sync
    var pending: Text
    var discarding: bool
    ghost const start: Progress
    ghost var stream: Text

    /** The writer holds exactly what a reader of the whole stream would hold. */
    ghost predicate Valid()
      reads this, currentSync
    {
      Reading(currentSync.Fields(), pending, discarding) == ReadStream(speedOf, start, stream)
    }

    constructor (speedOf: SpeedParser, currentSync: Sync)
      ensures Valid() && stream == [] && this.currentSync == currentSync && start == currentSync.Fields()
      ensures this.speedOf == speedOf
    {
      this.speedOf := speedOf;
      this.currentSync := currentSync;
      pending, discarding := [], false;
      start := currentSync.Fields();
      stream := [];
    }

    /** Apply the pending token, if any. */
    method ApplyPending()
      modifies this`pending, currentSync
      ensures pending == []
      ensures currentSync.Fields() ==
              if old(pending) == [] then old(currentSync.Fields())
              else ParsedToken(speedOf, old(currentSync.Fields()), old(pending)).0
    {
      if |pending| == 0 {
        return;
      }
      var text := pending;
      pending := [];
      var _ := currentSync.Parse(speedOf, text);
    }

    /** Whatever the boundaries between calls, the writer ends up where one reading of the
        concatenated stream ends up. */
    method Write(data: Text) returns (n: int)
      requires Valid()
      modifies this, currentSync
      ensures Valid() && stream == old(stream) + data
      ensures n == |data|
    {
      var i := 0;
      while i < |data|
        invariant 0 <= i <= |data|
        invariant Valid() && stream == old(stream) + data[..i]
      {
        var c := data[i];
        ReadOneMore(speedOf, start, stream, c);
        assert old(stream) + data[..i] + [c] == old(stream) + data[..i + 1];
        stream := stream + [c];
        i := i + 1;
        if c <= 32 {
          ApplyPending();
          discarding := false;
          continue;
        }
        if discarding {
          continue;
        }
        if |pending| >= MAX_TOKEN {
          pending := [];
          discarding := true;
          continue;
        }
        pending := pending + [c];
      }
      return |data|;
    }
  }
}
