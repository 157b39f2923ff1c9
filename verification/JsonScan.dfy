/** scanJSON of internal/httpbody/httpbody.go: a one-pass count of what a JSON answer holds, against
the recursive cost of the value it spells.

A document costs one unit for each string, key, number, true, false and null, and eight for each
array and object, except that numbers at exactly the listed depth below a byte-array key cost a
sixteenth. */
module JsonScan {
  import opened Bytes

  const CONTAINER_COST: nat := 8
  const FREE_NUMBERS_PER_UNIT: nat := 16

  const QUOTE: Byte := 34
  const BACKSLASH: Byte := 92
  const COMMA: Byte := 44
  const COLON: Byte := 58
  const PROOF: Bytes := [112, 114, 111, 111, 102]

  /** The keys of byte arrays and how many arrays deep their numbers lie, if any are free, and
      whether they count only under the top-level "proof". */
  datatype Config = Config(free: Option<map<Bytes, nat>>, onlyUnderProof: bool) {
    function Nesting(key: Bytes): nat {
      if free.Some? && key in free.value then free.value[key] else 0
    }
  }

  predicate IsSpace(c: Byte) { c == 32 || c == 9 || c == 10 || c == 13 }

  predicate IsNumberStart(c: Byte) { c == 45 || 48 <= c <= 57 }

  predicate IsLower(c: Byte) { 97 <= c <= 122 }

  predicate IsScalarByte(c: Byte) {
    48 <= c <= 57 || 97 <= c <= 122 || 65 <= c <= 90 || c == 46 || c == 43 || c == 45
  }

  predicate IsOpen(c: Byte) { c == 91 || c == 123 }

  predicate IsClose(c: Byte) { c == 93 || c == 125 }

  // ----- the scan, as a function of the bytes left

  datatype State = State(units: nat, depth: int, peak: int, freeNumbers: nat,
                         freeAt: int, freeBase: int, underProof: bool)

  const START := State(0, 0, 0, 0, -1, -1, false)

  function SkipSpace(b: Bytes): (r: Bytes)
    ensures |r| <= |b| && (r == [] || !IsSpace(r[0]))
  {
    if b != [] && IsSpace(b[0]) then SkipSpace(b[1..]) else b
  }

  function SkipScalar(b: Bytes): (r: Bytes)
    ensures |r| <= |b|
  {
    if b != [] && IsScalarByte(b[0]) then SkipScalar(b[1..]) else b
  }

  /** How far the closing quote of a string lies, past its opening quote. */
  function BodyLength(b: Bytes): nat {
    if b == [] || b[0] == QUOTE then 0
    else if b[0] == BACKSLASH then if |b| == 1 then 2 else 2 + BodyLength(b[2..])
    else 1 + BodyLength(b[1..])
  }

  /** What a colon, if one comes next, is followed by. */
  function AfterColon(b: Bytes): Option<Byte> {
    var t := SkipSpace(b);
    if t == [] || t[0] != COLON then None
    else
      var v := SkipSpace(t[1..]);
      if v == [] then None else Some(v[0])
  }

  /** A string's effect on what is free, by what follows it. */
  function KeyEffect(c: Config, s: State, key: Bytes, after: Bytes): State {
    var next := AfterColon(after);
    if c.free.None? || s.freeAt >= 0 || next.None? || !IsOpen(next.value) then s
    else if c.onlyUnderProof && s.depth == 1 && key == PROOF then s.(underProof := true)
    else if c.Nesting(key) > 0 && (s.underProof || !c.onlyUnderProof) && next.value == 91
    then s.(freeBase := s.depth, freeAt := s.depth + c.Nesting(key))
    else s
  }

  function Close(s: State): State {
    var d := s.depth - 1;
    var t := s.(depth := d);
    var u := if d <= t.freeBase then t.(freeAt := -1, freeBase := -1) else t;
    if d <= 1 then u.(underProof := false) else u
  }

  function CountNumber(s: State): State {
    if s.depth != s.freeAt then s.(units := s.units + 1)
    else if s.freeNumbers + 1 == FREE_NUMBERS_PER_UNIT then s.(units := s.units + 1, freeNumbers := 0)
    else s.(freeNumbers := s.freeNumbers + 1)
  }

  function Open(s: State): State {
    s.(units := s.units + CONTAINER_COST, depth := s.depth + 1,
       peak := if s.depth + 1 > s.peak then s.depth + 1 else s.peak)
  }

  datatype Next = Next(state: State, rest: Bytes)

  /** One round of the loop. */
  function Token(c: Config, b: Bytes, s: State): (n: Next)
    requires b != []
    ensures |n.rest| < |b|
  {
    var x := b[0];
    if x == QUOTE then
      var t := s.(units := s.units + 1);
      var k := BodyLength(b[1..]);
      if k >= |b| - 1 then Next(t, []) else Next(KeyEffect(c, t, b[1..1 + k], b[k + 2..]), b[k + 2..])
    else if IsOpen(x) then Next(Open(s), b[1..])
    else if IsClose(x) then Next(Close(s), b[1..])
    else if IsNumberStart(x) then Next(CountNumber(s), SkipScalar(b[1..]))
    else if IsLower(x) then Next(s.(units := s.units + 1), SkipScalar(b[1..]))
    else Next(s, b[1..])
  }

  /** The whole scan, without stopping at a limit. */
  function Scan(c: Config, b: Bytes, s: State): State
    decreases |b|
  {
    if b == [] then s
    else
      var n := Token(c, b, s);
      Scan(c, n.rest, n.state)
  }

  lemma TokenGrows(c: Config, b: Bytes, s: State)
    requires b != []
    ensures var t := Token(c, b, s).state; s.units <= t.units && s.peak <= t.peak
  {
  }

  lemma {:induction false} ScanGrows(c: Config, b: Bytes, s: State)
    ensures s.units <= Scan(c, b, s).units && s.peak <= Scan(c, b, s).peak
    decreases |b|
  {
    hide Token;
    if b == [] {
    } else {
      TokenGrows(c, b, s);
      var n := Token(c, b, s);
      ScanGrows(c, n.rest, n.state);
    }
  }

  // ----- the loop

  method FindQuote(data: Bytes, start: nat) returns (i: nat)
    requires start <= |data|
    ensures i == start + BodyLength(data[start..])
  {
    i := start;
    while i < |data| && data[i] != QUOTE
      invariant start <= i
      invariant start + BodyLength(data[start..]) == i + (if i <= |data| then BodyLength(data[i..]) else 0)
      decreases |data| + 1 - i
    {
      if data[i] == BACKSLASH {
        if i + 2 <= |data| { assert data[i..][2..] == data[i + 2..]; }
        i := i + 1;
      } else {
        assert data[i..][1..] == data[i + 1..];
      }
      i := i + 1;
    }
  }

  method SkipScalarBytes(data: Bytes, start: nat) returns (i: nat)
    requires start < |data|
    ensures start <= i < |data| && data[i + 1..] == SkipScalar(data[start + 1..])
  {
    i := start;
    while i + 1 < |data| && IsScalarByte(data[i + 1])
      invariant start <= i < |data| && SkipScalar(data[start + 1..]) == SkipScalar(data[i + 1..])
    {
      assert data[i + 1..][1..] == data[i + 2..];
      i := i + 1;
    }
  }

  method SkipSpaces(data: Bytes, start: nat) returns (i: nat)
    requires start <= |data|
    ensures start <= i <= |data| && data[i..] == SkipSpace(data[start..])
  {
    i := start;
    while i < |data| && IsSpace(data[i])
      invariant start <= i <= |data| && SkipSpace(data[start..]) == SkipSpace(data[i..])
    {
      assert data[i..][1..] == data[i + 1..];
      i := i + 1;
    }
  }

  /** opensContainerAfterColon, for the openings given. */
  method OpensContainerAfterColon(data: Bytes, start: nat, opens: set<Byte>) returns (r: bool)
    requires start <= |data|
    ensures r <==> AfterColon(data[start..]).Some? && AfterColon(data[start..]).value in opens
  {
    var i := SkipSpaces(data, start);
    if i >= |data| || data[i] != COLON { return false; }
    assert data[i..][1..] == data[i + 1..];
    i := SkipSpaces(data, i + 1);
    if i >= |data| { return false; }
    r := data[i] in opens;
  }

  /** The string case of the loop: the key between the quotes, and what it opens. */
  method ReadKey(c: Config, data: Bytes, start: nat, i: nat, s: State) returns (t: State)
    requires start <= i < |data|
    ensures t == KeyEffect(c, s, data[start..i], data[i + 1..])
  {
    var opens := OpensContainerAfterColon(data, i + 1, {91, 123});
    if c.free.None? || s.freeAt >= 0 || !opens { return s; }
    var key := data[start..i];
    if c.onlyUnderProof && s.depth == 1 && key == PROOF { return s.(underProof := true); }
    var opensArray := OpensContainerAfterColon(data, i + 1, {91});
    var nesting := c.Nesting(key);
    if nesting > 0 && (s.underProof || !c.onlyUnderProof) && opensArray {
      return s.(freeBase := s.depth, freeAt := s.depth + nesting);
    }
    t := s;
  }

  datatype Verdict = Fine | TooDeep | TooMany

  /** The string case of a round. */
  method RoundText(c: Config, data: Bytes, at: nat, s: State) returns (t: State, i: nat)
    requires at < |data| && data[at] == QUOTE
    ensures at <= i && t == Token(c, data[at..], s).state
    ensures (if i + 1 <= |data| then data[i + 1..] else []) == Token(c, data[at..], s).rest
  {
    assert data[at..][1..] == data[at + 1..];
    hide KeyEffect, BodyLength;
    t := s.(units := s.units + 1);
    i := FindQuote(data, at + 1);
    if i < |data| {
      SliceOfTail(data, at, i);
      t := ReadKey(c, data, at + 1, i, t);
    }
  }

  /** One round of the loop, at position i. */
  method Round(c: Config, data: Bytes, at: nat, s: State) returns (t: State, i: nat)
    requires at < |data|
    ensures at <= i && t == Token(c, data[at..], s).state
    ensures (if i + 1 <= |data| then data[i + 1..] else []) == Token(c, data[at..], s).rest
  {
    t, i := s, at;
    var x := data[at];
    if x == QUOTE {
      hide Token;
      t, i := RoundText(c, data, at, s);
      return;
    }
    assert data[at..][1..] == data[at + 1..];
    hide Open, Close, CountNumber, SkipScalar;
    if IsOpen(x) {
      t := Open(s);
    } else if IsClose(x) {
      t := Close(s);
    } else if IsNumberStart(x) {
      t := CountNumber(s);
      i := SkipScalarBytes(data, at);
    } else if IsLower(x) {
      t := s.(units := s.units + 1);
      i := SkipScalarBytes(data, at);
    }
  }

  lemma SliceOfTail(data: Bytes, at: nat, i: nat)
    requires at < i < |data|
    ensures data[at..][1..1 + (i - at - 1)] == data[at + 1..i] && data[at..][i - at - 1 + 2..] == data[i + 1..]
  {
  }

  /** scanJSON: it stops as soon as a limit is passed, and says nothing of a document that passes
      neither; which is decided by the whole scan alone. */
  method ScanJSON(c: Config, data: Bytes, maxValues: nat, maxDepth: nat) returns (v: Verdict)
    ensures v.Fine? <==> Scan(c, data, START).units <= maxValues && Scan(c, data, START).peak <= maxDepth
    ensures v.TooDeep? ==> Scan(c, data, START).peak > maxDepth
    ensures v.TooMany? ==> Scan(c, data, START).units > maxValues
  {
    hide Token;
    var s := START;
    var i := 0;
    assert data[0..] == data;
    while i < |data|
      invariant Scan(c, data, START) == Scan(c, if i <= |data| then data[i..] else [], s)
      invariant s.units <= maxValues && s.peak <= maxDepth
      decreases |data| - i
    {
      ghost var b := data[i..];
      TokenGrows(c, b, s);
      var t, j := Round(c, data, i, s);
      ScanGrows(c, Token(c, b, s).rest, t);
      s, i := t, j + 1;
      if s.peak > maxDepth { return TooDeep; }
      if s.units > maxValues { return TooMany; }
    }
    v := Fine;
  }
}
