/** The grammar of RFC 8259, spelled out apart from the scanner, and that the scan's cost is that of
every text it gives. Section numbers are those of RFC 8259.

A string may hold any byte from 0x20 on but the quote and the backslash, so every UTF-8 encoding of
what section 7 allows, and more. */
module Rfc8259 {
  import opened Bytes
  import opened JsonScan
  import opened JsonCost

  // ----- section 2: whitespace and structural characters

  predicate IsWhitespace(c: Byte) { c == 0x20 || c == 0x09 || c == 0x0a || c == 0x0d }

  predicate Whitespace(b: Bytes) { forall i :: 0 <= i < |b| ==> IsWhitespace(b[i]) }

  // ----- section 3: the three names

  const FALSE: Bytes := [0x66, 0x61, 0x6c, 0x73, 0x65]
  const NULL: Bytes := [0x6e, 0x75, 0x6c, 0x6c]
  const TRUE: Bytes := [0x74, 0x72, 0x75, 0x65]

  // ----- section 6: numbers

  predicate IsDecimalDigit(c: Byte) { 0x30 <= c <= 0x39 }

  predicate Digits(b: Bytes) { b != [] && forall i :: 0 <= i < |b| ==> IsDecimalDigit(b[i]) }

  datatype Sign = NoSign | Plus | Minus {
    function Bytes(): Bytes { match this case NoSign => [] case Plus => [0x2b] case Minus => [0x2d] }
  }

  datatype Exponent = Exponent(upper: bool, sign: Sign, digits: Bytes) {
    predicate Ok() { Digits(digits) }
    function Bytes(): Bytes { [if upper then 0x45 else 0x65] + (sign.Bytes() + digits) }
  }

  datatype Numeral = Numeral(minus: bool, whole: Bytes, fraction: Option<Bytes>, exponent: Option<Exponent>) {
    /** The integer part has no leading zero, and a fraction or exponent has a digit. */
    predicate Ok() {
      && Digits(whole) && (whole[0] == 0x30 ==> |whole| == 1)
      && (fraction.Some? ==> Digits(fraction.value))
      && (exponent.Some? ==> exponent.value.Ok())
    }
    function Bytes(): Bytes {
      (if minus then [0x2d] else []) +
      (whole + ((if fraction.Some? then [0x2e] + fraction.value else []) +
                (if exponent.Some? then exponent.value.Bytes() else [])))
    }
  }

  ghost predicate IsNumber(b: Bytes) { exists n: Numeral :: n.Ok() && n.Bytes() == b }

  // ----- section 7: strings

  predicate IsHexDigit(c: Byte) { 0x30 <= c <= 0x39 || 0x41 <= c <= 0x46 || 0x61 <= c <= 0x66 }

  /** What may follow a backslash, but for a u and four hexadecimal digits. */
  predicate IsEscape(c: Byte) {
    c == 0x22 || c == 0x5c || c == 0x2f || c == 0x62 || c == 0x66 || c == 0x6e || c == 0x72 || c == 0x74
  }

  predicate IsString(b: Bytes) {
    || b == []
    || (b[0] >= 0x20 && b[0] != 0x22 && b[0] != 0x5c && IsString(b[1..]))
    || (b[0] == 0x5c && |b| >= 2 && IsEscape(b[1]) && IsString(b[2..]))
    || (&& b[0] == 0x5c && |b| >= 6 && b[1] == 0x75
        && IsHexDigit(b[2]) && IsHexDigit(b[3]) && IsHexDigit(b[4]) && IsHexDigit(b[5])
        && IsString(b[6..]))
  }

  // ----- sections 3, 4 and 5: values, objects and arrays

  ghost predicate IsValue(v: Value) {
    match v
    case Text(body) => IsString(body)
    case Number(bytes) => IsNumber(bytes)
    case Name(bytes) => bytes == FALSE || bytes == NULL || bytes == TRUE
    case Array(space, es) => Whitespace(space) && AreElements(es)
    case Object(space, ms) => Whitespace(space) && AreMembers(ms)
  }

  ghost predicate AreElements(es: Elems) {
    es.Elem? ==> Whitespace(es.before) && IsValue(es.value) && Whitespace(es.after) && AreElements(es.next)
  }

  ghost predicate AreMembers(ms: Members) {
    ms.Member? ==>
      && Whitespace(ms.before) && IsString(ms.key) && Whitespace(ms.colonBefore) && Whitespace(ms.colonAfter)
      && IsValue(ms.value) && Whitespace(ms.after) && AreMembers(ms.next)
  }

  /** The text of a value. */
  function Json(v: Value): Bytes {
    match v
    case Text(body) => [0x22] + (body + [0x22])
    case Number(bytes) => bytes
    case Name(bytes) => bytes
    case Array(space, es) => [0x5b] + (space + (Elements(es) + [0x5d]))
    case Object(space, ms) => [0x7b] + (space + (ObjectMembers(ms) + [0x7d]))
  }

  function Elements(es: Elems): Bytes {
    match es
    case NoElems => []
    case Elem(before, v, after, next) =>
      before + (Json(v) + (after + ((if next.NoElems? then [] else [0x2c]) + Elements(next))))
  }

  function ObjectMembers(ms: Members): Bytes {
    match ms
    case NoMembers => []
    case Member(before, key, cb, ca, v, after, next) =>
      var more := (if next.NoMembers? then [] else [0x2c]) + ObjectMembers(next);
      before + ([0x22] + (key + ([0x22] + (cb + ([0x3a] + (ca + (Json(v) + (after + more))))))))
  }

  // ----- every text of the grammar is one the scanner's theorem covers

  lemma DigitsAreScalars(b: Bytes)
    requires Digits(b)
    ensures Scalars(b)
  {
  }

  lemma ScalarsConcat(a: Bytes, b: Bytes)
    requires Scalars(a) && Scalars(b)
    ensures Scalars(a + b)
  {
  }

  lemma ExponentIsScalars(e: Exponent)
    requires e.Ok()
    ensures Scalars(e.Bytes())
  {
    DigitsAreScalars(e.digits);
    ScalarsConcat(e.sign.Bytes(), e.digits);
    ScalarsConcat([if e.upper then 0x45 else 0x65], e.sign.Bytes() + e.digits);
  }

  lemma NumeralIsScalars(n: Numeral)
    requires n.Ok()
    ensures Scalars(n.Bytes()) && n.Bytes() != [] && IsNumberStart(n.Bytes()[0])
  {
    var fraction := if n.fraction.Some? then [0x2e] + n.fraction.value else [];
    var exponent := if n.exponent.Some? then n.exponent.value.Bytes() else [];
    var minus := if n.minus then [0x2d] else [];
    DigitsAreScalars(n.whole);
    if n.fraction.Some? {
      DigitsAreScalars(n.fraction.value);
      ScalarsConcat([0x2e], n.fraction.value);
    }
    if n.exponent.Some? { ExponentIsScalars(n.exponent.value); }
    ScalarsConcat(fraction, exponent);
    ScalarsConcat(n.whole, fraction + exponent);
    ScalarsConcat(minus, n.whole + (fraction + exponent));
  }

  lemma HexDigitIsPlain(c: Byte, rest: Bytes)
    requires IsHexDigit(c) && IsBody(rest)
    ensures IsBody([c] + rest)
  {
    assert ([c] + rest)[1..] == rest;
  }

  lemma {:induction false} StringIsBody(b: Bytes)
    requires IsString(b)
    ensures IsBody(b)
    decreases |b|
  {
    if b == [] {
    } else if b[0] != 0x5c {
      StringIsBody(b[1..]);
    } else if |b| >= 2 && IsEscape(b[1]) && IsString(b[2..]) {
      StringIsBody(b[2..]);
    } else {
      StringIsBody(b[6..]);
      HexDigitIsPlain(b[5], b[6..]);
      HexDigitIsPlain(b[4], [b[5]] + b[6..]);
      HexDigitIsPlain(b[3], [b[4]] + ([b[5]] + b[6..]));
      HexDigitIsPlain(b[2], [b[3]] + ([b[4]] + ([b[5]] + b[6..])));
      assert b[2..] == [b[2]] + ([b[3]] + ([b[4]] + ([b[5]] + b[6..])));
    }
  }

  lemma {:induction false} ValueIsWellFormed(v: Value)
    requires IsValue(v)
    ensures WellFormed(v)
    decreases v
  {
    match v
    case Text(body) => StringIsBody(body);
    case Number(bytes) =>
      var n: Numeral :| n.Ok() && n.Bytes() == bytes;
      NumeralIsScalars(n);
    case Name(bytes) =>
    case Array(_, es) => ElementsAreWellFormed(es);
    case Object(_, ms) => MembersAreWellFormed(ms);
  }

  lemma {:induction false} ElementsAreWellFormed(es: Elems)
    requires AreElements(es)
    ensures ElemsWellFormed(es)
    decreases es
  {
    match es
    case NoElems =>
    case Elem(_, v, _, next) => ValueIsWellFormed(v); ElementsAreWellFormed(next);
  }

  lemma {:induction false} MembersAreWellFormed(ms: Members)
    requires AreMembers(ms)
    ensures MembersWellFormed(ms)
    decreases ms
  {
    match ms
    case NoMembers =>
    case Member(_, key, _, _, v, _, next) => StringIsBody(key); ValueIsWellFormed(v); MembersAreWellFormed(next);
  }

  lemma {:induction false} JsonIsRendered(v: Value)
    ensures Json(v) == Render(v)
    decreases v
  {
    match v
    case Text(_) =>
    case Number(_) =>
    case Name(_) =>
    case Array(_, es) => ElementsAreRendered(es);
    case Object(_, ms) => MembersAreRendered(ms);
  }

  lemma {:induction false} ElementsAreRendered(es: Elems)
    ensures Elements(es) == RenderElems(es)
    decreases es
  {
    match es
    case NoElems =>
    case Elem(_, v, _, next) => JsonIsRendered(v); ElementsAreRendered(next);
  }

  lemma {:induction false} MembersAreRendered(ms: Members)
    ensures ObjectMembers(ms) == RenderMembers(ms)
    decreases ms
  {
    match ms
    case NoMembers =>
    case Member(_, _, _, _, v, _, next) => JsonIsRendered(v); MembersAreRendered(next);
  }

  /** scanJSON on the text of any RFC 8259 value, with any whitespace around it: it passes exactly
      when the value's cost is within the unit limit and its nesting within the depth limit. */
  method CheckText(c: Config, data: Bytes, maxValues: nat, maxDepth: nat,
                   ghost before: Bytes, ghost v: Value, ghost after: Bytes) returns (verdict: Verdict)
    requires Whitespace(before) && Whitespace(after) && IsValue(v) && data == before + (Json(v) + after)
    ensures verdict.Fine? <==> Cost(c, TOP, v).Units() <= maxValues && Cost(c, TOP, v).levels <= maxDepth
    ensures verdict.TooDeep? ==> Cost(c, TOP, v).levels > maxDepth
    ensures verdict.TooMany? ==> Cost(c, TOP, v).Units() > maxValues
  {
    hide Json, Render, IsValue, WellFormed, Cost;
    ValueIsWellFormed(v);
    JsonIsRendered(v);
    verdict := CheckJSON(c, data, maxValues, maxDepth, before, v, after);
  }
}
