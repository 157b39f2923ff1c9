/** JSON texts, what they cost, and that the one-pass scan computes it.

The texts are those of RFC 8259 and more: any whitespace where it allows whitespace, any escapes
in strings, and for a number or a name any run of the bytes the scanner reads as one. */
module JsonCost {
  import opened Bytes
  import opened JsonScan

  datatype Value =
    | Text(body: Bytes)
    | Number(bytes: Bytes)
    | Name(bytes: Bytes)
    | Array(space: Bytes, elems: Elems)
    | Object(space: Bytes, members: Members)
  {
    predicate Container() { Array? || Object? }
  }

  datatype Elems = NoElems | Elem(before: Bytes, value: Value, after: Bytes, next: Elems)

  datatype Members =
    | NoMembers
    | Member(before: Bytes, key: Bytes, colonBefore: Bytes, colonAfter: Bytes, value: Value, after: Bytes,
             next: Members)

  // ----- the text of a value

  function Render(v: Value): Bytes {
    match v
    case Text(body) => [QUOTE] + (body + [QUOTE])
    case Number(bytes) => bytes
    case Name(bytes) => bytes
    case Array(space, es) => [91] + (space + (RenderElems(es) + [93]))
    case Object(space, ms) => [123] + (space + (RenderMembers(ms) + [125]))
  }

  function RenderElems(es: Elems): Bytes {
    match es
    case NoElems => []
    case Elem(before, v, after, next) =>
      before + (Render(v) + (after + ((if next.NoElems? then [] else [COMMA]) + RenderElems(next))))
  }

  function RenderMembers(ms: Members): Bytes {
    match ms
    case NoMembers => []
    case Member(before, key, cb, ca, v, after, next) =>
      Labelled(before, key, cb, ca,
        Render(v) + (after + ((if next.NoMembers? then [] else [COMMA]) + RenderMembers(next))))
  }

  /** A key and its colon, before some text. */
  function Labelled(before: Bytes, key: Bytes, cb: Bytes, ca: Bytes, text: Bytes): Bytes {
    before + ([QUOTE] + (key + ([QUOTE] + (cb + ([COLON] + (ca + text))))))
  }

  lemma LabelledAppend(before: Bytes, key: Bytes, cb: Bytes, ca: Bytes, text: Bytes, post: Bytes)
    ensures Labelled(before, key, cb, ca, text) + post == Labelled(before, key, cb, ca, text + post)
  {
    var a := ca + text;
    assert a + post == ca + (text + post);
    var b := cb + ([COLON] + a);
    assert b + post == cb + ([COLON] + (a + post));
    var k := key + ([QUOTE] + b);
    assert k + post == key + ([QUOTE] + (b + post));
  }

  /** A string's bytes between its quotes: no bare quote, and no escape cut short. */
  predicate IsBody(b: Bytes) {
    b == [] || (if b[0] == BACKSLASH then |b| >= 2 && IsBody(b[2..]) else b[0] != QUOTE && IsBody(b[1..]))
  }

  predicate Spaces(b: Bytes) { forall i :: 0 <= i < |b| ==> IsSpace(b[i]) }

  predicate Scalars(b: Bytes) { forall i :: 0 <= i < |b| ==> IsScalarByte(b[i]) }

  predicate WellFormed(v: Value) {
    match v
    case Text(body) => IsBody(body)
    case Number(bytes) => bytes != [] && IsNumberStart(bytes[0]) && Scalars(bytes[1..])
    case Name(bytes) => bytes != [] && IsLower(bytes[0]) && Scalars(bytes[1..])
    case Array(space, es) => Spaces(space) && ElemsWellFormed(es)
    case Object(space, ms) => Spaces(space) && MembersWellFormed(ms)
  }

  predicate ElemsWellFormed(es: Elems) {
    es.Elem? ==> Spaces(es.before) && WellFormed(es.value) && Spaces(es.after) && ElemsWellFormed(es.next)
  }

  predicate MembersWellFormed(ms: Members) {
    ms.Member? ==>
      && Spaces(ms.before) && IsBody(ms.key) && Spaces(ms.colonBefore) && Spaces(ms.colonAfter)
      && WellFormed(ms.value) && Spaces(ms.after) && MembersWellFormed(ms.next)
  }

  // ----- the cost of a value

  /** Whole units, numbers that cost a sixteenth, and levels of nesting. */
  datatype Tally = Tally(whole: nat, free: nat, levels: nat) {
    function Plus(t: Tally): Tally {
      Tally(whole + t.whole, free + t.free, if levels > t.levels then levels else t.levels)
    }
    function Inside(): Tally { Tally(whole + 8, free, levels + 1) }
    function Units(): nat { whole + free / 16 }
  }

  /** Where a value lies: its depth; how many levels below it the free numbers of an enclosing byte
      array are, if it lies in one; and whether it lies in the answer's "proof". */
  datatype Place = Place(depth: nat, region: Option<int>, underProof: bool) {
    function Down(): Place {
      Place(depth + 1, if region.Some? then Some(region.value - 1) else None, underProof)
    }
  }

  /** How many arrays deep the numbers of a byte array lie, if the key is listed as one. */
  function Listed(c: Config, key: Bytes): nat {
    match c.free
    case None => 0
    case Some(keys) => if key in keys then keys[key] else 0
  }

  /** "proof" */
  const PROOF_KEY: Bytes := [0x70, 0x72, 0x6f, 0x6f, 0x66]

  /** A member's value lies where its object's other members do, unless its key names the proof, or
      a byte array whose value is an array. */
  function MemberPlace(c: Config, p: Place, key: Bytes, v: Value): Place {
    if c.free.None? || p.region.Some? || !v.Container() then p
    else if c.onlyUnderProof && p.depth == 1 && key == PROOF_KEY then p.(underProof := true)
    else if Listed(c, key) > 0 && (p.underProof || !c.onlyUnderProof) && v.Array?
    then p.(region := Some(Listed(c, key)))
    else p
  }

  function Cost(c: Config, p: Place, v: Value): Tally
    decreases v
  {
    match v
    case Text(_) => Tally(1, 0, 0)
    case Name(_) => Tally(1, 0, 0)
    case Number(_) => if p.region == Some(0) then Tally(0, 1, 0) else Tally(1, 0, 0)
    case Array(_, es) => ElemsCost(c, p.Down(), es).Inside()
    case Object(_, ms) => MembersCost(c, p.Down(), ms).Inside()
  }

  function ElemsCost(c: Config, p: Place, es: Elems): Tally
    decreases es
  {
    match es
    case NoElems => Tally(0, 0, 0)
    case Elem(_, v, _, next) => Cost(c, p, v).Plus(ElemsCost(c, p, next))
  }

  function MembersCost(c: Config, p: Place, ms: Members): Tally
    decreases ms
  {
    match ms
    case NoMembers => Tally(0, 0, 0)
    case Member(_, key, _, _, v, _, next) =>
      Tally(1, 0, 0).Plus(Cost(c, MemberPlace(c, p, key, v), v)).Plus(MembersCost(c, p, next))
  }

  // ----- the scanner's state, read as a place and a tally

  function PlaceOf(s: State): Place
    requires s.depth >= 0
  {
    Place(s.depth, if s.freeAt >= 0 then Some(s.freeAt - s.depth) else None, s.underProof)
  }

  predicate Sound(s: State) {
    && s.depth >= 0 && s.peak >= s.depth && s.freeNumbers < FREE_NUMBERS_PER_UNIT
    && (s.freeAt >= 0 <==> s.freeBase >= 0) && (s.freeAt < 0 ==> s.freeAt == -1 && s.freeBase == -1)
  }

  /** Before a value: it may be the one a byte-array key or "proof" announced. */
  predicate AtValue(s: State) { Sound(s) && s.freeBase <= s.depth && (s.underProof ==> s.depth >= 1) }

  /** Between the values of a container. */
  predicate Between(s: State) { Sound(s) && s.depth >= 1 && s.freeBase < s.depth && (s.underProof ==> s.depth >= 2) }

  function Charge(s: State, t: Tally): State {
    var sixteenths := FREE_NUMBERS_PER_UNIT * (s.units + t.whole) + s.freeNumbers + t.free;
    s.(units := sixteenths / FREE_NUMBERS_PER_UNIT, freeNumbers := sixteenths % FREE_NUMBERS_PER_UNIT,
       peak := if s.depth + t.levels > s.peak then s.depth + t.levels else s.peak)
  }

  /** A container that ends leaves the byte array, and the proof, it was announced as. */
  function Leave(s: State, v: Value): State {
    if !v.Container() then s
    else
      var t := if s.depth <= s.freeBase then s.(freeAt := -1, freeBase := -1) else s;
      if s.depth <= 1 then t.(underProof := false) else t
  }

  lemma ChargePlus(s: State, a: Tally, b: Tally)
    ensures Charge(Charge(s, a), b) == Charge(s, a.Plus(b))
  {
    var x := FREE_NUMBERS_PER_UNIT * (s.units + a.whole) + s.freeNumbers + a.free;
    var t := Charge(s, a);
    assert FREE_NUMBERS_PER_UNIT * t.units + t.freeNumbers == x;
  }

  lemma ChargeNothing(s: State)
    requires Sound(s)
    ensures Charge(s, Tally(0, 0, 0)) == s
  {
  }

  lemma ChargeInside(s: State, t: Tally)
    requires AtValue(s)
    ensures Charge(Open(s), t).(depth := s.depth) == Charge(s, t.Inside())
  {
  }

  // ----- scanning the pieces of a text

  /** The scan of a text that starts with a byte the scanner passes over. */
  lemma ScanNeutral(c: Config, x: Byte, post: Bytes, s: State)
    requires IsSpace(x) || x == COMMA || x == COLON
    ensures Scan(c, [x] + post, s) == Scan(c, post, s)
  {
    assert ([x] + post)[1..] == post;
  }

  lemma {:induction false} ScanSpaces(c: Config, space: Bytes, post: Bytes, s: State)
    requires Spaces(space)
    ensures Scan(c, space + post, s) == Scan(c, post, s)
    decreases |space|
  {
    hide Scan;
    if space == [] {
      assert space + post == post;
    } else {
      assert space + post == [space[0]] + (space[1..] + post);
      ScanNeutral(c, space[0], space[1..] + post, s);
      ScanSpaces(c, space[1..], post, s);
    }
  }

  lemma {:induction false} BodyEndsAtQuote(body: Bytes, post: Bytes)
    requires IsBody(body)
    ensures BodyLength(body + ([QUOTE] + post)) == |body|
    decreases |body|
  {
    var b := body + ([QUOTE] + post);
    if body == [] {
    } else if body[0] == BACKSLASH {
      assert b[2..] == body[2..] + ([QUOTE] + post);
      BodyEndsAtQuote(body[2..], post);
    } else {
      assert b[1..] == body[1..] + ([QUOTE] + post);
      BodyEndsAtQuote(body[1..], post);
    }
  }

  lemma ScanText(c: Config, body: Bytes, post: Bytes, s: State)
    requires IsBody(body)
    ensures Scan(c, [QUOTE] + (body + ([QUOTE] + post)), s) ==
            Scan(c, post, KeyEffect(c, s.(units := s.units + 1), body, post))
  {
    hide KeyEffect;
    var b := [QUOTE] + (body + ([QUOTE] + post));
    assert b[1..] == body + ([QUOTE] + post);
    BodyEndsAtQuote(body, post);
    assert b[1..1 + |body|] == body && b[|body| + 2..] == post;
  }

  lemma {:induction false} SkipScalarStops(bytes: Bytes, post: Bytes)
    requires Scalars(bytes) && (post == [] || !IsScalarByte(post[0]))
    ensures SkipScalar(bytes + post) == post
    decreases |bytes|
  {
    if bytes == [] {
      assert bytes + post == post;
    } else {
      assert (bytes + post)[1..] == bytes[1..] + post;
      SkipScalarStops(bytes[1..], post);
    }
  }

  lemma ScanScalar(c: Config, bytes: Bytes, post: Bytes, s: State)
    requires bytes != [] && (IsNumberStart(bytes[0]) || IsLower(bytes[0])) && Scalars(bytes[1..])
    requires post == [] || !IsScalarByte(post[0])
    ensures Scan(c, bytes + post, s) ==
            Scan(c, post, if IsNumberStart(bytes[0]) then CountNumber(s) else s.(units := s.units + 1))
  {
    assert (bytes + post)[1..] == bytes[1..] + post;
    SkipScalarStops(bytes[1..], post);
  }

  lemma ScanOpen(c: Config, x: Byte, post: Bytes, s: State)
    requires IsOpen(x)
    ensures Scan(c, [x] + post, s) == Scan(c, post, Open(s))
  {
    assert ([x] + post)[1..] == post;
  }

  lemma ScanClose(c: Config, x: Byte, post: Bytes, s: State)
    requires IsClose(x)
    ensures Scan(c, [x] + post, s) == Scan(c, post, Close(s))
  {
    assert ([x] + post)[1..] == post;
  }

  lemma {:induction false} SkipSpaceStops(space: Bytes, post: Bytes)
    requires Spaces(space)
    ensures SkipSpace(space + post) == SkipSpace(post)
    decreases |space|
  {
    if space == [] {
      assert space + post == post;
    } else {
      assert (space + post)[1..] == space[1..] + post;
      SkipSpaceStops(space[1..], post);
    }
  }

  /** What can follow a value: nothing, or, after whitespace, a comma or a closing bracket. */
  predicate Ends(post: Bytes) {
    var t := SkipSpace(post);
    t == [] || t[0] == COMMA || IsClose(t[0])
  }

  lemma EndsIsNotScalar(post: Bytes)
    requires Ends(post)
    ensures post == [] || !IsScalarByte(post[0])
  {
  }

  /** A value's first byte tells whether it is a container, and which. */
  lemma FirstByte(v: Value)
    requires WellFormed(v)
    ensures Render(v) != [] && !IsSpace(Render(v)[0])
    ensures IsOpen(Render(v)[0]) <==> v.Container()
    ensures Render(v)[0] == 91 <==> v.Array?
  {
  }

  lemma AfterColonOfMember(cb: Bytes, ca: Bytes, v: Value, post: Bytes)
    requires Spaces(cb) && Spaces(ca) && WellFormed(v)
    ensures Render(v) != [] && AfterColon(cb + ([COLON] + (ca + (Render(v) + post)))) == Some(Render(v)[0])
  {
    hide Render;
    FirstByte(v);
    var t := [COLON] + (ca + (Render(v) + post));
    SkipSpaceStops(cb, t);
    assert SkipSpace(t) == t;
    assert t[1..] == ca + (Render(v) + post);
    SkipSpaceStops(ca, Render(v) + post);
    assert (Render(v) + post)[0] == Render(v)[0];
  }

  // ----- the scan computes the cost

  /** The state after a value is the state before it, charged with the value's cost. */
  function Applied(c: Config, s: State, v: Value): State
    requires s.depth >= 0
  {
    Leave(Charge(s, Cost(c, PlaceOf(s), v)), v)
  }

  lemma CountNumberCharges(s: State)
    requires AtValue(s)
    ensures CountNumber(s) == Charge(s, if PlaceOf(s).region == Some(0) then Tally(0, 1, 0) else Tally(1, 0, 0))
  {
  }

  lemma ChargeOne(s: State)
    requires Sound(s)
    ensures Charge(s, Tally(1, 0, 0)) == s.(units := s.units + 1)
  {
  }

  /** Opening a container, charging what it holds, and closing it. */
  lemma CloseAfter(s: State, t: Tally, v: Value)
    requires AtValue(s) && v.Container()
    ensures Close(Charge(Open(s), t)) == Leave(Charge(s, t.Inside()), v)
  {
    ChargeInside(s, t);
  }

  lemma ChargeKeepsBetween(s: State, t: Tally)
    requires Between(s)
    ensures Between(Charge(s, t)) && PlaceOf(Charge(s, t)) == PlaceOf(s)
  {
  }

  lemma {:induction false} ScanValue(c: Config, v: Value, post: Bytes, s: State)
    requires WellFormed(v) && Ends(post) && AtValue(s)
    ensures Scan(c, Render(v) + post, s) == Scan(c, post, Applied(c, s, v))
    decreases v, 1
  {
    hide Scan, Charge, Close, Open, Ends, CountNumber;
    match v {
      case Text(body) =>
        assert Render(v) + post == [QUOTE] + (body + ([QUOTE] + post));
        ScanText(c, body, post, s);
        NoKeyAtEnd(c, s.(units := s.units + 1), body, post);
        ChargeOne(s);
      case Number(bytes) =>
        EndsIsNotScalar(post);
        ScanScalar(c, bytes, post, s);
        CountNumberCharges(s);
      case Name(bytes) =>
        EndsIsNotScalar(post);
        ScanScalar(c, bytes, post, s);
        ChargeOne(s);
      case Array(space, es) =>
        var rest := RenderElems(es) + ([93] + post);
        assert Render(v) + post == [91] + (space + rest);
        ScanOpen(c, 91, space + rest, s);
        ScanSpaces(c, space, rest, Open(s));
        OpenIsBetween(s);
        ScanElems(c, es, [93] + post, Open(s));
        ScanClose(c, 93, post, Charge(Open(s), ElemsCost(c, PlaceOf(Open(s)), es)));
        CloseAfter(s, ElemsCost(c, PlaceOf(Open(s)), es), v);
      case Object(space, ms) =>
        var rest := RenderMembers(ms) + ([125] + post);
        assert Render(v) + post == [123] + (space + rest);
        ScanOpen(c, 123, space + rest, s);
        ScanSpaces(c, space, rest, Open(s));
        OpenIsBetween(s);
        ScanMembers(c, ms, [125] + post, Open(s));
        ScanClose(c, 125, post, Charge(Open(s), MembersCost(c, PlaceOf(Open(s)), ms)));
        CloseAfter(s, MembersCost(c, PlaceOf(Open(s)), ms), v);
    }
  }

  lemma OpenIsBetween(s: State)
    requires AtValue(s)
    ensures Between(Open(s)) && PlaceOf(Open(s)) == PlaceOf(s).Down()
  {
  }

  /** A string that ends a value is no key. */
  lemma NoKeyAtEnd(c: Config, s: State, body: Bytes, post: Bytes)
    requires Ends(post)
    ensures KeyEffect(c, s, body, post) == s
  {
  }

  lemma {:induction false} ScanElems(c: Config, es: Elems, post: Bytes, s: State)
    requires ElemsWellFormed(es) && post != [] && IsClose(post[0]) && Between(s)
    ensures Scan(c, RenderElems(es) + post, s) == Scan(c, post, Charge(s, ElemsCost(c, PlaceOf(s), es)))
    decreases es, 0
  {
    hide Scan, Charge, Render, Ends;
    match es {
      case NoElems =>
        assert RenderElems(es) + post == post;
        ChargeNothing(s);
      case Elem(before, v, after, next) =>
        var comma := if next.NoElems? then [] else [COMMA];
        var tail := comma + (RenderElems(next) + post);
        assert RenderElems(es) + post == before + (Render(v) + (after + tail));
        ScanSpaces(c, before, Render(v) + (after + tail), s);
        EndsAfter(after, tail, next.NoElems?, RenderElems(next) + post);
        ScanValue(c, v, after + tail, s);
        AppliedBetween(c, s, v);
        var t := Charge(s, Cost(c, PlaceOf(s), v));
        ScanSpaces(c, after, tail, t);
        if next.Elem? {
          ScanNeutral(c, COMMA, RenderElems(next) + post, t);
        } else {
          assert tail == RenderElems(next) + post;
        }
        ChargeKeepsBetween(s, Cost(c, PlaceOf(s), v));
        ScanElems(c, next, post, t);
        ChargePlus(s, Cost(c, PlaceOf(s), v), ElemsCost(c, PlaceOf(s), next));
    }
  }

  /** The text after a value in a container ends it. */
  lemma EndsAfter(after: Bytes, tail: Bytes, last: bool, more: Bytes)
    requires Spaces(after) && tail == (if last then [] else [COMMA]) + more
    requires last ==> more != [] && IsClose(more[0])
    ensures Ends(after + tail)
  {
    SkipSpaceStops(after, tail);
    assert tail[0] == COMMA || IsClose(tail[0]);
  }

  /** Between values, a value changes nothing but the tally. */
  lemma AppliedBetween(c: Config, s: State, v: Value)
    requires Between(s)
    ensures Applied(c, s, v) == Charge(s, Cost(c, PlaceOf(s), v))
  {
    hide Cost;
  }

  /** A key and its colon. */
  lemma ScanKey(c: Config, before: Bytes, key: Bytes, cb: Bytes, ca: Bytes, post: Bytes, s: State)
    requires Spaces(before) && IsBody(key) && Spaces(cb) && Spaces(ca)
    ensures Scan(c, Labelled(before, key, cb, ca, post), s) ==
            Scan(c, post, KeyEffect(c, s.(units := s.units + 1), key, cb + ([COLON] + (ca + post))))
  {
    hide Scan, KeyEffect;
    var colon := cb + ([COLON] + (ca + post));
    var k := KeyEffect(c, s.(units := s.units + 1), key, colon);
    ScanSpaces(c, before, [QUOTE] + (key + ([QUOTE] + colon)), s);
    ScanText(c, key, colon, s);
    ScanSpaces(c, cb, [COLON] + (ca + post), k);
    ScanNeutral(c, COLON, ca + post, k);
    ScanSpaces(c, ca, post, k);
  }

  function MemberCost(c: Config, p: Place, key: Bytes, v: Value): Tally {
    Tally(1, 0, 0).Plus(Cost(c, MemberPlace(c, p, key, v), v))
  }

  lemma {:induction false} ScanMember(c: Config, before: Bytes, key: Bytes, cb: Bytes, ca: Bytes, v: Value,
                                      post: Bytes, s: State)
    requires Spaces(before) && IsBody(key) && Spaces(cb) && Spaces(ca) && WellFormed(v) && Ends(post) && Between(s)
    ensures Scan(c, Labelled(before, key, cb, ca, Render(v) + post), s) ==
            Scan(c, post, Charge(s, MemberCost(c, PlaceOf(s), key, v)))
    decreases v, 2
  {
    hide Scan, Charge, Render, Ends, KeyEffect, Labelled, MemberPlace;
    ScanKey(c, before, key, cb, ca, Render(v) + post, s);
    KeyPlaces(c, s, key, cb, ca, v, post);
    var k := KeyEffect(c, s.(units := s.units + 1), key, cb + ([COLON] + (ca + (Render(v) + post))));
    ScanValue(c, v, post, k);
    MemberCharges(c, s, key, v, k);
  }

  lemma {:induction false} ScanMembers(c: Config, ms: Members, post: Bytes, s: State)
    requires MembersWellFormed(ms) && post != [] && IsClose(post[0]) && Between(s)
    ensures Scan(c, RenderMembers(ms) + post, s) == Scan(c, post, Charge(s, MembersCost(c, PlaceOf(s), ms)))
    decreases ms, 0
  {
    hide Scan, Charge, Render, Ends, Labelled;
    match ms {
      case NoMembers =>
        assert RenderMembers(ms) + post == post;
        ChargeNothing(s);
      case Member(before, key, cb, ca, v, after, next) =>
        var comma := if next.NoMembers? then [] else [COMMA];
        var tail := comma + (RenderMembers(next) + post);
        LabelledAppend(before, key, cb, ca, Render(v) + (after + (comma + RenderMembers(next))), post);
        assert Render(v) + (after + (comma + RenderMembers(next))) + post == Render(v) + (after + tail);
        EndsAfter(after, tail, next.NoMembers?, RenderMembers(next) + post);
        ScanMember(c, before, key, cb, ca, v, after + tail, s);
        var cost := MemberCost(c, PlaceOf(s), key, v);
        var t := Charge(s, cost);
        ScanSpaces(c, after, tail, t);
        if next.Member? {
          ScanNeutral(c, COMMA, RenderMembers(next) + post, t);
        } else {
          assert tail == RenderMembers(next) + post;
        }
        ChargeKeepsBetween(s, cost);
        ScanMembers(c, next, post, t);
        ChargePlus(s, cost, MembersCost(c, PlaceOf(s), next));
    }
  }

  /** The state a key leaves: the place the specification gives its value. */
  predicate Announces(c: Config, s: State, key: Bytes, v: Value, k: State)
    requires s.depth >= 0
  {
    && AtValue(k) && PlaceOf(k) == MemberPlace(c, PlaceOf(s), key, v)
    && k == s.(units := s.units + 1, freeAt := k.freeAt, freeBase := k.freeBase, underProof := k.underProof)
    && (k.freeAt != s.freeAt || k.freeBase != s.freeBase ==> s.freeAt == -1 && k.freeBase == s.depth && v.Container())
    && (k.underProof != s.underProof ==> s.depth == 1 && v.Container())
  }

  lemma KeyPlaces(c: Config, s: State, key: Bytes, cb: Bytes, ca: Bytes, v: Value, post: Bytes)
    requires Between(s) && Spaces(cb) && Spaces(ca) && WellFormed(v)
    ensures Announces(c, s, key, v,
              KeyEffect(c, s.(units := s.units + 1), key, cb + ([COLON] + (ca + (Render(v) + post)))))
  {
    hide Render, AfterColon;
    AfterColonOfMember(cb, ca, v, post);
    FirstByte(v);
  }

  lemma MemberCharges(c: Config, s: State, key: Bytes, v: Value, k: State)
    requires Between(s) && Announces(c, s, key, v, k)
    ensures Applied(c, k, v) == Charge(s, MemberCost(c, PlaceOf(s), key, v))
  {
    hide Cost, MemberPlace;
    var cost := Cost(c, PlaceOf(k), v);
    ChargeOne(s);
    ChargePlus(s, Tally(1, 0, 0), cost);
  }

  // ----- the whole document

  function Document(before: Bytes, v: Value, after: Bytes): Bytes { before + (Render(v) + after) }

  const TOP := Place(0, None, false)

  /** scanJSON passes a JSON text exactly when its cost is within the unit limit and its nesting
      within the depth limit. */
  lemma ScanComputesTheCost(c: Config, before: Bytes, v: Value, after: Bytes)
    requires Spaces(before) && Spaces(after) && WellFormed(v)
    ensures var end := Scan(c, Document(before, v, after), START);
            end.units == Cost(c, TOP, v).Units() && end.peak == Cost(c, TOP, v).levels
  {
    hide Scan, Cost, Render;
    ScanSpaces(c, before, Render(v) + after, START);
    assert after + [] == after;
    SkipSpaceStops(after, []);
    assert Ends(after);
    ScanValue(c, v, after, START);
    ScanSpaces(c, after, [], Applied(c, START, v));
    ScanNothing(c, Applied(c, START, v));
    assert PlaceOf(START) == TOP;
  }

  lemma ScanNothing(c: Config, s: State)
    ensures Scan(c, [], s) == s
  {
  }

  /** scanJSON on bytes that spell a JSON text: the verdict is the text's cost against the limits. */
  method CheckJSON(c: Config, data: Bytes, maxValues: nat, maxDepth: nat,
                   ghost before: Bytes, ghost v: Value, ghost after: Bytes) returns (verdict: Verdict)
    requires Spaces(before) && Spaces(after) && WellFormed(v) && data == Document(before, v, after)
    ensures verdict.Fine? <==> Cost(c, TOP, v).Units() <= maxValues && Cost(c, TOP, v).levels <= maxDepth
    ensures verdict.TooDeep? ==> Cost(c, TOP, v).levels > maxDepth
    ensures verdict.TooMany? ==> Cost(c, TOP, v).Units() > maxValues
  {
    hide Scan, Cost;
    ScanComputesTheCost(c, before, v, after);
    verdict := ScanJSON(c, data, maxValues, maxDepth);
  }
}
