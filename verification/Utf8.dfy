/** UTF-8 (section 3 of RFC 3629) as an encoding of Unicode scalar values, and what the text fields of
signed messages may hold in those terms. */
module Utf8 {
  import opened Bytes
  import opened SignedMessages

  type Scalar = n: nat | n <= 0x10FFFF && !(0xD800 <= n <= 0xDFFF)

  /** A continuation byte of six bits. */
  function Tail(bits: nat): char
    requires bits < 64
  {
    (0x80 + bits) as char
  }

  /** One scalar value, in one to four bytes. */
  function Encode(n: Scalar): string {
    if n < 0x80 then [n as char]
    else if n < 0x800 then [(0xC0 + n / 64) as char, Tail(n % 64)]
    else if n < 0x1_0000 then [(0xE0 + n / 4096) as char, Tail(n / 64 % 64), Tail(n % 64)]
    else [(0xF0 + n / 262144) as char, Tail(n / 4096 % 64), Tail(n / 64 % 64), Tail(n % 64)]
  }

  function Encoding(ns: seq<Scalar>): string {
    if ns == [] then "" else Encode(ns[0]) + Encoding(ns[1..])
  }

  ghost predicate IsEncoding(s: string) { exists ns: seq<Scalar> :: Encoding(ns) == s }

  // ----- every encoding is valid

  lemma ShortIsValid(n: Scalar, rest: string)
    requires ValidUtf8(rest) && n < 0x800
    ensures ValidUtf8(Encode(n) + rest)
  {
    assert (Encode(n) + rest)[|Encode(n)|..] == rest;
  }

  lemma ThreeBytesAreValid(n: Scalar, rest: string)
    requires ValidUtf8(rest) && 0x800 <= n < 0x1_0000
    ensures ValidUtf8(Encode(n) + rest)
  {
    assert (Encode(n) + rest)[3..] == rest;
  }

  lemma FourBytesAreValid(n: Scalar, rest: string)
    requires ValidUtf8(rest) && 0x1_0000 <= n
    ensures ValidUtf8(Encode(n) + rest)
  {
    assert (Encode(n) + rest)[4..] == rest;
  }

  lemma EncodeIsValid(n: Scalar, rest: string)
    requires ValidUtf8(rest)
    ensures ValidUtf8(Encode(n) + rest)
  {
    hide ValidUtf8, Encode;
    if n < 0x800 {
      ShortIsValid(n, rest);
    } else if n < 0x1_0000 {
      ThreeBytesAreValid(n, rest);
    } else {
      FourBytesAreValid(n, rest);
    }
  }

  lemma {:induction false} EncodingIsValid(ns: seq<Scalar>)
    ensures ValidUtf8(Encoding(ns))
  {
    if ns == [] {
    } else {
      EncodingIsValid(ns[1..]);
      EncodeIsValid(ns[0], Encoding(ns[1..]));
    }
  }

  // ----- every valid string is one

  lemma Encode2(a: nat, b: nat)
    requires 2 <= a < 32 && b < 64
    ensures Encode(a * 64 + b) == [(0xC0 + a) as char, Tail(b)]
  {
    var n := a * 64 + b;
    assert n / 64 == a && n % 64 == b;
  }

  lemma Split3(a: nat, b: nat, c: nat)
    requires b < 64 && c < 64
    ensures var n := a * 4096 + b * 64 + c; n / 4096 == a && n / 64 % 64 == b && n % 64 == c
  {
    var n := a * 4096 + b * 64 + c;
    assert n / 64 == a * 64 + b;
  }

  lemma Encode3(a: nat, b: nat, c: nat)
    requires a < 16 && b < 64 && c < 64 && (a == 0 ==> b >= 32) && (a == 13 ==> b < 32)
    ensures var n := a * 4096 + b * 64 + c;
            0x800 <= n < 0x1_0000 && !(0xD800 <= n <= 0xDFFF) && Encode(n) == [(0xE0 + a) as char, Tail(b), Tail(c)]
  {
    Split3(a, b, c);
  }

  lemma Split4(a: nat, b: nat, c: nat, d: nat)
    requires b < 64 && c < 64 && d < 64
    ensures var n := a * 262144 + b * 4096 + c * 64 + d;
            n / 262144 == a && n / 4096 % 64 == b && n / 64 % 64 == c && n % 64 == d
  {
    var n := a * 262144 + b * 4096 + c * 64 + d;
    assert n / 64 == a * 4096 + b * 64 + c;
    assert n / 4096 == a * 64 + b;
  }

  lemma Encode4(a: nat, b: nat, c: nat, d: nat)
    requires a <= 4 && b < 64 && c < 64 && d < 64 && (a == 0 ==> b >= 16) && (a == 4 ==> b < 16)
    ensures var n := a * 262144 + b * 4096 + c * 64 + d;
            0x1_0000 <= n <= 0x10FFFF && Encode(n) == [(0xF0 + a) as char, Tail(b), Tail(c), Tail(d)]
  {
    Split4(a, b, c, d);
  }

  /** The six bits of a continuation byte. */
  function Bits(c: char): nat
    requires Continuation(c)
  {
    c as int - 0x80
  }

  lemma BitsAreTail(c: char)
    requires Continuation(c)
    ensures Bits(c) < 64 && Tail(Bits(c)) == c
  {
  }

  /** What the second byte of a long form may be, by the bits it carries. */
  lemma SecondBits(first: char, c: char)
    requires 0xE0 <= first as int <= 0xF4 && SecondByte(first, c)
    ensures Continuation(c)
    ensures first as int == 0xE0 ==> Bits(c) >= 32
    ensures first as int == 0xED ==> Bits(c) < 32
    ensures first as int == 0xF0 ==> Bits(c) >= 16
    ensures first as int == 0xF4 ==> Bits(c) < 16
  {
  }

  lemma FrontOne(s: string) returns (n: Scalar)
    requires s != "" && ValidUtf8(s) && s[0] as int < 0x80
    ensures ValidUtf8(s[1..]) && Encode(n) == [s[0]]
  {
    n := s[0] as int;
  }

  lemma FrontTwo(s: string) returns (n: Scalar)
    requires s != "" && ValidUtf8(s) && 0x80 <= s[0] as int <= 0xDF
    ensures |s| >= 2 && ValidUtf8(s[2..]) && Encode(n) == [s[0], s[1]]
  {
    assert 0xC2 <= s[0] as int && Continuation(s[1]);
    hide Encode, Tail;
    BitsAreTail(s[1]);
    Encode2(s[0] as int - 0xC0, Bits(s[1]));
    n := (s[0] as int - 0xC0) * 64 + Bits(s[1]);
  }

  lemma FrontThree(s: string) returns (n: Scalar)
    requires s != "" && ValidUtf8(s) && 0xE0 <= s[0] as int <= 0xEF
    ensures |s| >= 3 && ValidUtf8(s[3..]) && Encode(n) == [s[0], s[1], s[2]]
  {
    assert |s| >= 3 && SecondByte(s[0], s[1]) && Continuation(s[2]) && ValidUtf8(s[3..]);
    hide ValidUtf8, Encode, Tail, SecondByte;
    SecondBits(s[0], s[1]);
    BitsAreTail(s[1]);
    BitsAreTail(s[2]);
    var a, b, c := s[0] as int - 0xE0, Bits(s[1]), Bits(s[2]);
    Encode3(a, b, c);
    n := a * 4096 + b * 64 + c;
  }

  lemma FrontFour(s: string) returns (n: Scalar)
    requires s != "" && ValidUtf8(s) && 0xF0 <= s[0] as int
    ensures |s| >= 4 && ValidUtf8(s[4..]) && Encode(n) == [s[0], s[1], s[2], s[3]]
  {
    assert s[0] as int <= 0xF4 && |s| >= 4;
    assert SecondByte(s[0], s[1]) && Continuation(s[2]) && Continuation(s[3]) && ValidUtf8(s[4..]);
    hide ValidUtf8, Encode, Tail, SecondByte;
    SecondBits(s[0], s[1]);
    BitsAreTail(s[1]);
    BitsAreTail(s[2]);
    BitsAreTail(s[3]);
    var a, b, c, d := s[0] as int - 0xF0, Bits(s[1]), Bits(s[2]), Bits(s[3]);
    Encode4(a, b, c, d);
    n := a * 262144 + b * 4096 + c * 64 + d;
  }

  lemma FrontSplits(s: string) returns (n: Scalar, rest: string)
    requires s != "" && ValidUtf8(s)
    ensures ValidUtf8(rest) && |rest| < |s| && s == Encode(n) + rest
  {
    hide ValidUtf8, Encode;
    if s[0] as int < 0x80 {
      n := FrontOne(s);
      rest := s[1..];
      assert [s[0]] + rest == s;
    } else if s[0] as int <= 0xDF {
      n := FrontTwo(s);
      rest := s[2..];
      assert [s[0], s[1]] + rest == s;
    } else if s[0] as int <= 0xEF {
      n := FrontThree(s);
      rest := s[3..];
      assert [s[0], s[1], s[2]] + rest == s;
    } else {
      n := FrontFour(s);
      rest := s[4..];
      assert [s[0], s[1], s[2], s[3]] + rest == s;
    }
  }

  lemma {:induction false} ValidIsEncoding(s: string) returns (ns: seq<Scalar>)
    requires ValidUtf8(s)
    ensures Encoding(ns) == s
    decreases |s|
  {
    hide ValidUtf8, Encode;
    if s == "" {
      ns := [];
    } else {
      var n, rest := FrontSplits(s);
      var more := ValidIsEncoding(rest);
      ns := [n] + more;
      assert ns[1..] == more;
    }
  }

  /** A string is valid UTF-8 exactly if it encodes some sequence of scalar values. */
  lemma ValidExactlyWhen(s: string)
    ensures ValidUtf8(s) <==> IsEncoding(s)
  {
    if ValidUtf8(s) {
      var ns := ValidIsEncoding(s);
    } else if IsEncoding(s) {
      var ns: seq<Scalar> :| Encoding(ns) == s;
      EncodingIsValid(ns);
    }
  }

  // ----- what the builders accept, in those terms

  /** The text fields of a grant. */
  function GrantTexts(g: Grant): seq<string> { [g.grantee, g.granteeKey, g.grantedBy] }

  /** The text fields of a message, but for those of a rotation's grants. */
  function Texts(m: Message): seq<string> {
    match m
    case StoreData(subgrove, key, owner, _, _) => [subgrove, key, owner]
    case StoreFileManifest(subgrove, key, owner, filename, contentType, _, _, _, _, _, _, _) =>
      [subgrove, key, owner, filename, contentType]
    case DeleteFileManifest(subgrove, key, owner, _) => [subgrove, key, owner]
    case RegisterSubgrove(subgrove, owner, _, _) => [subgrove, owner]
    case GrantSubgroveKey(subgrove, sender, grant, _) => [subgrove, sender] + GrantTexts(grant)
    case RotateSubgroveKey(subgrove, sender, _, _, _) => [subgrove, sender]
    case UnregisterStorageNode(node, _) => [node]
  }

  /** One line of UTF-8. */
  ghost predicate OneLine(s: string) { '\n' !in s && IsEncoding(s) }

  ghost predicate AllOneLine(texts: seq<string>) { forall i :: 0 <= i < |texts| ==> OneLine(texts[i]) }

  /** The grants of a message go to DIDs, and those of a rotation are of its epoch and some. */
  ghost predicate GrantsAllowed(m: Message) {
    match m
    case GrantSubgroveKey(_, _, grant, _) => ValidDid(grant.grantee)
    case RotateSubgroveKey(_, _, newEpoch, grants, _) =>
      && |grants| > 0
      && forall i :: 0 <= i < |grants| ==>
           grants[i].keyEpoch == newEpoch && ValidDid(grants[i].grantee) && AllOneLine(GrantTexts(grants[i]))
    case _ => true
  }

  lemma TextOkIsOneLine(s: string)
    ensures TextOk(s) <==> OneLine(s)
  {
    hide ValidUtf8, IsEncoding;
    ValidExactlyWhen(s);
  }

  lemma GrantOkIsOneLine(g: Grant)
    ensures GrantOk(g) <==> AllOneLine(GrantTexts(g))
  {
    hide TextOk, OneLine;
    TextOkIsOneLine(g.grantee);
    TextOkIsOneLine(g.granteeKey);
    TextOkIsOneLine(g.grantedBy);
    var ts := GrantTexts(g);
    assert ts[0] == g.grantee && ts[1] == g.granteeKey && ts[2] == g.grantedBy;
  }

  lemma TextsExactly(m: Message)
    requires !m.GrantSubgroveKey? && !m.RotateSubgroveKey?
    ensures Acceptable(m) <==> AllOneLine(Texts(m))
  {
    hide TextOk, OneLine;
    var ts := Texts(m);
    forall s: string ensures TextOk(s) <==> OneLine(s) { TextOkIsOneLine(s); }
    if AllOneLine(ts) {
      assert forall i :: 0 <= i < |ts| ==> TextOk(ts[i]);
      assert TextOk(ts[0]);
      if |ts| > 1 { assert TextOk(ts[1]); }
      if |ts| > 2 { assert TextOk(ts[2]); }
      if |ts| > 3 { assert TextOk(ts[3]) && TextOk(ts[4]); }
    }
  }

  lemma GrantingExactly(m: Message)
    requires m.GrantSubgroveKey?
    ensures Acceptable(m) <==> AllOneLine(Texts(m)) && GrantsAllowed(m)
  {
    hide TextOk, OneLine, ValidDid;
    TextOkIsOneLine(m.subgrove);
    TextOkIsOneLine(m.sender);
    GrantOkIsOneLine(m.grant);
    hide GrantOk;
    var ts, gs := Texts(m), GrantTexts(m.grant);
    assert ts[0] == m.subgrove && ts[1] == m.sender && ts[2] == gs[0] && ts[3] == gs[1] && ts[4] == gs[2];
  }

  lemma RotationExactly(m: Message)
    requires m.RotateSubgroveKey?
    ensures Acceptable(m) <==> AllOneLine(Texts(m)) && GrantsAllowed(m)
  {
    hide TextOk, OneLine, ValidDid, GrantTexts, GrantOk;
    TextOkIsOneLine(m.subgrove);
    TextOkIsOneLine(m.sender);
    var ts := Texts(m);
    assert ts[0] == m.subgrove && ts[1] == m.sender;
    assert AllOneLine(ts) <==> OneLine(m.subgrove) && OneLine(m.sender);
    forall g: Grant ensures GrantOk(g) <==> AllOneLine(GrantTexts(g)) { GrantOkIsOneLine(g); }
    hide AllOneLine;
  }

  /** A builder returns a message exactly when every text field is one line of UTF-8, its grants go to
      DIDs, and a rotation has grants, all of its epoch. */
  lemma FormattedExactlyWhen(m: Message)
    ensures Formatted(m).Ok? <==> AllOneLine(Texts(m)) && GrantsAllowed(m)
  {
    if m.GrantSubgroveKey? {
      GrantingExactly(m);
    } else if m.RotateSubgroveKey? {
      RotationExactly(m);
    } else {
      TextsExactly(m);
    }
    hide Acceptable, Lines, Join, Texts, AllOneLine;
  }

  // ----- DIDs

  const ALLOWED := "abcdefghijklmnopqrstuvwxyz" + "ABCDEFGHIJKLMNOPQRSTUVWXYZ" + "0123456789" + "-_"

  lemma AllowedAt(c: char) returns (i: nat)
    requires DidChar(c)
    ensures i < |ALLOWED| && ALLOWED[i] == c
  {
    if 'a' <= c <= 'z' {
      i := c as int - 'a' as int;
    } else if 'A' <= c <= 'Z' {
      i := 26 + (c as int - 'A' as int);
    } else if '0' <= c <= '9' {
      i := 52 + (c as int - '0' as int);
    } else {
      i := if c == '-' then 62 else 63;
    }
  }

  lemma AllowedIsDidChar(i: nat)
    requires i < |ALLOWED|
    ensures DidChar(ALLOWED[i])
  {
    if i < 26 {
      assert 'a' <= ALLOWED[i] <= 'z';
    } else if i < 52 {
      assert 'A' <= ALLOWED[i] <= 'Z';
    }
  }

  predicate AllAllowed(body: string) { forall i :: 0 <= i < |body| ==> body[i] in ALLOWED }

  lemma DidCharExactly(c: char)
    ensures DidChar(c) <==> c in ALLOWED
  {
    if DidChar(c) {
      var i := AllowedAt(c);
      hide ALLOWED;
    } else if c in ALLOWED {
      var i :| 0 <= i < |ALLOWED| && ALLOWED[i] == c;
      AllowedIsDidChar(i);
    }
  }

  lemma BodyExactly(body: string)
    ensures AllAllowed(body) <==> forall i :: 0 <= i < |body| ==> DidChar(body[i])
  {
    hide DidChar, ALLOWED;
    forall c: char ensures DidChar(c) <==> c in ALLOWED { DidCharExactly(c); }
  }

  lemma DidOfBody(body: string)
    ensures ValidDid("did:willow:" + body) <==> 1 <= |body| <= 117 && AllAllowed(body)
  {
    hide DidChar, AllAllowed, ALLOWED;
    BodyExactly(body);
    var s := "did:willow:" + body;
    assert forall i :: 11 <= i < |s| ==> s[i] == body[i - 11];
    assert forall i :: 0 <= i < |body| ==> body[i] == s[i + 11];
  }

  /** A DID is "did:willow:" and 1 to 117 letters, digits, dashes and underscores. */
  lemma DidExactlyWhen(s: string)
    ensures ValidDid(s) <==>
      exists body: string :: s == "did:willow:" + body && 1 <= |body| <= 117 && AllAllowed(body)
  {
    hide AllAllowed;
    if ValidDid(s) {
      var body := s[11..];
      assert s == "did:willow:" + body;
      DidOfBody(body);
    }
    hide ValidDid;
    if body: string :| s == "did:willow:" + body && 1 <= |body| <= 117 && AllAllowed(body) {
      DidOfBody(body);
    }
  }
}
