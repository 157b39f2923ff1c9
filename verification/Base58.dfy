/** base58btcEncode of auth.go: the division loop, the zero prefix and the in-place reversal. */
module Base58 {
  import opened Bytes

  const ALPHABET: string := "123456789" + "ABCDEFGH" + "JKLMN" + "PQRSTUVWXYZ" + "abcdefghijk" + "mnopqrstuvwxyz"

  /** The digits of n in base 58, most significant first; none for zero. */
  function Digits(n: nat): string {
    if n == 0 then [] else Digits(n / 58) + [ALPHABET[n % 58]]
  }

  function LeadingZeros(b: Bytes): (z: nat)
    ensures z <= |b| && (forall i :: 0 <= i < z ==> b[i] == 0) && (z < |b| ==> b[z] != 0)
  {
    if b != [] && b[0] == 0 then 1 + LeadingZeros(b[1..]) else 0
  }

  function Encode(b: Bytes): string {
    Repeat('1', LeadingZeros(b)) + Digits(BE(b))
  }

  /** The division loop: digits come out least significant first. */
  method DivideOut(n: nat) returns (encoded: string)
    ensures encoded == Reversed(Digits(n))
  {
    var num := n;
    encoded := "";
    while num > 0
      invariant Digits(n) == Digits(num) + Reversed(encoded)
    {
      assert Reversed(encoded + [ALPHABET[num % 58]]) == [ALPHABET[num % 58]] + Reversed(encoded);
      encoded := encoded + [ALPHABET[num % 58]];
      num := num / 58;
    }
    assert Digits(n) == Reversed(encoded);
  }

  /** The in-place reversal, swapping from both ends. */
  method ReverseInPlace(a: array<char>)
    modifies a
    ensures a[..] == Reversed(old(a[..]))
  {
    var i, j := 0, a.Length - 1;
    while i < j
      invariant 0 <= i && i + j == a.Length - 1 && i <= j + 1
      invariant forall k :: 0 <= k < i || j < k < a.Length ==> a[k] == old(a[a.Length - 1 - k])
      invariant forall k :: i <= k <= j ==> a[k] == old(a[k])
    {
      a[i], a[j] := a[j], a[i];
      i, j := i + 1, j - 1;
    }
  }

  method CountZeros(input: Bytes) returns (zeros: nat)
    ensures zeros == LeadingZeros(input)
  {
    zeros := 0;
    while zeros < |input| && input[zeros] == 0
      invariant zeros <= |input| && forall i :: 0 <= i < zeros ==> input[i] == 0
    {
      zeros := zeros + 1;
    }
    ZerosAt(input, zeros);
  }

  method Base58btcEncode(input: Bytes) returns (s: string)
    ensures s == Encode(input)
  {
    var zeros := CountZeros(input);
    var encoded := DivideOut(BE(input));
    ghost var digits := Digits(BE(input));
    for i := 0 to zeros
      invariant |encoded| == |digits| + i && encoded[..|digits|] == Reversed(digits)
      invariant forall k :: |digits| <= k < |encoded| ==> encoded[k] == '1'
    {
      encoded := encoded + [ALPHABET[0]];
    }
    var buf := new char[|encoded|](i requires 0 <= i < |encoded| => encoded[i]);
    assert buf[..] == encoded;
    ReverseInPlace(buf);
    s := buf[..];
    ReversedSplit(encoded, |digits|, digits);
  }

  lemma ReversedSplit(t: string, n: nat, digits: string)
    requires n == |digits| <= |t| && t[..n] == Reversed(digits) && forall k :: n <= k < |t| ==> t[k] == '1'
    ensures Reversed(t) == Repeat('1', |t| - n) + digits
  {
    var r := Repeat('1', |t| - n) + digits;
    forall i | 0 <= i < |t| ensures Reversed(t)[i] == r[i] {
      if i >= |t| - n { assert t[|t| - 1 - i] == t[..n][|t| - 1 - i]; }
    }
  }

  // ----- the inverse

  /** The digit a character stands for. */
  function DigitOf(c: char): nat {
    if '1' <= c <= '9' then c as int - '1' as int
    else if 'A' <= c <= 'H' then c as int - 'A' as int + 9
    else if 'J' <= c <= 'N' then c as int - 'J' as int + 17
    else if 'P' <= c <= 'Z' then c as int - 'P' as int + 22
    else if 'a' <= c <= 'k' then c as int - 'a' as int + 33
    else if 'm' <= c <= 'z' then c as int - 'm' as int + 44
    else 58
  }

  lemma DigitOfInverts(d: nat)
    requires d < 58
    ensures DigitOf(ALPHABET[d]) == d
  {
    if d < 22 { LowDigits(d); } else if d < 44 { MiddleDigits(d); } else { HighDigits(d); }
  }

  lemma LowDigits(d: nat)
    requires d < 22
    ensures DigitOf(ALPHABET[d]) == d
  {
    match d {
      case 0 => case 1 => case 2 => case 3 => case 4 => case 5 => case 6 => case 7 => case 8 => case 9 =>
      case 10 => case 11 => case 12 => case 13 => case 14 => case 15 => case 16 => case 17 => case 18 => case 19 =>
      case 20 => case 21 =>
    }
  }

  lemma MiddleDigits(d: nat)
    requires 22 <= d < 44
    ensures DigitOf(ALPHABET[d]) == d
  {
    match d {
      case 22 => case 23 => case 24 => case 25 => case 26 => case 27 => case 28 => case 29 => case 30 => case 31 =>
      case 32 => case 33 => case 34 => case 35 => case 36 => case 37 => case 38 => case 39 => case 40 => case 41 =>
      case 42 => case 43 =>
    }
  }

  lemma HighDigits(d: nat)
    requires 44 <= d < 58
    ensures DigitOf(ALPHABET[d]) == d
  {
    match d {
      case 44 => case 45 => case 46 => case 47 => case 48 => case 49 => case 50 => case 51 => case 52 => case 53 =>
      case 54 => case 55 => case 56 => case 57 =>
    }
  }

  function Value(s: string): nat {
    if s == [] then 0 else Value(s[..|s| - 1]) * 58 + DigitOf(s[|s| - 1])
  }

  function Ones(s: string): (z: nat)
    ensures z <= |s|
  {
    if s != [] && s[0] == '1' then 1 + Ones(s[1..]) else 0
  }

  function Decode(s: string): Bytes {
    Repeat(0, Ones(s)) + MinBE(Value(s[Ones(s)..]))
  }

  lemma {:induction false} ValueOfDigits(n: nat)
    ensures Value(Digits(n)) == n
    ensures if n == 0 then Digits(n) == [] else Digits(n) != [] && Digits(n)[0] != '1'
  {
    if n == 0 {
    } else {
      ValueOfDigits(n / 58);
      DigitOfInverts(n % 58);
      assert Digits(n)[..|Digits(n)| - 1] == Digits(n / 58);
    }
  }

  lemma {:induction false} OnesOfPrefix(z: nat, s: string)
    requires s != [] ==> s[0] != '1'
    ensures Ones(Repeat('1', z) + s) == z
  {
    var t := Repeat('1', z) + s;
    if z == 0 {
      assert t == s;
    } else {
      assert t[1..] == Repeat('1', z - 1) + s;
      OnesOfPrefix(z - 1, s);
    }
  }

  /** The minimal bytes of a value are the bytes it was read from, without their zero prefix. */
  lemma {:induction false} MinBEOfBE(b: Bytes)
    ensures MinBE(BE(b)) == b[LeadingZeros(b)..]
  {
    hide MinBE, BE, LeadingZeros;
    if b == [] {
      MinBEOfNone();
    } else {
      var f, last := b[..|b| - 1], b[|b| - 1];
      MinBEOfBE(f);
      MinBEGrows(f, last);
      assert b == f + [last];
    }
  }

  lemma MinBEOfNone()
    ensures MinBE(BE([])) == []
  {
  }

  lemma MinBEGrows(f: Bytes, last: Byte)
    requires MinBE(BE(f)) == f[LeadingZeros(f)..]
    ensures MinBE(BE(f + [last])) == (f + [last])[LeadingZeros(f + [last])..]
  {
    hide MinBE, BE, LeadingZeros;
    var n, z := BE(f), LeadingZeros(f);
    BENext(f, last);
    MinBENext(n, last);
    MinBEEmpty(n);
    EmptyTail(f, z);
    ZerosGrow(f, last);
    assert n == 0 <==> z == |f|;
  }

  lemma EmptyTail(f: Bytes, z: nat)
    requires z <= |f|
    ensures f[z..] == [] <==> z == |f|
  {
    assert |f[z..]| == |f| - z;
  }

  lemma BENext(f: Bytes, last: Byte)
    ensures BE(f + [last]) == BE(f) * 256 + last
  {
    assert (f + [last])[..|f|] == f;
  }

  lemma MinBEEmpty(n: nat)
    ensures MinBE(n) == [] <==> n == 0
  {
  }

  lemma MinBENext(n: nat, last: Byte)
    ensures MinBE(n * 256 + last) == if n == 0 && last == 0 then [] else MinBE(n) + [last]
  {
    assert (n * 256 + last) / 256 == n && (n * 256 + last) % 256 == last;
  }

  /** The zero prefix of a string with one more byte. */
  lemma ZerosGrow(f: Bytes, last: Byte)
    ensures var b := f + [last];
            var z := LeadingZeros(f);
            b[LeadingZeros(b)..] == if z == |f| && last == 0 then [] else f[z..] + [last]
  {
    var b, z := f + [last], LeadingZeros(f);
    hide LeadingZeros;
    if z == |f| && last == 0 {
      ZerosAt(b, |b|);
      assert b[|b|..] == [];
    } else {
      assert z < |f| ==> b[z] == f[z];
      ZerosAt(b, z);
      TailOfAppend(f, last, z);
    }
  }

  lemma TailOfAppend(f: Bytes, last: Byte, z: nat)
    requires z <= |f|
    ensures (f + [last])[z..] == f[z..] + [last]
  {
  }

  /** The zero prefix is found where it ends. */
  lemma ZerosAt(b: Bytes, z: nat)
    requires z <= |b| && (forall i :: 0 <= i < z ==> b[i] == 0) && (z < |b| ==> b[z] != 0)
    ensures LeadingZeros(b) == z
  {
  }

  /** Decoding inverts the encoding, on every byte string, so distinct inputs never share one. */
  lemma RoundTrip(b: Bytes)
    ensures Decode(Encode(b)) == b
  {
    hide MinBE, BE, Digits;
    var z, n := LeadingZeros(b), BE(b);
    ValueOfDigits(n);
    OnesOfPrefix(z, Digits(n));
    assert Encode(b)[z..] == Digits(n);
    MinBEOfBE(b);
    assert Repeat(0, z) + b[z..] == b;
  }

  lemma EncodeInjective(a: Bytes, b: Bytes)
    requires Encode(a) == Encode(b)
    ensures a == b
  {
    RoundTrip(a);
    RoundTrip(b);
  }
}
