/** consensus/uint128.go: unsigned 128-bit integers as two 64-bit halves, read from decimal text. */
module Uint128s {
  import opened Bytes

  datatype Uint128 = Uint128(hi: U64, lo: U64) {
    function Value(): nat { hi * TWO64 + lo }
  }

  predicate IsDigit(c: char) { '0' <= c <= '9' }

  predicate AllDigits(s: string) { forall i :: 0 <= i < |s| ==> IsDigit(s[i]) }

  /** The value of decimal digits. */
  function Decimal(s: string): nat
    requires AllDigits(s)
  {
    if s == [] then 0 else Decimal(s[..|s| - 1]) * 10 + (s[|s| - 1] as int - '0' as int)
  }

  function DigitChar(d: nat): char
    requires d < 10
  {
    ('0' as int + d) as char
  }

  /** The decimal digits of n, without leading zeros. */
  function Print(n: nat): (s: string)
    ensures AllDigits(s) && s != [] && Decimal(s) == n
  {
    if n < 10 then [DigitChar(n)]
    else
      var front, last := Print(n / 10), DigitChar(n % 10);
      assert (front + [last])[..|front|] == front;
      front + [last]
  }

  /** No zero leads, but for zero itself. */
  lemma {:induction false} PrintIsShortest(n: nat)
    ensures n > 0 ==> Print(n)[0] != '0'
    ensures n == 0 ==> Print(n) == "0"
  {
    if n < 10 {
    } else {
      PrintIsShortest(n / 10);
    }
  }

  function Pow10(k: nat): (p: nat)
    ensures p > 0
  {
    if k == 0 then 1 else 10 * Pow10(k - 1)
  }

  /** bits.Mul64 and bits.Add64: the high and low word of a product, the sum and its carry. */
  function Mul64(x: U64, y: U64): (r: (U64, U64))
    ensures r.0 * TWO64 + r.1 == x * y
  {
    ProductFits(x, y);
    (x * y / TWO64, x * y % TWO64)
  }

  lemma ProductFits(x: U64, y: U64)
    ensures x * y / TWO64 < TWO64
  {
    assert x * y <= x * TWO64;
    assert x * TWO64 / TWO64 == x;
  }

  function Add64(x: U64, y: U64, carry: nat): (r: (U64, nat))
    requires carry <= 1
    ensures r.1 <= 1 && r.1 * TWO64 + r.0 == x + y + carry
  {
    if x + y + carry < TWO64 then (x + y + carry, 0) else (x + y + carry - TWO64, 1)
  }

  method TrimLeft0(s: string) returns (t: string)
    ensures exists k: nat :: k <= |s| && t == s[k..] && (forall i :: 0 <= i < k ==> s[i] == '0')
    ensures t != [] ==> t[0] != '0'
  {
    var k := 0;
    while k < |s| && s[k] == '0'
      invariant 0 <= k <= |s| && forall i :: 0 <= i < k ==> s[i] == '0'
    {
      k := k + 1;
    }
    t := s[k..];
  }

  lemma {:induction false} LeadingZeros(s: string, k: nat)
    requires AllDigits(s) && k <= |s| && forall i :: 0 <= i < k ==> s[i] == '0'
    ensures Decimal(s) == Decimal(s[k..])
    decreases |s|
  {
    if k == |s| {
      if s != [] { LeadingZeros(s[..|s| - 1], k - 1); assert s[..|s| - 1][k - 1..] == []; }
      assert s[k..] == [];
    } else {
      LeadingZeros(s[..|s| - 1], k);
      assert s[..|s| - 1][k..] == s[k..][..|s| - k - 1];
    }
  }

  /** A number whose first digit is not zero has at least its length in digits. */
  lemma {:induction false} LongNumbersAreLarge(s: string)
    requires AllDigits(s) && s != [] && s[0] != '0'
    ensures Decimal(s) >= Pow10(|s| - 1)
    decreases |s|
  {
    if |s| == 1 {
    } else {
      LongNumbersAreLarge(s[..|s| - 1]);
    }
  }

  lemma {:induction false} PrefixIsSmaller(s: string, i: nat)
    requires AllDigits(s) && i <= |s|
    ensures Decimal(s[..i]) <= Decimal(s)
    decreases |s|
  {
    if i == |s| {
      assert s[..i] == s;
    } else {
      PrefixIsSmaller(s[..|s| - 1], i);
      assert s[..|s| - 1][..i] == s[..i];
    }
  }

  lemma {:induction false} Pow10Monotone(a: nat, b: nat)
    requires a <= b
    ensures Pow10(a) <= Pow10(b)
    decreases b
  {
    if a == b {
    } else {
      Pow10Monotone(a, b - 1);
    }
  }

  /** 40 digits are too many for 128 bits. */
  lemma FortyDigitsOverflow(s: string)
    requires AllDigits(s) && |s| > 39 && s[0] != '0'
    ensures Decimal(s) >= TWO128
  {
    LongNumbersAreLarge(s);
    Pow10Monotone(39, |s| - 1);
    assert Pow10(3) == 1000 * Pow10(0);
    assert Pow10(6) == 1000 * Pow10(3);
    assert Pow10(9) == 1000 * Pow10(6);
    assert Pow10(12) == 1000 * Pow10(9);
    assert Pow10(15) == 1000 * Pow10(12);
    assert Pow10(18) == 1000 * Pow10(15);
    assert Pow10(21) == 1000 * Pow10(18);
    assert Pow10(24) == 1000 * Pow10(21);
    assert Pow10(27) == 1000 * Pow10(24);
    assert Pow10(30) == 1000 * Pow10(27);
    assert Pow10(33) == 1000 * Pow10(30);
    assert Pow10(36) == 1000 * Pow10(33);
    assert Pow10(39) == 1000 * Pow10(36);
  }

  /** A value of two words and what carries out of them fits exactly when nothing does. */
  lemma CarriesTell(n: nat, carry: nat, hi: U64, lo: U64)
    requires n == carry * TWO128 + hi * TWO64 + lo
    ensures carry == 0 <==> n < TWO128
  {
  }

  /** One round of the loop: u becomes ten times u plus a digit, and the three carries are zero
      exactly when that fits. */
  method MulAdd(u: Uint128, d: nat) returns (v: Uint128, over: bool)
    requires d < 10
    ensures over <==> u.Value() * 10 + d >= TWO128
    ensures !over ==> v.Value() == u.Value() * 10 + d
  {
    hide Mul64, Add64;
    var (hiCarry, hi0) := Mul64(u.hi, 10);
    var (loCarry, lo0) := Mul64(u.lo, 10);
    var (hi1, c1) := Add64(hi0, loCarry, 0);
    var (lo, c2) := Add64(lo0, d, 0);
    var (hi, c3) := Add64(hi1, 0, c2);
    CarriesTell(u.Value() * 10 + d, hiCarry + c1 + c3, hi, lo);
    over := hiCarry != 0 || c1 != 0 || c3 != 0;
    v := Uint128(hi, lo);
  }

  /** The digit loop. */
  method ReadDigits(digits: string) returns (r: Result<Uint128>)
    requires AllDigits(digits)
    ensures r.Ok? <==> Decimal(digits) < TWO128
    ensures r.Ok? ==> r.value.Value() == Decimal(digits)
  {
    var u := Uint128(0, 0);
    for i := 0 to |digits|
      invariant u.Value() == Decimal(digits[..i])
    {
      assert digits[..i + 1][..i] == digits[..i];
      var v, over := MulAdd(u, digits[i] as int - '0' as int);
      if over {
        PrefixIsSmaller(digits, i + 1);
        return Err;
      }
      u := v;
    }
    assert digits[..|digits|] == digits;
    r := Ok(u);
  }

  method HasOnlyDigits(s: string) returns (b: bool)
    ensures b == AllDigits(s)
  {
    for i := 0 to |s|
      invariant forall j :: 0 <= j < i ==> IsDigit(s[j])
    {
      if !IsDigit(s[i]) { return false; }
    }
    b := true;
  }

  /** ParseUint128 accepts exactly the non-empty runs of decimal digits whose value is below 2^128,
      leading zeros allowed, and reads that value. */
  method ParseUint128(s: string) returns (r: Result<Uint128>)
    ensures r.Ok? <==> s != [] && AllDigits(s) && Decimal(s) < TWO128
    ensures r.Ok? ==> r.value.Value() == Decimal(s)
  {
    hide Decimal;
    var digits := TrimLeft0(s);
    ghost var k: nat :| k <= |s| && digits == s[k..] && (forall i :: 0 <= i < k ==> s[i] == '0');
    if s == [] { return Err; }
    var good := HasOnlyDigits(digits);
    assert AllDigits(s) <==> AllDigits(digits) by { assert forall j :: k <= j < |s| ==> s[j] == digits[j - k]; }
    if !good { return Err; }
    LeadingZeros(s, k);
    if |digits| > 39 {
      FortyDigitsOverflow(digits);
      return Err;
    }
    r := ReadDigits(digits);
  }

  /** Uint128FromBig, on the integers a *big.Int holds. */
  function FromBig(v: int): (r: Result<Uint128>)
    ensures r.Ok? <==> 0 <= v < TWO128
    ensures r.Ok? ==> r.value.Value() == v
  {
    if v < 0 || v >= TWO128 then Err else Ok(Uint128(v / TWO64, v % TWO64))
  }

  /** The halves are determined by the value. */
  lemma ValueInjective(u: Uint128, v: Uint128)
    requires u.Value() == v.Value()
    ensures u == v
  {
    assert u.Value() / TWO64 == u.hi && v.Value() / TWO64 == v.hi;
  }

  /** Parsing the printed form returns the original. */
  method PrintThenParse(u: Uint128) returns (r: Result<Uint128>)
    ensures r == Ok(u)
  {
    assert u.Value() < TWO128;
    r := ParseUint128(Print(u.Value()));
    ValueInjective(r.value, u);
  }

  /** appendLittleEndian: the low half's eight bytes, then the high half's, which are the sixteen
      little-endian bytes of the value. */
  function LittleEndian(u: Uint128): (b: Bytes)
    ensures |b| == 16
  {
    ToLE(u.lo, 8) + ToLE(u.hi, 8)
  }

  lemma LittleEndianIsTheValue(u: Uint128)
    ensures LE(LittleEndian(u)) == u.Value() && LittleEndian(u) == ToLE(u.Value(), 16)
  {
    Widths();
    LEInverts(u.lo, 8);
    LEInverts(u.hi, 8);
    LEConcat(ToLE(u.lo, 8), ToLE(u.hi, 8));
    ToLEInverts(LittleEndian(u));
  }

  lemma Regroup(x: nat, l: nat, p: nat, n: nat)
    ensures x + 256 * (l + p * n) == (x + 256 * l) + (256 * p) * n
  {
  }

  lemma {:induction false} LEConcat(a: Bytes, b: Bytes)
    ensures LE(a + b) == LE(a) + Pow256(|a|) * LE(b)
  {
    if a == [] {
      assert a + b == b;
    } else {
      assert (a + b)[1..] == a[1..] + b;
      LEConcat(a[1..], b);
      Regroup(a[0], LE(a[1..]), Pow256(|a| - 1), LE(b));
    }
  }
}
