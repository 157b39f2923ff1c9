/** Byte strings, fixed-width and minimal integers, and the results of reading them. */
module Bytes {
  type Byte = b: nat | b < 256
  type Bytes = seq<Byte>

  /** A 32-byte hash. Hash functions are parameters throughout, of type `Bytes -> Digest`, with no
      assumption about them: results conclude that two given strings collide instead. */
  type Digest = s: Bytes | |s| == 32 witness seq(32, i => 0)

  type Hash = Bytes -> Digest

  ghost predicate Collide(H: Hash, a: Bytes, b: Bytes) { a != b && H(a) == H(b) }

  const TWO32: nat := 0x1_0000_0000
  const TWO64: nat := 0x1_0000_0000_0000_0000
  const TWO128: nat := TWO64 * TWO64

  type U32 = n: nat | n < TWO32
  type U64 = n: nat | n < TWO64

  datatype Option<+T> = None | Some(value: T)

  datatype Result<+T> = Ok(value: T) | Err {
    predicate IsFailure() { Err? }
    function PropagateFailure<U>(): Result<U> requires Err? { Err }
    function Extract(): T requires Ok? { value }
  }

  /** A value read from the front of a byte string, and what follows it. */
  datatype Read<+T> = Read(value: T, rest: Bytes)

  function Repeat<T>(x: T, n: nat): (s: seq<T>)
    ensures |s| == n && forall i :: 0 <= i < n ==> s[i] == x
  {
    if n == 0 then [] else [x] + Repeat(x, n - 1)
  }

  function Reversed<T>(s: seq<T>): (r: seq<T>)
    ensures |r| == |s| && forall i :: 0 <= i < |s| ==> r[i] == s[|s| - 1 - i]
  {
    seq(|s|, i requires 0 <= i < |s| => s[|s| - 1 - i])
  }

  /** Thirty-two zero bytes. */
  function ZeroHash(): Digest { Repeat(0, 32) }

  function Pow256(w: nat): (p: nat)
    ensures p > 0
  {
    if w == 0 then 1 else 256 * Pow256(w - 1)
  }

  /** The value of big-endian bytes. */
  function BE(s: Bytes): nat {
    if s == [] then 0 else BE(s[..|s| - 1]) * 256 + s[|s| - 1]
  }

  /** n as w big-endian bytes, truncated as an integer conversion truncates. */
  function ToBE(n: nat, w: nat): (s: Bytes)
    ensures |s| == w
  {
    if w == 0 then [] else ToBE(n / 256, w - 1) + [n % 256]
  }

  function LE(s: Bytes): nat {
    if s == [] then 0 else s[0] + 256 * LE(s[1..])
  }

  function ToLE(n: nat, w: nat): (s: Bytes)
    ensures |s| == w
  {
    if w == 0 then [] else [n % 256] + ToLE(n / 256, w - 1)
  }

  lemma {:induction false} BEBound(s: Bytes)
    ensures BE(s) < Pow256(|s|)
  {
    if s == [] {
    } else {
      BEBound(s[..|s| - 1]);
    }
  }

  lemma {:induction false} BEInverts(n: nat, w: nat)
    requires n < Pow256(w)
    ensures BE(ToBE(n, w)) == n
  {
    if w == 0 {
    } else {
      BEInverts(n / 256, w - 1);
      assert ToBE(n, w)[..w - 1] == ToBE(n / 256, w - 1);
    }
  }

  lemma {:induction false} ToBEInverts(s: Bytes)
    ensures ToBE(BE(s), |s|) == s
  {
    if s == [] {
    } else {
      ToBEInverts(s[..|s| - 1]);
      assert BE(s) / 256 == BE(s[..|s| - 1]) && BE(s) % 256 == s[|s| - 1];
    }
  }

  lemma {:induction false} LEInverts(n: nat, w: nat)
    requires n < Pow256(w)
    ensures LE(ToLE(n, w)) == n
  {
    if w == 0 {
    } else {
      LEInverts(n / 256, w - 1);
      assert ToLE(n, w)[1..] == ToLE(n / 256, w - 1);
    }
  }

  lemma {:induction false} ToLEInverts(s: Bytes)
    ensures ToLE(LE(s), |s|) == s
  {
    if s == [] {
    } else {
      ToLEInverts(s[1..]);
      assert LE(s) / 256 == LE(s[1..]) && LE(s) % 256 == s[0];
      assert [s[0]] + s[1..] == s;
    }
  }

  lemma Widths()
    ensures Pow256(2) == 0x1_0000 && Pow256(4) == TWO32 && Pow256(8) == TWO64 && Pow256(16) == TWO128
  {
    assert Pow256(2) == 0x1_0000;
    assert Pow256(4) == 0x1_0000 * Pow256(2);
    assert Pow256(6) == 0x1_0000 * Pow256(4);
    assert Pow256(8) == 0x1_0000 * Pow256(6);
    assert Pow256(10) == 0x1_0000 * Pow256(8);
    assert Pow256(12) == 0x1_0000 * Pow256(10);
    assert Pow256(14) == 0x1_0000 * Pow256(12);
    assert Pow256(16) == 0x1_0000 * Pow256(14);
  }

  /** The shortest big-endian bytes of n, as big.Int's Bytes gives them: none for zero. */
  function MinBE(n: nat): Bytes {
    if n == 0 then [] else MinBE(n / 256) + [n % 256]
  }

  lemma {:induction false} MinBEInverts(n: nat)
    ensures BE(MinBE(n)) == n
  {
    if n == 0 {
    } else {
      MinBEInverts(n / 256);
      assert MinBE(n)[..|MinBE(n)| - 1] == MinBE(n / 256);
    }
  }

  lemma {:induction false} MinBELength(n: nat, w: nat)
    requires n < Pow256(w)
    ensures |MinBE(n)| <= w
  {
    if n == 0 {
    } else {
      MinBELength(n / 256, w - 1);
    }
  }

  lemma {:induction false} MinBEHead(n: nat)
    ensures n > 0 ==> |MinBE(n)| > 0 && MinBE(n)[0] != 0
  {
    if n == 0 {
    } else {
      MinBEHead(n / 256);
    }
  }

  function TrimLeadingZeros(s: Bytes): Bytes {
    if s != [] && s[0] == 0 then TrimLeadingZeros(s[1..]) else s
  }

  /** Fixed-width bytes without their leading zeros are the minimal bytes. */
  lemma {:induction false} TrimToBE(n: nat, w: nat)
    requires n < Pow256(w)
    ensures TrimLeadingZeros(ToBE(n, w)) == MinBE(n)
  {
    if w == 0 {
    } else {
      TrimToBE(n / 256, w - 1);
      TrimAppend(ToBE(n / 256, w - 1), n % 256);
    }
  }

  lemma {:induction false} TrimAppend(s: Bytes, b: Byte)
    ensures TrimLeadingZeros(s + [b]) ==
            if TrimLeadingZeros(s) == [] then TrimLeadingZeros([b]) else TrimLeadingZeros(s) + [b]
  {
    if s != [] && s[0] == 0 {
      assert (s + [b])[1..] == s[1..] + [b];
      TrimAppend(s[1..], b);
    } else if s == [] {
      assert s + [b] == [b];
    }
  }

  lemma Assoc<T>(a: seq<T>, b: seq<T>, c: seq<T>)
    ensures (a + b) + c == a + (b + c)
  {
  }

  lemma SplitEqual<T>(a: seq<T>, x: seq<T>, b: seq<T>, y: seq<T>)
    requires |a| == |b| && a + x == b + y
    ensures a == b && x == y
  {
    assert (a + x)[..|a|] == a && (b + y)[..|a|] == b;
    assert (a + x)[|a|..] == x && (b + y)[|a|..] == y;
  }

  // ----- reading from the front

  function Take(b: Bytes, n: nat): (r: Result<Read<Bytes>>)
    ensures r.Ok? <==> n <= |b|
    ensures r.Ok? ==> |r.value.value| == n && r.value.value + r.value.rest == b
  {
    if |b| < n then Err else Ok(Read(b[..n], b[n..]))
  }

  lemma TakeFront(a: Bytes, rest: Bytes)
    ensures Take(a + rest, |a|) == Ok(Read(a, rest))
  {
    assert (a + rest)[..|a|] == a && (a + rest)[|a|..] == rest;
  }

  function ReadBE(b: Bytes, w: nat): Result<Read<nat>> {
    var t :- Take(b, w);
    Ok(Read(BE(t.value), t.rest))
  }

  lemma ReadBEInverts(n: nat, w: nat, rest: Bytes)
    requires n < Pow256(w)
    ensures ReadBE(ToBE(n, w) + rest, w) == Ok(Read(n, rest))
  {
    BEInverts(n, w);
    TakeFront(ToBE(n, w), rest);
  }

  /** An in-place reader against the function it follows: a read that succeeds leaves what follows
      what it read; one that fails says only that. */
  ghost predicate Reads<T>(expected: Result<Read<T>>, r: Result<T>, left: Bytes) {
    if expected.Ok? then r == Ok(expected.value.value) && left == expected.value.rest else r.Err?
  }

  lemma {:induction false} PowMonotone(a: nat, b: nat)
    requires a <= b
    ensures Pow256(a) <= Pow256(b)
    decreases b
  {
    if a == b {
    } else {
      PowMonotone(a, b - 1);
    }
  }
}
