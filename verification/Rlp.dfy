/** The RLP codec of eth_state.go (Appendix B of the Ethereum Yellow Paper): lists of byte strings. */
module Rlp {
  import opened Bytes

  /** uintToMinBE: the argument is a uint64, its eight bytes lose their leading zeros. */
  function UintToMinBE(n: nat): Bytes {
    TrimLeadingZeros(ToBE(n % TWO64, 8))
  }

  lemma UintToMinBEIsMinimal(n: nat)
    requires n < TWO64
    ensures UintToMinBE(n) == MinBE(n) && |MinBE(n)| <= 8 && BE(MinBE(n)) == n
    ensures n > 0 ==> |MinBE(n)| > 0
  {
    assert n < Pow256(8) by { Widths(); }
    assert n % TWO64 == n;
    TrimToBE(n, 8);
    MinBELength(n, 8);
    MinBEHead(n);
    MinBEInverts(n);
  }

  /** The head of a string or list of the given length, whose short form starts at `short`; bytes
      are added modulo 256, as the source adds them. */
  function Head(short: Byte, length: nat): Bytes {
    if length <= 55 then [(short + length) % 256]
    else [(short + 55 + |UintToMinBE(length)|) % 256] + UintToMinBE(length)
  }

  function EncodeBytes(b: Bytes): Bytes {
    if |b| == 1 && b[0] < 0x80 then b else Head(0x80, |b|) + b
  }

  function Concat(items: seq<Bytes>): Bytes {
    if items == [] then [] else items[0] + Concat(items[1..])
  }

  function EncodeList(items: seq<Bytes>): Bytes {
    Head(0xc0, |Concat(items)|) + Concat(items)
  }

  // ----- decoding

  /** The length a long form declares: `lenOfLen` big-endian bytes after the first, if the input
      holds that many bytes after them. */
  function LongLength(data: Bytes, lenOfLen: nat): (r: Result<nat>)
    ensures r.Ok? ==> 1 + lenOfLen + r.value <= |data|
  {
    if lenOfLen < 1 || lenOfLen > 8 || 1 + lenOfLen > |data| then Err
    else
      var length := BE(data[1..1 + lenOfLen]);
      if length > |data| - 1 - lenOfLen then Err else Ok(length)
  }

  datatype Item = Item(bytes: Bytes, advance: nat)

  /** The string at the front of the input. Every accepted item lies inside the input, ends where
      the next one starts, and advances the reader. */
  function DecodeItem(data: Bytes): (r: Result<Item>)
    ensures r.Ok? ==>
      && |r.value.bytes| <= r.value.advance && 1 <= r.value.advance <= |data|
      && r.value.bytes == data[r.value.advance - |r.value.bytes|..r.value.advance]
  {
    if data == [] then Err
    else
      var first := data[0];
      if first <= 0x7f then Ok(Item(data[0..1], 1))
      else if first <= 0xb7 then
        var l := first - 0x80;
        if 1 + l > |data| then Err else Ok(Item(data[1..1 + l], 1 + l))
      else if first <= 0xbf then
        var lenOfLen := first - 0xb7;
        var l :- LongLength(data, lenOfLen);
        Ok(Item(data[1 + lenOfLen..1 + lenOfLen + l], 1 + lenOfLen + l))
      else Err
  }

  function DecodeItems(payload: Bytes): Result<seq<Bytes>>
    decreases |payload|
  {
    if payload == [] then Ok([])
    else
      var item :- DecodeItem(payload);
      var rest :- DecodeItems(payload[item.advance..]);
      Ok([item.bytes] + rest)
  }

  /** The payload of a list. What follows the list in the input is ignored. */
  function ListPayload(data: Bytes): Result<Bytes> {
    if data == [] || data[0] < 0xc0 then Err
    else if data[0] <= 0xf7 then
      var l := data[0] - 0xc0;
      if 1 + l > |data| then Err else Ok(data[1..1 + l])
    else
      var lenOfLen := data[0] - 0xf7;
      var l :- LongLength(data, lenOfLen);
      Ok(data[1 + lenOfLen..1 + lenOfLen + l])
  }

  function DecodeList(data: Bytes): Result<seq<Bytes>> {
    var payload :- ListPayload(data);
    DecodeItems(payload)
  }

  /** rlpLongLength's loop, in u64 arithmetic: it never wraps. */
  method ReadLongLength(data: Bytes, lenOfLen: nat) returns (r: Result<nat>)
    ensures r == LongLength(data, lenOfLen)
  {
    if lenOfLen < 1 || lenOfLen > 8 { return Err; }
    if 1 + lenOfLen > |data| { return Err; }
    var length := 0;
    for i := 1 to 1 + lenOfLen
      invariant length == BE(data[1..i])
    {
      assert data[1..i + 1][..i - 1] == data[1..i];
      BEBound(data[1..i]);
      PowMonotone(i - 1, 7);
      assert Pow256(7) * 256 == TWO64 by { Widths(); }
      length := (length * 256) % TWO64 + data[i];
    }
    if length > |data| - 1 - lenOfLen { return Err; }
    r := Ok(length);
  }

  /** What the loop has read, and what it has yet to read. */
  function Prepend(read: seq<Bytes>, r: Result<seq<Bytes>>): Result<seq<Bytes>> {
    match r case Ok(rest) => Ok(read + rest) case Err => Err
  }

  /** rlpDecodeList's loop over the payload. */
  method ReadItems(payload: Bytes) returns (r: Result<seq<Bytes>>)
    ensures r == DecodeItems(payload)
  {
    hide DecodeItem;
    var out: seq<Bytes>, pos := [], 0;
    assert payload[0..] == payload;
    ghost var all := DecodeItems(payload);
    if all.Ok? { assert out + all.value == all.value; }
    while pos < |payload|
      invariant pos <= |payload|
      invariant DecodeItems(payload) == Prepend(out, DecodeItems(payload[pos..]))
    {
      var item := DecodeItem(payload[pos..]);
      if item.Err? { return Err; }
      var next := pos + item.value.advance;
      assert payload[pos..][item.value.advance..] == payload[next..];
      ghost var tail := DecodeItems(payload[next..]);
      if tail.Ok? { assert out + ([item.value.bytes] + tail.value) == out + [item.value.bytes] + tail.value; }
      out := out + [item.value.bytes];
      pos := next;
    }
    assert payload[pos..] == [];
    assert out + [] == out;
    r := Ok(out);
  }

  method ReadList(data: Bytes) returns (r: Result<seq<Bytes>>)
    ensures r == DecodeList(data)
  {
    var payload := ListPayload(data);
    if payload.Err? { return Err; }
    r := ReadItems(payload.value);
  }

  // ----- round trips

  /** The long form: a head of one to eight length bytes that read back as the length. */
  lemma LongHead(short: Byte, length: nat, body: Bytes) returns (k: nat)
    requires short <= 0xc0 && 55 < length < TWO64 && length <= |body|
    ensures var data := Head(short, length) + body;
            && 1 <= k <= 8 && |Head(short, length)| == 1 + k
            && data[0] == short + 55 + k && LongLength(data, k) == Ok(length)
            && data[1 + k..1 + k + length] == body[..length]
  {
    hide UintToMinBE, ToBE;
    var lb := UintToMinBE(length);
    assert 1 <= |lb| <= 8 && BE(lb) == length by { UintToMinBEIsMinimal(length); }
    var data := Head(short, length) + body;
    assert data[1..1 + |lb|] == lb;
    k := |lb|;
  }

  lemma ByteFits(n: nat)
    requires n < 256
    ensures n % 256 == n
  {
  }

  /** A list's first byte tells it from a string. */
  lemma ListHead(length: nat)
    requires length < TWO64
    ensures Head(0xc0, length) != [] && Head(0xc0, length)[0] >= 0xc0
  {
    hide UintToMinBE, MinBE, BE;
    if length <= 55 {
      ByteFits(0xc0 + length);
    } else {
      UintToMinBEIsMinimal(length);
      var k := |UintToMinBE(length)|;
      ByteFits(0xc0 + 55 + k);
      assert Head(0xc0, length)[0] == 0xc0 + 55 + k;
    }
  }

  lemma LongItem(b: Bytes, rest: Bytes)
    requires 55 < |b| < TWO64
    ensures DecodeItem(Head(0x80, |b|) + (b + rest)) == Ok(Item(b, |Head(0x80, |b|)| + |b|))
  {
    var k := LongHead(0x80, |b|, b + rest);
    assert (b + rest)[..|b|] == b;
  }

  lemma ByteItem(b: Bytes, rest: Bytes)
    requires |b| == 1 && b[0] < 0x80
    ensures DecodeItem(b + rest) == Ok(Item(b, 1))
  {
    hide LongLength;
    assert (b + rest)[0..1] == b;
  }

  lemma ShortItem(b: Bytes, rest: Bytes)
    requires |b| <= 55
    ensures DecodeItem([0x80 + |b|] + (b + rest)) == Ok(Item(b, 1 + |b|))
  {
    hide LongLength;
    assert ([0x80 + |b|] + (b + rest))[1..1 + |b|] == b;
  }

  lemma LongItemAt(data: Bytes, w: nat, length: nat)
    requires data != [] && 1 <= w <= 8 && data[0] == 0xb7 + w && LongLength(data, w) == Ok(length)
    ensures DecodeItem(data) == Ok(Item(data[1 + w..1 + w + length], 1 + w + length))
  {
    hide LongLength;
  }

  lemma LongPayloadAt(data: Bytes, w: nat, length: nat)
    requires data != [] && 1 <= w <= 8 && data[0] == 0xf7 + w && LongLength(data, w) == Ok(length)
    ensures ListPayload(data) == Ok(data[1 + w..1 + w + length])
  {
    hide LongLength;
  }

  /** A long form of any width reads back, its length minimal or not. */
  lemma AnyLongItem(b: Bytes, w: nat, rest: Bytes)
    requires 1 <= w <= 8 && |b| < Pow256(w)
    ensures DecodeItem([0xb7 + w] + (ToBE(|b|, w) + (b + rest))) == Ok(Item(b, 1 + w + |b|))
  {
    var data := [0xb7 + w] + (ToBE(|b|, w) + (b + rest));
    assert data[1 + w..1 + w + |b|] == b by { SliceAt([0xb7 + w], ToBE(|b|, w), b, rest); }
    assert LongLength(data, w) == Ok(|b|) by { AnyLongLength(0xb7 + w, |b|, w, b + rest); }
    LongItemAs(data, w, b);
  }

  lemma LongItemAs(data: Bytes, w: nat, b: Bytes)
    requires data != [] && 1 <= w <= 8 && data[0] == 0xb7 + w && LongLength(data, w) == Ok(|b|)
    requires data[1 + w..1 + w + |b|] == b
    ensures DecodeItem(data) == Ok(Item(b, 1 + w + |b|))
  {
    LongItemAt(data, w, |b|);
  }

  lemma SliceAt(first: Bytes, length: Bytes, b: Bytes, rest: Bytes)
    ensures var k := |first| + |length|; (first + (length + (b + rest)))[k..k + |b|] == b
  {
  }

  lemma AnyLongLength(first: Byte, length: nat, w: nat, body: Bytes)
    requires 1 <= w <= 8 && length < Pow256(w) && length <= |body|
    ensures LongLength([first] + (ToBE(length, w) + body), w) == Ok(length)
  {
    BEInverts(length, w);
    hide ToBE, BE, Pow256;
    var data := [first] + (ToBE(length, w) + body);
    assert data[1..1 + w] == ToBE(length, w);
  }

  /** And so does a list's payload. */
  lemma AnyLongPayload(p: Bytes, w: nat, trailing: Bytes)
    requires 1 <= w <= 8 && |p| < Pow256(w)
    ensures ListPayload([0xf7 + w] + (ToBE(|p|, w) + (p + trailing))) == Ok(p)
  {
    hide ListPayload, ToBE, LongLength, Pow256;
    AnyLongLength(0xf7 + w, |p|, w, p + trailing);
    SliceAt([0xf7 + w], ToBE(|p|, w), p, trailing);
    LongPayloadAt([0xf7 + w] + (ToBE(|p|, w) + (p + trailing)), w, |p|);
  }

  /** An encoded string reads back, whatever follows it. */
  lemma ItemRoundTrip(b: Bytes, rest: Bytes)
    requires |b| < TWO64
    ensures EncodeBytes(b) != [] && DecodeItem(EncodeBytes(b) + rest) == Ok(Item(b, |EncodeBytes(b)|))
  {
    hide DecodeItem, UintToMinBE;
    if |b| == 1 && b[0] < 0x80 {
      ByteItem(b, rest);
    } else {
      assert Head(0x80, |b|) != [];
      assert EncodeBytes(b) + rest == Head(0x80, |b|) + (b + rest) by { Assoc(Head(0x80, |b|), b, rest); }
      if |b| <= 55 {
        ShortItem(b, rest);
      } else {
        LongItem(b, rest);
      }
    }
  }

  lemma LongPayload(p: Bytes, trailing: Bytes)
    requires 55 < |p| < TWO64
    ensures ListPayload(Head(0xc0, |p|) + (p + trailing)) == Ok(p)
  {
    var k := LongHead(0xc0, |p|, p + trailing);
    assert (p + trailing)[..|p|] == p;
  }

  lemma PayloadRoundTrip(p: Bytes, trailing: Bytes)
    requires |p| < TWO64
    ensures ListPayload(Head(0xc0, |p|) + p + trailing) == Ok(p)
  {
    var data := Head(0xc0, |p|) + p + trailing;
    assert data == Head(0xc0, |p|) + (p + trailing);
    if |p| <= 55 {
      assert data[1..1 + |p|] == p;
    } else {
      LongPayload(p, trailing);
    }
  }

  /** A member of a list as the encoder lays it out: a string, or a nested list put in whole. */
  datatype Member = Text(bytes: Bytes) | Nested(list: Bytes) {
    predicate Fits() {
      match this
      case Text(b) => |b| < TWO64
      case Nested(l) => l != [] && l[0] >= 0xc0
    }
    function Encode(): Bytes {
      match this case Text(b) => EncodeBytes(b) case Nested(l) => l
    }
  }

  function Encoded(ms: seq<Member>): (items: seq<Bytes>)
    ensures |items| == |ms| && forall i :: 0 <= i < |ms| ==> items[i] == ms[i].Encode()
  {
    seq(|ms|, i requires 0 <= i < |ms| => ms[i].Encode())
  }

  predicate AllText(ms: seq<Member>) {
    forall i :: 0 <= i < |ms| ==> ms[i].Text?
  }

  function Texts(ms: seq<Member>): (bs: seq<Bytes>)
    requires AllText(ms)
    ensures |bs| == |ms| && forall i :: 0 <= i < |ms| ==> bs[i] == ms[i].bytes
  {
    seq(|ms|, i requires 0 <= i < |ms| => ms[i].bytes)
  }

  /** Reading the member at the front of a payload: a string is read, a nested list refuses it all. */
  lemma ItemsCons(m: Member, payload: Bytes)
    requires m.Fits() && m.Encode() <= payload
    ensures DecodeItems(payload) ==
            if m.Nested? then Err
            else match DecodeItems(payload[|m.Encode()|..]) case Ok(bs) => Ok([m.bytes] + bs) case Err => Err
  {
    if m.Text? {
      var rest := payload[|m.Encode()|..];
      assert payload == m.Encode() + rest;
      ItemRoundTrip(m.bytes, rest);
    }
  }

  lemma ConcatEncoded(ms: seq<Member>)
    requires ms != []
    ensures Concat(Encoded(ms)) == ms[0].Encode() + Concat(Encoded(ms[1..]))
  {
    assert Encoded(ms)[1..] == Encoded(ms[1..]);
  }

  lemma AllTextCons(ms: seq<Member>)
    requires ms != []
    ensures AllText(ms) <==> ms[0].Text? && AllText(ms[1..])
    ensures AllText(ms) ==> Texts(ms) == [ms[0].bytes] + Texts(ms[1..])
  {
    if ms[0].Text? && AllText(ms[1..]) {
      assert forall i :: 1 <= i < |ms| ==> ms[i] == ms[1..][i - 1];
    }
  }

  lemma {:induction false} ItemsRoundTrip(ms: seq<Member>)
    requires forall i :: 0 <= i < |ms| ==> ms[i].Fits()
    ensures DecodeItems(Concat(Encoded(ms))) == if AllText(ms) then Ok(Texts(ms)) else Err
    decreases |ms|
  {
    if ms == [] {
      assert Encoded(ms) == [];
    } else {
      var tail := ms[1..];
      ConcatEncoded(ms);
      ItemsCons(ms[0], Concat(Encoded(ms)));
      assert Concat(Encoded(ms))[|ms[0].Encode()|..] == Concat(Encoded(tail));
      ItemsRoundTrip(tail);
      AllTextCons(ms);
      hide DecodeItems, Concat, Encoded, Texts, AllText;
    }
  }

  /** rlpDecodeList inverts rlpEncodeList over any list of byte strings, short and long forms
      alike, whatever follows the list; and it refuses exactly the lists with a nested list. */
  lemma ListRoundTrip(ms: seq<Member>, trailing: Bytes)
    requires forall i :: 0 <= i < |ms| ==> ms[i].Fits()
    requires |Concat(Encoded(ms))| < TWO64
    ensures DecodeList(EncodeList(Encoded(ms)) + trailing) == if AllText(ms) then Ok(Texts(ms)) else Err
  {
    PayloadRoundTrip(Concat(Encoded(ms)), trailing);
    ItemsRoundTrip(ms);
  }

  /** Distinct strings have distinct encodings. */
  lemma EncodeBytesInjective(a: Bytes, b: Bytes)
    requires |a| < TWO64 && |b| < TWO64 && EncodeBytes(a) == EncodeBytes(b)
    ensures a == b
  {
    ItemRoundTrip(a, []);
    ItemRoundTrip(b, []);
  }
}
