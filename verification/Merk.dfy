/** The Merk proof of grovedb/verifier.go: its operations' byte encoding, and the stack machine
that runs them.

The package says of itself that its hashing and walk verify no chain root. Nothing here claims
they do: the results are that the decoder inverts the encoding it documents, and that the machine
computes the root, heights and results of the tree whose operations it is given. */
module Merk {
  import opened Bytes

  datatype MerkNode =
    | HashNode(hash: Digest)
    | KVHash(kvHash: Digest)
    | KV(key: Bytes, value: Bytes)
    | KVValueHash(key: Bytes, value: Bytes, valueHash: Digest)
    | KVDigest(key: Bytes, valueHash: Digest)
    | KVRefValueHash(key: Bytes, value: Bytes, valueHash: Digest)
  {
    /** The lengths the encoding can write: a byte for the key's, at most 64 MiB for a value's. */
    predicate Fits() {
      match this
      case HashNode(_) => true
      case KVHash(_) => true
      case KVDigest(k, _) => |k| < 256
      case _ => |key| < 256 && |value| <= MAX_VALUE_LEN
    }

    /** Only values of 64 KiB or more take the large-value form. */
    predicate Large() {
      (KV? || KVValueHash? || KVRefValueHash?) && |value| >= LARGE_VALUE_THRESHOLD
    }
  }

  const LARGE_VALUE_THRESHOLD: nat := 65536
  const MAX_VALUE_LEN: nat := 64 * 1024 * 1024

  datatype Op = Push(node: MerkNode) | PushInverted(node: MerkNode) | Parent | Child | ParentInverted | ChildInverted

  predicate FitsOp(op: Op) { op.Push? || op.PushInverted? ==> op.node.Fits() }

  // ----- the encoding

  datatype Kind = HashKind | KVHashKind | KVKind | KVValueHashKind | KVDigestKind | KVRefKind

  function KindOf(n: MerkNode): Kind {
    match n
    case HashNode(_) => HashKind
    case KVHash(_) => KVHashKind
    case KV(_, _) => KVKind
    case KVValueHash(_, _, _) => KVValueHashKind
    case KVDigest(_, _) => KVDigestKind
    case KVRefValueHash(_, _, _) => KVRefKind
  }

  /** What an op code says: a push of a kind of node, or one of the four tree operations. */
  datatype Code = PushCode(kind: Kind, inverted: bool, large: bool) | TreeCode(op: Op) | NoCode

  function CodeOf(b: Byte): Code {
    match b
    case 0x01 => PushCode(HashKind, false, false)
    case 0x02 => PushCode(KVHashKind, false, false)
    case 0x03 => PushCode(KVKind, false, false)
    case 0x04 => PushCode(KVValueHashKind, false, false)
    case 0x05 => PushCode(KVDigestKind, false, false)
    case 0x06 => PushCode(KVRefKind, false, false)
    case 0x08 => PushCode(HashKind, true, false)
    case 0x09 => PushCode(KVHashKind, true, false)
    case 0x0a => PushCode(KVKind, true, false)
    case 0x0b => PushCode(KVValueHashKind, true, false)
    case 0x0c => PushCode(KVDigestKind, true, false)
    case 0x0d => PushCode(KVRefKind, true, false)
    case 0x20 => PushCode(KVKind, false, true)
    case 0x21 => PushCode(KVValueHashKind, false, true)
    case 0x22 => PushCode(KVRefKind, false, true)
    case 0x28 => PushCode(KVKind, true, true)
    case 0x29 => PushCode(KVValueHashKind, true, true)
    case 0x2a => PushCode(KVRefKind, true, true)
    case 0x10 => TreeCode(Parent)
    case 0x11 => TreeCode(Child)
    case 0x12 => TreeCode(ParentInverted)
    case 0x13 => TreeCode(ChildInverted)
    case _ => NoCode
  }

  function PushByte(kind: Kind, inverted: bool, large: bool): Byte {
    var small := match kind
      case HashKind => 1 case KVHashKind => 2 case KVKind => 3
      case KVValueHashKind => 4 case KVDigestKind => 5 case KVRefKind => 6;
    var big := match kind case KVKind => 0x20 case KVValueHashKind => 0x21 case _ => 0x22;
    if large then (if inverted then big + 8 else big) else (if inverted then small + 7 else small)
  }

  function KeyBytes(key: Bytes): Bytes { [|key| % 256] + key }

  function ValueBytes(value: Bytes, large: bool): Bytes {
    ToBE(|value|, if large then 4 else 2) + value
  }

  function NodeBytes(n: MerkNode): Bytes {
    match n
    case HashNode(h) => h
    case KVHash(h) => h
    case KV(k, v) => KeyBytes(k) + ValueBytes(v, n.Large())
    case KVValueHash(k, v, h) => EntryBytes(Entry(k, v, h), n.Large())
    case KVDigest(k, h) => KeyBytes(k) + h
    case KVRefValueHash(k, v, h) => EntryBytes(Entry(k, v, h), n.Large())
  }

  function EncodeOp(op: Op): Bytes {
    match op
    case Push(n) => [PushByte(KindOf(n), false, n.Large())] + NodeBytes(n)
    case PushInverted(n) => [PushByte(KindOf(n), true, n.Large())] + NodeBytes(n)
    case Parent => [0x10]
    case Child => [0x11]
    case ParentInverted => [0x12]
    case ChildInverted => [0x13]
  }

  function EncodeOps(ops: seq<Op>): Bytes {
    if ops == [] then [] else EncodeOp(ops[0]) + EncodeOps(ops[1..])
  }

  // ----- the decoder, as a function of the bytes left

  function ReadKey(b: Bytes): (r: Result<Read<Bytes>>)
    ensures r.Ok? ==> |r.value.rest| <= |b|
  {
    if b == [] then Err else Take(b[1..], b[0])
  }

  /** A value length: two big-endian bytes, or four that must name a large value. */
  function ReadLength(b: Bytes, large: bool): (r: Result<Read<nat>>)
    ensures r.Ok? ==> |r.value.rest| <= |b|
  {
    var n :- ReadBE(b, if large then 4 else 2);
    if large && (n.value < LARGE_VALUE_THRESHOLD || n.value > MAX_VALUE_LEN) then Err else Ok(n)
  }

  function ReadValue(b: Bytes, large: bool): (r: Result<Read<Bytes>>)
    ensures r.Ok? ==> |r.value.rest| <= |b|
  {
    var n :- ReadLength(b, large);
    Take(n.rest, n.value)
  }

  datatype Entry = Entry(key: Bytes, value: Bytes, valueHash: Digest)

  /** A key, a value and its hash. */
  function ReadEntry(b: Bytes, large: bool): (r: Result<Read<Entry>>)
    ensures r.Ok? ==> |r.value.rest| <= |b|
  {
    var k :- ReadKey(b);
    var v :- ReadValue(k.rest, large);
    var h :- Take(v.rest, 32);
    Ok(Read(Entry(k.value, v.value, h.value), h.rest))
  }

  function EntryBytes(e: Entry, large: bool): Bytes {
    KeyBytes(e.key) + (ValueBytes(e.value, large) + e.valueHash)
  }

  function ReadNode(kind: Kind, large: bool, b: Bytes): (r: Result<Read<MerkNode>>)
    ensures r.Ok? ==> |r.value.rest| <= |b|
  {
    match kind
    case HashKind => var h :- Take(b, 32); Ok(Read(HashNode(h.value), h.rest))
    case KVHashKind => var h :- Take(b, 32); Ok(Read(KVHash(h.value), h.rest))
    case KVDigestKind =>
      var k :- ReadKey(b);
      var h :- Take(k.rest, 32);
      Ok(Read(KVDigest(k.value, h.value), h.rest))
    case KVKind =>
      var k :- ReadKey(b);
      var v :- ReadValue(k.rest, large);
      Ok(Read(KV(k.value, v.value), v.rest))
    case KVValueHashKind =>
      var e :- ReadEntry(b, large);
      Ok(Read(KVValueHash(e.value.key, e.value.value, e.value.valueHash), e.rest))
    case KVRefKind =>
      var e :- ReadEntry(b, large);
      Ok(Read(KVRefValueHash(e.value.key, e.value.value, e.value.valueHash), e.rest))
  }

  function DecodeOp(b: Bytes): (r: Result<Read<Op>>)
    ensures r.Ok? ==> |r.value.rest| < |b|
  {
    if b == [] then Err
    else match CodeOf(b[0])
      case NoCode => Err
      case TreeCode(op) => Ok(Read(op, b[1..]))
      case PushCode(kind, inverted, large) =>
        var n :- ReadNode(kind, large, b[1..]);
        Ok(Read(if inverted then PushInverted(n.value) else Push(n.value), n.rest))
  }

  // ----- decoder and encoder are mutual inverses

  lemma CodeInverts(kind: Kind, inverted: bool, large: bool)
    requires large ==> kind.KVKind? || kind.KVValueHashKind? || kind.KVRefKind?
    ensures CodeOf(PushByte(kind, inverted, large)) == PushCode(kind, inverted, large)
  {
  }

  lemma PushByteInverts(b: Byte)
    ensures match CodeOf(b)
            case PushCode(kind, inverted, large) =>
              && b == PushByte(kind, inverted, large)
              && (large ==> kind.KVKind? || kind.KVValueHashKind? || kind.KVRefKind?)
            case TreeCode(op) => [b] == EncodeOp(op) && !op.Push? && !op.PushInverted?
            case NoCode => true
  {
  }

  lemma KeyRoundTrip(key: Bytes, rest: Bytes)
    requires |key| < 256
    ensures ReadKey(KeyBytes(key) + rest) == Ok(Read(key, rest))
  {
    var b := KeyBytes(key) + rest;
    assert b[1..] == key + rest;
    TakeFront(key, rest);
  }

  lemma ValueRoundTrip(value: Bytes, large: bool, rest: Bytes)
    requires |value| <= MAX_VALUE_LEN && (large <==> |value| >= LARGE_VALUE_THRESHOLD)
    ensures ReadValue(ValueBytes(value, large) + rest, large) == Ok(Read(value, rest))
  {
    hide Take, ReadBE, ToBE;
    var w := if large then 4 else 2;
    assert |value| < Pow256(w) by { Widths(); }
    assert ValueBytes(value, large) + rest == ToBE(|value|, w) + (value + rest);
    ReadBEInverts(|value|, w, value + rest);
    TakeFront(value, rest);
  }

  lemma EntryRoundTrip(e: Entry, large: bool, rest: Bytes)
    requires |e.key| < 256 && |e.value| <= MAX_VALUE_LEN && (large <==> |e.value| >= LARGE_VALUE_THRESHOLD)
    ensures ReadEntry(EntryBytes(e, large) + rest, large) == Ok(Read(e, rest))
  {
    hide ReadKey, ReadValue, KeyBytes, ValueBytes, Take;
    assert EntryBytes(e, large) + rest == KeyBytes(e.key) + (ValueBytes(e.value, large) + (e.valueHash + rest));
    KeyRoundTrip(e.key, ValueBytes(e.value, large) + (e.valueHash + rest));
    ValueRoundTrip(e.value, large, e.valueHash + rest);
    TakeFront(e.valueHash, rest);
  }

  lemma NodeRoundTrip(n: MerkNode, rest: Bytes)
    requires n.Fits()
    ensures ReadNode(KindOf(n), n.Large(), NodeBytes(n) + rest) == Ok(Read(n, rest))
  {
    hide ReadKey, ReadValue, ReadEntry, KeyBytes, ValueBytes, Take;
    match n
    case HashNode(h) => TakeFront(h, rest);
    case KVHash(h) => TakeFront(h, rest);
    case KVDigest(k, h) =>
      assert NodeBytes(n) + rest == KeyBytes(k) + (h + rest);
      KeyRoundTrip(k, h + rest);
      TakeFront(h, rest);
    case KV(k, v) =>
      assert NodeBytes(n) + rest == KeyBytes(k) + (ValueBytes(v, n.Large()) + rest);
      KeyRoundTrip(k, ValueBytes(v, n.Large()) + rest);
      ValueRoundTrip(v, n.Large(), rest);
    case KVValueHash(k, v, h) => EntryRoundTrip(Entry(k, v, h), n.Large(), rest);
    case KVRefValueHash(k, v, h) => EntryRoundTrip(Entry(k, v, h), n.Large(), rest);
  }

  /** Decoding an encoded operation, whatever follows it, gives it back. */
  lemma OpRoundTrip(op: Op, rest: Bytes)
    requires FitsOp(op)
    ensures DecodeOp(EncodeOp(op) + rest) == Ok(Read(op, rest))
  {
    hide ReadNode, NodeBytes, CodeOf, PushByte;
    var b := EncodeOp(op) + rest;
    if op.Push? || op.PushInverted? {
      assert b[1..] == NodeBytes(op.node) + rest;
      CodeInverts(KindOf(op.node), op.PushInverted?, op.node.Large());
      NodeRoundTrip(op.node, rest);
    } else {
      assert CodeOf(b[0]) == TreeCode(op) by { TreeCodeInverts(op); }
      assert b[1..] == rest;
    }
  }

  lemma TreeCodeInverts(op: Op)
    requires !op.Push? && !op.PushInverted?
    ensures |EncodeOp(op)| == 1 && CodeOf(EncodeOp(op)[0]) == TreeCode(op)
  {
  }

  lemma KeyCanonical(b: Bytes)
    requires ReadKey(b).Ok?
    ensures var k := ReadKey(b).value; |k.value| < 256 && b == KeyBytes(k.value) + k.rest
  {
    var k := ReadKey(b).value;
    assert b == [b[0]] + b[1..];
    assert KeyBytes(k.value) + k.rest == [b[0]] + (k.value + k.rest);
  }

  lemma ValueCanonical(b: Bytes, large: bool)
    requires ReadValue(b, large).Ok?
    ensures var v := ReadValue(b, large).value;
            && |v.value| <= 0x400_0000 && (large <==> |v.value| >= 0x1_0000)
            && b == ValueBytes(v.value, large) + v.rest
  {
    var w := if large then 4 else 2;
    var t := Take(b, w).value;
    ToBEInverts(t.value);
    BEBound(t.value);
    assert Pow256(2) == 65536 by { Widths(); }
    var v := ReadValue(b, large).value;
    assert b == t.value + (v.value + v.rest);
    assert b == ValueBytes(v.value, large) + v.rest;
  }

  lemma EntryCanonical(b: Bytes, large: bool)
    requires ReadEntry(b, large).Ok?
    ensures var e := ReadEntry(b, large).value;
            && |e.value.key| < 256 && |e.value.value| <= MAX_VALUE_LEN
            && (large <==> |e.value.value| >= LARGE_VALUE_THRESHOLD)
            && b == EntryBytes(e.value, large) + e.rest
  {
    hide ReadKey, ReadValue, KeyBytes, ValueBytes;
    KeyCanonical(b);
    var k := ReadKey(b).value;
    ValueCanonical(k.rest, large);
    var v := ReadValue(k.rest, large).value;
    var e := ReadEntry(b, large).value;
    assert b == KeyBytes(k.value) + (ValueBytes(v.value, large) + e.value.valueHash) + e.rest;
  }

  lemma NodeCanonical(kind: Kind, large: bool, b: Bytes)
    requires ReadNode(kind, large, b).Ok?
    requires large ==> kind.KVKind? || kind.KVValueHashKind? || kind.KVRefKind?
    ensures var n := ReadNode(kind, large, b).value;
            n.value.Fits() && KindOf(n.value) == kind && n.value.Large() == large && b == NodeBytes(n.value) + n.rest
  {
    hide ReadKey, ReadValue, ReadEntry, KeyBytes, ValueBytes;
    var n := ReadNode(kind, large, b).value;
    match kind
    case HashKind =>
    case KVHashKind =>
    case KVDigestKind =>
      KeyCanonical(b);
      assert b == KeyBytes(n.value.key) + n.value.valueHash + n.rest;
    case KVKind =>
      KeyCanonical(b);
      ValueCanonical(ReadKey(b).value.rest, large);
      assert b == KeyBytes(n.value.key) + ValueBytes(n.value.value, large) + n.rest;
    case KVValueHashKind => EntryCanonical(b, large);
    case KVRefKind => EntryCanonical(b, large);
  }

  /** Every accepted operation is the encoding of what it decodes to: it has exactly one, across
      the two-byte and large-value forms. */
  lemma OpCanonical(b: Bytes)
    requires DecodeOp(b).Ok?
    ensures var r := DecodeOp(b).value; FitsOp(r.value) && b == EncodeOp(r.value) + r.rest
  {
    hide ReadNode, NodeBytes, CodeOf, PushByte;
    PushByteInverts(b[0]);
    assert b == [b[0]] + b[1..];
    if CodeOf(b[0]).PushCode? {
      var c := CodeOf(b[0]);
      NodeCanonical(c.kind, c.large, b[1..]);
      var n := ReadNode(c.kind, c.large, b[1..]).value;
      assert b == [b[0]] + NodeBytes(n.value) + n.rest;
    }
  }
}
