/** The GroveDB proof envelope of grovedb/verifier.go: big-endian varint integers, length-prefixed
byte vectors, and layers nested under their keys. */
module Envelope {
  import opened Bytes

  const MAX_LAYER_DEPTH: nat := 64

  /** A decoded layer. The source keys the map by the hex of a key, which names the key. */
  datatype LayerProof = LayerProof(merkProof: Bytes, lowerLayers: map<Bytes, LayerProof>)

  datatype Proof = Proof(rootLayer: LayerProof, decreaseLimit: bool)

  // ----- the decoder, as a function of the bytes left

  function VarintWidth(tag: Byte): nat {
    if tag < 251 then 0 else if tag == 251 then 2 else if tag == 252 then 4 else 8
  }

  function ReadVarint(b: Bytes): (r: Result<Read<nat>>)
    ensures r.Ok? ==> |r.value.rest| < |b| && r.value.value < TWO64
  {
    if b == [] || b[0] > 253 then Err
    else if b[0] < 251 then Ok(Read(b[0], b[1..]))
    else
      var t :- Take(b[1..], VarintWidth(b[0]));
      BEFits(t.value);
      Ok(Read(BE(t.value), t.rest))
  }

  lemma BEFits(s: Bytes)
    requires |s| <= 8
    ensures BE(s) < TWO64
  {
    BEBound(s);
    PowMonotone(|s|, 8);
    Widths();
  }

  lemma Shifted(v: nat, b: Byte)
    requires v * 256 + b < TWO64
    ensures (v * 256) % TWO64 == v * 256
  {
  }

  function ReadVec(b: Bytes): (r: Result<Read<Bytes>>)
    ensures r.Ok? ==> |r.value.rest| < |b|
  {
    var n :- ReadVarint(b);
    Take(n.rest, n.value)
  }

  function ReadLayer(b: Bytes, depth: nat): (r: Result<Read<LayerProof>>)
    requires depth <= MAX_LAYER_DEPTH + 1
    decreases MAX_LAYER_DEPTH + 1 - depth, 1, 0
  {
    if depth > MAX_LAYER_DEPTH then Err
    else
      var merk :- ReadVec(b);
      var count :- ReadVarint(merk.rest);
      var lower :- ReadLowerLayers(count.rest, count.value, depth, map[]);
      Ok(Read(LayerProof(merk.value, lower.value), lower.rest))
  }

  /** The count is whatever the layer declares; a key given twice keeps its last layer. */
  function ReadLowerLayers(b: Bytes, count: nat, depth: nat, sofar: map<Bytes, LayerProof>)
    : Result<Read<map<Bytes, LayerProof>>>
    requires depth <= MAX_LAYER_DEPTH
    decreases MAX_LAYER_DEPTH + 1 - depth, 0, count
  {
    if count == 0 then Ok(Read(sofar, b))
    else
      var key :- ReadVec(b);
      var nested :- ReadLayer(key.rest, depth + 1);
      ReadLowerLayers(nested.rest, count - 1, depth, sofar[key.value := nested.value])
  }

  function Decode(b: Bytes): Result<Proof> {
    var variant :- ReadVarint(b);
    if variant.value != 0 then Err
    else
      var root :- ReadLayer(variant.rest, 0);
      if |root.rest| != 1 then Err else Ok(Proof(root.value, root.rest[0] != 0))
  }

  // ----- the reader, in place

  class BincodeReader {
    const data: Bytes
    var off: nat

    ghost predicate Valid() reads this { off <= |data| }

    ghost function Left(): Bytes
      requires Valid()
      reads this
    {
      data[off..]
    }

    constructor (bytes: Bytes)
      ensures Valid() && data == bytes && off == 0 && Left() == bytes
    {
      data := bytes;
      off := 0;
    }

    /** The loop over a varint's bytes, in u64 arithmetic, never wraps. */
    static method BigEndian(body: Bytes) returns (v: nat)
      requires |body| <= 8
      ensures v == BE(body)
    {
      v := 0;
      for i := 0 to |body|
        invariant v == BE(body[..i])
      {
        assert body[..i + 1][..i] == body[..i];
        BEFits(body[..i + 1]);
        Shifted(v, body[i]);
        v := (v * 256) % TWO64 + body[i];
      }
      assert body[..|body|] == body;
    }

    method Varint() returns (r: Result<nat>)
      requires Valid()
      modifies this
      ensures Valid() && off >= old(off) && Reads(ReadVarint(old(Left())), r, Left())
      ensures r.Ok? ==> off > old(off)
    {
      hide BE;
      if off >= |data| { return Err; }
      var tag := data[off];
      off := off + 1;
      if tag < 251 { return Ok(tag); }
      if tag > 253 { return Err; }
      var n := VarintWidth(tag);
      if off + n > |data| { return Err; }
      assert old(Left())[1..][..n] == data[off..off + n];
      var v := BigEndian(data[off..off + n]);
      off := off + n;
      r := Ok(v);
    }

    method ByteVec() returns (r: Result<Bytes>)
      requires Valid()
      modifies this
      ensures Valid() && off >= old(off) && Reads(ReadVec(old(Left())), r, Left())
      ensures r.Ok? ==> off > old(off)
    {
      hide ReadVarint;
      var n := Varint();
      if n.Err? { return Err; }
      if n.value > |data| - off { return Err; }
      assert Left()[..n.value] == data[off..off + n.value];
      r := Ok(data[off..off + n.value]);
      off := off + n.value;
    }

    /** decodeLayerProof. `calls` counts the layers it enters, itself included: at most one more
        than the bytes it consumes, whatever count of children a layer declares. */
    method DecodeLayerProof(depth: nat) returns (r: Result<LayerProof>, ghost calls: nat)
      requires Valid() && depth <= MAX_LAYER_DEPTH + 1
      modifies this
      ensures Valid() && off >= old(off) && Reads(ReadLayer(old(Left()), depth), r, Left())
      ensures r.Ok? ==> off > old(off)
      ensures calls <= off - old(off) + 1
      decreases MAX_LAYER_DEPTH + 1 - depth
    {
      hide ReadVarint, ReadVec;
      calls := 1;
      if depth > MAX_LAYER_DEPTH { return Err, calls; }
      var merk := ByteVec();
      if merk.Err? { return Err, calls; }
      var count := Varint();
      if count.Err? { return Err, calls; }
      var lower: map<Bytes, LayerProof> := map[];
      ghost var all := ReadLowerLayers(Left(), count.value, depth, map[]);
      var i := 0;
      while i < count.value
        invariant i <= count.value && Valid() && off > old(off) && calls <= off - old(off)
        invariant all == ReadLowerLayers(Left(), count.value - i, depth, lower)
        decreases count.value - i
      {
        var key := ByteVec();
        if key.Err? { return Err, calls; }
        ghost var more;
        var nested;
        nested, more := DecodeLayerProof(depth + 1);
        calls := calls + more;
        if nested.Err? { return Err, calls; }
        lower := lower[key.value := nested.value];
        i := i + 1;
      }
      r := Ok(LayerProof(merk.value, lower));
    }
  }

  /** DecodeGroveDBProof: one version, no trailing bytes, and work bounded by the input's length. */
  method DecodeGroveDBProof(bytes: Bytes) returns (r: Result<Proof>, ghost calls: nat)
    ensures r == Decode(bytes)
    ensures calls <= |bytes| + 1
  {
    hide ReadVarint, ReadLayer;
    calls := 0;
    var reader := new BincodeReader(bytes);
    var variant := reader.Varint();
    if variant.Err? || variant.value != 0 { return Err, calls; }
    var root;
    root, calls := reader.DecodeLayerProof(0);
    if root.Err? { return Err, calls; }
    if reader.off >= |reader.data| { return Err, calls; }
    var opts := reader.data[reader.off] != 0;
    reader.off := reader.off + 1;
    if reader.off != |reader.data| { return Err, calls; }
    r := Ok(Proof(root.value, opts));
  }

  // ----- the encoder, and its round trip

  /** A layer to encode: its children are written in order. */
  datatype Layer = Layer(merk: Bytes, kids: Kids)

  datatype Kids = NoKids | Kid(key: Bytes, layer: Layer, next: Kids)

  function Count(kids: Kids): nat {
    match kids case NoKids => 0 case Kid(_, _, next) => 1 + Count(next)
  }

  function VarintBytes(n: nat): Bytes {
    if n < 251 then [n]
    else if n < 0x1_0000 then [251] + ToBE(n, 2)
    else if n < TWO32 then [252] + ToBE(n, 4)
    else [253] + ToBE(n, 8)
  }

  function VecBytes(b: Bytes): Bytes { VarintBytes(|b|) + b }

  function LayerBytes(l: Layer): Bytes
    decreases l, 1
  {
    VecBytes(l.merk) + (VarintBytes(Count(l.kids)) + KidsBytes(l.kids))
  }

  function KidsBytes(kids: Kids): Bytes
    decreases kids, 0
  {
    if kids.NoKids? then [] else VecBytes(kids.key) + (LayerBytes(kids.layer) + KidsBytes(kids.next))
  }

  /** Version 0, the root layer, and the byte of the prover's options. */
  function Encode(l: Layer, options: Byte): Bytes {
    [0] + (LayerBytes(l) + [options])
  }

  predicate Fits(l: Layer)
    decreases l, 1
  {
    |l.merk| < TWO64 && Count(l.kids) < TWO64 && KidsFit(l.kids)
  }

  predicate KidsFit(kids: Kids)
    decreases kids, 0
  {
    kids.NoKids? || (|kids.key| < TWO64 && Fits(kids.layer) && KidsFit(kids.next))
  }

  /** Whether every layer lies within `room` levels. */
  predicate Within(l: Layer, room: int)
    decreases l, 1
  {
    room >= 0 && KidsWithin(l.kids, room - 1)
  }

  predicate KidsWithin(kids: Kids, room: int)
    decreases kids, 0
  {
    kids.NoKids? || (Within(kids.layer, room) && KidsWithin(kids.next, room))
  }

  /** What a layer decodes to. */
  function Decoded(l: Layer): LayerProof
    decreases l, 1
  {
    LayerProof(l.merk, DecodedKids(l.kids, map[]))
  }

  function DecodedKids(kids: Kids, sofar: map<Bytes, LayerProof>): map<Bytes, LayerProof>
    decreases kids, 0
  {
    if kids.NoKids? then sofar else DecodedKids(kids.next, sofar[kids.key := Decoded(kids.layer)])
  }

  lemma VarintRoundTrip(n: nat, rest: Bytes)
    requires n < TWO64
    ensures ReadVarint(VarintBytes(n) + rest) == Ok(Read(n, rest))
  {
    hide Take, ToBE;
    var b := VarintBytes(n) + rest;
    if n < 251 {
      assert b[1..] == rest;
    } else {
      var w := VarintWidth(b[0]);
      assert n < Pow256(w) by { Widths(); }
      assert b[1..] == ToBE(n, w) + rest;
      TakeFront(ToBE(n, w), rest);
      BEInverts(n, w);
    }
  }

  lemma VecRoundTrip(v: Bytes, rest: Bytes)
    requires |v| < TWO64
    ensures ReadVec(VecBytes(v) + rest) == Ok(Read(v, rest))
  {
    hide ReadVarint, VarintBytes, Take;
    assert VecBytes(v) + rest == VarintBytes(|v|) + (v + rest);
    VarintRoundTrip(|v|, v + rest);
    TakeFront(v, rest);
  }

  lemma {:induction false} LayerRoundTrip(l: Layer, depth: nat, rest: Bytes)
    requires Fits(l) && depth <= MAX_LAYER_DEPTH + 1
    ensures ReadLayer(LayerBytes(l) + rest, depth) ==
            if Within(l, MAX_LAYER_DEPTH - depth) then Ok(Read(Decoded(l), rest)) else Err
    decreases l, 1
  {
    hide ReadVarint, ReadVec, VarintBytes, VecBytes;
    if depth > MAX_LAYER_DEPTH {
    } else {
      var kids := KidsBytes(l.kids) + rest;
      assert LayerBytes(l) + rest == VecBytes(l.merk) + (VarintBytes(Count(l.kids)) + kids);
      VecRoundTrip(l.merk, VarintBytes(Count(l.kids)) + kids);
      VarintRoundTrip(Count(l.kids), kids);
      KidsRoundTrip(l.kids, depth, map[], rest);
    }
  }

  lemma {:induction false} KidsRoundTrip(kids: Kids, depth: nat, sofar: map<Bytes, LayerProof>, rest: Bytes)
    requires KidsFit(kids) && depth <= MAX_LAYER_DEPTH
    ensures ReadLowerLayers(KidsBytes(kids) + rest, Count(kids), depth, sofar) ==
            if KidsWithin(kids, MAX_LAYER_DEPTH - depth - 1) then Ok(Read(DecodedKids(kids, sofar), rest)) else Err
    decreases kids, 0
  {
    hide ReadVec, VecBytes, ReadLayer, LayerBytes, Decoded, Within;
    if kids.NoKids? {
      assert KidsBytes(kids) + rest == rest;
    } else {
      var key, l := kids.key, kids.layer;
      var tail := KidsBytes(kids.next) + rest;
      assert KidsBytes(kids) + rest == VecBytes(key) + (LayerBytes(l) + tail);
      VecRoundTrip(key, LayerBytes(l) + tail);
      LayerRoundTrip(l, depth + 1, tail);
      KidsRoundTrip(kids.next, depth, sofar[key := Decoded(l)], rest);
    }
  }

  /** The decoder inverts the encoder, on every proof nested within the limit, and refuses every
      one nested deeper. */
  lemma ProofRoundTrip(l: Layer, options: Byte)
    requires Fits(l)
    ensures Decode(Encode(l, options)) == if Within(l, 64) then Ok(Proof(Decoded(l), options != 0)) else Err
  {
    hide ReadLayer, LayerBytes, Within, Decoded;
    var b := Encode(l, options);
    assert b[1..] == LayerBytes(l) + [options];
    LayerRoundTrip(l, 0, [options]);
  }

  /** A varint is read exactly if it is one byte below 251, or 251, 252 or 253 and two, four or eight
      bytes behind it; every other first byte is refused. */
  lemma VarintExactlyWhen(b: Bytes)
    ensures ReadVarint(b).Ok? <==>
      b != [] && (b[0] < 251 || (b[0] == 251 && |b| >= 3) || (b[0] == 252 && |b| >= 5) || (b[0] == 253 && |b| >= 9))
  {
  }

  /** Only version 0 is decoded, and only with exactly one byte behind its root layer. */
  lemma DecodesExactlyWhen(b: Bytes)
    ensures Decode(b).Ok? <==>
      && ReadVarint(b).Ok? && ReadVarint(b).value.value == 0
      && ReadLayer(ReadVarint(b).value.rest, 0).Ok?
      && |ReadLayer(ReadVarint(b).value.rest, 0).value.rest| == 1
  {
    hide ReadVarint, ReadLayer;
  }

  // ----- nothing may follow a proof

  lemma VarintExtends(b: Bytes, more: Bytes)
    requires ReadVarint(b).Ok?
    ensures ReadVarint(b + more) == Ok(Read(ReadVarint(b).value.value, ReadVarint(b).value.rest + more))
  {
    assert (b + more)[1..] == b[1..] + more;
    var w := VarintWidth(b[0]);
    if b[0] >= 251 {
      assert (b[1..] + more)[..w] == b[1..][..w];
      assert (b[1..] + more)[w..] == b[1..][w..] + more;
    }
  }

  lemma VecExtends(b: Bytes, more: Bytes)
    requires ReadVec(b).Ok?
    ensures ReadVec(b + more) == Ok(Read(ReadVec(b).value.value, ReadVec(b).value.rest + more))
  {
    hide ReadVarint;
    VarintExtends(b, more);
    var n := ReadVarint(b).value;
    assert (n.rest + more)[..n.value] == n.rest[..n.value];
    assert (n.rest + more)[n.value..] == n.rest[n.value..] + more;
  }

  lemma {:induction false} LayerExtends(b: Bytes, depth: nat, more: Bytes)
    requires depth <= MAX_LAYER_DEPTH + 1 && ReadLayer(b, depth).Ok?
    ensures var r := ReadLayer(b, depth).value;
            ReadLayer(b + more, depth) == Ok(Read(r.value, r.rest + more))
    decreases MAX_LAYER_DEPTH + 1 - depth, 1, 0
  {
    hide ReadVec, ReadVarint;
    VecExtends(b, more);
    var merk := ReadVec(b).value;
    VarintExtends(merk.rest, more);
    var count := ReadVarint(merk.rest).value;
    LowerLayersExtend(count.rest, count.value, depth, map[], more);
  }

  lemma {:induction false} LowerLayersExtend(b: Bytes, count: nat, depth: nat, sofar: map<Bytes, LayerProof>,
                                             more: Bytes)
    requires depth <= MAX_LAYER_DEPTH && ReadLowerLayers(b, count, depth, sofar).Ok?
    ensures var r := ReadLowerLayers(b, count, depth, sofar).value;
            ReadLowerLayers(b + more, count, depth, sofar) == Ok(Read(r.value, r.rest + more))
    decreases MAX_LAYER_DEPTH + 1 - depth, 0, count
  {
    hide ReadVec, ReadVarint, ReadLayer;
    if count == 0 {
    } else {
      VecExtends(b, more);
      var key := ReadVec(b).value;
      LayerExtends(key.rest, depth + 1, more);
      var nested := ReadLayer(key.rest, depth + 1).value;
      LowerLayersExtend(nested.rest, count - 1, depth, sofar[key.value := nested.value], more);
    }
  }

  /** No accepted proof, on any input, is accepted with anything behind it. */
  lemma TrailingBytesAreRefused(b: Bytes, trailing: Bytes)
    requires Decode(b).Ok? && trailing != []
    ensures Decode(b + trailing).Err?
  {
    hide ReadVarint, ReadLayer;
    VarintExtends(b, trailing);
    LayerExtends(ReadVarint(b).value.rest, 0, trailing);
  }
}
