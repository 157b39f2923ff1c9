/** The bincode of a RegisterSubgrove transaction (consensus/register_subgrove.go): what its bytes
are, and the decoder that inverts them.

Every encoder here takes the bytes that follow what it writes. Integers are little-endian and of
fixed width; a string or list is a u64 length and its elements; an option is a byte, 0 or 1; an
enum is a u32 variant index and the variant's fields. */
module Bincode {
  import opened Bytes

  type U8 = Byte
  type U128 = n: nat | n < TWO128

  /** A Go string or byte slice: a string's characters are its bytes, and no length passes a u64. */
  type GoString = s: string | |s| < TWO64 && forall i :: 0 <= i < |s| ==> s[i] as int < 256
  type Blob = b: Bytes | |b| < TWO64
  type Strs = s: seq<GoString> | |s| < TWO64

  // ----- the transaction

  datatype Pricing = Pricing(enabled: bool, pricePerQuery: U128, ownerShareBps: U32)

  datatype Module = Module(name: GoString, hash: Digest, content: Blob)
  type Modules = s: seq<Module> | |s| < TWO64

  datatype Tee = AwsNitro | IntelSgx | AmdSev

  datatype Execution = ConsensusExecution | IndexerExecution(samplingRate: U8) | TeeExecution(tee: Tee)

  datatype Indexers = Indexers(minIndexers: U8, maxIndexers: U8, rewardPerEpoch: U128, epochLength: U64, minStake: U128)

  datatype Retention = Blocks(blocks: U64) | Seconds(seconds: U64) | Indefinite | VerifyOnly

  datatype Words = Words(a: U32, b: U32, c: U32, d: U32)

  datatype Completeness = Completeness(logConfigHash: Words, txConfigHash: Words, deferred: bool, bondAmount: U128)

  datatype AuthMode = BftEquivalent | CanonizedAccumulator

  datatype Mode =
    | DataStorage(name: GoString, writers: Strs, freeReaders: Strs, pricing: Option<Pricing>)
    | FileStorage(name: GoString, maxFileSize: U64, replication: U8, writers: Strs, freeReaders: Strs,
                  pricing: Option<Pricing>, retentionPeriod: U64)
    | BlockchainIndexing(manifest: Blob, modules: Modules, execution: Execution, indexers: Indexers,
                         window: Retention, completeness: Option<Completeness>, auth: AuthMode)

  datatype Frequency = EveryUpdate | EveryNBlocks(n: U64) | EveryNSeconds(n: U64) | Never

  datatype Privacy = Privacy(allowedIndexers: Option<Strs>, frequency: Frequency)

  datatype KeyGrant = KeyGrant(grantee: GoString, keyEpoch: U32, granteeKeyId: GoString, ephemeralKey: Blob,
                               encryptedKey: Blob, grantedBy: GoString, grantedAt: U64)

  datatype Template = Template(id: GoString, version: U32, variantId: GoString, parameters: Blob,
                               contracts: Strs, eventSignatures: Strs, chain: Option<GoString>)

  datatype Identity = Identity(subgroveId: GoString, name: GoString, description: GoString, schema: GoString,
                               ownerDid: GoString, admins: Strs)

  datatype Tail = Tail(confirmationDepth: U32, publicKeyId: GoString, nonce: U64, cryptographicCompleteness: bool)

  /** A transaction, but for its signature. */
  datatype Tx = Tx(identity: Identity, initialFunding: Option<U128>, requiredTee: Option<Tee>, mode: Mode,
                   privacy: Option<Privacy>, ownerKeyGrant: Option<KeyGrant>, template: Option<Template>, tail: Tail)

  // ----- its bytes

  function StrBytes(s: GoString): (b: Bytes)
    ensures |b| == |s|
  {
    seq(|s|, i requires 0 <= i < |s| => s[i] as int)
  }

  function PutU8(n: U8, rest: Bytes): Bytes { [n] + rest }

  function PutU32(n: U32, rest: Bytes): Bytes { ToLE(n, 4) + rest }

  function PutU64(n: U64, rest: Bytes): Bytes { ToLE(n, 8) + rest }

  function PutBool(v: bool, rest: Bytes): Bytes { [if v then 1 else 0] + rest }

  function PutVec(b: Bytes, rest: Bytes): Bytes { ToLE(|b|, 8) + (b + rest) }

  function PutStr(s: GoString, rest: Bytes): Bytes { PutVec(StrBytes(s), rest) }

  function PutList(xs: seq<GoString>, rest: Bytes): Bytes {
    if xs == [] then rest else PutStr(xs[0], PutList(xs[1..], rest))
  }

  function PutStrs(xs: seq<GoString>, rest: Bytes): Bytes { ToLE(|xs|, 8) + PutList(xs, rest) }

  function PutU128(n: U128, rest: Bytes): Bytes { ToLE(n, 16) + rest }

  function PutPricing(p: Pricing, rest: Bytes): Bytes {
    PutBool(p.enabled, PutU128(p.pricePerQuery, PutU32(p.ownerShareBps, rest)))
  }

  function PutOption<T>(put: (T, Bytes) -> Bytes, o: Option<T>, rest: Bytes): Bytes {
    match o case None => [0] + rest case Some(x) => [1] + put(x, rest)
  }

  function TeeIndex(t: Tee): nat { match t case AwsNitro => 0 case IntelSgx => 1 case AmdSev => 2 }

  function PutTee(t: Tee, rest: Bytes): Bytes { PutU32(TeeIndex(t), rest) }

  function PutModule(m: Module, rest: Bytes): Bytes { PutStr(m.name, m.hash + PutVec(m.content, rest)) }

  function PutModuleList(ms: seq<Module>, rest: Bytes): Bytes {
    if ms == [] then rest else PutModule(ms[0], PutModuleList(ms[1..], rest))
  }

  function PutModules(ms: seq<Module>, rest: Bytes): Bytes { ToLE(|ms|, 8) + PutModuleList(ms, rest) }

  function PutExecution(e: Execution, rest: Bytes): Bytes {
    match e
    case ConsensusExecution => PutU32(0, rest)
    case IndexerExecution(rate) => PutU32(1, PutU8(rate, rest))
    case TeeExecution(tee) => PutU32(2, PutTee(tee, rest))
  }

  function PutIndexers(c: Indexers, rest: Bytes): Bytes {
    PutU8(c.minIndexers, PutU8(c.maxIndexers, PutU128(c.rewardPerEpoch, PutU64(c.epochLength,
      PutU128(c.minStake, rest)))))
  }

  function PutRetention(r: Retention, rest: Bytes): Bytes {
    match r
    case Blocks(n) => PutU32(0, PutU64(n, rest))
    case Seconds(n) => PutU32(1, PutU64(n, rest))
    case Indefinite => PutU32(2, rest)
    case VerifyOnly => PutU32(3, rest)
  }

  function PutWords(w: Words, rest: Bytes): Bytes { PutU32(w.a, PutU32(w.b, PutU32(w.c, PutU32(w.d, rest)))) }

  function PutCompleteness(c: Completeness, rest: Bytes): Bytes {
    PutWords(c.logConfigHash, PutWords(c.txConfigHash, PutBool(c.deferred, PutU128(c.bondAmount, rest))))
  }

  function PutAuth(a: AuthMode, rest: Bytes): Bytes { PutU32(if a.BftEquivalent? then 0 else 1, rest) }

  function PutData(m: Mode, rest: Bytes): Bytes
    requires m.DataStorage?
  {
    PutStr(m.name, PutStrs(m.writers, PutStrs(m.freeReaders, PutOption(PutPricing, m.pricing, rest))))
  }

  function PutFile(m: Mode, rest: Bytes): Bytes
    requires m.FileStorage?
  {
    PutStr(m.name, PutU64(m.maxFileSize, PutU8(m.replication, PutStrs(m.writers, PutStrs(m.freeReaders,
      PutOption(PutPricing, m.pricing, PutU64(m.retentionPeriod, rest)))))))
  }

  function PutIndexing(m: Mode, rest: Bytes): Bytes
    requires m.BlockchainIndexing?
  {
    PutVec(m.manifest, PutModules(m.modules, PutExecution(m.execution, PutIndexers(m.indexers, PutRetention(m.window,
      PutOption(PutCompleteness, m.completeness, PutAuth(m.auth, rest)))))))
  }

  function PutMode(m: Mode, rest: Bytes): Bytes {
    match m
    case DataStorage(_, _, _, _) => PutU32(0, PutData(m, rest))
    case FileStorage(_, _, _, _, _, _, _) => PutU32(1, PutFile(m, rest))
    case BlockchainIndexing(_, _, _, _, _, _, _) => PutU32(2, PutIndexing(m, rest))
  }

  function PutFrequency(f: Frequency, rest: Bytes): Bytes {
    match f
    case EveryUpdate => PutU32(0, rest)
    case EveryNBlocks(n) => PutU32(1, PutU64(n, rest))
    case EveryNSeconds(n) => PutU32(2, PutU64(n, rest))
    case Never => PutU32(3, rest)
  }

  function PutAllowed(o: Option<Strs>, rest: Bytes): Bytes {
    match o case None => [0] + rest case Some(xs) => [1] + PutStrs(xs, rest)
  }

  function PutPrivacy(p: Privacy, rest: Bytes): Bytes {
    PutAllowed(p.allowedIndexers, PutFrequency(p.frequency, rest))
  }

  function PutKeyGrant(g: KeyGrant, rest: Bytes): Bytes {
    PutStr(g.grantee, PutU32(g.keyEpoch, PutStr(g.granteeKeyId, PutVec(g.ephemeralKey, PutVec(g.encryptedKey,
      PutStr(g.grantedBy, PutU64(g.grantedAt, rest)))))))
  }

  function PutTemplate(t: Template, rest: Bytes): Bytes {
    PutStr(t.id, PutU32(t.version, PutStr(t.variantId, PutVec(t.parameters, PutStrs(t.contracts,
      PutStrs(t.eventSignatures, PutOption(PutStr, t.chain, rest)))))))
  }

  function PutIdentity(i: Identity, rest: Bytes): Bytes {
    PutStr(i.subgroveId, PutStr(i.name, PutStr(i.description, PutStr(i.schema, PutStr(i.ownerDid,
      PutStrs(i.admins, rest))))))
  }

  /** The signature is hashed as an empty one. */
  function PutTail(t: Tail, rest: Bytes): Bytes {
    PutU32(t.confirmationDepth, PutVec([], PutStr(t.publicKeyId, PutU64(t.nonce,
      PutBool(t.cryptographicCompleteness, rest)))))
  }

  function PutTx(t: Tx, rest: Bytes): Bytes {
    PutIdentity(t.identity, PutOption(PutU128, t.initialFunding, PutOption(PutTee, t.requiredTee, PutMode(t.mode,
      PutOption(PutPrivacy, t.privacy, PutOption(PutKeyGrant, t.ownerKeyGrant, PutOption(PutTemplate, t.template,
      PutTail(t.tail, rest))))))))
  }

  // ----- reading them back

  function ToStr(b: Bytes): (s: string)
    ensures |s| == |b| && forall i :: 0 <= i < |s| ==> s[i] as int < 256
  {
    seq(|b|, i requires 0 <= i < |b| => b[i] as char)
  }

  lemma ToStrInverts(s: GoString)
    ensures ToStr(StrBytes(s)) == s
  {
  }

  function ReadU8(b: Bytes): Result<Read<U8>> { if b == [] then Err else Ok(Read(b[0], b[1..])) }

  /** A fixed-width integer below 256^w. */
  function ReadUint(b: Bytes, w: nat): (r: Result<Read<nat>>)
    ensures r.Ok? ==> r.value.value < Pow256(w)
  {
    var t :- Take(b, w);
    LEBound(t.value);
    Ok(Read(LE(t.value), t.rest))
  }

  lemma {:induction false} LEBound(s: Bytes)
    ensures LE(s) < Pow256(|s|)
  {
    if s == [] {
    } else {
      LEBound(s[1..]);
    }
  }

  function ReadU32(b: Bytes): Result<Read<U32>> { Widths(); ReadUint(b, 4) }

  function ReadU64(b: Bytes): Result<Read<U64>> { Widths(); ReadUint(b, 8) }

  function ReadU128(b: Bytes): Result<Read<U128>> { Widths(); ReadUint(b, 16) }

  function ReadBool(b: Bytes): Result<Read<bool>> {
    var x :- ReadU8(b);
    if x.value > 1 then Err else Ok(Read(x.value == 1, x.rest))
  }

  function ReadVec(b: Bytes): Result<Read<Blob>> {
    var n :- ReadU64(b);
    var t :- Take(n.rest, n.value);
    Ok(Read(t.value, t.rest))
  }

  function ReadStr(b: Bytes): Result<Read<GoString>> {
    var v :- ReadVec(b);
    Ok(Read(ToStr(v.value), v.rest))
  }

  function ReadList(b: Bytes, n: nat): (r: Result<Read<seq<GoString>>>)
    ensures r.Ok? ==> |r.value.value| == n
    decreases n
  {
    if n == 0 then Ok(Read([], b))
    else
      var x :- ReadStr(b);
      var xs :- ReadList(x.rest, n - 1);
      Ok(Read([x.value] + xs.value, xs.rest))
  }

  function ReadStrs(b: Bytes): Result<Read<Strs>> {
    var n :- ReadU64(b);
    var xs :- ReadList(n.rest, n.value);
    Ok(Read(xs.value, xs.rest))
  }

  function ReadOption<T>(read: Bytes -> Result<Read<T>>, b: Bytes): Result<Read<Option<T>>> {
    var tag :- ReadU8(b);
    if tag.value == 0 then Ok(Read(None, tag.rest))
    else if tag.value == 1 then
      var x :- read(tag.rest);
      Ok(Read(Some(x.value), x.rest))
    else Err
  }

  function ReadPricing(b: Bytes): Result<Read<Pricing>> {
    var e :- ReadBool(b);
    var p :- ReadU128(e.rest);
    var s :- ReadU32(p.rest);
    Ok(Read(Pricing(e.value, p.value, s.value), s.rest))
  }

  function ReadTee(b: Bytes): Result<Read<Tee>> {
    var v :- ReadU32(b);
    if v.value > 2 then Err
    else Ok(Read(if v.value == 0 then AwsNitro else if v.value == 1 then IntelSgx else AmdSev, v.rest))
  }

  function ReadModule(b: Bytes): Result<Read<Module>> {
    var n :- ReadStr(b);
    var h :- Take(n.rest, 32);
    var c :- ReadVec(h.rest);
    Ok(Read(Module(n.value, h.value, c.value), c.rest))
  }

  function ReadModuleList(b: Bytes, n: nat): (r: Result<Read<seq<Module>>>)
    ensures r.Ok? ==> |r.value.value| == n
    decreases n
  {
    if n == 0 then Ok(Read([], b))
    else
      var x :- ReadModule(b);
      var xs :- ReadModuleList(x.rest, n - 1);
      Ok(Read([x.value] + xs.value, xs.rest))
  }

  function ReadModules(b: Bytes): Result<Read<Modules>> {
    var n :- ReadU64(b);
    var xs :- ReadModuleList(n.rest, n.value);
    Ok(Read(xs.value, xs.rest))
  }

  function ReadExecution(b: Bytes): Result<Read<Execution>> {
    var v :- ReadU32(b);
    if v.value == 0 then Ok(Read(ConsensusExecution, v.rest))
    else if v.value == 1 then
      var r :- ReadU8(v.rest);
      Ok(Read(IndexerExecution(r.value), r.rest))
    else if v.value == 2 then
      var t :- ReadTee(v.rest);
      Ok(Read(TeeExecution(t.value), t.rest))
    else Err
  }

  function ReadIndexers(b: Bytes): Result<Read<Indexers>> {
    var lo :- ReadU8(b);
    var hi :- ReadU8(lo.rest);
    var r :- ReadU128(hi.rest);
    var e :- ReadU64(r.rest);
    var s :- ReadU128(e.rest);
    Ok(Read(Indexers(lo.value, hi.value, r.value, e.value, s.value), s.rest))
  }

  function ReadRetention(b: Bytes): Result<Read<Retention>> {
    var v :- ReadU32(b);
    if v.value == 2 then Ok(Read(Indefinite, v.rest))
    else if v.value == 3 then Ok(Read(VerifyOnly, v.rest))
    else if v.value > 3 then Err
    else
      var n :- ReadU64(v.rest);
      Ok(Read(if v.value == 0 then Blocks(n.value) else Seconds(n.value), n.rest))
  }

  function ReadWords(b: Bytes): Result<Read<Words>> {
    var p :- ReadU32(b);
    var q :- ReadU32(p.rest);
    var r :- ReadU32(q.rest);
    var s :- ReadU32(r.rest);
    Ok(Read(Words(p.value, q.value, r.value, s.value), s.rest))
  }

  function ReadCompleteness(b: Bytes): Result<Read<Completeness>> {
    var l :- ReadWords(b);
    var t :- ReadWords(l.rest);
    var d :- ReadBool(t.rest);
    var a :- ReadU128(d.rest);
    Ok(Read(Completeness(l.value, t.value, d.value, a.value), a.rest))
  }

  function ReadAuth(b: Bytes): Result<Read<AuthMode>> {
    var v :- ReadU32(b);
    if v.value > 1 then Err else Ok(Read(if v.value == 0 then BftEquivalent else CanonizedAccumulator, v.rest))
  }

  function ReadData(b: Bytes): Result<Read<Mode>> {
    var n :- ReadStr(b);
    var w :- ReadStrs(n.rest);
    var f :- ReadStrs(w.rest);
    var p :- ReadOption(ReadPricing, f.rest);
    Ok(Read(DataStorage(n.value, w.value, f.value, p.value), p.rest))
  }

  function ReadFile(b: Bytes): Result<Read<Mode>> {
    var n :- ReadStr(b);
    var s :- ReadU64(n.rest);
    var r :- ReadU8(s.rest);
    var w :- ReadStrs(r.rest);
    var f :- ReadStrs(w.rest);
    var p :- ReadOption(ReadPricing, f.rest);
    var t :- ReadU64(p.rest);
    Ok(Read(FileStorage(n.value, s.value, r.value, w.value, f.value, p.value, t.value), t.rest))
  }

  function ReadIndexing(b: Bytes): Result<Read<Mode>> {
    var m :- ReadVec(b);
    var ms :- ReadModules(m.rest);
    var e :- ReadExecution(ms.rest);
    var c :- ReadIndexers(e.rest);
    var w :- ReadRetention(c.rest);
    var k :- ReadOption(ReadCompleteness, w.rest);
    var a :- ReadAuth(k.rest);
    Ok(Read(BlockchainIndexing(m.value, ms.value, e.value, c.value, w.value, k.value, a.value), a.rest))
  }

  function ReadMode(b: Bytes): Result<Read<Mode>> {
    var v :- ReadU32(b);
    if v.value == 0 then ReadData(v.rest) else if v.value == 1 then ReadFile(v.rest)
    else if v.value == 2 then ReadIndexing(v.rest) else Err
  }

  function ReadFrequency(b: Bytes): Result<Read<Frequency>> {
    var v :- ReadU32(b);
    if v.value == 0 then Ok(Read(EveryUpdate, v.rest))
    else if v.value == 3 then Ok(Read(Never, v.rest))
    else if v.value > 3 then Err
    else
      var n :- ReadU64(v.rest);
      Ok(Read(if v.value == 1 then EveryNBlocks(n.value) else EveryNSeconds(n.value), n.rest))
  }

  function ReadPrivacy(b: Bytes): Result<Read<Privacy>> {
    var a :- ReadOption(ReadStrs, b);
    var f :- ReadFrequency(a.rest);
    Ok(Read(Privacy(a.value, f.value), f.rest))
  }

  function ReadKeyGrant(b: Bytes): Result<Read<KeyGrant>> {
    var g :- ReadStr(b);
    var e :- ReadU32(g.rest);
    var k :- ReadStr(e.rest);
    var h :- ReadVec(k.rest);
    var c :- ReadVec(h.rest);
    var from :- ReadStr(c.rest);
    var at :- ReadU64(from.rest);
    Ok(Read(KeyGrant(g.value, e.value, k.value, h.value, c.value, from.value, at.value), at.rest))
  }

  function ReadTemplate(b: Bytes): Result<Read<Template>> {
    var i :- ReadStr(b);
    var v :- ReadU32(i.rest);
    var x :- ReadStr(v.rest);
    var p :- ReadVec(x.rest);
    var c :- ReadStrs(p.rest);
    var e :- ReadStrs(c.rest);
    var h :- ReadOption(ReadStr, e.rest);
    Ok(Read(Template(i.value, v.value, x.value, p.value, c.value, e.value, h.value), h.rest))
  }

  function ReadIdentity(b: Bytes): Result<Read<Identity>> {
    var i :- ReadStr(b);
    var n :- ReadStr(i.rest);
    var d :- ReadStr(n.rest);
    var s :- ReadStr(d.rest);
    var o :- ReadStr(s.rest);
    var a :- ReadStrs(o.rest);
    Ok(Read(Identity(i.value, n.value, d.value, s.value, o.value, a.value), a.rest))
  }

  function ReadTail(b: Bytes): Result<Read<Tail>> {
    var d :- ReadU32(b);
    var s :- ReadVec(d.rest);
    var k :- ReadStr(s.rest);
    var n :- ReadU64(k.rest);
    var c :- ReadBool(n.rest);
    if s.value != [] then Err else Ok(Read(Tail(d.value, k.value, n.value, c.value), c.rest))
  }

  function ReadTx(b: Bytes): Result<Read<Tx>> {
    var i :- ReadIdentity(b);
    var f :- ReadOption(ReadU128, i.rest);
    var t :- ReadOption(ReadTee, f.rest);
    var m :- ReadMode(t.rest);
    var p :- ReadOption(ReadPrivacy, m.rest);
    var g :- ReadOption(ReadKeyGrant, p.rest);
    var c :- ReadOption(ReadTemplate, g.rest);
    var e :- ReadTail(c.rest);
    Ok(Read(Tx(i.value, f.value, t.value, m.value, p.value, g.value, c.value, e.value), e.rest))
  }

  // ----- the round trip

  lemma UintFront(n: nat, w: nat, rest: Bytes)
    requires n < Pow256(w)
    ensures ReadUint(ToLE(n, w) + rest, w) == Ok(Read(n, rest))
  {
    LEInverts(n, w);
    TakeFront(ToLE(n, w), rest);
  }

  lemma U32Front(n: U32, rest: Bytes)
    ensures ReadU32(PutU32(n, rest)) == Ok(Read(n, rest))
  {
    Widths();
    UintFront(n, 4, rest);
  }

  lemma U64Front(n: U64, rest: Bytes)
    ensures ReadU64(PutU64(n, rest)) == Ok(Read(n, rest))
  {
    Widths();
    UintFront(n, 8, rest);
  }

  lemma U128Front(n: U128, rest: Bytes)
    ensures ReadU128(PutU128(n, rest)) == Ok(Read(n, rest))
  {
    Widths();
    UintFront(n, 16, rest);
  }

  lemma U8Front(n: U8, rest: Bytes)
    ensures ReadU8([n] + rest) == Ok(Read(n, rest))
  {
    assert ([n] + rest)[1..] == rest;
  }

  lemma BoolFront(v: bool, rest: Bytes)
    ensures ReadBool(PutBool(v, rest)) == Ok(Read(v, rest))
  {
    U8Front(if v then 1 else 0, rest);
  }

  lemma VecFront(b: Blob, rest: Bytes)
    ensures ReadVec(PutVec(b, rest)) == Ok(Read(b, rest))
  {
    hide ReadU64, Take, ToLE;
    U64Front(|b|, b + rest);
    TakeFront(b, rest);
  }

  lemma StrFront(s: GoString, rest: Bytes)
    ensures ReadStr(PutStr(s, rest)) == Ok(Read(s, rest))
  {
    hide ReadVec, PutVec;
    VecFront(StrBytes(s), rest);
    ToStrInverts(s);
  }

  lemma {:induction false} ListFront(xs: seq<GoString>, rest: Bytes)
    ensures ReadList(PutList(xs, rest), |xs|) == Ok(Read(xs, rest))
    decreases |xs|
  {
    hide ReadStr, PutStr;
    if xs == [] {
    } else {
      StrFront(xs[0], PutList(xs[1..], rest));
      ListFront(xs[1..], rest);
      assert [xs[0]] + xs[1..] == xs;
    }
  }

  lemma StrsFront(xs: Strs, rest: Bytes)
    ensures ReadStrs(PutStrs(xs, rest)) == Ok(Read(xs, rest))
  {
    hide ReadU64, ReadList, PutList, ToLE;
    U64Front(|xs|, PutList(xs, rest));
    ListFront(xs, rest);
  }

  /** An option reads back if what it holds does. */
  lemma OptionFront<T>(put: (T, Bytes) -> Bytes, read: Bytes -> Result<Read<T>>, o: Option<T>, rest: Bytes)
    requires o.Some? ==> read(put(o.value, rest)) == Ok(Read(o.value, rest))
    ensures ReadOption(read, PutOption(put, o, rest)) == Ok(Read(o, rest))
  {
    match o
    case None => U8Front(0, rest);
    case Some(x) => U8Front(1, put(x, rest));
  }

  lemma PricingFront(p: Pricing, rest: Bytes)
    ensures ReadPricing(PutPricing(p, rest)) == Ok(Read(p, rest))
  {
    hide ReadBool, PutBool, ReadU128, PutU128, ReadU32, ToLE;
    var s := PutU32(p.ownerShareBps, rest);
    BoolFront(p.enabled, PutU128(p.pricePerQuery, s));
    U128Front(p.pricePerQuery, s);
    U32Front(p.ownerShareBps, rest);
  }

  lemma PricingOptionFront(o: Option<Pricing>, rest: Bytes)
    ensures ReadOption(ReadPricing, PutOption(PutPricing, o, rest)) == Ok(Read(o, rest))
  {
    hide ReadPricing, PutPricing;
    if o.Some? { PricingFront(o.value, rest); }
    OptionFront(PutPricing, ReadPricing, o, rest);
  }

  lemma TeeFront(t: Tee, rest: Bytes)
    ensures ReadTee(PutTee(t, rest)) == Ok(Read(t, rest))
  {
    hide ReadU32, ToLE;
    U32Front(TeeIndex(t), rest);
  }

  lemma ModuleFront(m: Module, rest: Bytes)
    ensures ReadModule(PutModule(m, rest)) == Ok(Read(m, rest))
  {
    hide ReadStr, PutStr, ReadVec, PutVec, Take;
    var c := PutVec(m.content, rest);
    StrFront(m.name, m.hash + c);
    TakeFront(m.hash, c);
    VecFront(m.content, rest);
  }

  lemma {:induction false} ModuleListFront(ms: seq<Module>, rest: Bytes)
    ensures ReadModuleList(PutModuleList(ms, rest), |ms|) == Ok(Read(ms, rest))
    decreases |ms|
  {
    hide ReadModule, PutModule;
    if ms == [] {
    } else {
      ModuleFront(ms[0], PutModuleList(ms[1..], rest));
      ModuleListFront(ms[1..], rest);
      assert [ms[0]] + ms[1..] == ms;
    }
  }

  lemma ModulesFront(ms: Modules, rest: Bytes)
    ensures ReadModules(PutModules(ms, rest)) == Ok(Read(ms, rest))
  {
    hide ReadU64, ReadModuleList, PutModuleList, ToLE;
    U64Front(|ms|, PutModuleList(ms, rest));
    ModuleListFront(ms, rest);
  }

  lemma ExecutionFront(e: Execution, rest: Bytes)
    ensures ReadExecution(PutExecution(e, rest)) == Ok(Read(e, rest))
  {
    hide ReadU32, ReadU8, ReadTee, PutTee, ToLE;
    match e
    case ConsensusExecution => U32Front(0, rest);
    case IndexerExecution(rate) => U32Front(1, PutU8(rate, rest)); U8Front(rate, rest);
    case TeeExecution(tee) => U32Front(2, PutTee(tee, rest)); TeeFront(tee, rest);
  }

  lemma IndexersFront(c: Indexers, rest: Bytes)
    ensures ReadIndexers(PutIndexers(c, rest)) == Ok(Read(c, rest))
  {
    hide ReadU8, ReadU64, ReadU128, PutU128, ToLE;
    var s := PutU128(c.minStake, rest);
    var e := PutU64(c.epochLength, s);
    var r := PutU128(c.rewardPerEpoch, e);
    U8Front(c.minIndexers, PutU8(c.maxIndexers, r));
    U8Front(c.maxIndexers, r);
    U128Front(c.rewardPerEpoch, e);
    U64Front(c.epochLength, s);
    U128Front(c.minStake, rest);
  }

  lemma RetentionFront(r: Retention, rest: Bytes)
    ensures ReadRetention(PutRetention(r, rest)) == Ok(Read(r, rest))
  {
    hide ReadU32, ReadU64, ToLE;
    match r
    case Blocks(n) => U32Front(0, PutU64(n, rest)); U64Front(n, rest);
    case Seconds(n) => U32Front(1, PutU64(n, rest)); U64Front(n, rest);
    case Indefinite => U32Front(2, rest);
    case VerifyOnly => U32Front(3, rest);
  }

  lemma WordsFront(w: Words, rest: Bytes)
    ensures ReadWords(PutWords(w, rest)) == Ok(Read(w, rest))
  {
    hide ReadU32, ToLE;
    var d := PutU32(w.d, rest);
    var c := PutU32(w.c, d);
    U32Front(w.a, PutU32(w.b, c));
    U32Front(w.b, c);
    U32Front(w.c, d);
    U32Front(w.d, rest);
  }

  lemma CompletenessFront(c: Completeness, rest: Bytes)
    ensures ReadCompleteness(PutCompleteness(c, rest)) == Ok(Read(c, rest))
  {
    hide ReadWords, PutWords, ReadBool, PutBool, ReadU128, PutU128;
    var a := PutU128(c.bondAmount, rest);
    var d := PutBool(c.deferred, a);
    WordsFront(c.logConfigHash, PutWords(c.txConfigHash, d));
    WordsFront(c.txConfigHash, d);
    BoolFront(c.deferred, a);
    U128Front(c.bondAmount, rest);
  }

  lemma CompletenessOptionFront(o: Option<Completeness>, rest: Bytes)
    ensures ReadOption(ReadCompleteness, PutOption(PutCompleteness, o, rest)) == Ok(Read(o, rest))
  {
    hide ReadCompleteness, PutCompleteness;
    if o.Some? { CompletenessFront(o.value, rest); }
    OptionFront(PutCompleteness, ReadCompleteness, o, rest);
  }

  lemma AuthFront(a: AuthMode, rest: Bytes)
    ensures ReadAuth(PutAuth(a, rest)) == Ok(Read(a, rest))
  {
    hide ReadU32, ToLE;
    U32Front(if a.BftEquivalent? then 0 else 1, rest);
  }

  lemma DataFront(m: Mode, rest: Bytes)
    requires m.DataStorage?
    ensures ReadData(PutData(m, rest)) == Ok(Read(m, rest))
  {
    hide ReadStr, PutStr, ReadStrs, PutStrs, ReadOption, PutOption;
    var p := PutOption(PutPricing, m.pricing, rest);
    var f := PutStrs(m.freeReaders, p);
    StrFront(m.name, PutStrs(m.writers, f));
    StrsFront(m.writers, f);
    StrsFront(m.freeReaders, p);
    PricingOptionFront(m.pricing, rest);
  }

  lemma FileFront(m: Mode, rest: Bytes)
    requires m.FileStorage?
    ensures ReadFile(PutFile(m, rest)) == Ok(Read(m, rest))
  {
    hide ReadStr, PutStr, ReadStrs, PutStrs, ReadOption, PutOption, ReadU64, ReadU8, ToLE;
    var t := PutU64(m.retentionPeriod, rest);
    var p := PutOption(PutPricing, m.pricing, t);
    var f := PutStrs(m.freeReaders, p);
    var w := PutStrs(m.writers, f);
    var r := PutU8(m.replication, w);
    StrFront(m.name, PutU64(m.maxFileSize, r));
    U64Front(m.maxFileSize, r);
    U8Front(m.replication, w);
    StrsFront(m.writers, f);
    StrsFront(m.freeReaders, p);
    PricingOptionFront(m.pricing, t);
    U64Front(m.retentionPeriod, rest);
  }

  lemma IndexingFront(m: Mode, rest: Bytes)
    requires m.BlockchainIndexing?
    ensures ReadIndexing(PutIndexing(m, rest)) == Ok(Read(m, rest))
  {
    hide ReadVec, PutVec, ReadModules, PutModules, ReadExecution, PutExecution, ReadIndexers, PutIndexers,
         ReadRetention, PutRetention, ReadOption, PutOption, ReadAuth, PutAuth;
    var a := PutAuth(m.auth, rest);
    var k := PutOption(PutCompleteness, m.completeness, a);
    var w := PutRetention(m.window, k);
    var c := PutIndexers(m.indexers, w);
    var e := PutExecution(m.execution, c);
    VecFront(m.manifest, PutModules(m.modules, e));
    ModulesFront(m.modules, e);
    ExecutionFront(m.execution, c);
    IndexersFront(m.indexers, w);
    RetentionFront(m.window, k);
    CompletenessOptionFront(m.completeness, a);
    AuthFront(m.auth, rest);
  }

  lemma ModeFront(m: Mode, rest: Bytes)
    ensures ReadMode(PutMode(m, rest)) == Ok(Read(m, rest))
  {
    hide ReadU32, ToLE, ReadData, PutData, ReadFile, PutFile, ReadIndexing, PutIndexing;
    match m
    case DataStorage(_, _, _, _) => U32Front(0, PutData(m, rest)); DataFront(m, rest);
    case FileStorage(_, _, _, _, _, _, _) => U32Front(1, PutFile(m, rest)); FileFront(m, rest);
    case BlockchainIndexing(_, _, _, _, _, _, _) => U32Front(2, PutIndexing(m, rest)); IndexingFront(m, rest);
  }

  lemma FrequencyFront(f: Frequency, rest: Bytes)
    ensures ReadFrequency(PutFrequency(f, rest)) == Ok(Read(f, rest))
  {
    hide ReadU32, ReadU64, ToLE;
    match f
    case EveryUpdate => U32Front(0, rest);
    case EveryNBlocks(n) => U32Front(1, PutU64(n, rest)); U64Front(n, rest);
    case EveryNSeconds(n) => U32Front(2, PutU64(n, rest)); U64Front(n, rest);
    case Never => U32Front(3, rest);
  }

  lemma AllowedFront(o: Option<Strs>, rest: Bytes)
    ensures ReadOption(ReadStrs, PutAllowed(o, rest)) == Ok(Read(o, rest))
  {
    hide ReadStrs, PutStrs, ReadU8;
    match o
    case None => U8Front(0, rest);
    case Some(xs) => U8Front(1, PutStrs(xs, rest)); StrsFront(xs, rest);
  }

  lemma PrivacyFront(p: Privacy, rest: Bytes)
    ensures ReadPrivacy(PutPrivacy(p, rest)) == Ok(Read(p, rest))
  {
    hide PutAllowed, ReadFrequency, PutFrequency, ReadOption;
    AllowedFront(p.allowedIndexers, PutFrequency(p.frequency, rest));
    FrequencyFront(p.frequency, rest);
  }

  lemma KeyGrantFront(g: KeyGrant, rest: Bytes)
    ensures ReadKeyGrant(PutKeyGrant(g, rest)) == Ok(Read(g, rest))
  {
    hide ReadStr, PutStr, ReadVec, PutVec, ReadU32, ReadU64, ToLE;
    var at := PutU64(g.grantedAt, rest);
    var from := PutStr(g.grantedBy, at);
    var c := PutVec(g.encryptedKey, from);
    var h := PutVec(g.ephemeralKey, c);
    var k := PutStr(g.granteeKeyId, h);
    StrFront(g.grantee, PutU32(g.keyEpoch, k));
    U32Front(g.keyEpoch, k);
    StrFront(g.granteeKeyId, h);
    VecFront(g.ephemeralKey, c);
    VecFront(g.encryptedKey, from);
    StrFront(g.grantedBy, at);
    U64Front(g.grantedAt, rest);
  }

  lemma TemplateFront(t: Template, rest: Bytes)
    ensures ReadTemplate(PutTemplate(t, rest)) == Ok(Read(t, rest))
  {
    hide ReadStr, PutStr, ReadVec, PutVec, ReadStrs, PutStrs, ReadU32, ToLE, ReadOption, PutOption;
    var h := PutOption(PutStr, t.chain, rest);
    var e := PutStrs(t.eventSignatures, h);
    var c := PutStrs(t.contracts, e);
    var p := PutVec(t.parameters, c);
    var x := PutStr(t.variantId, p);
    StrFront(t.id, PutU32(t.version, x));
    U32Front(t.version, x);
    StrFront(t.variantId, p);
    VecFront(t.parameters, c);
    StrsFront(t.contracts, e);
    StrsFront(t.eventSignatures, h);
    if t.chain.Some? { StrFront(t.chain.value, rest); }
    OptionFront(PutStr, ReadStr, t.chain, rest);
  }

  lemma IdentityFront(i: Identity, rest: Bytes)
    ensures ReadIdentity(PutIdentity(i, rest)) == Ok(Read(i, rest))
  {
    hide ReadStr, PutStr, ReadStrs, PutStrs;
    var a := PutStrs(i.admins, rest);
    var o := PutStr(i.ownerDid, a);
    var s := PutStr(i.schema, o);
    var d := PutStr(i.description, s);
    StrFront(i.subgroveId, PutStr(i.name, d));
    StrFront(i.name, d);
    StrFront(i.description, s);
    StrFront(i.schema, o);
    StrFront(i.ownerDid, a);
    StrsFront(i.admins, rest);
  }

  lemma TailFront(t: Tail, rest: Bytes)
    ensures ReadTail(PutTail(t, rest)) == Ok(Read(t, rest))
  {
    hide ReadStr, PutStr, ReadVec, PutVec, ReadU32, ReadU64, ReadBool, PutBool, ToLE;
    var c := PutBool(t.cryptographicCompleteness, rest);
    var n := PutU64(t.nonce, c);
    var k := PutStr(t.publicKeyId, n);
    U32Front(t.confirmationDepth, PutVec([], k));
    VecFront([], k);
    StrFront(t.publicKeyId, n);
    U64Front(t.nonce, c);
    BoolFront(t.cryptographicCompleteness, rest);
  }

  /** Decoding a transaction's bytes, followed by anything, gives back the transaction and what
      follows: the encoding is prefix-free, and binds every field but the signature. */
  lemma TxRoundTrip(t: Tx, rest: Bytes)
    ensures ReadTx(PutTx(t, rest)) == Ok(Read(t, rest))
  {
    hide ReadIdentity, PutIdentity, ReadOption, PutOption, ReadMode, PutMode, ReadTail, PutTail,
         ReadU128, PutU128, ReadTee, PutTee, ReadPrivacy, PutPrivacy, ReadKeyGrant, PutKeyGrant,
         ReadTemplate, PutTemplate;
    var e := PutTail(t.tail, rest);
    var c := PutOption(PutTemplate, t.template, e);
    var g := PutOption(PutKeyGrant, t.ownerKeyGrant, c);
    var p := PutOption(PutPrivacy, t.privacy, g);
    var m := PutMode(t.mode, p);
    var q := PutOption(PutTee, t.requiredTee, m);
    IdentityFront(t.identity, PutOption(PutU128, t.initialFunding, q));
    if t.initialFunding.Some? { U128Front(t.initialFunding.value, q); }
    OptionFront(PutU128, ReadU128, t.initialFunding, q);
    if t.requiredTee.Some? { TeeFront(t.requiredTee.value, m); }
    OptionFront(PutTee, ReadTee, t.requiredTee, m);
    ModeFront(t.mode, p);
    if t.privacy.Some? { PrivacyFront(t.privacy.value, g); }
    OptionFront(PutPrivacy, ReadPrivacy, t.privacy, g);
    if t.ownerKeyGrant.Some? { KeyGrantFront(t.ownerKeyGrant.value, c); }
    OptionFront(PutKeyGrant, ReadKeyGrant, t.ownerKeyGrant, c);
    if t.template.Some? { TemplateFront(t.template.value, e); }
    OptionFront(PutTemplate, ReadTemplate, t.template, e);
    TailFront(t.tail, rest);
  }
}
