/** The readers of consensus/register_subgrove.go: a RegisterSubgrove transaction from its JSON, with
the values the chain fills in for the fields it leaves out.

A JSON value is what the source's decoder gives: numbers keep their text, and a repeated key is
gone. A Go slice is never 2^64 long, so an array that long is refused here. */
module RegisterJson {
  import opened Bytes
  import opened Bincode
  import opened BincodeAppend
  import opened Uint128s

  datatype Json =
    | Null
    | Bool(v: bool)
    | Num(text: string)
    | Str(s: GoString)
    | Arr(items: seq<Json>)
    | Obj(fields: map<string, Json>)

  type Fields = map<string, Json>

  // ----- values

  function AsObject(j: Json): Result<Fields> { if j.Obj? then Ok(j.fields) else Err }

  function Get(o: Fields, name: string): Result<Json> { if name in o then Ok(o[name]) else Err }

  function AsString(j: Json): Result<GoString> { if j.Str? then Ok(j.s) else Err }

  function StringItems(items: seq<Json>): (r: Result<seq<GoString>>)
    ensures r.Ok? ==> |r.value| == |items|
  {
    if items == [] then Ok([])
    else
      var x :- AsString(items[0]);
      var xs :- StringItems(items[1..]);
      Ok([x] + xs)
  }

  function AsStrings(j: Json): Result<Strs> {
    if !j.Arr? || |j.items| >= TWO64 then Err
    else
      var xs :- StringItems(j.items);
      Ok(xs)
  }

  /** A number whose text is decimal digits below the limit. */
  function AsUint(j: Json, limit: nat): (r: Result<nat>)
    ensures r.Ok? ==> r.value < limit
  {
    if j.Num? && j.text != "" && AllDigits(j.text) && Decimal(j.text) < limit then Ok(Decimal(j.text)) else Err
  }

  function U128Text(text: string): Result<U128> {
    if text != "" && AllDigits(text) && Decimal(text) < TWO128 then Ok(Decimal(text)) else Err
  }

  function AsU128(j: Json, stringToo: bool): Result<U128> {
    if j.Num? then U128Text(j.text) else if j.Str? && stringToo then U128Text(j.s) else Err
  }

  function ByteItems(items: seq<Json>): (r: Result<Bytes>)
    ensures r.Ok? ==> |r.value| == |items|
  {
    if items == [] then Ok([])
    else
      var x :- AsUint(items[0], 256);
      var xs :- ByteItems(items[1..]);
      Ok([x] + xs)
  }

  function AsBytes(j: Json): Result<Blob> {
    if !j.Arr? || |j.items| >= TWO64 then Err
    else
      var b :- ByteItems(j.items);
      Ok(b)
  }

  // ----- fields

  function StrField(o: Fields, name: string): Result<GoString> {
    var v :- Get(o, name);
    AsString(v)
  }

  function StrOr(o: Fields, name: string, default: GoString): Result<GoString> {
    if name in o then AsString(o[name]) else Ok(default)
  }

  function StrsField(o: Fields, name: string): Result<Strs> {
    var v :- Get(o, name);
    AsStrings(v)
  }

  function StrsOrEmpty(o: Fields, name: string): Result<Strs> {
    if name in o then AsStrings(o[name]) else Ok([])
  }

  function UintField(o: Fields, name: string, limit: nat): (r: Result<nat>)
    ensures r.Ok? ==> r.value < limit
  {
    var v :- Get(o, name);
    AsUint(v, limit)
  }

  function UintOr(o: Fields, name: string, limit: nat, default: nat): (r: Result<nat>)
    requires default < limit
    ensures r.Ok? ==> r.value < limit
  {
    if name in o then AsUint(o[name], limit) else Ok(default)
  }

  function U128Field(o: Fields, name: string, stringToo: bool): Result<U128> {
    var v :- Get(o, name);
    AsU128(v, stringToo)
  }

  function BoolOr(o: Fields, name: string, default: bool): Result<bool> {
    if name !in o then Ok(default) else if o[name].Bool? then Ok(o[name].v) else Err
  }

  function BoolField(o: Fields, name: string): Result<bool> {
    if name !in o then Err else BoolOr(o, name, false)
  }

  function BytesField(o: Fields, name: string): Result<Blob> {
    var v :- Get(o, name);
    AsBytes(v)
  }

  /** Absent or null is none. */
  predicate Present(o: Fields, name: string) { name in o && o[name] != Null }

  function Opt<T>(o: Fields, name: string, read: Json -> Result<T>): Result<Option<T>> {
    if !Present(o, name) then Ok(None)
    else
      var x :- read(o[name]);
      Ok(Some(x))
  }

  // ----- enums

  datatype Parts = Parts(name: string, payload: Json)

  lemma OneKey(o: Fields)
    requires |o| == 1
    ensures exists k :: k in o && forall j :: j in o ==> j == k
  {
    var k :| k in o.Keys;
    assert |o.Keys - {k}| == 0;
    assert o.Keys == (o.Keys - {k}) + {k};
  }

  /** enumParts: "Variant", or an object of one member. */
  function EnumParts(j: Json): Result<Parts> {
    match j
    case Str(s) => Ok(Parts(s, Null))
    case Obj(o) =>
      if |o| != 1 then Err
      else
        OneKey(o);
        var k :| k in o && forall i :: i in o ==> i == k;
        Ok(Parts(k, o[k]))
    case _ => Err
  }

  /** The index of a variant's name. */
  function IndexOf(name: string, variants: seq<string>): (r: Result<nat>)
    ensures r.Ok? ==> r.value < |variants| && variants[r.value] == name
    ensures r.Err? <==> name !in variants
  {
    if variants == [] then Err
    else if variants[0] == name then Ok(0)
    else
      var i :- IndexOf(name, variants[1..]);
      Ok(i + 1)
  }

  const TEE_TYPES: seq<string> := ["AwsNitro", "IntelSgx", "AmdSev"]
  const MODES: seq<string> := ["DataStorage", "FileStorage", "BlockchainIndexing"]
  const FREQUENCIES: seq<string> := ["EveryUpdate", "EveryNBlocks", "EveryNSeconds", "Never"]
  const EXECUTIONS: seq<string> := ["ConsensusExecution", "IndexerExecution", "TeeExecution"]
  const RETENTIONS: seq<string> := ["Blocks", "Seconds", "Indefinite", "VerifyOnly"]
  const AUTH_MODES: seq<string> := ["BftEquivalent", "CanonizedAccumulator"]

  function TeeAt(i: nat): Tee { if i == 0 then AwsNitro else if i == 1 then IntelSgx else AmdSev }

  function UnitVariant(j: Json, variants: seq<string>): (r: Result<nat>)
    ensures r.Ok? ==> r.value < |variants|
  {
    if j.Str? then IndexOf(j.s, variants) else Err
  }

  function TeeOf(j: Json): Result<Tee> {
    var i :- UnitVariant(j, TEE_TYPES);
    Ok(TeeAt(i))
  }

  // ----- the parts of a transaction

  function PricingOf(j: Json): Result<Pricing> {
    var o :- AsObject(j);
    var e :- BoolField(o, "enabled");
    var p :- U128Field(o, "price_per_query", false);
    var s :- UintField(o, "owner_revenue_share_bps", TWO32);
    Ok(Pricing(e, p, s))
  }

  /** The chain also reads free_readers from "readers", but not from both. */
  function FreeReaders(m: Fields): Result<Strs> {
    if "free_readers" in m && "readers" in m then Err
    else if "readers" in m then AsStrings(m["readers"])
    else if "free_readers" in m then AsStrings(m["free_readers"])
    else Err
  }

  function DataOf(m: Fields): (r: Result<Mode>)
    ensures r.Ok? ==> r.value.DataStorage?
  {
    var n :- StrField(m, "name");
    var w :- StrsField(m, "writers");
    var f :- FreeReaders(m);
    var p :- Opt(m, "read_pricing", PricingOf);
    Ok(DataStorage(n, w, f, p))
  }

  function FileOf(m: Fields): (r: Result<Mode>)
    ensures r.Ok? ==> r.value.FileStorage?
  {
    var n :- StrField(m, "name");
    var s :- UintField(m, "max_file_size", TWO64);
    var r :- UintField(m, "replication_factor", 256);
    var w :- StrsField(m, "writers");
    var f :- StrsField(m, "free_readers");
    var p :- Opt(m, "read_pricing", PricingOf);
    var t :- UintOr(m, "retention_period", TWO64, 0);
    Ok(FileStorage(n, s, r, w, f, p, t))
  }

  function ModuleOf(j: Json): Result<Module> {
    var o :- AsObject(j);
    var n :- StrField(o, "name");
    var h :- BytesField(o, "hash");
    var c :- BytesField(o, "content");
    if |h| != 32 then Err else Ok(Module(n, h, c))
  }

  function ModuleItems(items: seq<Json>): (r: Result<seq<Module>>)
    ensures r.Ok? ==> |r.value| == |items|
  {
    if items == [] then Ok([])
    else
      var x :- ModuleOf(items[0]);
      var xs :- ModuleItems(items[1..]);
      Ok([x] + xs)
  }

  /** The array of modules, which may be left out. */
  function ModuleArray(m: Fields): (r: Result<seq<Json>>)
    ensures r.Ok? ==> |r.value| < TWO64
  {
    if "wasm_modules" !in m then Ok([])
    else if m["wasm_modules"].Arr? && |m["wasm_modules"].items| < TWO64 then Ok(m["wasm_modules"].items)
    else Err
  }

  function ModulesOf(m: Fields): Result<Modules> {
    var items :- ModuleArray(m);
    var ms :- ModuleItems(items);
    Ok(ms)
  }

  function ExecutionOf(m: Fields): Result<Execution> {
    var v :- Get(m, "execution_mode");
    var p :- EnumParts(v);
    ExecutionAt(p)
  }

  function ExecutionAt(p: Parts): Result<Execution> {
    var i :- IndexOf(p.name, EXECUTIONS);
    if i == 0 then Ok(ConsensusExecution)
    else
      var o :- AsObject(p.payload);
      if i == 1 then
        var r :- UintField(o, "sampling_rate_percent", 256);
        Ok(IndexerExecution(r))
      else
        var tv :- Get(o, "tee_type");
        var t :- TeeOf(tv);
        Ok(TeeExecution(t))
  }

  const DEFAULT_EPOCH_LENGTH: nat := 100

  function IndexersOf(m: Fields): Result<Indexers> {
    var v :- Get(m, "indexer_config");
    var o :- AsObject(v);
    var lo :- UintField(o, "min_indexers", 256);
    var hi :- UintField(o, "max_indexers", 256);
    var r :- U128Field(o, "reward_per_epoch", true);
    var e :- UintOr(o, "epoch_length", TWO64, DEFAULT_EPOCH_LENGTH);
    var s :- U128Field(o, "min_indexer_stake", true);
    Ok(Indexers(lo, hi, r, e, s))
  }

  function RetentionOf(m: Fields): Result<Retention> {
    if "retention_window" !in m then Ok(Indefinite)
    else
      var p :- EnumParts(m["retention_window"]);
      RetentionAt(p)
  }

  function RetentionAt(p: Parts): Result<Retention> {
    var i :- IndexOf(p.name, RETENTIONS);
    if i == 2 then Ok(Indefinite)
    else if i == 3 then Ok(VerifyOnly)
    else
      var n :- AsUint(p.payload, TWO64);
      Ok(if i == 0 then Blocks(n) else Seconds(n))
  }

  function WordsField(o: Fields, name: string): Result<Words> {
    var v :- Get(o, name);
    if !v.Arr? || |v.items| != 4 then Err
    else
      var a :- AsUint(v.items[0], TWO32);
      var b :- AsUint(v.items[1], TWO32);
      var c :- AsUint(v.items[2], TWO32);
      var d :- AsUint(v.items[3], TWO32);
      Ok(Words(a, b, c, d))
  }

  function CompletenessOf(j: Json): Result<Completeness> {
    var o :- AsObject(j);
    var l :- WordsField(o, "log_config_hash");
    var t :- WordsField(o, "tx_config_hash");
    var d :- BoolOr(o, "deferred", false);
    if "bond_amount" !in o then Ok(Completeness(l, t, d, 0))
    else
      var b :- AsU128(o["bond_amount"], false);
      Ok(Completeness(l, t, d, b))
  }

  function AuthOf(m: Fields): Result<AuthMode> {
    if "historical_auth_mode" !in m then Ok(BftEquivalent)
    else
      var i :- UnitVariant(m["historical_auth_mode"], AUTH_MODES);
      Ok(if i == 0 then BftEquivalent else CanonizedAccumulator)
  }

  function IndexingOf(m: Fields): (r: Result<Mode>)
    ensures r.Ok? ==> r.value.BlockchainIndexing?
  {
    var b :- BytesField(m, "manifest_content");
    var ms :- ModulesOf(m);
    var e :- ExecutionOf(m);
    var c :- IndexersOf(m);
    var w :- RetentionOf(m);
    var k :- Opt(m, "completeness", CompletenessOf);
    var a :- AuthOf(m);
    Ok(BlockchainIndexing(b, ms, e, c, w, k, a))
  }

  function ModeOf(j: Json): Result<Mode> {
    var p :- EnumParts(j);
    ModeAt(p)
  }

  function ModeAt(p: Parts): Result<Mode> {
    var i :- IndexOf(p.name, MODES);
    var m :- AsObject(p.payload);
    if i == 0 then DataOf(m) else if i == 1 then FileOf(m) else IndexingOf(m)
  }

  const DEFAULT_MODE := DataStorage("", [], [], None)

  function FrequencyOf(o: Fields): Result<Frequency> {
    var v :- Get(o, "commitment_frequency");
    var p :- EnumParts(v);
    FrequencyAt(p)
  }

  function FrequencyAt(p: Parts): Result<Frequency> {
    var i :- IndexOf(p.name, FREQUENCIES);
    if i == 0 then Ok(EveryUpdate)
    else if i == 3 then Ok(Never)
    else
      var n :- AsUint(p.payload, TWO64);
      Ok(if i == 1 then EveryNBlocks(n) else EveryNSeconds(n))
  }

  function PrivacyOf(j: Json): Result<Privacy> {
    var o :- AsObject(j);
    var a :- Opt(o, "allowed_indexers", AsStrings);
    var f :- FrequencyOf(o);
    Ok(Privacy(a, f))
  }

  function KeyGrantOf(j: Json): Result<KeyGrant> {
    var o :- AsObject(j);
    var g :- StrField(o, "grantee_did");
    var e :- UintField(o, "key_epoch", TWO32);
    var k :- StrField(o, "grantee_public_key_id");
    var h :- BytesField(o, "ephemeral_public_key");
    var c :- BytesField(o, "encrypted_key");
    var from :- StrField(o, "granted_by");
    var at :- UintField(o, "granted_at", TWO64);
    Ok(KeyGrant(g, e, k, h, c, from, at))
  }

  function TemplateOf(j: Json): Result<Template> {
    var o :- AsObject(j);
    var i :- StrField(o, "template_id");
    var v :- UintField(o, "template_version", TWO32);
    var x :- StrField(o, "variant_id");
    var p :- BytesField(o, "parameters");
    var c :- StrsField(o, "contracts");
    var e :- StrsField(o, "event_signatures");
    var h :- Opt(o, "chain", AsString);
    Ok(Template(i, v, x, p, c, e, h))
  }

  function IdentityOf(t: Fields): Result<Identity> {
    var i :- StrField(t, "subgrove_id");
    var n :- StrField(t, "name");
    var d :- StrOr(t, "description", "");
    var s :- StrField(t, "schema");
    var o :- StrField(t, "owner_did");
    var a :- StrsOrEmpty(t, "admins");
    Ok(Identity(i, n, d, s, o, a))
  }

  function FundingOf(j: Json): Result<U128> { AsU128(j, true) }

  function RequiredTee(t: Fields): Result<Option<Tee>> {
    if "checkpoint_verification" !in t then Ok(None)
    else
      var c :- AsObject(t["checkpoint_verification"]);
      Opt(c, "required_tee", TeeOf)
  }

  function ModeOrDefault(t: Fields): Result<Mode> {
    if "mode" in t then ModeOf(t["mode"]) else Ok(DEFAULT_MODE)
  }

  /** The signature must be there, but is not part of what is hashed. */
  function TailOf(t: Fields): Result<Tail> {
    var d :- UintOr(t, "confirmation_depth", TWO32, 0);
    var s :- BytesField(t, "signature");
    var k :- StrField(t, "public_key_id");
    var n :- UintField(t, "nonce", TWO64);
    var c :- BoolOr(t, "cryptographic_completeness", false);
    Ok(Tail(d, k, n, c))
  }

  /** The transaction a JSON value denotes, if the chain would read one from it. */
  function TxOf(j: Json): Result<Tx> {
    var t :- AsObject(j);
    var i :- IdentityOf(t);
    var f :- Opt(t, "initial_funding", FundingOf);
    var q :- RequiredTee(t);
    var m :- ModeOrDefault(t);
    var p :- Opt(t, "privacy", PrivacyOf);
    var g :- Opt(t, "initial_owner_key_grant", KeyGrantOf);
    var c :- Opt(t, "template_config", TemplateOf);
    var e :- TailOf(t);
    Ok(Tx(i, f, q, m, p, g, c, e))
  }

  /** The bytes a registration's Config hashes. */
  function UnsignedBincode(j: Json): Result<Bytes> {
    var t :- TxOf(j);
    Ok(PutTx(t, []))
  }

  /** Two accepted JSON values give equal bytes exactly when they denote the same transaction, up to
      its signature. */
  lemma BincodeBindsTheTransaction(a: Json, b: Json)
    ensures UnsignedBincode(a).Ok? && UnsignedBincode(b).Ok? ==>
              (UnsignedBincode(a) == UnsignedBincode(b) <==> TxOf(a) == TxOf(b))
  {
    hide TxOf, ReadTx, PutTx;
    if UnsignedBincode(a).Ok? && UnsignedBincode(b).Ok? {
      TxRoundTrip(TxOf(a).value, []);
      TxRoundTrip(TxOf(b).value, []);
    }
  }

  /** And no accepted value's bytes begin those of one that denotes another. */
  lemma BincodeIsPrefixFree(a: Json, b: Json)
    ensures UnsignedBincode(a).Ok? && UnsignedBincode(b).Ok? ==>
              (UnsignedBincode(a).value <= UnsignedBincode(b).value <==> TxOf(a) == TxOf(b))
  {
    hide TxOf, ReadTx, PutTx;
    if UnsignedBincode(a).Ok? && UnsignedBincode(b).Ok? && UnsignedBincode(a).value <= UnsignedBincode(b).value {
      var x, y := UnsignedBincode(a).value, UnsignedBincode(b).value;
      var rest := y[|x|..];
      assert y == x + rest;
      TxAppends(TxOf(a).value, [], rest);
      assert [] + rest == rest;
      TxRoundTrip(TxOf(a).value, rest);
      TxRoundTrip(TxOf(b).value, []);
    }
  }
}
