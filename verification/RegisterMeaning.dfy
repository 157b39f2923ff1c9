/** What the JSON of a RegisterSubgrove transaction says, field by field: the names the chain reads, the
values under them, and what a field left out stands for (consensus/register_subgrove.go:11-26).

`Is…` predicates relate a JSON value to what it denotes, without the readers. The readers are proved
to accept exactly the values that denote something, and to read exactly what they denote. */
module RegisterMeaning {
  import opened Bytes
  import opened Bincode
  import opened Uint128s
  import opened RegisterJson

  // ----- values

  predicate Spells(text: string, n: nat) { text != "" && AllDigits(text) && Decimal(text) == n }

  predicate IsNat(j: Json, n: nat) { j.Num? && Spells(j.text, n) }

  /** Where the chain takes one, a decimal string will do. */
  predicate IsAmount(j: Json, n: nat, stringToo: bool) {
    IsNat(j, n) || (stringToo && j.Str? && Spells(j.s, n))
  }

  predicate IsStrs(j: Json, xs: seq<GoString>) {
    j.Arr? && |j.items| == |xs| && forall i :: 0 <= i < |xs| ==> j.items[i] == Str(xs[i])
  }

  predicate IsBytes(j: Json, b: Bytes) {
    j.Arr? && |j.items| == |b| && forall i :: 0 <= i < |b| ==> IsNat(j.items[i], b[i])
  }

  predicate SaysStr(o: Fields, name: string, s: GoString) { name in o && o[name] == Str(s) }

  predicate SaysStrs(o: Fields, name: string, xs: seq<GoString>) { name in o && IsStrs(o[name], xs) }

  predicate SaysNat(o: Fields, name: string, n: nat) { name in o && IsNat(o[name], n) }

  predicate SaysAmount(o: Fields, name: string, n: nat, stringToo: bool) {
    name in o && IsAmount(o[name], n, stringToo)
  }

  predicate SaysBool(o: Fields, name: string, b: bool) { name in o && o[name] == Bool(b) }

  predicate SaysBytes(o: Fields, name: string, b: Bytes) { name in o && IsBytes(o[name], b) }

  /** Null says nothing, as does leaving the field out. */
  predicate SaysNothing(o: Fields, name: string) { name !in o || o[name] == Null }

  lemma {:induction false} StringItemsMean(items: seq<Json>, xs: seq<GoString>)
    ensures StringItems(items) == Ok(xs) <==> |items| == |xs| && forall i :: 0 <= i < |xs| ==> items[i] == Str(xs[i])
    decreases |items|
  {
    if items == [] || xs == [] {
    } else {
      StringItemsMean(items[1..], xs[1..]);
      assert xs == [xs[0]] + xs[1..];
      if |items| == |xs| && forall i :: 0 <= i < |xs| ==> items[i] == Str(xs[i]) {
        assert forall i :: 0 <= i < |xs[1..]| ==> items[1..][i] == Str(xs[1..][i]);
      }
      if StringItems(items) == Ok(xs) {
        assert [AsString(items[0]).value] + StringItems(items[1..]).value == [xs[0]] + xs[1..];
        SplitEqual([AsString(items[0]).value], StringItems(items[1..]).value, [xs[0]], xs[1..]);
        forall i | 0 <= i < |xs| ensures items[i] == Str(xs[i]) {
          if i > 0 { assert items[1..][i - 1] == Str(xs[1..][i - 1]); }
        }
      }
    }
  }

  lemma StrsMean(j: Json, xs: Strs)
    ensures AsStrings(j) == Ok(xs) <==> IsStrs(j, xs)
  {
    if j.Arr? { StringItemsMean(j.items, xs); }
    hide StringItems;
  }

  lemma UintMeans(j: Json, limit: nat, n: nat)
    requires n < limit
    ensures AsUint(j, limit) == Ok(n) <==> IsNat(j, n)
  {
    hide Decimal;
  }

  lemma AmountMeans(j: Json, stringToo: bool, n: U128)
    ensures AsU128(j, stringToo) == Ok(n) <==> IsAmount(j, n, stringToo)
  {
    hide Decimal;
  }

  lemma {:induction false} ByteItemsMean(items: seq<Json>, b: Bytes)
    ensures ByteItems(items) == Ok(b) <==> |items| == |b| && forall i :: 0 <= i < |b| ==> IsNat(items[i], b[i])
    decreases |items|
  {
    hide AsUint, IsNat;
    if items == [] || b == [] {
    } else {
      ByteItemsMean(items[1..], b[1..]);
      UintMeans(items[0], 256, b[0]);
      assert b == [b[0]] + b[1..];
      if |items| == |b| && forall i :: 0 <= i < |b| ==> IsNat(items[i], b[i]) {
        assert forall i :: 0 <= i < |b[1..]| ==> IsNat(items[1..][i], b[1..][i]);
      }
      if ByteItems(items) == Ok(b) {
        SplitEqual([AsUint(items[0], 256).value], ByteItems(items[1..]).value, [b[0]], b[1..]);
        forall i | 0 <= i < |b| ensures IsNat(items[i], b[i]) {
          if i > 0 { assert IsNat(items[1..][i - 1], b[1..][i - 1]); }
        }
      }
    }
  }

  lemma BytesMean(j: Json, b: Blob)
    ensures AsBytes(j) == Ok(b) <==> IsBytes(j, b)
  {
    if j.Arr? { ByteItemsMean(j.items, b); }
    hide ByteItems, IsNat;
  }

  // ----- fields

  lemma StrFieldMeans(o: Fields, name: string, s: GoString)
    ensures StrField(o, name) == Ok(s) <==> SaysStr(o, name, s)
  {
  }

  lemma StrsFieldMeans(o: Fields, name: string, xs: Strs)
    ensures StrsField(o, name) == Ok(xs) <==> SaysStrs(o, name, xs)
  {
    if name in o { StrsMean(o[name], xs); }
    hide AsStrings, IsStrs;
  }

  lemma UintFieldMeans(o: Fields, name: string, limit: nat, n: nat)
    requires n < limit
    ensures UintField(o, name, limit) == Ok(n) <==> SaysNat(o, name, n)
  {
    if name in o { UintMeans(o[name], limit, n); }
    hide AsUint, IsNat;
  }

  lemma UintOrMeans(o: Fields, name: string, limit: nat, default: nat, n: nat)
    requires n < limit && default < limit
    ensures UintOr(o, name, limit, default) == Ok(n) <==> if name in o then IsNat(o[name], n) else n == default
  {
    if name in o { UintMeans(o[name], limit, n); }
    hide AsUint, IsNat;
  }

  lemma U128FieldMeans(o: Fields, name: string, stringToo: bool, n: U128)
    ensures U128Field(o, name, stringToo) == Ok(n) <==> SaysAmount(o, name, n, stringToo)
  {
    if name in o { AmountMeans(o[name], stringToo, n); }
    hide AsU128, IsAmount;
  }

  lemma BytesFieldMeans(o: Fields, name: string, b: Blob)
    ensures BytesField(o, name) == Ok(b) <==> SaysBytes(o, name, b)
  {
    if name in o { BytesMean(o[name], b); }
    hide AsBytes, IsBytes;
  }

  lemma BoolFieldMeans(o: Fields, name: string, b: bool)
    ensures BoolField(o, name) == Ok(b) <==> SaysBool(o, name, b)
  {
  }

  lemma BoolOrMeans(o: Fields, name: string, default: bool, b: bool)
    ensures BoolOr(o, name, default) == Ok(b) <==> if name in o then o[name] == Bool(b) else b == default
  {
  }

  /** An option says nothing, or a value that is not null. */
  predicate SaysOption<T(!new)>(o: Fields, name: string, x: Option<T>, isValue: (Json, T) -> bool) {
    if x.None? then SaysNothing(o, name) else !SaysNothing(o, name) && isValue(o[name], x.value)
  }

  lemma OptionMeans<T(!new)>(o: Fields, name: string, read: Json -> Result<T>, isValue: (Json, T) -> bool, x: Option<T>)
    requires !SaysNothing(o, name) && x.Some? ==> (read(o[name]) == Ok(x.value) <==> isValue(o[name], x.value))
    ensures Opt(o, name, read) == Ok(x) <==> SaysOption(o, name, x, isValue)
  {
  }

  // ----- enums

  /** A variant is its name, or an object of it alone. */
  predicate HasTag(j: Json, name: string) { (j.Str? && j.s == name) || (j.Obj? && j.fields.Keys == {name}) }

  /** What a variant carries, if anything. */
  function Payload(j: Json, name: string): Json {
    if j.Obj? && name in j.fields then j.fields[name] else Null
  }

  lemma TagMeans(j: Json, name: string)
    ensures EnumParts(j).Ok? && EnumParts(j).value.name == name <==> HasTag(j, name)
    ensures HasTag(j, name) ==> EnumParts(j) == Ok(Parts(name, Payload(j, name)))
  {
    if j.Obj? && j.fields.Keys == {name} {
      assert |j.fields.Keys| == 1;
      assert |j.fields| == 1;
    }
    if j.Obj? && |j.fields| == 1 {
      OneKey(j.fields);
      var k :| k in j.fields && forall i :: i in j.fields ==> i == k;
      assert j.fields.Keys == {k};
    }
  }

  /** Which name a variant has, if it has one of these. */
  lemma TagOf(j: Json)
    ensures EnumParts(j).Ok? ==> HasTag(j, EnumParts(j).value.name)
  {
    if EnumParts(j).Ok? { TagMeans(j, EnumParts(j).value.name); }
  }

  lemma TeeIndexes(name: string)
    ensures IndexOf(name, TEE_TYPES) ==
            if name == "AwsNitro" then Ok(0)
            else if name == "IntelSgx" then Ok(1)
            else if name == "AmdSev" then Ok(2)
            else Err
  {
  }

  function TeeName(t: Tee): GoString {
    match t case AwsNitro => "AwsNitro" case IntelSgx => "IntelSgx" case AmdSev => "AmdSev"
  }

  predicate IsTee(j: Json, t: Tee) { j == Str(TeeName(t)) }

  lemma TeeMeans(j: Json, t: Tee)
    ensures TeeOf(j) == Ok(t) <==> IsTee(j, t)
  {
    if j.Str? { TeeIndexes(j.s); }
    hide IndexOf;
  }

  // ----- modes

  predicate IsPricing(j: Json, p: Pricing) {
    && j.Obj? && SaysBool(j.fields, "enabled", p.enabled)
    && SaysAmount(j.fields, "price_per_query", p.pricePerQuery, false)
    && SaysNat(j.fields, "owner_revenue_share_bps", p.ownerShareBps)
  }

  lemma PricingMeans(j: Json, p: Pricing)
    ensures PricingOf(j) == Ok(p) <==> IsPricing(j, p)
  {
    if j.Obj? {
      BoolFieldMeans(j.fields, "enabled", p.enabled);
      U128FieldMeans(j.fields, "price_per_query", false, p.pricePerQuery);
      UintFieldMeans(j.fields, "owner_revenue_share_bps", TWO32, p.ownerShareBps);
    }
    hide BoolField, U128Field, UintField, SaysBool, SaysAmount, SaysNat;
  }

  lemma PricingOptionMeans(o: Fields, x: Option<Pricing>)
    ensures Opt(o, "read_pricing", PricingOf) == Ok(x) <==> SaysOption(o, "read_pricing", x, IsPricing)
  {
    if !SaysNothing(o, "read_pricing") && x.Some? { PricingMeans(o["read_pricing"], x.value); }
    hide PricingOf, IsPricing;
    OptionMeans(o, "read_pricing", PricingOf, IsPricing, x);
  }

  /** Under one name or the other, not both. */
  predicate SaysFreeReaders(o: Fields, xs: Strs) {
    || (SaysStrs(o, "free_readers", xs) && "readers" !in o)
    || (SaysStrs(o, "readers", xs) && "free_readers" !in o)
  }

  lemma FreeReadersMean(o: Fields, xs: Strs)
    ensures FreeReaders(o) == Ok(xs) <==> SaysFreeReaders(o, xs)
  {
    if "free_readers" in o { StrsMean(o["free_readers"], xs); }
    if "readers" in o { StrsMean(o["readers"], xs); }
    hide AsStrings, IsStrs;
  }

  predicate IsData(o: Fields, m: Mode)
    requires m.DataStorage?
  {
    && SaysStr(o, "name", m.name) && SaysStrs(o, "writers", m.writers) && SaysFreeReaders(o, m.freeReaders)
    && SaysOption(o, "read_pricing", m.pricing, IsPricing)
  }

  lemma DataMeans(o: Fields, m: Mode)
    ensures DataOf(o) == Ok(m) <==> m.DataStorage? && IsData(o, m)
  {
    if m.DataStorage? {
      StrFieldMeans(o, "name", m.name);
      StrsFieldMeans(o, "writers", m.writers);
      FreeReadersMean(o, m.freeReaders);
      PricingOptionMeans(o, m.pricing);
    }
    hide StrField, StrsField, FreeReaders, Opt, SaysStr, SaysStrs, SaysFreeReaders, SaysOption;
  }

  predicate IsFile(o: Fields, m: Mode)
    requires m.FileStorage?
  {
    && SaysStr(o, "name", m.name) && SaysNat(o, "max_file_size", m.maxFileSize)
    && SaysNat(o, "replication_factor", m.replication)
    && SaysStrs(o, "writers", m.writers) && SaysStrs(o, "free_readers", m.freeReaders)
    && SaysOption(o, "read_pricing", m.pricing, IsPricing)
    && (if "retention_period" in o then IsNat(o["retention_period"], m.retentionPeriod) else m.retentionPeriod == 0)
  }

  lemma FileMeans(o: Fields, m: Mode)
    ensures FileOf(o) == Ok(m) <==> m.FileStorage? && IsFile(o, m)
  {
    if m.FileStorage? {
      StrFieldMeans(o, "name", m.name);
      UintFieldMeans(o, "max_file_size", TWO64, m.maxFileSize);
      UintFieldMeans(o, "replication_factor", 256, m.replication);
      StrsFieldMeans(o, "writers", m.writers);
      StrsFieldMeans(o, "free_readers", m.freeReaders);
      PricingOptionMeans(o, m.pricing);
      UintOrMeans(o, "retention_period", TWO64, 0, m.retentionPeriod);
    }
    hide StrField, StrsField, UintField, UintOr, Opt, SaysStr, SaysStrs, SaysNat, IsNat, SaysOption;
  }

  predicate IsModule(j: Json, m: Module) {
    && j.Obj? && SaysStr(j.fields, "name", m.name) && SaysBytes(j.fields, "hash", m.hash)
    && SaysBytes(j.fields, "content", m.content)
  }

  lemma ModuleMeans(j: Json, m: Module)
    ensures ModuleOf(j) == Ok(m) <==> IsModule(j, m)
  {
    if j.Obj? {
      StrFieldMeans(j.fields, "name", m.name);
      BytesFieldMeans(j.fields, "hash", m.hash);
      BytesFieldMeans(j.fields, "content", m.content);
    }
    hide StrField, BytesField, SaysStr, SaysBytes;
  }

  predicate AreModules(items: seq<Json>, ms: seq<Module>) {
    |items| == |ms| && forall i :: 0 <= i < |ms| ==> IsModule(items[i], ms[i])
  }

  lemma {:induction false} ModuleItemsMean(items: seq<Json>, ms: seq<Module>)
    ensures ModuleItems(items) == Ok(ms) <==> AreModules(items, ms)
    decreases |items|
  {
    hide ModuleOf, IsModule;
    if items == [] || ms == [] {
    } else {
      ModuleItemsMean(items[1..], ms[1..]);
      ModuleMeans(items[0], ms[0]);
      assert ms == [ms[0]] + ms[1..];
      if ModuleItems(items) == Ok(ms) {
        SplitEqual([ModuleOf(items[0]).value], ModuleItems(items[1..]).value, [ms[0]], ms[1..]);
        forall i | 0 <= i < |ms| ensures IsModule(items[i], ms[i]) {
          if i > 0 { assert IsModule(items[1..][i - 1], ms[1..][i - 1]); }
        }
      }
    }
  }

  predicate SaysModules(o: Fields, ms: seq<Module>) {
    if "wasm_modules" in o then o["wasm_modules"].Arr? && AreModules(o["wasm_modules"].items, ms) else ms == []
  }

  lemma ModulesMean(o: Fields, ms: Modules)
    ensures ModulesOf(o) == Ok(ms) <==> SaysModules(o, ms)
  {
    if "wasm_modules" in o && o["wasm_modules"].Arr? { ModuleItemsMean(o["wasm_modules"].items, ms); }
    ModuleItemsMean([], ms);
    hide ModuleItems, IsModule;
  }

  lemma ExecutionIndexes(name: string)
    ensures IndexOf(name, EXECUTIONS) ==
            if name == "ConsensusExecution" then Ok(0)
            else if name == "IndexerExecution" then Ok(1)
            else if name == "TeeExecution" then Ok(2)
            else Err
  {
  }

  predicate IsExecution(j: Json, e: Execution) {
    match e
    case ConsensusExecution => HasTag(j, "ConsensusExecution")
    case IndexerExecution(rate) =>
      && HasTag(j, "IndexerExecution") && Payload(j, "IndexerExecution").Obj?
      && SaysNat(Payload(j, "IndexerExecution").fields, "sampling_rate_percent", rate)
    case TeeExecution(tee) =>
      && HasTag(j, "TeeExecution") && Payload(j, "TeeExecution").Obj?
      && "tee_type" in Payload(j, "TeeExecution").fields
      && IsTee(Payload(j, "TeeExecution").fields["tee_type"], tee)
  }

  predicate SaysExecution(o: Fields, e: Execution) { "execution_mode" in o && IsExecution(o["execution_mode"], e) }

  lemma ExecutionMeans(o: Fields, e: Execution)
    ensures ExecutionOf(o) == Ok(e) <==> SaysExecution(o, e)
  {
    if "execution_mode" in o {
      var j := o["execution_mode"];
      ExecutionPartsMean(j, e);
      hide EnumParts, ExecutionAt, IsExecution;
    }
  }

  lemma ExecutionPartsMean(j: Json, e: Execution)
    ensures EnumParts(j).Ok? && ExecutionAt(EnumParts(j).value) == Ok(e) <==> IsExecution(j, e)
  {
    TagMeans(j, "ConsensusExecution");
    TagMeans(j, "IndexerExecution");
    TagMeans(j, "TeeExecution");
    if EnumParts(j).Ok? { ExecutionIndexes(EnumParts(j).value.name); }
    var i, t := Payload(j, "IndexerExecution"), Payload(j, "TeeExecution");
    if e.IndexerExecution? && i.Obj? { UintFieldMeans(i.fields, "sampling_rate_percent", 256, e.samplingRate); }
    if e.TeeExecution? && t.Obj? && "tee_type" in t.fields { TeeMeans(t.fields["tee_type"], e.tee); }
    hide EnumParts, IndexOf, EXECUTIONS, HasTag, Payload, UintField, SaysNat, TeeOf, IsTee;
  }

  predicate SaysIndexers(o: Fields, c: Indexers) {
    && "indexer_config" in o && o["indexer_config"].Obj?
    && IsIndexers(o["indexer_config"].fields, c)
  }

  predicate IsIndexers(o: Fields, c: Indexers) {
    && SaysNat(o, "min_indexers", c.minIndexers) && SaysNat(o, "max_indexers", c.maxIndexers)
    && SaysAmount(o, "reward_per_epoch", c.rewardPerEpoch, true)
    && (if "epoch_length" in o then IsNat(o["epoch_length"], c.epochLength) else c.epochLength == 100)
    && SaysAmount(o, "min_indexer_stake", c.minStake, true)
  }

  lemma IndexersMean(m: Fields, c: Indexers)
    ensures IndexersOf(m) == Ok(c) <==> SaysIndexers(m, c)
  {
    if "indexer_config" in m && m["indexer_config"].Obj? {
      var o := m["indexer_config"].fields;
      UintFieldMeans(o, "min_indexers", 256, c.minIndexers);
      UintFieldMeans(o, "max_indexers", 256, c.maxIndexers);
      U128FieldMeans(o, "reward_per_epoch", true, c.rewardPerEpoch);
      UintOrMeans(o, "epoch_length", TWO64, 100, c.epochLength);
      U128FieldMeans(o, "min_indexer_stake", true, c.minStake);
    }
    hide UintField, UintOr, U128Field, SaysNat, SaysAmount, IsNat;
  }

  lemma RetentionIndexes(name: string)
    ensures IndexOf(name, RETENTIONS) ==
            if name == "Blocks" then Ok(0)
            else if name == "Seconds" then Ok(1)
            else if name == "Indefinite" then Ok(2)
            else if name == "VerifyOnly" then Ok(3)
            else Err
  {
  }

  predicate IsRetention(j: Json, r: Retention) {
    match r
    case Blocks(n) => HasTag(j, "Blocks") && IsNat(Payload(j, "Blocks"), n)
    case Seconds(n) => HasTag(j, "Seconds") && IsNat(Payload(j, "Seconds"), n)
    case Indefinite => HasTag(j, "Indefinite")
    case VerifyOnly => HasTag(j, "VerifyOnly")
  }

  predicate SaysRetention(o: Fields, r: Retention) {
    if "retention_window" in o then IsRetention(o["retention_window"], r) else r == Indefinite
  }

  lemma RetentionPartsMean(j: Json, r: Retention)
    ensures EnumParts(j).Ok? && RetentionAt(EnumParts(j).value) == Ok(r) <==> IsRetention(j, r)
  {
    TagMeans(j, "Blocks");
    TagMeans(j, "Seconds");
    TagMeans(j, "Indefinite");
    TagMeans(j, "VerifyOnly");
    if EnumParts(j).Ok? { RetentionIndexes(EnumParts(j).value.name); }
    if r.Blocks? { UintMeans(Payload(j, "Blocks"), TWO64, r.blocks); }
    if r.Seconds? { UintMeans(Payload(j, "Seconds"), TWO64, r.seconds); }
    hide EnumParts, IndexOf, RETENTIONS, HasTag, Payload, AsUint, IsNat;
  }

  lemma RetentionMeans(o: Fields, r: Retention)
    ensures RetentionOf(o) == Ok(r) <==> SaysRetention(o, r)
  {
    if "retention_window" in o { RetentionPartsMean(o["retention_window"], r); }
    hide EnumParts, RetentionAt, IsRetention;
  }

  predicate SaysWords(o: Fields, name: string, w: Words) {
    && name in o && o[name].Arr? && |o[name].items| == 4
    && IsNat(o[name].items[0], w.a) && IsNat(o[name].items[1], w.b)
    && IsNat(o[name].items[2], w.c) && IsNat(o[name].items[3], w.d)
  }

  lemma WordsMean(o: Fields, name: string, w: Words)
    ensures WordsField(o, name) == Ok(w) <==> SaysWords(o, name, w)
  {
    if name in o && o[name].Arr? && |o[name].items| == 4 {
      UintMeans(o[name].items[0], TWO32, w.a);
      UintMeans(o[name].items[1], TWO32, w.b);
      UintMeans(o[name].items[2], TWO32, w.c);
      UintMeans(o[name].items[3], TWO32, w.d);
    }
    hide AsUint, IsNat;
  }

  predicate IsCompleteness(j: Json, c: Completeness) {
    && j.Obj? && SaysWords(j.fields, "log_config_hash", c.logConfigHash)
    && SaysWords(j.fields, "tx_config_hash", c.txConfigHash)
    && (if "deferred" in j.fields then j.fields["deferred"] == Bool(c.deferred) else !c.deferred)
    && (if "bond_amount" in j.fields then IsAmount(j.fields["bond_amount"], c.bondAmount, false) else c.bondAmount == 0)
  }

  lemma CompletenessMeans(j: Json, c: Completeness)
    ensures CompletenessOf(j) == Ok(c) <==> IsCompleteness(j, c)
  {
    if j.Obj? {
      WordsMean(j.fields, "log_config_hash", c.logConfigHash);
      WordsMean(j.fields, "tx_config_hash", c.txConfigHash);
      BoolOrMeans(j.fields, "deferred", false, c.deferred);
      if "bond_amount" in j.fields { AmountMeans(j.fields["bond_amount"], false, c.bondAmount); }
    }
    hide WordsField, SaysWords, BoolOr, AsU128, IsAmount;
  }

  lemma CompletenessOptionMeans(o: Fields, x: Option<Completeness>)
    ensures Opt(o, "completeness", CompletenessOf) == Ok(x) <==> SaysOption(o, "completeness", x, IsCompleteness)
  {
    if !SaysNothing(o, "completeness") && x.Some? { CompletenessMeans(o["completeness"], x.value); }
    hide CompletenessOf, IsCompleteness;
    OptionMeans(o, "completeness", CompletenessOf, IsCompleteness, x);
  }

  lemma AuthIndexes(name: string)
    ensures IndexOf(name, AUTH_MODES) ==
            if name == "BftEquivalent" then Ok(0) else if name == "CanonizedAccumulator" then Ok(1) else Err
  {
  }

  predicate SaysAuth(o: Fields, a: AuthMode) {
    if "historical_auth_mode" in o
    then o["historical_auth_mode"] == Str(if a.BftEquivalent? then "BftEquivalent" else "CanonizedAccumulator")
    else a == BftEquivalent
  }

  lemma AuthMeans(o: Fields, a: AuthMode)
    ensures AuthOf(o) == Ok(a) <==> SaysAuth(o, a)
  {
    if "historical_auth_mode" in o && o["historical_auth_mode"].Str? { AuthIndexes(o["historical_auth_mode"].s); }
    hide IndexOf;
  }

  predicate IsIndexing(o: Fields, m: Mode)
    requires m.BlockchainIndexing?
  {
    && SaysBytes(o, "manifest_content", m.manifest) && SaysModules(o, m.modules) && SaysExecution(o, m.execution)
    && SaysIndexers(o, m.indexers) && SaysRetention(o, m.window)
    && SaysOption(o, "completeness", m.completeness, IsCompleteness) && SaysAuth(o, m.auth)
  }

  lemma IndexingMeans(o: Fields, m: Mode)
    ensures IndexingOf(o) == Ok(m) <==> m.BlockchainIndexing? && IsIndexing(o, m)
  {
    if m.BlockchainIndexing? {
      BytesFieldMeans(o, "manifest_content", m.manifest);
      ModulesMean(o, m.modules);
      ExecutionMeans(o, m.execution);
      IndexersMean(o, m.indexers);
      RetentionMeans(o, m.window);
      CompletenessOptionMeans(o, m.completeness);
      AuthMeans(o, m.auth);
    }
    hide BytesField, ModulesOf, ExecutionOf, IndexersOf, RetentionOf, Opt, AuthOf,
         SaysBytes, SaysModules, SaysExecution, SaysIndexers, SaysRetention, SaysOption, SaysAuth;
  }

  lemma ModeIndexes(name: string)
    ensures IndexOf(name, MODES) ==
            if name == "DataStorage" then Ok(0)
            else if name == "FileStorage" then Ok(1)
            else if name == "BlockchainIndexing" then Ok(2)
            else Err
  {
  }

  predicate IsMode(j: Json, m: Mode) {
    match m
    case DataStorage(_, _, _, _) =>
      HasTag(j, "DataStorage") && Payload(j, "DataStorage").Obj? && IsData(Payload(j, "DataStorage").fields, m)
    case FileStorage(_, _, _, _, _, _, _) =>
      HasTag(j, "FileStorage") && Payload(j, "FileStorage").Obj? && IsFile(Payload(j, "FileStorage").fields, m)
    case BlockchainIndexing(_, _, _, _, _, _, _) =>
      && HasTag(j, "BlockchainIndexing") && Payload(j, "BlockchainIndexing").Obj?
      && IsIndexing(Payload(j, "BlockchainIndexing").fields, m)
  }

  lemma ModeMeans(j: Json, m: Mode)
    ensures ModeOf(j) == Ok(m) <==> IsMode(j, m)
  {
    TagMeans(j, "DataStorage");
    TagMeans(j, "FileStorage");
    TagMeans(j, "BlockchainIndexing");
    if EnumParts(j).Ok? {
      ModeIndexes(EnumParts(j).value.name);
      var p := EnumParts(j).value.payload;
      if p.Obj? {
        DataMeans(p.fields, m);
        FileMeans(p.fields, m);
        IndexingMeans(p.fields, m);
      }
    }
    hide EnumParts, IndexOf, MODES, HasTag, Payload, DataOf, IsData, FileOf, IsFile, IndexingOf, IsIndexing;
  }

  // ----- the rest of a transaction

  lemma FrequencyIndexes(name: string)
    ensures IndexOf(name, FREQUENCIES) ==
            if name == "EveryUpdate" then Ok(0)
            else if name == "EveryNBlocks" then Ok(1)
            else if name == "EveryNSeconds" then Ok(2)
            else if name == "Never" then Ok(3)
            else Err
  {
  }

  predicate IsFrequency(j: Json, f: Frequency) {
    match f
    case EveryUpdate => HasTag(j, "EveryUpdate")
    case EveryNBlocks(n) => HasTag(j, "EveryNBlocks") && IsNat(Payload(j, "EveryNBlocks"), n)
    case EveryNSeconds(n) => HasTag(j, "EveryNSeconds") && IsNat(Payload(j, "EveryNSeconds"), n)
    case Never => HasTag(j, "Never")
  }

  predicate SaysFrequency(o: Fields, f: Frequency) {
    "commitment_frequency" in o && IsFrequency(o["commitment_frequency"], f)
  }

  lemma FrequencyPartsMean(j: Json, f: Frequency)
    ensures EnumParts(j).Ok? && FrequencyAt(EnumParts(j).value) == Ok(f) <==> IsFrequency(j, f)
  {
    TagMeans(j, "EveryUpdate");
    TagMeans(j, "EveryNBlocks");
    TagMeans(j, "EveryNSeconds");
    TagMeans(j, "Never");
    if EnumParts(j).Ok? { FrequencyIndexes(EnumParts(j).value.name); }
    if f.EveryNBlocks? { UintMeans(Payload(j, "EveryNBlocks"), TWO64, f.n); }
    if f.EveryNSeconds? { UintMeans(Payload(j, "EveryNSeconds"), TWO64, f.n); }
    hide EnumParts, IndexOf, FREQUENCIES, HasTag, Payload, AsUint, IsNat;
  }

  lemma FrequencyMeans(o: Fields, f: Frequency)
    ensures FrequencyOf(o) == Ok(f) <==> SaysFrequency(o, f)
  {
    if "commitment_frequency" in o { FrequencyPartsMean(o["commitment_frequency"], f); }
    hide EnumParts, FrequencyAt, IsFrequency;
  }

  predicate IsAllowed(j: Json, xs: Strs) { IsStrs(j, xs) }

  predicate IsPrivacy(j: Json, p: Privacy) {
    && j.Obj? && SaysOption(j.fields, "allowed_indexers", p.allowedIndexers, IsAllowed)
    && SaysFrequency(j.fields, p.frequency)
  }

  lemma PrivacyMeans(j: Json, p: Privacy)
    ensures PrivacyOf(j) == Ok(p) <==> IsPrivacy(j, p)
  {
    if j.Obj? {
      var o, x := j.fields, p.allowedIndexers;
      if !SaysNothing(o, "allowed_indexers") && x.Some? { StrsMean(o["allowed_indexers"], x.value); }
      OptionMeans(o, "allowed_indexers", AsStrings, IsAllowed, x);
      FrequencyMeans(o, p.frequency);
    }
    hide AsStrings, IsStrs, Opt, SaysOption, FrequencyOf, SaysFrequency;
  }

  predicate IsKeyGrant(j: Json, g: KeyGrant) {
    && j.Obj? && SaysStr(j.fields, "grantee_did", g.grantee) && SaysNat(j.fields, "key_epoch", g.keyEpoch)
    && SaysStr(j.fields, "grantee_public_key_id", g.granteeKeyId)
    && SaysBytes(j.fields, "ephemeral_public_key", g.ephemeralKey)
    && SaysBytes(j.fields, "encrypted_key", g.encryptedKey)
    && SaysStr(j.fields, "granted_by", g.grantedBy) && SaysNat(j.fields, "granted_at", g.grantedAt)
  }

  lemma KeyGrantMeans(j: Json, g: KeyGrant)
    ensures KeyGrantOf(j) == Ok(g) <==> IsKeyGrant(j, g)
  {
    if j.Obj? {
      var o := j.fields;
      StrFieldMeans(o, "grantee_did", g.grantee);
      UintFieldMeans(o, "key_epoch", TWO32, g.keyEpoch);
      StrFieldMeans(o, "grantee_public_key_id", g.granteeKeyId);
      BytesFieldMeans(o, "ephemeral_public_key", g.ephemeralKey);
      BytesFieldMeans(o, "encrypted_key", g.encryptedKey);
      StrFieldMeans(o, "granted_by", g.grantedBy);
      UintFieldMeans(o, "granted_at", TWO64, g.grantedAt);
    }
    hide StrField, UintField, BytesField, SaysStr, SaysNat, SaysBytes;
  }

  predicate IsChain(j: Json, s: GoString) { j == Str(s) }

  predicate IsTemplate(j: Json, t: Template) {
    && j.Obj? && SaysStr(j.fields, "template_id", t.id) && SaysNat(j.fields, "template_version", t.version)
    && SaysStr(j.fields, "variant_id", t.variantId) && SaysBytes(j.fields, "parameters", t.parameters)
    && SaysStrs(j.fields, "contracts", t.contracts) && SaysStrs(j.fields, "event_signatures", t.eventSignatures)
    && SaysOption(j.fields, "chain", t.chain, IsChain)
  }

  lemma TemplateMeans(j: Json, t: Template)
    ensures TemplateOf(j) == Ok(t) <==> IsTemplate(j, t)
  {
    if j.Obj? {
      var o := j.fields;
      StrFieldMeans(o, "template_id", t.id);
      UintFieldMeans(o, "template_version", TWO32, t.version);
      StrFieldMeans(o, "variant_id", t.variantId);
      BytesFieldMeans(o, "parameters", t.parameters);
      StrsFieldMeans(o, "contracts", t.contracts);
      StrsFieldMeans(o, "event_signatures", t.eventSignatures);
      OptionMeans(o, "chain", AsString, IsChain, t.chain);
    }
    hide StrField, UintField, BytesField, StrsField, Opt, SaysStr, SaysNat, SaysBytes, SaysStrs, SaysOption;
  }

  predicate IsIdentity(o: Fields, i: Identity) {
    && SaysStr(o, "subgrove_id", i.subgroveId) && SaysStr(o, "name", i.name)
    && (if "description" in o then o["description"] == Str(i.description) else i.description == "")
    && SaysStr(o, "schema", i.schema) && SaysStr(o, "owner_did", i.ownerDid)
    && (if "admins" in o then IsStrs(o["admins"], i.admins) else i.admins == [])
  }

  lemma IdentityMeans(o: Fields, i: Identity)
    ensures IdentityOf(o) == Ok(i) <==> IsIdentity(o, i)
  {
    StrFieldMeans(o, "subgrove_id", i.subgroveId);
    StrFieldMeans(o, "name", i.name);
    StrFieldMeans(o, "schema", i.schema);
    StrFieldMeans(o, "owner_did", i.ownerDid);
    if "admins" in o { StrsMean(o["admins"], i.admins); }
    hide StrField, SaysStr, AsStrings, IsStrs;
  }

  predicate IsFunding(j: Json, n: U128) { IsAmount(j, n, true) }

  /** The required TEE type lies inside checkpoint_verification, which may be left out. */
  predicate SaysRequiredTee(o: Fields, x: Option<Tee>) {
    if "checkpoint_verification" in o
    then o["checkpoint_verification"].Obj? && SaysOption(o["checkpoint_verification"].fields, "required_tee", x, IsTee)
    else x == None
  }

  lemma RequiredTeeMeans(o: Fields, x: Option<Tee>)
    ensures RequiredTee(o) == Ok(x) <==> SaysRequiredTee(o, x)
  {
    if "checkpoint_verification" in o && o["checkpoint_verification"].Obj? {
      var c := o["checkpoint_verification"].fields;
      if !SaysNothing(c, "required_tee") && x.Some? { TeeMeans(c["required_tee"], x.value); }
      OptionMeans(c, "required_tee", TeeOf, IsTee, x);
    }
    hide Opt, SaysOption, TeeOf, IsTee;
  }

  predicate SaysMode(o: Fields, m: Mode) {
    if "mode" in o then IsMode(o["mode"], m) else m == DataStorage("", [], [], None)
  }

  /** Some array of byte values. */
  predicate AreBytes(j: Json) {
    j.Arr? && |j.items| < TWO64 && forall i :: 0 <= i < |j.items| ==> AsByte(j.items[i])
  }

  predicate AsByte(j: Json) { j.Num? && j.text != "" && AllDigits(j.text) && Decimal(j.text) < 256 }

  lemma {:induction false} ByteItemsExist(items: seq<Json>)
    ensures ByteItems(items).Ok? <==> forall i :: 0 <= i < |items| ==> AsByte(items[i])
    decreases |items|
  {
    if items == [] {
    } else {
      ByteItemsExist(items[1..]);
      hide Decimal;
      assert items == [items[0]] + items[1..];
    }
  }

  predicate IsTail(o: Fields, t: Tail) {
    && (if "confirmation_depth" in o
        then IsNat(o["confirmation_depth"], t.confirmationDepth)
        else t.confirmationDepth == 0)
    && "signature" in o && AreBytes(o["signature"])
    && SaysStr(o, "public_key_id", t.publicKeyId) && SaysNat(o, "nonce", t.nonce)
    && (if "cryptographic_completeness" in o
        then o["cryptographic_completeness"] == Bool(t.cryptographicCompleteness)
        else !t.cryptographicCompleteness)
  }

  lemma TailMeans(o: Fields, t: Tail)
    ensures TailOf(o) == Ok(t) <==> IsTail(o, t)
  {
    UintOrMeans(o, "confirmation_depth", TWO32, 0, t.confirmationDepth);
    if "signature" in o && o["signature"].Arr? { ByteItemsExist(o["signature"].items); }
    StrFieldMeans(o, "public_key_id", t.publicKeyId);
    UintFieldMeans(o, "nonce", TWO64, t.nonce);
    BoolOrMeans(o, "cryptographic_completeness", false, t.cryptographicCompleteness);
    hide UintOr, ByteItems, StrField, UintField, BoolOr, IsNat, AsByte, SaysStr, SaysNat;
  }

  /** The JSON of a transaction. */
  predicate IsTx(j: Json, t: Tx) {
    && j.Obj? && IsIdentity(j.fields, t.identity)
    && SaysOption(j.fields, "initial_funding", t.initialFunding, IsFunding)
    && SaysRequiredTee(j.fields, t.requiredTee) && SaysMode(j.fields, t.mode)
    && SaysOption(j.fields, "privacy", t.privacy, IsPrivacy)
    && SaysOption(j.fields, "initial_owner_key_grant", t.ownerKeyGrant, IsKeyGrant)
    && SaysOption(j.fields, "template_config", t.template, IsTemplate)
    && IsTail(j.fields, t.tail)
  }

  lemma OptionsMean(o: Fields, t: Tx)
    ensures Opt(o, "initial_funding", FundingOf) == Ok(t.initialFunding) <==>
            SaysOption(o, "initial_funding", t.initialFunding, IsFunding)
    ensures Opt(o, "privacy", PrivacyOf) == Ok(t.privacy) <==> SaysOption(o, "privacy", t.privacy, IsPrivacy)
    ensures Opt(o, "initial_owner_key_grant", KeyGrantOf) == Ok(t.ownerKeyGrant) <==>
            SaysOption(o, "initial_owner_key_grant", t.ownerKeyGrant, IsKeyGrant)
    ensures Opt(o, "template_config", TemplateOf) == Ok(t.template) <==>
            SaysOption(o, "template_config", t.template, IsTemplate)
  {
    hide AsU128, IsAmount, PrivacyOf, IsPrivacy, KeyGrantOf, IsKeyGrant, TemplateOf, IsTemplate;
    if !SaysNothing(o, "initial_funding") && t.initialFunding.Some? {
      AmountMeans(o["initial_funding"], true, t.initialFunding.value);
    }
    OptionMeans(o, "initial_funding", FundingOf, IsFunding, t.initialFunding);
    if !SaysNothing(o, "privacy") && t.privacy.Some? { PrivacyMeans(o["privacy"], t.privacy.value); }
    OptionMeans(o, "privacy", PrivacyOf, IsPrivacy, t.privacy);
    if !SaysNothing(o, "initial_owner_key_grant") && t.ownerKeyGrant.Some? {
      KeyGrantMeans(o["initial_owner_key_grant"], t.ownerKeyGrant.value);
    }
    OptionMeans(o, "initial_owner_key_grant", KeyGrantOf, IsKeyGrant, t.ownerKeyGrant);
    if !SaysNothing(o, "template_config") && t.template.Some? { TemplateMeans(o["template_config"], t.template.value); }
    OptionMeans(o, "template_config", TemplateOf, IsTemplate, t.template);
  }

  lemma ModeFieldMeans(o: Fields, m: Mode)
    ensures ModeOrDefault(o) == Ok(m) <==> SaysMode(o, m)
  {
    if "mode" in o { ModeMeans(o["mode"], m); }
    hide ModeOf, IsMode;
  }

  /** A JSON value is read as a transaction exactly when it is that transaction's JSON. */
  lemma TxMeans(j: Json, t: Tx)
    ensures TxOf(j) == Ok(t) <==> IsTx(j, t)
  {
    if j.Obj? {
      var o := j.fields;
      IdentityMeans(o, t.identity);
      OptionsMean(o, t);
      RequiredTeeMeans(o, t.requiredTee);
      ModeFieldMeans(o, t.mode);
      TailMeans(o, t.tail);
    }
    hide IdentityOf, Opt, RequiredTee, ModeOrDefault, TailOf, FundingOf, PrivacyOf, KeyGrantOf, TemplateOf,
         IsIdentity, SaysOption, SaysRequiredTee, SaysMode, IsTail;
  }
}
