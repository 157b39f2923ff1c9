/** The JSON of a transaction, written out field by field, and that it is read back as the transaction;
what a field left out is read as, and which fields may not be. */
module RegisterText {
  import opened Bytes
  import opened Bincode
  import opened Uint128s
  import opened RegisterJson
  import opened RegisterMeaning

  function NatJson(n: nat): Json { Num(Print(n)) }

  function StrsJson(xs: seq<GoString>): (j: Json)
    ensures IsStrs(j, xs)
  {
    Arr(seq(|xs|, i requires 0 <= i < |xs| => Str(xs[i])))
  }

  function BytesJson(b: Bytes): (j: Json)
    ensures IsBytes(j, b)
  {
    Arr(seq(|b|, i requires 0 <= i < |b| => NatJson(b[i])))
  }

  function OptionJson<T>(x: Option<T>, json: T -> Json): Json { if x.None? then Null else json(x.value) }

  function Tagged(name: string, payload: Json): Json { Obj(map[name := payload]) }

  lemma TaggedText(name: string, payload: Json)
    ensures HasTag(Tagged(name, payload), name) && Payload(Tagged(name, payload), name) == payload
  {
  }

  function StrJson(s: GoString): Json { Str(s) }

  // ----- modes

  function PricingJson(p: Pricing): Json {
    Obj(map["enabled" := Bool(p.enabled), "price_per_query" := NatJson(p.pricePerQuery),
            "owner_revenue_share_bps" := NatJson(p.ownerShareBps)])
  }

  lemma PricingText(p: Pricing)
    ensures IsPricing(PricingJson(p), p)
  {
    hide Print, Decimal;
  }

  function DataJson(m: Mode): Json
    requires m.DataStorage?
  {
    Obj(map["name" := Str(m.name), "writers" := StrsJson(m.writers), "free_readers" := StrsJson(m.freeReaders),
            "read_pricing" := OptionJson(m.pricing, PricingJson)])
  }

  lemma DataText(m: Mode)
    requires m.DataStorage?
    ensures IsData(DataJson(m).fields, m)
  {
    if m.pricing.Some? { PricingText(m.pricing.value); }
    hide IsStrs, StrsJson, IsPricing;
    assert m.pricing.Some? ==> PricingJson(m.pricing.value) != Null;
  }

  function FileFields(name: Json, size: Json, replication: Json, writers: Json, readers: Json, pricing: Json,
                      retention: Json): Fields
  {
    map["name" := name, "max_file_size" := size, "replication_factor" := replication, "writers" := writers,
        "free_readers" := readers, "read_pricing" := pricing, "retention_period" := retention]
  }

  lemma FileFieldsAt(name: Json, size: Json, replication: Json, writers: Json, readers: Json, pricing: Json,
                     retention: Json)
    ensures var o := FileFields(name, size, replication, writers, readers, pricing, retention);
            && "name" in o && o["name"] == name && "max_file_size" in o && o["max_file_size"] == size
            && "replication_factor" in o && o["replication_factor"] == replication
            && "writers" in o && o["writers"] == writers && "free_readers" in o && o["free_readers"] == readers
            && "read_pricing" in o && o["read_pricing"] == pricing
            && "retention_period" in o && o["retention_period"] == retention
  {
  }

  function FileJson(m: Mode): Json
    requires m.FileStorage?
  {
    Obj(FileFields(Str(m.name), NatJson(m.maxFileSize), NatJson(m.replication), StrsJson(m.writers),
                   StrsJson(m.freeReaders), OptionJson(m.pricing, PricingJson), NatJson(m.retentionPeriod)))
  }

  lemma FileText(m: Mode)
    requires m.FileStorage?
    ensures IsFile(FileJson(m).fields, m)
  {
    FileFieldsAt(Str(m.name), NatJson(m.maxFileSize), NatJson(m.replication), StrsJson(m.writers),
                 StrsJson(m.freeReaders), OptionJson(m.pricing, PricingJson), NatJson(m.retentionPeriod));
    if m.pricing.Some? { PricingText(m.pricing.value); }
    assert m.pricing.Some? ==> PricingJson(m.pricing.value) != Null;
    hide FileFields, Print, Decimal, IsStrs, StrsJson, PricingJson, IsPricing;
  }

  function ModuleJson(m: Module): Json {
    Obj(map["name" := Str(m.name), "hash" := BytesJson(m.hash), "content" := BytesJson(m.content)])
  }

  lemma ModuleText(m: Module)
    ensures IsModule(ModuleJson(m), m)
  {
    hide IsBytes, BytesJson;
  }

  function ModulesJson(ms: seq<Module>): Json {
    Arr(seq(|ms|, i requires 0 <= i < |ms| => ModuleJson(ms[i])))
  }

  lemma ModulesText(ms: seq<Module>)
    ensures ModulesJson(ms).Arr? && AreModules(ModulesJson(ms).items, ms)
  {
    hide ModuleJson, IsModule;
    forall i | 0 <= i < |ms| ensures IsModule(ModulesJson(ms).items[i], ms[i]) { ModuleText(ms[i]); }
  }

  function ExecutionJson(e: Execution): Json {
    match e
    case ConsensusExecution => Str("ConsensusExecution")
    case IndexerExecution(rate) => Tagged("IndexerExecution", Obj(map["sampling_rate_percent" := NatJson(rate)]))
    case TeeExecution(tee) => Tagged("TeeExecution", Obj(map["tee_type" := Str(TeeName(tee))]))
  }

  lemma ExecutionText(e: Execution)
    ensures IsExecution(ExecutionJson(e), e)
  {
    hide Print, Decimal, TeeName;
  }

  function IndexersJson(c: Indexers): Json {
    Obj(map["min_indexers" := NatJson(c.minIndexers), "max_indexers" := NatJson(c.maxIndexers),
            "reward_per_epoch" := NatJson(c.rewardPerEpoch), "epoch_length" := NatJson(c.epochLength),
            "min_indexer_stake" := NatJson(c.minStake)])
  }

  lemma IndexersText(c: Indexers)
    ensures IsIndexers(IndexersJson(c).fields, c)
  {
    hide Print, Decimal;
  }

  function RetentionJson(r: Retention): Json {
    match r
    case Blocks(n) => Tagged("Blocks", NatJson(n))
    case Seconds(n) => Tagged("Seconds", NatJson(n))
    case Indefinite => Str("Indefinite")
    case VerifyOnly => Str("VerifyOnly")
  }

  lemma RetentionText(r: Retention)
    ensures IsRetention(RetentionJson(r), r)
  {
    hide Print, Decimal;
  }

  function WordsJson(w: Words): Json { Arr([NatJson(w.a), NatJson(w.b), NatJson(w.c), NatJson(w.d)]) }

  function CompletenessJson(c: Completeness): Json {
    Obj(map["log_config_hash" := WordsJson(c.logConfigHash), "tx_config_hash" := WordsJson(c.txConfigHash),
            "deferred" := Bool(c.deferred), "bond_amount" := NatJson(c.bondAmount)])
  }

  lemma CompletenessText(c: Completeness)
    ensures IsCompleteness(CompletenessJson(c), c)
  {
    hide Print, Decimal;
  }

  function AuthJson(a: AuthMode): Json {
    match a case BftEquivalent => Str("BftEquivalent") case CanonizedAccumulator => Str("CanonizedAccumulator")
  }

  /** The members of an indexing mode. */
  function IndexingFields(manifest: Json, modules: Json, execution: Json, indexers: Json, window: Json,
                          completeness: Json, auth: Json): Fields
  {
    map["manifest_content" := manifest, "wasm_modules" := modules, "execution_mode" := execution,
        "indexer_config" := indexers, "retention_window" := window, "completeness" := completeness,
        "historical_auth_mode" := auth]
  }

  lemma IndexingFieldsAt(manifest: Json, modules: Json, execution: Json, indexers: Json, window: Json,
                         completeness: Json, auth: Json)
    ensures var o := IndexingFields(manifest, modules, execution, indexers, window, completeness, auth);
            && "manifest_content" in o && o["manifest_content"] == manifest
            && "wasm_modules" in o && o["wasm_modules"] == modules
            && "execution_mode" in o && o["execution_mode"] == execution
            && "indexer_config" in o && o["indexer_config"] == indexers
            && "retention_window" in o && o["retention_window"] == window
            && "completeness" in o && o["completeness"] == completeness
            && "historical_auth_mode" in o && o["historical_auth_mode"] == auth
  {
  }

  function IndexingJson(m: Mode): Json
    requires m.BlockchainIndexing?
  {
    Obj(IndexingFields(BytesJson(m.manifest), ModulesJson(m.modules), ExecutionJson(m.execution),
                       IndexersJson(m.indexers), RetentionJson(m.window),
                       OptionJson(m.completeness, CompletenessJson), AuthJson(m.auth)))
  }

  lemma CompletenessOptionText(x: Option<Completeness>, o: Fields)
    requires "completeness" in o && o["completeness"] == OptionJson(x, CompletenessJson)
    ensures SaysOption(o, "completeness", x, IsCompleteness)
  {
    if x.Some? {
      CompletenessText(x.value);
      assert CompletenessJson(x.value) != Null;
    }
    hide CompletenessJson, IsCompleteness;
  }

  lemma IndexingText(m: Mode)
    requires m.BlockchainIndexing?
    ensures IsIndexing(IndexingJson(m).fields, m)
  {
    var o := IndexingJson(m).fields;
    IndexingFieldsAt(BytesJson(m.manifest), ModulesJson(m.modules), ExecutionJson(m.execution),
                     IndexersJson(m.indexers), RetentionJson(m.window),
                     OptionJson(m.completeness, CompletenessJson), AuthJson(m.auth));
    ModulesText(m.modules);
    ExecutionText(m.execution);
    IndexersText(m.indexers);
    RetentionText(m.window);
    assert IndexersJson(m.indexers).Obj?;
    hide IndexingFields, IsBytes, BytesJson, AreModules, ModulesJson, IsExecution, ExecutionJson, IsIndexers,
         IndexersJson, IsRetention, RetentionJson, OptionJson, SaysOption;
    CompletenessOptionText(m.completeness, o);
  }

  function ModeJson(m: Mode): Json {
    match m
    case DataStorage(_, _, _, _) => Tagged("DataStorage", DataJson(m))
    case FileStorage(_, _, _, _, _, _, _) => Tagged("FileStorage", FileJson(m))
    case BlockchainIndexing(_, _, _, _, _, _, _) => Tagged("BlockchainIndexing", IndexingJson(m))
  }

  lemma ModeText(m: Mode)
    ensures IsMode(ModeJson(m), m)
  {
    assert m.DataStorage? ==> DataJson(m).Obj?;
    assert m.FileStorage? ==> FileJson(m).Obj?;
    assert m.BlockchainIndexing? ==> IndexingJson(m).Obj?;
    hide Tagged, HasTag, Payload, DataJson, IsData, FileJson, IsFile, IndexingJson, IsIndexing;
    match m
    case DataStorage(_, _, _, _) => DataText(m); TaggedText("DataStorage", DataJson(m));
    case FileStorage(_, _, _, _, _, _, _) => FileText(m); TaggedText("FileStorage", FileJson(m));
    case BlockchainIndexing(_, _, _, _, _, _, _) => IndexingText(m); TaggedText("BlockchainIndexing", IndexingJson(m));
  }

  // ----- the rest of a transaction

  function FrequencyJson(f: Frequency): Json {
    match f
    case EveryUpdate => Str("EveryUpdate")
    case EveryNBlocks(n) => Tagged("EveryNBlocks", NatJson(n))
    case EveryNSeconds(n) => Tagged("EveryNSeconds", NatJson(n))
    case Never => Str("Never")
  }

  lemma FrequencyText(f: Frequency)
    ensures IsFrequency(FrequencyJson(f), f)
  {
    hide Print, Decimal;
  }

  function PrivacyJson(p: Privacy): Json {
    Obj(map["allowed_indexers" := if p.allowedIndexers.None? then Null else StrsJson(p.allowedIndexers.value),
            "commitment_frequency" := FrequencyJson(p.frequency)])
  }

  lemma PrivacyText(p: Privacy)
    ensures IsPrivacy(PrivacyJson(p), p)
  {
    FrequencyText(p.frequency);
    hide IsStrs, FrequencyJson, IsFrequency;
  }

  function KeyGrantJson(g: KeyGrant): Json {
    Obj(map["grantee_did" := Str(g.grantee), "key_epoch" := NatJson(g.keyEpoch),
            "grantee_public_key_id" := Str(g.granteeKeyId), "ephemeral_public_key" := BytesJson(g.ephemeralKey),
            "encrypted_key" := BytesJson(g.encryptedKey), "granted_by" := Str(g.grantedBy),
            "granted_at" := NatJson(g.grantedAt)])
  }

  lemma KeyGrantText(g: KeyGrant)
    ensures IsKeyGrant(KeyGrantJson(g), g)
  {
    hide Print, Decimal, IsBytes, BytesJson;
  }

  function TemplateJson(t: Template): Json {
    Obj(map["template_id" := Str(t.id), "template_version" := NatJson(t.version), "variant_id" := Str(t.variantId),
            "parameters" := BytesJson(t.parameters), "contracts" := StrsJson(t.contracts),
            "event_signatures" := StrsJson(t.eventSignatures), "chain" := OptionJson(t.chain, StrJson)])
  }

  lemma TemplateText(t: Template)
    ensures IsTemplate(TemplateJson(t), t)
  {
    hide Print, Decimal, IsBytes, BytesJson, IsStrs, StrsJson;
  }

  function TeeOptionJson(x: Option<Tee>): Json {
    Obj(map["required_tee" := if x.None? then Null else Str(TeeName(x.value))])
  }

  /** The members of a transaction. */
  datatype Values = Values(
    id: Json, name: Json, description: Json, schema: Json, owner: Json, admins: Json, funding: Json,
    verification: Json, mode: Json, privacy: Json, grant: Json, template: Json, depth: Json, signature: Json,
    keyId: Json, nonce: Json, completeness: Json
  )

  function TxFields(v: Values): Fields {
    map["subgrove_id" := v.id, "name" := v.name, "description" := v.description, "schema" := v.schema,
        "owner_did" := v.owner, "admins" := v.admins, "initial_funding" := v.funding,
        "checkpoint_verification" := v.verification, "mode" := v.mode, "privacy" := v.privacy,
        "initial_owner_key_grant" := v.grant, "template_config" := v.template,
        "confirmation_depth" := v.depth, "signature" := v.signature, "public_key_id" := v.keyId,
        "nonce" := v.nonce, "cryptographic_completeness" := v.completeness]
  }

  lemma TxFieldsAt1(v: Values)
    ensures var o := TxFields(v);
            && "subgrove_id" in o && o["subgrove_id"] == v.id
            && "name" in o && o["name"] == v.name
  {
  }

  lemma TxFieldsAt5(v: Values)
    ensures var o := TxFields(v);
            && "description" in o && o["description"] == v.description
            && "schema" in o && o["schema"] == v.schema
            && "owner_did" in o && o["owner_did"] == v.owner
  {
  }

  lemma TxFieldsAt2(v: Values)
    ensures var o := TxFields(v);
            && "admins" in o && o["admins"] == v.admins
            && "initial_funding" in o && o["initial_funding"] == v.funding
            && "checkpoint_verification" in o && o["checkpoint_verification"] == v.verification
            && "mode" in o && o["mode"] == v.mode
  {
  }

  lemma TxFieldsAt3(v: Values)
    ensures var o := TxFields(v);
            && "privacy" in o && o["privacy"] == v.privacy
            && "initial_owner_key_grant" in o && o["initial_owner_key_grant"] == v.grant
            && "template_config" in o && o["template_config"] == v.template
            && "confirmation_depth" in o && o["confirmation_depth"] == v.depth
  {
  }

  lemma TxFieldsAt4(v: Values)
    ensures var o := TxFields(v);
            && "signature" in o && o["signature"] == v.signature
            && "public_key_id" in o && o["public_key_id"] == v.keyId
            && "nonce" in o && o["nonce"] == v.nonce
            && "cryptographic_completeness" in o && o["cryptographic_completeness"] == v.completeness
  {
  }

  function TxValues(t: Tx, signature: Bytes): Values {
    Values(Str(t.identity.subgroveId), Str(t.identity.name), Str(t.identity.description), Str(t.identity.schema),
           Str(t.identity.ownerDid), StrsJson(t.identity.admins), OptionJson(t.initialFunding, FundingJson),
           TeeOptionJson(t.requiredTee), ModeJson(t.mode), OptionJson(t.privacy, PrivacyJson),
           OptionJson(t.ownerKeyGrant, KeyGrantJson), OptionJson(t.template, TemplateJson),
           NatJson(t.tail.confirmationDepth), BytesJson(signature), Str(t.tail.publicKeyId),
           NatJson(t.tail.nonce), Bool(t.tail.cryptographicCompleteness))
  }

  function FundingJson(n: U128): Json { NatJson(n) }

  /** A transaction's JSON, with any signature. */
  function TxJson(t: Tx, signature: Bytes): Json { Obj(TxFields(TxValues(t, signature))) }

  lemma IdentityText(o: Fields, v: Values, t: Tx, signature: Bytes)
    requires v == TxValues(t, signature) && o == TxFields(v)
    ensures IsIdentity(o, t.identity)
  {
    TxFieldsAt1(v);
    TxFieldsAt5(v);
    TxFieldsAt2(v);
    hide TxFields, IsStrs, StrsJson, OptionJson, TeeOptionJson, ModeJson, NatJson, BytesJson;
  }

  lemma SignatureText(signature: Bytes)
    requires |signature| < TWO64
    ensures AreBytes(BytesJson(signature))
  {
    hide Decimal, Print;
    var j := BytesJson(signature);
    assert forall i :: 0 <= i < |signature| ==> IsNat(j.items[i], signature[i]);
  }

  lemma TailText(o: Fields, v: Values, t: Tx, signature: Bytes)
    requires v == TxValues(t, signature) && o == TxFields(v) && |signature| < TWO64
    ensures IsTail(o, t.tail)
  {
    TxFieldsAt3(v);
    TxFieldsAt4(v);
    SignatureText(signature);
    hide TxFields, StrsJson, OptionJson, TeeOptionJson, ModeJson, BytesJson, AreBytes, Print, Decimal;
  }

  lemma TeeText(o: Fields, v: Values, t: Tx, signature: Bytes)
    requires v == TxValues(t, signature) && o == TxFields(v)
    ensures SaysRequiredTee(o, t.requiredTee)
  {
    TxFieldsAt2(v);
    hide TxFields, StrsJson, OptionJson, ModeJson, NatJson, BytesJson;
  }

  lemma OptionText<T(!new)>(o: Fields, name: string, x: Option<T>, json: T -> Json, isValue: (Json, T) -> bool)
    requires name in o && o[name] == OptionJson(x, json)
    requires x.Some? ==> json(x.value) != Null && isValue(json(x.value), x.value)
    ensures SaysOption(o, name, x, isValue)
  {
  }

  lemma FundingText(o: Fields, v: Values, t: Tx, signature: Bytes)
    requires v == TxValues(t, signature) && o == TxFields(v)
    ensures SaysOption(o, "initial_funding", t.initialFunding, IsFunding)
  {
    TxFieldsAt2(v);
    hide TxFields, StrsJson, OptionJson, TeeOptionJson, ModeJson, BytesJson, SaysOption, Print, Decimal;
    OptionText(o, "initial_funding", t.initialFunding, FundingJson, IsFunding);
  }

  lemma PrivacyFieldText(o: Fields, v: Values, t: Tx, signature: Bytes)
    requires v == TxValues(t, signature) && o == TxFields(v)
    ensures SaysOption(o, "privacy", t.privacy, IsPrivacy)
  {
    TxFieldsAt3(v);
    if t.privacy.Some? { PrivacyText(t.privacy.value); assert PrivacyJson(t.privacy.value) != Null; }
    hide TxFields, StrsJson, OptionJson, TeeOptionJson, ModeJson, NatJson, BytesJson, SaysOption,
         PrivacyJson, IsPrivacy;
    OptionText(o, "privacy", t.privacy, PrivacyJson, IsPrivacy);
  }

  lemma KeyGrantFieldText(o: Fields, v: Values, t: Tx, signature: Bytes)
    requires v == TxValues(t, signature) && o == TxFields(v)
    ensures SaysOption(o, "initial_owner_key_grant", t.ownerKeyGrant, IsKeyGrant)
  {
    TxFieldsAt3(v);
    if t.ownerKeyGrant.Some? {
      KeyGrantText(t.ownerKeyGrant.value);
      assert KeyGrantJson(t.ownerKeyGrant.value) != Null;
    }
    hide TxFields, StrsJson, OptionJson, TeeOptionJson, ModeJson, NatJson, BytesJson, SaysOption,
         KeyGrantJson, IsKeyGrant;
    OptionText(o, "initial_owner_key_grant", t.ownerKeyGrant, KeyGrantJson, IsKeyGrant);
  }

  lemma TemplateFieldText(o: Fields, v: Values, t: Tx, signature: Bytes)
    requires v == TxValues(t, signature) && o == TxFields(v)
    ensures SaysOption(o, "template_config", t.template, IsTemplate)
  {
    TxFieldsAt3(v);
    if t.template.Some? { TemplateText(t.template.value); assert TemplateJson(t.template.value) != Null; }
    hide TxFields, StrsJson, OptionJson, TeeOptionJson, ModeJson, NatJson, BytesJson, SaysOption,
         TemplateJson, IsTemplate;
    OptionText(o, "template_config", t.template, TemplateJson, IsTemplate);
  }

  lemma ModeFieldText(o: Fields, v: Values, t: Tx, signature: Bytes)
    requires v == TxValues(t, signature) && o == TxFields(v)
    ensures SaysMode(o, t.mode)
  {
    TxFieldsAt2(v);
    ModeText(t.mode);
    hide TxFields, StrsJson, OptionJson, TeeOptionJson, ModeJson, IsMode, NatJson, BytesJson;
  }

  /** The JSON of any transaction, whatever its signature, is read back as the transaction. */
  lemma TextRoundTrip(t: Tx, signature: Bytes)
    requires |signature| < TWO64
    ensures TxOf(TxJson(t, signature)) == Ok(t)
  {
    var v := TxValues(t, signature);
    var o := TxFields(v);
    IdentityText(o, v, t, signature);
    FundingText(o, v, t, signature);
    PrivacyFieldText(o, v, t, signature);
    KeyGrantFieldText(o, v, t, signature);
    TemplateFieldText(o, v, t, signature);
    TeeText(o, v, t, signature);
    ModeFieldText(o, v, t, signature);
    TailText(o, v, t, signature);
    hide TxOf, TxFields, TxValues, IsIdentity, SaysOption, SaysRequiredTee, SaysMode, IsTail;
    TxMeans(TxJson(t, signature), t);
  }

  /** The bytes a registration's Config hashes are those of the transaction the JSON says. */
  lemma BincodeMeans(j: Json, t: Tx)
    ensures UnsignedBincode(j) == Ok(PutTx(t, [])) <==> IsTx(j, t)
  {
    hide TxOf, IsTx, PutTx, ReadTx;
    TxMeans(j, t);
    if TxOf(j).Ok? {
      TxRoundTrip(TxOf(j).value, []);
      TxRoundTrip(t, []);
    }
  }

  // ----- fields left out

  /** What a transaction read from JSON holds where the JSON leaves a field out. */
  lemma OmittedFieldsTakeDefaults(o: Fields)
    requires TxOf(Obj(o)).Ok?
    ensures var t := TxOf(Obj(o)).value;
            && ("description" !in o ==> t.identity.description == "")
            && ("admins" !in o ==> t.identity.admins == [])
            && ("initial_funding" !in o ==> t.initialFunding == None)
            && ("checkpoint_verification" !in o ==> t.requiredTee == None)
            && ("mode" !in o ==> t.mode == DataStorage("", [], [], None))
            && ("privacy" !in o ==> t.privacy == None)
            && ("initial_owner_key_grant" !in o ==> t.ownerKeyGrant == None)
            && ("template_config" !in o ==> t.template == None)
            && ("confirmation_depth" !in o ==> t.tail.confirmationDepth == 0)
            && ("cryptographic_completeness" !in o ==> !t.tail.cryptographicCompleteness)
  {
    TxMeans(Obj(o), TxOf(Obj(o)).value);
    hide TxOf, IsMode, IsStrs, IsNat, AreBytes;
  }

  /** And of an indexing mode. */
  lemma OmittedIndexingFields(o: Fields)
    requires IndexingOf(o).Ok?
    ensures var m := IndexingOf(o).value;
            && ("wasm_modules" !in o ==> m.modules == [])
            && ("retention_window" !in o ==> m.window == Indefinite)
            && ("completeness" !in o ==> m.completeness == None)
            && ("historical_auth_mode" !in o ==> m.auth == BftEquivalent)
            && "indexer_config" in o && o["indexer_config"].Obj?
            && ("epoch_length" !in o["indexer_config"].fields ==> m.indexers.epochLength == 100)
  {
    IndexingMeans(o, IndexingOf(o).value);
    hide IndexingOf, SaysBytes, AreModules, SaysExecution, IsRetention;
  }

  /** A completeness configuration without a bond has none, and is not deferred unless it says so. */
  lemma OmittedCompletenessFields(j: Json)
    requires CompletenessOf(j).Ok?
    ensures j.Obj?
    ensures "deferred" !in j.fields ==> !CompletenessOf(j).value.deferred
    ensures "bond_amount" !in j.fields ==> CompletenessOf(j).value.bondAmount == 0
  {
    CompletenessMeans(j, CompletenessOf(j).value);
    hide CompletenessOf, SaysWords;
  }

  /** No transaction is read without the fields the chain requires. */
  lemma RequiredFieldsAreNeeded(o: Fields)
    requires TxOf(Obj(o)).Ok?
    ensures "subgrove_id" in o && "name" in o && "schema" in o && "owner_did" in o
    ensures "signature" in o && "public_key_id" in o && "nonce" in o
  {
    TxMeans(Obj(o), TxOf(Obj(o)).value);
    hide TxOf, SaysOption, SaysRequiredTee, SaysMode, IsStrs, IsNat, AreBytes;
  }

  // ----- leaving a field out of a transaction's JSON gives it its default, and changes nothing else

  lemma WithoutDescription(o: Fields, t: Tx)
    requires TxOf(Obj(o)) == Ok(t)
    ensures TxOf(Obj(o - {"description"})) == Ok(t.(identity := t.identity.(description := "")))
  {
    hide TxOf, IsStrs, IsNat, AreBytes, IsMode, IsPrivacy, IsKeyGrant, IsTemplate, IsFunding, IsTee;
    TxMeans(Obj(o), t);
    TxMeans(Obj(o - {"description"}), t.(identity := t.identity.(description := "")));
  }

  lemma WithoutAdmins(o: Fields, t: Tx)
    requires TxOf(Obj(o)) == Ok(t)
    ensures TxOf(Obj(o - {"admins"})) == Ok(t.(identity := t.identity.(admins := [])))
  {
    hide TxOf, IsStrs, IsNat, AreBytes, IsMode, IsPrivacy, IsKeyGrant, IsTemplate, IsFunding, IsTee;
    TxMeans(Obj(o), t);
    TxMeans(Obj(o - {"admins"}), t.(identity := t.identity.(admins := [])));
  }

  lemma WithoutFunding(o: Fields, t: Tx)
    requires TxOf(Obj(o)) == Ok(t)
    ensures TxOf(Obj(o - {"initial_funding"})) == Ok(t.(initialFunding := None))
  {
    hide TxOf, IsStrs, IsNat, AreBytes, IsMode, IsPrivacy, IsKeyGrant, IsTemplate, IsFunding, IsTee;
    TxMeans(Obj(o), t);
    TxMeans(Obj(o - {"initial_funding"}), t.(initialFunding := None));
  }

  lemma WithoutVerification(o: Fields, t: Tx)
    requires TxOf(Obj(o)) == Ok(t)
    ensures TxOf(Obj(o - {"checkpoint_verification"})) == Ok(t.(requiredTee := None))
  {
    hide TxOf, IsStrs, IsNat, AreBytes, IsMode, IsPrivacy, IsKeyGrant, IsTemplate, IsFunding, IsTee;
    TxMeans(Obj(o), t);
    TxMeans(Obj(o - {"checkpoint_verification"}), t.(requiredTee := None));
  }

  lemma WithoutMode(o: Fields, t: Tx)
    requires TxOf(Obj(o)) == Ok(t)
    ensures TxOf(Obj(o - {"mode"})) == Ok(t.(mode := DataStorage("", [], [], None)))
  {
    hide TxOf, IsStrs, IsNat, AreBytes, IsMode, IsPrivacy, IsKeyGrant, IsTemplate, IsFunding, IsTee;
    TxMeans(Obj(o), t);
    TxMeans(Obj(o - {"mode"}), t.(mode := DataStorage("", [], [], None)));
  }

  lemma WithoutPrivacy(o: Fields, t: Tx)
    requires TxOf(Obj(o)) == Ok(t)
    ensures TxOf(Obj(o - {"privacy"})) == Ok(t.(privacy := None))
  {
    hide TxOf, IsStrs, IsNat, AreBytes, IsMode, IsPrivacy, IsKeyGrant, IsTemplate, IsFunding, IsTee;
    TxMeans(Obj(o), t);
    TxMeans(Obj(o - {"privacy"}), t.(privacy := None));
  }

  lemma WithoutOwnerKeyGrant(o: Fields, t: Tx)
    requires TxOf(Obj(o)) == Ok(t)
    ensures TxOf(Obj(o - {"initial_owner_key_grant"})) == Ok(t.(ownerKeyGrant := None))
  {
    hide TxOf, IsStrs, IsNat, AreBytes, IsMode, IsPrivacy, IsKeyGrant, IsTemplate, IsFunding, IsTee;
    TxMeans(Obj(o), t);
    TxMeans(Obj(o - {"initial_owner_key_grant"}), t.(ownerKeyGrant := None));
  }

  lemma WithoutTemplate(o: Fields, t: Tx)
    requires TxOf(Obj(o)) == Ok(t)
    ensures TxOf(Obj(o - {"template_config"})) == Ok(t.(template := None))
  {
    hide TxOf, IsStrs, IsNat, AreBytes, IsMode, IsPrivacy, IsKeyGrant, IsTemplate, IsFunding, IsTee;
    TxMeans(Obj(o), t);
    TxMeans(Obj(o - {"template_config"}), t.(template := None));
  }

  lemma WithoutDepth(o: Fields, t: Tx)
    requires TxOf(Obj(o)) == Ok(t)
    ensures TxOf(Obj(o - {"confirmation_depth"})) == Ok(t.(tail := t.tail.(confirmationDepth := 0)))
  {
    hide TxOf, IsStrs, IsNat, AreBytes, IsMode, IsPrivacy, IsKeyGrant, IsTemplate, IsFunding, IsTee;
    TxMeans(Obj(o), t);
    TxMeans(Obj(o - {"confirmation_depth"}), t.(tail := t.tail.(confirmationDepth := 0)));
  }

  lemma WithoutCompleteness(o: Fields, t: Tx)
    requires TxOf(Obj(o)) == Ok(t)
    ensures TxOf(Obj(o - {"cryptographic_completeness"})) == Ok(t.(tail := t.tail.(cryptographicCompleteness := false)))
  {
    hide TxOf, IsStrs, IsNat, AreBytes, IsMode, IsPrivacy, IsKeyGrant, IsTemplate, IsFunding, IsTee;
    TxMeans(Obj(o), t);
    TxMeans(Obj(o - {"cryptographic_completeness"}), t.(tail := t.tail.(cryptographicCompleteness := false)));
  }

  lemma WithoutEpochLength(m: Fields, c: Indexers)
    requires "indexer_config" in m && m["indexer_config"].Obj? && IndexersOf(m) == Ok(c)
    ensures IndexersOf(m["indexer_config" := Obj(m["indexer_config"].fields - {"epoch_length"})]) ==
            Ok(c.(epochLength := 100))
  {
    hide IndexersOf, IsNat, IsAmount;
    IndexersMean(m, c);
    IndexersMean(m["indexer_config" := Obj(m["indexer_config"].fields - {"epoch_length"})], c.(epochLength := 100));
  }

  lemma WithoutBond(o: Fields, c: Completeness)
    requires CompletenessOf(Obj(o)) == Ok(c)
    ensures CompletenessOf(Obj(o - {"bond_amount"})) == Ok(c.(bondAmount := 0))
    ensures CompletenessOf(Obj(o - {"deferred"})) == Ok(c.(deferred := false))
  {
    hide CompletenessOf, IsNat, IsAmount;
    CompletenessMeans(Obj(o), c);
    CompletenessMeans(Obj(o - {"bond_amount"}), c.(bondAmount := 0));
    CompletenessMeans(Obj(o - {"deferred"}), c.(deferred := false));
  }

  lemma WithoutRetentionPeriod(o: Fields, m: Mode)
    requires FileOf(o) == Ok(m)
    ensures FileOf(o - {"retention_period"}) == Ok(m.(retentionPeriod := 0))
  {
    FileMeans(o, m);
    hide FileOf, IsNat, IsStrs, IsPricing;
    FileMeans(o - {"retention_period"}, m.(retentionPeriod := 0));
  }

  lemma WithoutModules(o: Fields, m: Mode)
    requires IndexingOf(o) == Ok(m)
    ensures IndexingOf(o - {"wasm_modules"}) == Ok(m.(modules := []))
  {
    IndexingMeans(o, m);
    hide IndexingOf, IsBytes, AreModules, IsExecution, IsIndexers, IsRetention, IsCompleteness;
    IndexingMeans(o - {"wasm_modules"}, m.(modules := []));
  }

  lemma WithoutWindow(o: Fields, m: Mode)
    requires IndexingOf(o) == Ok(m)
    ensures IndexingOf(o - {"retention_window"}) == Ok(m.(window := Indefinite))
  {
    IndexingMeans(o, m);
    hide IndexingOf, IsBytes, AreModules, IsExecution, IsIndexers, IsRetention, IsCompleteness;
    IndexingMeans(o - {"retention_window"}, m.(window := Indefinite));
  }

  lemma WithoutCompletenessConfig(o: Fields, m: Mode)
    requires IndexingOf(o) == Ok(m)
    ensures IndexingOf(o - {"completeness"}) == Ok(m.(completeness := None))
  {
    IndexingMeans(o, m);
    hide IndexingOf, IsBytes, AreModules, IsExecution, IsIndexers, IsRetention, IsCompleteness;
    IndexingMeans(o - {"completeness"}, m.(completeness := None));
  }

  lemma WithoutAuthMode(o: Fields, m: Mode)
    requires IndexingOf(o) == Ok(m)
    ensures IndexingOf(o - {"historical_auth_mode"}) == Ok(m.(auth := BftEquivalent))
  {
    IndexingMeans(o, m);
    hide IndexingOf, IsBytes, AreModules, IsExecution, IsIndexers, IsRetention, IsCompleteness;
    IndexingMeans(o - {"historical_auth_mode"}, m.(auth := BftEquivalent));
  }
}
