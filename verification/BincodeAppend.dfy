/** What a bincode encoder writes does not depend on what follows it: more bytes behind what follows
come out behind the whole. */
module BincodeAppend {
  import opened Bytes
  import opened Bincode

  lemma StrAppends(s: GoString, a: Bytes, b: Bytes)
    ensures PutStr(s, a) + b == PutStr(s, a + b)
  {
    VecAppends(StrBytes(s), a, b);
  }

  lemma VecAppends(v: Bytes, a: Bytes, b: Bytes)
    ensures PutVec(v, a) + b == PutVec(v, a + b)
  {
    Assoc(v, a, b);
    Assoc(ToLE(|v|, 8), v + a, b);
  }

  lemma {:induction false} ListAppends(xs: seq<GoString>, a: Bytes, b: Bytes)
    ensures PutList(xs, a) + b == PutList(xs, a + b)
  {
    hide PutStr;
    if xs == [] {
    } else {
      StrAppends(xs[0], PutList(xs[1..], a), b);
      ListAppends(xs[1..], a, b);
    }
  }

  lemma StrsAppends(xs: seq<GoString>, a: Bytes, b: Bytes)
    ensures PutStrs(xs, a) + b == PutStrs(xs, a + b)
  {
    hide PutList;
    ListAppends(xs, a, b);
    Assoc(ToLE(|xs|, 8), PutList(xs, a), b);
  }

  lemma OptionAppends<T>(put: (T, Bytes) -> Bytes, o: Option<T>, a: Bytes, b: Bytes)
    requires o.Some? ==> put(o.value, a) + b == put(o.value, a + b)
    ensures PutOption(put, o, a) + b == PutOption(put, o, a + b)
  {
    match o
    case None => Assoc([0], a, b);
    case Some(x) => Assoc([1], put(x, a), b);
  }

  lemma PricingAppends(p: Pricing, a: Bytes, b: Bytes)
    ensures PutPricing(p, a) + b == PutPricing(p, a + b)
  {
    hide ToLE;
    var s := ToLE(p.ownerShareBps, 4);
    Assoc(s, a, b);
    Assoc(ToLE(p.pricePerQuery, 16), s + a, b);
    Assoc([if p.enabled then 1 else 0], PutU128(p.pricePerQuery, s + a), b);
  }

  lemma PricingOptionAppends(o: Option<Pricing>, a: Bytes, b: Bytes)
    ensures PutOption(PutPricing, o, a) + b == PutOption(PutPricing, o, a + b)
  {
    hide PutPricing;
    if o.Some? { PricingAppends(o.value, a, b); }
    OptionAppends(PutPricing, o, a, b);
  }

  lemma ModuleAppends(m: Module, a: Bytes, b: Bytes)
    ensures PutModule(m, a) + b == PutModule(m, a + b)
  {
    hide PutStr, PutVec;
    var c := PutVec(m.content, a);
    VecAppends(m.content, a, b);
    Assoc(m.hash, c, b);
    StrAppends(m.name, m.hash + c, b);
  }

  lemma {:induction false} ModuleListAppends(ms: seq<Module>, a: Bytes, b: Bytes)
    ensures PutModuleList(ms, a) + b == PutModuleList(ms, a + b)
  {
    hide PutModule;
    if ms == [] {
    } else {
      ModuleAppends(ms[0], PutModuleList(ms[1..], a), b);
      ModuleListAppends(ms[1..], a, b);
    }
  }

  lemma ModulesAppends(ms: Modules, a: Bytes, b: Bytes)
    ensures PutModules(ms, a) + b == PutModules(ms, a + b)
  {
    hide PutModuleList;
    ModuleListAppends(ms, a, b);
    Assoc(ToLE(|ms|, 8), PutModuleList(ms, a), b);
  }

  lemma ExecutionAppends(e: Execution, a: Bytes, b: Bytes)
    ensures PutExecution(e, a) + b == PutExecution(e, a + b)
  {
    hide ToLE;
    match e
    case ConsensusExecution => Assoc(ToLE(0, 4), a, b);
    case IndexerExecution(rate) =>
      Assoc([rate], a, b);
      Assoc(ToLE(1, 4), [rate] + a, b);
    case TeeExecution(tee) =>
      Assoc(ToLE(TeeIndex(tee), 4), a, b);
      Assoc(ToLE(2, 4), PutTee(tee, a), b);
  }

  lemma IndexersAppends(c: Indexers, a: Bytes, b: Bytes)
    ensures PutIndexers(c, a) + b == PutIndexers(c, a + b)
  {
    hide ToLE;
    var s := PutU128(c.minStake, a);
    var e := ToLE(c.epochLength, 8) + s;
    var r := PutU128(c.rewardPerEpoch, e);
    Assoc(ToLE(c.minStake, 16), a, b);
    Assoc(ToLE(c.epochLength, 8), s, b);
    Assoc(ToLE(c.rewardPerEpoch, 16), e, b);
    Assoc([c.maxIndexers], r, b);
    Assoc([c.minIndexers], [c.maxIndexers] + r, b);
  }

  lemma CountAppends(variant: nat, n: nat, a: Bytes, b: Bytes)
    ensures (ToLE(variant, 4) + (ToLE(n, 8) + a)) + b == ToLE(variant, 4) + (ToLE(n, 8) + (a + b))
  {
    hide ToLE;
    Assoc(ToLE(n, 8), a, b);
    Assoc(ToLE(variant, 4), ToLE(n, 8) + a, b);
  }

  lemma RetentionAppends(r: Retention, a: Bytes, b: Bytes)
    ensures PutRetention(r, a) + b == PutRetention(r, a + b)
  {
    hide ToLE;
    match r
    case Blocks(n) => CountAppends(0, n, a, b);
    case Seconds(n) => CountAppends(1, n, a, b);
    case Indefinite => Assoc(ToLE(2, 4), a, b);
    case VerifyOnly => Assoc(ToLE(3, 4), a, b);
  }

  lemma WordsAppends(w: Words, a: Bytes, b: Bytes)
    ensures PutWords(w, a) + b == PutWords(w, a + b)
  {
    hide ToLE;
    var d := ToLE(w.d, 4) + a;
    var c := ToLE(w.c, 4) + d;
    Assoc(ToLE(w.d, 4), a, b);
    Assoc(ToLE(w.c, 4), d, b);
    Assoc(ToLE(w.b, 4), c, b);
    Assoc(ToLE(w.a, 4), ToLE(w.b, 4) + c, b);
  }

  lemma CompletenessAppends(c: Completeness, a: Bytes, b: Bytes)
    ensures PutCompleteness(c, a) + b == PutCompleteness(c, a + b)
  {
    hide ToLE, PutWords;
    var s := PutU128(c.bondAmount, a);
    var d := PutBool(c.deferred, s);
    Assoc(ToLE(c.bondAmount, 16), a, b);
    Assoc([if c.deferred then 1 else 0], s, b);
    WordsAppends(c.txConfigHash, d, b);
    WordsAppends(c.logConfigHash, PutWords(c.txConfigHash, d), b);
  }

  lemma CompletenessOptionAppends(o: Option<Completeness>, a: Bytes, b: Bytes)
    ensures PutOption(PutCompleteness, o, a) + b == PutOption(PutCompleteness, o, a + b)
  {
    hide PutCompleteness;
    if o.Some? { CompletenessAppends(o.value, a, b); }
    OptionAppends(PutCompleteness, o, a, b);
  }

  lemma DataAppends(m: Mode, a: Bytes, b: Bytes)
    requires m.DataStorage?
    ensures PutData(m, a) + b == PutData(m, a + b)
  {
    hide PutStr, PutStrs, PutOption;
    var p := PutOption(PutPricing, m.pricing, a);
    var f := PutStrs(m.freeReaders, p);
    PricingOptionAppends(m.pricing, a, b);
    StrsAppends(m.freeReaders, p, b);
    StrsAppends(m.writers, f, b);
    StrAppends(m.name, PutStrs(m.writers, f), b);
  }

  lemma FileAppends(m: Mode, a: Bytes, b: Bytes)
    requires m.FileStorage?
    ensures PutFile(m, a) + b == PutFile(m, a + b)
  {
    hide PutStr, PutStrs, PutOption, ToLE;
    var t := ToLE(m.retentionPeriod, 8) + a;
    var p := PutOption(PutPricing, m.pricing, t);
    var f := PutStrs(m.freeReaders, p);
    var w := PutStrs(m.writers, f);
    var r := [m.replication] + w;
    Assoc(ToLE(m.retentionPeriod, 8), a, b);
    PricingOptionAppends(m.pricing, t, b);
    StrsAppends(m.freeReaders, p, b);
    StrsAppends(m.writers, f, b);
    Assoc([m.replication], w, b);
    Assoc(ToLE(m.maxFileSize, 8), r, b);
    StrAppends(m.name, ToLE(m.maxFileSize, 8) + r, b);
  }

  lemma IndexingAppends(m: Mode, a: Bytes, b: Bytes)
    requires m.BlockchainIndexing?
    ensures PutIndexing(m, a) + b == PutIndexing(m, a + b)
  {
    hide PutVec, PutModules, PutExecution, PutIndexers, PutRetention, PutOption, ToLE;
    var z := PutAuth(m.auth, a);
    var k := PutOption(PutCompleteness, m.completeness, z);
    var w := PutRetention(m.window, k);
    var c := PutIndexers(m.indexers, w);
    var e := PutExecution(m.execution, c);
    Assoc(ToLE(if m.auth.BftEquivalent? then 0 else 1, 4), a, b);
    CompletenessOptionAppends(m.completeness, z, b);
    RetentionAppends(m.window, k, b);
    IndexersAppends(m.indexers, w, b);
    ExecutionAppends(m.execution, c, b);
    ModulesAppends(m.modules, e, b);
    VecAppends(m.manifest, PutModules(m.modules, e), b);
  }

  lemma ModeAppends(m: Mode, a: Bytes, b: Bytes)
    ensures PutMode(m, a) + b == PutMode(m, a + b)
  {
    hide ToLE, PutData, PutFile, PutIndexing;
    match m
    case DataStorage(_, _, _, _) => DataAppends(m, a, b); Assoc(ToLE(0, 4), PutData(m, a), b);
    case FileStorage(_, _, _, _, _, _, _) => FileAppends(m, a, b); Assoc(ToLE(1, 4), PutFile(m, a), b);
    case BlockchainIndexing(_, _, _, _, _, _, _) => IndexingAppends(m, a, b); Assoc(ToLE(2, 4), PutIndexing(m, a), b);
  }

  lemma FrequencyAppends(f: Frequency, a: Bytes, b: Bytes)
    ensures PutFrequency(f, a) + b == PutFrequency(f, a + b)
  {
    hide ToLE;
    match f
    case EveryUpdate => Assoc(ToLE(0, 4), a, b);
    case EveryNBlocks(n) => CountAppends(1, n, a, b);
    case EveryNSeconds(n) => CountAppends(2, n, a, b);
    case Never => Assoc(ToLE(3, 4), a, b);
  }

  lemma AllowedAppends(o: Option<Strs>, a: Bytes, b: Bytes)
    ensures PutAllowed(o, a) + b == PutAllowed(o, a + b)
  {
    hide PutStrs;
    match o
    case None => Assoc([0], a, b);
    case Some(xs) => StrsAppends(xs, a, b); Assoc([1], PutStrs(xs, a), b);
  }

  lemma PrivacyAppends(p: Privacy, a: Bytes, b: Bytes)
    ensures PutPrivacy(p, a) + b == PutPrivacy(p, a + b)
  {
    hide PutAllowed, PutFrequency;
    FrequencyAppends(p.frequency, a, b);
    AllowedAppends(p.allowedIndexers, PutFrequency(p.frequency, a), b);
  }

  lemma KeyGrantAppends(g: KeyGrant, a: Bytes, b: Bytes)
    ensures PutKeyGrant(g, a) + b == PutKeyGrant(g, a + b)
  {
    hide PutStr, PutVec, ToLE;
    var at := ToLE(g.grantedAt, 8) + a;
    var from := PutStr(g.grantedBy, at);
    var c := PutVec(g.encryptedKey, from);
    var h := PutVec(g.ephemeralKey, c);
    var k := PutStr(g.granteeKeyId, h);
    Assoc(ToLE(g.grantedAt, 8), a, b);
    StrAppends(g.grantedBy, at, b);
    VecAppends(g.encryptedKey, from, b);
    VecAppends(g.ephemeralKey, c, b);
    StrAppends(g.granteeKeyId, h, b);
    Assoc(ToLE(g.keyEpoch, 4), k, b);
    StrAppends(g.grantee, ToLE(g.keyEpoch, 4) + k, b);
  }

  lemma TemplateAppends(t: Template, a: Bytes, b: Bytes)
    ensures PutTemplate(t, a) + b == PutTemplate(t, a + b)
  {
    hide PutStr, PutVec, PutStrs, PutOption, ToLE;
    var h := PutOption(PutStr, t.chain, a);
    var e := PutStrs(t.eventSignatures, h);
    var c := PutStrs(t.contracts, e);
    var p := PutVec(t.parameters, c);
    var x := PutStr(t.variantId, p);
    if t.chain.Some? { StrAppends(t.chain.value, a, b); }
    OptionAppends(PutStr, t.chain, a, b);
    StrsAppends(t.eventSignatures, h, b);
    StrsAppends(t.contracts, e, b);
    VecAppends(t.parameters, c, b);
    StrAppends(t.variantId, p, b);
    Assoc(ToLE(t.version, 4), x, b);
    StrAppends(t.id, ToLE(t.version, 4) + x, b);
  }

  lemma IdentityAppends(i: Identity, a: Bytes, b: Bytes)
    ensures PutIdentity(i, a) + b == PutIdentity(i, a + b)
  {
    hide PutStr, PutStrs;
    var z := PutStrs(i.admins, a);
    var o := PutStr(i.ownerDid, z);
    var s := PutStr(i.schema, o);
    var d := PutStr(i.description, s);
    StrsAppends(i.admins, a, b);
    StrAppends(i.ownerDid, z, b);
    StrAppends(i.schema, o, b);
    StrAppends(i.description, s, b);
    StrAppends(i.name, d, b);
    StrAppends(i.subgroveId, PutStr(i.name, d), b);
  }

  lemma TailAppends(t: Tail, a: Bytes, b: Bytes)
    ensures PutTail(t, a) + b == PutTail(t, a + b)
  {
    hide PutStr, PutVec, ToLE;
    var c := PutBool(t.cryptographicCompleteness, a);
    var n := ToLE(t.nonce, 8) + c;
    var k := PutStr(t.publicKeyId, n);
    Assoc([if t.cryptographicCompleteness then 1 else 0], a, b);
    Assoc(ToLE(t.nonce, 8), c, b);
    StrAppends(t.publicKeyId, n, b);
    VecAppends([], k, b);
    Assoc(ToLE(t.confirmationDepth, 4), PutVec([], k), b);
  }

  /** The bytes of a transaction, with more behind what follows. */
  lemma TxAppends(t: Tx, a: Bytes, b: Bytes)
    ensures PutTx(t, a) + b == PutTx(t, a + b)
  {
    hide PutIdentity, PutOption, PutMode, PutTail, PutU128, PutTee, PutPrivacy, PutKeyGrant, PutTemplate;
    var e := PutTail(t.tail, a);
    var c := PutOption(PutTemplate, t.template, e);
    var g := PutOption(PutKeyGrant, t.ownerKeyGrant, c);
    var p := PutOption(PutPrivacy, t.privacy, g);
    var m := PutMode(t.mode, p);
    var q := PutOption(PutTee, t.requiredTee, m);
    TailAppends(t.tail, a, b);
    TemplateOptionAppends(t.template, e, b);
    if t.ownerKeyGrant.Some? { KeyGrantAppends(t.ownerKeyGrant.value, c, b); }
    OptionAppends(PutKeyGrant, t.ownerKeyGrant, c, b);
    if t.privacy.Some? { PrivacyAppends(t.privacy.value, g, b); }
    OptionAppends(PutPrivacy, t.privacy, g, b);
    ModeAppends(t.mode, p, b);
    TeeOptionAppends(t.requiredTee, m, b);
    FundingAppends(t.initialFunding, q, b);
    IdentityAppends(t.identity, PutOption(PutU128, t.initialFunding, q), b);
  }

  lemma TemplateOptionAppends(o: Option<Template>, a: Bytes, b: Bytes)
    ensures PutOption(PutTemplate, o, a) + b == PutOption(PutTemplate, o, a + b)
  {
    hide PutTemplate;
    if o.Some? { TemplateAppends(o.value, a, b); }
    OptionAppends(PutTemplate, o, a, b);
  }

  lemma TeeOptionAppends(o: Option<Tee>, a: Bytes, b: Bytes)
    ensures PutOption(PutTee, o, a) + b == PutOption(PutTee, o, a + b)
  {
    hide PutOption;
    if o.Some? { Assoc(ToLE(TeeIndex(o.value), 4), a, b); }
    OptionAppends(PutTee, o, a, b);
  }

  lemma FundingAppends(o: Option<U128>, a: Bytes, b: Bytes)
    ensures PutOption(PutU128, o, a) + b == PutOption(PutU128, o, a + b)
  {
    hide PutOption;
    if o.Some? { Assoc(ToLE(o.value, 16), a, b); }
    OptionAppends(PutU128, o, a, b);
  }
}
