/** The bincodeEncoder of consensus/register_subgrove.go: it appends a transaction's fields to a
buffer as it reads them from the JSON.

Every writer is proved to fail exactly when the transaction's reader does, and otherwise to put the
bytes of what was read behind what the buffer held, whatever comes after them. Conversions to a
narrower integer are written out, so the proofs show that none of them truncates. */
module RegisterEncoder {
  import opened Bytes
  import opened Bincode
  import opened Uint128s
  import opened RegisterJson

  datatype Unit = Unit

  lemma {:induction false} IndexOfFirst(name: string, variants: seq<string>, i: nat)
    requires i < |variants| && variants[i] == name && name !in variants[..i]
    ensures IndexOf(name, variants) == Ok(i)
  {
    if i == 0 {
    } else {
      assert variants[..i] == [variants[0]] + variants[1..][..i - 1];
      IndexOfFirst(name, variants[1..], i - 1);
    }
  }

  // The variants a writer tells apart, by name and by index.

  predicate CountsFrequency(name: string) { name == "EveryNBlocks" || name == "EveryNSeconds" }

  lemma FrequencyNames(name: string)
    ensures IndexOf(name, FREQUENCIES).Ok? ==>
              && IndexOf(name, FREQUENCIES).value < 4
              && (CountsFrequency(name) <==> 1 <= IndexOf(name, FREQUENCIES).value <= 2)
  {
  }

  predicate CountsRetention(name: string) { name == "Blocks" || name == "Seconds" }

  lemma RetentionNames(name: string)
    ensures IndexOf(name, RETENTIONS).Ok? ==>
              && IndexOf(name, RETENTIONS).value < 4
              && (CountsRetention(name) <==> IndexOf(name, RETENTIONS).value <= 1)
  {
  }

  predicate ByIndexer(name: string) { name == "IndexerExecution" }

  predicate ByTee(name: string) { name == "TeeExecution" }

  lemma ExecutionNames(name: string)
    ensures IndexOf(name, EXECUTIONS).Ok? ==>
              && IndexOf(name, EXECUTIONS).value < 3
              && (ByIndexer(name) <==> IndexOf(name, EXECUTIONS).value == 1)
              && (ByTee(name) <==> IndexOf(name, EXECUTIONS).value == 2)
  {
  }

  predicate StoresData(name: string) { name == "DataStorage" }

  predicate StoresFiles(name: string) { name == "FileStorage" }

  lemma ModeNames(name: string)
    ensures IndexOf(name, MODES).Ok? ==>
              && IndexOf(name, MODES).value < 3
              && (StoresData(name) <==> IndexOf(name, MODES).value == 0)
              && (StoresFiles(name) <==> IndexOf(name, MODES).value == 1)
  {
  }

  // ----- the readers that loop

  lemma StringItemsStep(items: seq<Json>, i: nat)
    requires i < |items|
    ensures StringItems(items[i..]) ==
            if AsString(items[i]).Err? || StringItems(items[i + 1..]).Err? then Err
            else Ok([AsString(items[i]).value] + StringItems(items[i + 1..]).value)
  {
    assert items[i..][1..] == items[i + 1..];
  }

  method ReadStrings(v: Json) returns (r: Result<Strs>)
    ensures r == AsStrings(v)
  {
    if !v.Arr? || |v.items| >= TWO64 { return Err; }
    var items, out: seq<GoString> := v.items, [];
    assert items[0..] == items;
    assert items[|items|..] == [] && StringItems([]) == Ok([]);
    hide StringItems;
    for i := 0 to |items|
      invariant |out| == i
      invariant StringItems(items).Ok? <==> StringItems(items[i..]).Ok?
      invariant StringItems(items).Ok? ==> StringItems(items).value == out + StringItems(items[i..]).value
    {
      StringItemsStep(items, i);
      var s :- AsString(items[i]);
      if StringItems(items).Ok? { Assoc(out, [s], StringItems(items[i + 1..]).value); }
      out := out + [s];
    }
    assert out + [] == out;
    r := Ok(out);
  }

  lemma ByteItemsStep(items: seq<Json>, i: nat)
    requires i < |items|
    ensures ByteItems(items[i..]) ==
            if AsUint(items[i], 256).Err? || ByteItems(items[i + 1..]).Err? then Err
            else Ok([AsUint(items[i], 256).value] + ByteItems(items[i + 1..]).value)
  {
    hide AsUint;
    assert items[i..][1..] == items[i + 1..];
  }

  method ReadBytes(v: Json) returns (r: Result<Blob>)
    ensures r == AsBytes(v)
  {
    if !v.Arr? || |v.items| >= TWO64 { return Err; }
    var items, out: Bytes := v.items, [];
    assert items[0..] == items;
    assert items[|items|..] == [] && ByteItems([]) == Ok([]);
    hide ByteItems, AsUint, ToU8;
    for i := 0 to |items|
      invariant |out| == i
      invariant ByteItems(items).Ok? <==> ByteItems(items[i..]).Ok?
      invariant ByteItems(items).Ok? ==> ByteItems(items).value == out + ByteItems(items[i..]).value
    {
      ByteItemsStep(items, i);
      var b :- AsUint(items[i], 256);
      if ByteItems(items).Ok? { Assoc(out, [ToU8(b)], ByteItems(items[i + 1..]).value); }
      out := out + [ToU8(b)];
    }
    assert out + [] == out;
    r := Ok(out);
  }

  method ParseU128(v: Json, stringToo: bool) returns (r: Result<Uint128>)
    ensures r.Ok? <==> AsU128(v, stringToo).Ok?
    ensures r.Ok? ==> r.value.Value() == AsU128(v, stringToo).value
  {
    var text: string;
    match v {
      case Num(t) => text := t;
      case Str(s) =>
        if !stringToo { return Err; }
        text := s;
      case Null => return Err;
      case Bool(_) => return Err;
      case Arr(_) => return Err;
      case Obj(_) => return Err;
    }
    r := ParseUint128(text);
  }

  method StringsAt(o: Fields, name: string) returns (r: Result<Strs>)
    ensures r == StrsField(o, name)
  {
    var v :- Get(o, name);
    r := ReadStrings(v);
  }

  method BytesAt(o: Fields, name: string) returns (r: Result<Blob>)
    ensures r == BytesField(o, name)
  {
    var v :- Get(o, name);
    r := ReadBytes(v);
  }

  method U128At(o: Fields, name: string, stringToo: bool) returns (r: Result<Uint128>)
    ensures r.Ok? <==> U128Field(o, name, stringToo).Ok?
    ensures r.Ok? ==> r.value.Value() == U128Field(o, name, stringToo).value
  {
    var v :- Get(o, name);
    r := ParseU128(v, stringToo);
  }

  ghost function PutSome(words: seq<U32>, rest: Bytes): Bytes {
    if words == [] then rest else PutSome(words[..|words| - 1], PutU32(words[|words| - 1], rest))
  }

  lemma FourWords(words: seq<U32>, w: Words, rest: Bytes)
    requires words == [w.a, w.b, w.c, w.d]
    ensures PutSome(words, rest) == PutWords(w, rest)
  {
    hide PutU32;
    var three, two, one := words[..3], words[..2], words[..1];
    assert three[..2] == two && two[..1] == one && one[..0] == [];
    var c := PutU32(w.c, PutU32(w.d, rest));
    assert PutSome(words, rest) == PutSome(two, c);
    var b := PutU32(w.b, c);
    assert PutSome(two, c) == PutSome(one, b);
    assert PutSome(one, b) == PutSome([], PutU32(w.a, b));
  }

  lemma ModuleStep(items: seq<Json>)
    requires items != [] && ModuleItems(items).Ok?
    ensures ModuleOf(items[0]).Ok? && ModuleItems(items[1..]).Ok?
    ensures forall rest: Bytes ::
      PutModuleList(ModuleItems(items).value, rest) ==
      PutModule(ModuleOf(items[0]).value, PutModuleList(ModuleItems(items[1..]).value, rest))
  {
  }

  /** Conversions to a narrower integer, which keep the low bits. */
  function ToU8(n: nat): (r: Byte)
    ensures n < 256 ==> r == n
  {
    n % 256
  }

  function ToU32(n: nat): (r: U32)
    ensures n < TWO32 ==> r == n
  {
    n % TWO32
  }

  class BincodeEncoder {
    var out: Bytes

    constructor ()
      ensures out == []
    {
      out := [];
    }

    // ----- primitives

    method Append(b: Bytes)
      modifies this
      ensures forall rest: Bytes {:trigger out + rest} :: out + rest == old(out) + (b + rest)
    {
      out := out + b;
    }

    method U8(v: Byte)
      modifies this
      ensures forall rest: Bytes {:trigger out + rest} :: out + rest == old(out) + PutU8(v, rest)
    {
      Append([v]);
    }

    method U32(v: U32)
      modifies this
      ensures forall rest: Bytes {:trigger out + rest} :: out + rest == old(out) + PutU32(v, rest)
    {
      Append(ToLE(v, 4));
    }

    method U64(v: U64)
      modifies this
      ensures forall rest: Bytes {:trigger out + rest} :: out + rest == old(out) + PutU64(v, rest)
    {
      Append(ToLE(v, 8));
    }

    method U128(v: Uint128)
      modifies this
      ensures v.Value() < TWO128
      ensures forall rest: Bytes {:trigger out + rest} :: out + rest == old(out) + PutU128(v.Value(), rest)
    {
      LittleEndianIsTheValue(v);
      assert v.Value() < TWO128;
      Append(LittleEndian(v));
    }

    method Boolean(v: bool)
      modifies this
      ensures forall rest: Bytes {:trigger out + rest} :: out + rest == old(out) + PutBool(v, rest)
    {
      if v { U8(1); } else { U8(0); }
    }

    method BytesVec(b: Blob)
      modifies this
      ensures forall rest: Bytes {:trigger out + rest} :: out + rest == old(out) + PutVec(b, rest)
    {
      hide ToLE;
      U64(|b|);
      Append(b);
    }

    method Str(s: GoString)
      modifies this
      ensures forall rest: Bytes {:trigger out + rest} :: out + rest == old(out) + PutStr(s, rest)
    {
      hide PutVec;
      BytesVec(StrBytes(s));
    }

    method Strs(xs: Strs)
      modifies this
      ensures forall rest: Bytes {:trigger out + rest} :: out + rest == old(out) + PutStrs(xs, rest)
    {
      hide ToLE, PutStr;
      U64(|xs|);
      ghost var before := out;
      assert xs[0..] == xs;
      for i := 0 to |xs|
        invariant forall rest: Bytes {:trigger PutList(xs, rest)} ::
          out + PutList(xs[i..], rest) == before + PutList(xs, rest)
      {
        assert xs[i..][1..] == xs[i + 1..];
        Str(xs[i]);
      }
    }

    // ----- options and enums

    /** The tag of an option, and whether its value is to follow. */
    method OptionTag(o: Fields, name: string) returns (some: bool)
      modifies this
      ensures some == Present(o, name)
      ensures forall rest: Bytes {:trigger out + rest} :: out + rest == old(out) + PutU8(if some then 1 else 0, rest)
    {
      some := name in o && o[name] != Null;
      if some { U8(1); } else { U8(0); }
    }

    method Variant(name: string, variants: seq<string>) returns (r: Result<Unit>)
      modifies this
      ensures r.Ok? <==> IndexOf(name, variants).Ok?
      ensures r.Ok? ==> forall rest: Bytes {:trigger out + rest} ::
        out + rest == old(out) + PutU32(ToU32(IndexOf(name, variants).value), rest)
    {
      hide PutU8, PutU32, PutU64;
      for i := 0 to |variants|
        invariant out == old(out)
        invariant name !in variants[..i]
      {
        if variants[i] == name {
          IndexOfFirst(name, variants, i);
          U32(ToU32(i));
          return Ok(Unit);
        }
      }
      assert variants[..|variants|] == variants;
      r := Err;
    }

    method UnitVariant(v: Json, variants: seq<string>) returns (r: Result<Unit>)
      modifies this
      ensures r.Ok? <==> RegisterJson.UnitVariant(v, variants).Ok?
      ensures r.Ok? ==> forall rest: Bytes {:trigger out + rest} ::
        out + rest == old(out) + PutU32(ToU32(RegisterJson.UnitVariant(v, variants).value), rest)
    {
      var name :- AsString(v);
      r := Variant(name, variants);
    }

    method TeeType(v: Json) returns (r: Result<Unit>)
      modifies this
      ensures r.Ok? <==> TeeOf(v).Ok?
      ensures r.Ok? ==> forall rest: Bytes {:trigger out + rest} ::
        out + rest == old(out) + PutTee(TeeOf(v).value, rest)
    {
      hide ToU8, ToU32, PutU8, PutU32, PutU64, IndexOf;
      r := UnitVariant(v, TEE_TYPES);
    }

    // ----- modes

    method ReadPricing(v: Json) returns (r: Result<Unit>)
      modifies this
      ensures r.Ok? <==> PricingOf(v).Ok?
      ensures r.Ok? ==> forall rest: Bytes {:trigger out + rest} ::
        out + rest == old(out) + PutPricing(PricingOf(v).value, rest)
    {
      hide ToU8, ToU32, PutU8, PutU32, PutU64, PutBool, PutU128, U128Field, BoolField, UintField;
      var p :- AsObject(v);
      var enabled :- BoolField(p, "enabled");
      var price :- U128At(p, "price_per_query", false);
      var share :- UintField(p, "owner_revenue_share_bps", TWO32);
      WritePricing(enabled, price, ToU32(share));
      r := Ok(Unit);
    }

    method WritePricing(enabled: bool, price: Uint128, share: U32)
      modifies this
      ensures price.Value() < TWO128
      ensures forall rest: Bytes {:trigger out + rest} ::
        out + rest == old(out) + PutPricing(Pricing(enabled, price.Value(), share), rest)
    {
      hide PutU8, PutU32, PutU64, PutBool, PutU128;
      Boolean(enabled);
      U128(price);
      U32(share);
    }

    method PricingOption(m: Fields) returns (r: Result<Unit>)
      modifies this
      ensures r.Ok? <==> Opt(m, "read_pricing", PricingOf).Ok?
      ensures r.Ok? ==> forall rest: Bytes {:trigger out + rest} ::
        out + rest == old(out) + PutOption(PutPricing, Opt(m, "read_pricing", PricingOf).value, rest)
    {
      hide PricingOf, PutPricing;
      var some := OptionTag(m, "read_pricing");
      if some { var _ :- ReadPricing(m["read_pricing"]); }
      r := Ok(Unit);
    }

    method DataStorage(m: Fields) returns (r: Result<Unit>)
      modifies this
      ensures r.Ok? <==> DataOf(m).Ok?
      ensures r.Ok? ==> forall rest: Bytes {:trigger out + rest} ::
        out + rest == old(out) + PutData(DataOf(m).value, rest)
    {
      hide PutStr, PutStrs, PutOption, Opt, AsStrings;
      var modeName :- StrField(m, "name");
      var writers :- StringsAt(m, "writers");
      var hasFree, hasReaders := "free_readers" in m, "readers" in m;
      if hasFree && hasReaders { return Err; }
      if !hasFree && !hasReaders { return Err; }
      var free :- ReadStrings(if hasReaders then m["readers"] else m["free_readers"]);
      Str(modeName);
      Strs(writers);
      Strs(free);
      r := PricingOption(m);
    }

    method FileStorage(m: Fields) returns (r: Result<Unit>)
      modifies this
      ensures r.Ok? <==> FileOf(m).Ok?
      ensures r.Ok? ==> forall rest: Bytes {:trigger out + rest} ::
        out + rest == old(out) + PutFile(FileOf(m).value, rest)
    {
      hide ToU8, PutStr, PutStrs, PutOption, Opt, PutU8, PutU32, PutU64, StrsField, UintField, UintOr, StrField,
           PricingOf, PutPricing;
      var modeName :- StrField(m, "name");
      var maxFileSize :- UintField(m, "max_file_size", TWO64);
      var replication :- UintField(m, "replication_factor", 256);
      var writers :- StringsAt(m, "writers");
      var free :- StringsAt(m, "free_readers");
      WriteFileHead(modeName, maxFileSize, ToU8(replication), writers, free);
      var _ :- PricingOption(m);
      var retention :- UintOr(m, "retention_period", TWO64, 0);
      U64(retention);
      r := Ok(Unit);
    }

    method WriteFileHead(name: GoString, maxFileSize: U64, replication: U8, writers: Strs, free: Strs)
      modifies this
      ensures forall rest: Bytes {:trigger out + rest} ::
        out + rest == old(out) +
          PutStr(name, PutU64(maxFileSize, PutU8(replication, PutStrs(writers, PutStrs(free, rest)))))
    {
      hide PutU8, PutU32, PutU64, PutStr, PutStrs;
      Str(name);
      U64(maxFileSize);
      U8(replication);
      Strs(writers);
      Strs(free);
    }

    method WasmModule(v: Json) returns (r: Result<Unit>)
      modifies this
      ensures r.Ok? <==> ModuleOf(v).Ok?
      ensures r.Ok? ==> forall rest: Bytes {:trigger out + rest} ::
        out + rest == old(out) + PutModule(ModuleOf(v).value, rest)
    {
      hide PutModule, StrField, BytesField;
      var m :- AsObject(v);
      var name :- StrField(m, "name");
      var hash :- BytesAt(m, "hash");
      if |hash| != 32 {
        return Err;
      }
      var content :- BytesAt(m, "content");
      WriteModule(Module(name, hash, content));
      r := Ok(Unit);
    }

    method WriteModule(m: Module)
      modifies this
      ensures forall rest: Bytes {:trigger out + rest} :: out + rest == old(out) + PutModule(m, rest)
    {
      hide PutStr, PutVec;
      Str(m.name);
      Append(m.hash);
      BytesVec(m.content);
    }

    method WasmModules(m: Fields) returns (r: Result<Unit>)
      modifies this
      ensures r.Ok? <==> ModulesOf(m).Ok?
      ensures r.Ok? ==> forall rest: Bytes {:trigger out + rest} ::
        out + rest == old(out) + PutModules(ModulesOf(m).value, rest)
    {
      hide ToLE, ModuleOf, PutModule;
      var modules :- ModuleArray(m);
      U64(|modules|);
      ghost var before := out;
      assert modules[0..] == modules;
      for i := 0 to |modules|
        invariant ModuleItems(modules).Ok? <==> ModuleItems(modules[i..]).Ok?
        invariant ModuleItems(modules).Ok? ==>
          forall rest: Bytes {:trigger PutModuleList(ModuleItems(modules).value, rest)} ::
            out + PutModuleList(ModuleItems(modules[i..]).value, rest) ==
            before + PutModuleList(ModuleItems(modules).value, rest)
      {
        assert modules[i..][1..] == modules[i + 1..];
        var _ :- WasmModule(modules[i]);
        if ModuleItems(modules).Ok? { ModuleStep(modules[i..]); }
      }
      r := Ok(Unit);
    }

    method ExecutionMode(m: Fields) returns (r: Result<Unit>)
      modifies this
      ensures r.Ok? <==> ExecutionOf(m).Ok?
      ensures r.Ok? ==> forall rest: Bytes {:trigger out + rest} ::
        out + rest == old(out) + PutExecution(ExecutionOf(m).value, rest)
    {
      hide ExecutionAt, PutExecution, EnumParts;
      var v :- Get(m, "execution_mode");
      var parts :- EnumParts(v);
      r := ExecutionVariant(parts);
    }

    method ExecutionVariant(parts: Parts) returns (r: Result<Unit>)
      modifies this
      ensures r.Ok? <==> ExecutionAt(parts).Ok?
      ensures r.Ok? ==> forall rest: Bytes {:trigger out + rest} ::
        out + rest == old(out) + PutExecution(ExecutionAt(parts).value, rest)
    {
      ExecutionNames(parts.name);
      hide ToU32, ByIndexer, ByTee, EXECUTIONS, IndexOf, ToU8, PutU8, PutU32, PutU64, UintField, Get, TeeOf, PutTee;
      var _ :- Variant(parts.name, EXECUTIONS);
      if ByIndexer(parts.name) {
        var ex :- AsObject(parts.payload);
        var rate :- UintField(ex, "sampling_rate_percent", 256);
        U8(ToU8(rate));
      } else if ByTee(parts.name) {
        var ex :- AsObject(parts.payload);
        var tee :- Get(ex, "tee_type");
        var _ :- TeeType(tee);
      }
      r := Ok(Unit);
    }

    method IndexerConfig(m: Fields) returns (r: Result<Unit>)
      modifies this
      ensures r.Ok? <==> IndexersOf(m).Ok?
      ensures r.Ok? ==> forall rest: Bytes {:trigger out + rest} ::
        out + rest == old(out) + PutIndexers(IndexersOf(m).value, rest)
    {
      hide ToU8, ToU32, PutU8, PutU32, PutU64, UintField, UintOr, PutU128, U128Field;
      var v :- Get(m, "indexer_config");
      var ic :- AsObject(v);
      var minIndexers :- UintField(ic, "min_indexers", 256);
      var maxIndexers :- UintField(ic, "max_indexers", 256);
      var reward :- U128At(ic, "reward_per_epoch", true);
      var epochLength :- UintOr(ic, "epoch_length", TWO64, DEFAULT_EPOCH_LENGTH);
      var stake :- U128At(ic, "min_indexer_stake", true);
      WriteIndexers(ToU8(minIndexers), ToU8(maxIndexers), reward, epochLength, stake);
      r := Ok(Unit);
    }

    method WriteIndexers(minIndexers: U8, maxIndexers: U8, reward: Uint128, epochLength: U64, stake: Uint128)
      modifies this
      ensures reward.Value() < TWO128 && stake.Value() < TWO128
      ensures forall rest: Bytes {:trigger out + rest} ::
        out + rest == old(out) +
          PutIndexers(Indexers(minIndexers, maxIndexers, reward.Value(), epochLength, stake.Value()), rest)
    {
      hide PutU8, PutU32, PutU64, PutU128;
      U8(minIndexers);
      U8(maxIndexers);
      U128(reward);
      U64(epochLength);
      U128(stake);
    }

    method RetentionWindow(m: Fields) returns (r: Result<Unit>)
      modifies this
      ensures r.Ok? <==> RetentionOf(m).Ok?
      ensures r.Ok? ==> forall rest: Bytes {:trigger out + rest} ::
        out + rest == old(out) + PutRetention(RetentionOf(m).value, rest)
    {
      hide RetentionAt, EnumParts, PutU32;
      if "retention_window" !in m {
        U32(2);
        return Ok(Unit);
      }
      var parts :- EnumParts(m["retention_window"]);
      r := RetentionVariant(parts);
    }

    method RetentionVariant(parts: Parts) returns (r: Result<Unit>)
      modifies this
      ensures r.Ok? <==> RetentionAt(parts).Ok?
      ensures r.Ok? ==> forall rest: Bytes {:trigger out + rest} ::
        out + rest == old(out) + PutRetention(RetentionAt(parts).value, rest)
    {
      RetentionNames(parts.name);
      hide ToU32, CountsRetention, RETENTIONS, IndexOf, PutU8, PutU32, PutU64, AsUint;
      var _ :- Variant(parts.name, RETENTIONS);
      if CountsRetention(parts.name) {
        var n :- AsUint(parts.payload, TWO64);
        U64(n);
      }
      r := Ok(Unit);
    }

    /** The loop over a configuration hash's words, which the caller found to be four. */
    method Words4(items: seq<Json>) returns (r: Result<Unit>, ghost words: seq<U32>)
      requires |items| == 4
      modifies this
      ensures r.Ok? <==> forall j :: 0 <= j < 4 ==> AsUint(items[j], TWO32).Ok?
      ensures r.Ok? ==> |words| == 4 && forall j :: 0 <= j < 4 ==> AsUint(items[j], TWO32) == Ok(words[j])
      ensures r.Ok? ==> forall rest: Bytes {:trigger out + rest} :: out + rest == old(out) + PutSome(words, rest)
    {
      hide ToU32, PutU32, AsUint;
      words := [];
      for i := 0 to 4
        invariant |words| == i && forall j :: 0 <= j < i ==> AsUint(items[j], TWO32) == Ok(words[j])
        invariant forall rest: Bytes {:trigger out + rest} :: out + rest == old(out) + PutSome(words, rest)
      {
        var n := AsUint(items[i], TWO32);
        if n.Err? { return Err, words; }
        U32(ToU32(n.value));
        words := words + [n.value];
        assert words[..i] + [n.value] == words;
      }
      r := Ok(Unit);
    }

    method ConfigHash(o: Fields, name: string) returns (r: Result<Unit>)
      modifies this
      ensures r.Ok? <==> WordsField(o, name).Ok?
      ensures r.Ok? ==> forall rest: Bytes {:trigger out + rest} ::
        out + rest == old(out) + PutWords(WordsField(o, name).value, rest)
    {
      hide AsUint, PutWords, PutSome;
      var v :- Get(o, name);
      if !v.Arr? || |v.items| != 4 { return Err; }
      ghost var words;
      r, words := Words4(v.items);
      if r.Ok? {
        forall rest: Bytes
          ensures PutSome(words, rest) == PutWords(WordsField(o, name).value, rest)
        {
          FourWords(words, WordsField(o, name).value, rest);
        }
      }
    }

    method BondAmount(o: Fields) returns (r: Result<Uint128>)
      ensures r.Ok? <==> "bond_amount" !in o || AsU128(o["bond_amount"], false).Ok?
      ensures r.Ok? ==> r.value.Value() == if "bond_amount" in o then AsU128(o["bond_amount"], false).value else 0
    {
      if "bond_amount" in o { r := ParseU128(o["bond_amount"], false); } else { r := Ok(Uint128(0, 0)); }
    }

    method Completeness(v: Json) returns (r: Result<Unit>)
      modifies this
      ensures r.Ok? <==> CompletenessOf(v).Ok?
      ensures r.Ok? ==> forall rest: Bytes {:trigger out + rest} ::
        out + rest == old(out) + PutCompleteness(CompletenessOf(v).value, rest)
    {
      hide WordsField, PutWords, BoolOr, PutBool, AsU128, PutU128;
      var c :- AsObject(v);
      var _ :- ConfigHash(c, "log_config_hash");
      var _ :- ConfigHash(c, "tx_config_hash");
      var deferred :- BoolOr(c, "deferred", false);
      var bond :- BondAmount(c);
      Boolean(deferred);
      U128(bond);
      r := Ok(Unit);
    }

    method CompletenessOption(m: Fields) returns (r: Result<Unit>)
      modifies this
      ensures r.Ok? <==> Opt(m, "completeness", CompletenessOf).Ok?
      ensures r.Ok? ==> forall rest: Bytes {:trigger out + rest} ::
        out + rest == old(out) + PutOption(PutCompleteness, Opt(m, "completeness", CompletenessOf).value, rest)
    {
      hide CompletenessOf, PutCompleteness;
      var some := OptionTag(m, "completeness");
      if some { var _ :- Completeness(m["completeness"]); }
      r := Ok(Unit);
    }

    method HistoricalAuthMode(m: Fields) returns (r: Result<Unit>)
      modifies this
      ensures r.Ok? <==> AuthOf(m).Ok?
      ensures r.Ok? ==> forall rest: Bytes {:trigger out + rest} ::
        out + rest == old(out) + PutAuth(AuthOf(m).value, rest)
    {
      hide PutU8, PutU32, PutU64, IndexOf;
      if "historical_auth_mode" in m {
        r := UnitVariant(m["historical_auth_mode"], AUTH_MODES);
      } else {
        U32(0);
        r := Ok(Unit);
      }
    }

    method BlockchainIndexing(m: Fields) returns (r: Result<Unit>)
      modifies this
      ensures r.Ok? <==> IndexingOf(m).Ok?
      ensures r.Ok? ==> forall rest: Bytes {:trigger out + rest} ::
        out + rest == old(out) + PutIndexing(IndexingOf(m).value, rest)
    {
      hide BytesField, ModulesOf, ExecutionOf, IndexersOf, RetentionOf, Opt, CompletenessOf, AuthOf,
           PutVec, PutModules, PutExecution, PutIndexers, PutRetention, PutOption, PutCompleteness, PutAuth;
      var manifest :- BytesAt(m, "manifest_content");
      BytesVec(manifest);
      var _ :- WasmModules(m);
      var _ :- ExecutionMode(m);
      var _ :- IndexerConfig(m);
      var _ :- RetentionWindow(m);
      var _ :- CompletenessOption(m);
      r := HistoricalAuthMode(m);
    }

    method SubgroveMode(v: Json) returns (r: Result<Unit>)
      modifies this
      ensures r.Ok? <==> ModeOf(v).Ok?
      ensures r.Ok? ==> forall rest: Bytes {:trigger out + rest} ::
        out + rest == old(out) + PutMode(ModeOf(v).value, rest)
    {
      hide ModeAt, PutMode, EnumParts;
      var parts :- EnumParts(v);
      r := ModeVariant(parts);
    }

    method ModeVariant(parts: Parts) returns (r: Result<Unit>)
      modifies this
      ensures r.Ok? <==> ModeAt(parts).Ok?
      ensures r.Ok? ==> forall rest: Bytes {:trigger out + rest} ::
        out + rest == old(out) + PutMode(ModeAt(parts).value, rest)
    {
      ModeNames(parts.name);
      hide ToU32, StoresData, StoresFiles, MODES, IndexOf, PutU8, PutU32, PutU64, DataOf, PutData, FileOf, PutFile,
           IndexingOf, PutIndexing;
      var _ :- Variant(parts.name, MODES);
      var m :- AsObject(parts.payload);
      if StoresData(parts.name) {
        r := DataStorage(m);
      } else if StoresFiles(parts.name) {
        r := FileStorage(m);
      } else {
        r := BlockchainIndexing(m);
      }
    }

    // ----- the rest of a transaction

    method CommitmentFrequency(p: Fields) returns (r: Result<Unit>)
      modifies this
      ensures r.Ok? <==> FrequencyOf(p).Ok?
      ensures r.Ok? ==> forall rest: Bytes {:trigger out + rest} ::
        out + rest == old(out) + PutFrequency(FrequencyOf(p).value, rest)
    {
      hide FrequencyAt, PutFrequency, EnumParts;
      var v :- Get(p, "commitment_frequency");
      var parts :- EnumParts(v);
      r := FrequencyVariant(parts);
    }

    method FrequencyVariant(parts: Parts) returns (r: Result<Unit>)
      modifies this
      ensures r.Ok? <==> FrequencyAt(parts).Ok?
      ensures r.Ok? ==> forall rest: Bytes {:trigger out + rest} ::
        out + rest == old(out) + PutFrequency(FrequencyAt(parts).value, rest)
    {
      FrequencyNames(parts.name);
      hide ToU32, CountsFrequency, FREQUENCIES, IndexOf, PutU8, PutU32, PutU64, AsUint;
      var _ :- Variant(parts.name, FREQUENCIES);
      if CountsFrequency(parts.name) {
        var n :- AsUint(parts.payload, TWO64);
        U64(n);
      }
      r := Ok(Unit);
    }

    method AllowedIndexersOption(p: Fields) returns (r: Result<Unit>)
      modifies this
      ensures r.Ok? <==> Opt(p, "allowed_indexers", AsStrings).Ok?
      ensures r.Ok? ==> forall rest: Bytes {:trigger out + rest} ::
        out + rest == old(out) + PutAllowed(Opt(p, "allowed_indexers", AsStrings).value, rest)
    {
      hide AsStrings, PutStrs;
      var some := OptionTag(p, "allowed_indexers");
      if some {
        var xs :- ReadStrings(p["allowed_indexers"]);
        Strs(xs);
      }
      r := Ok(Unit);
    }

    method Privacy(v: Json) returns (r: Result<Unit>)
      modifies this
      ensures r.Ok? <==> PrivacyOf(v).Ok?
      ensures r.Ok? ==> forall rest: Bytes {:trigger out + rest} ::
        out + rest == old(out) + PutPrivacy(PrivacyOf(v).value, rest)
    {
      hide Opt, PutAllowed, FrequencyOf, PutFrequency;
      var p :- AsObject(v);
      var _ :- AllowedIndexersOption(p);
      r := CommitmentFrequency(p);
    }

    method WriteKeyGrant(g: Bincode.KeyGrant)
      modifies this
      ensures forall rest: Bytes {:trigger out + rest} :: out + rest == old(out) + PutKeyGrant(g, rest)
    {
      hide PutU8, PutU32, PutU64, PutStr, PutVec;
      Str(g.grantee);
      U32(g.keyEpoch);
      Str(g.granteeKeyId);
      BytesVec(g.ephemeralKey);
      BytesVec(g.encryptedKey);
      Str(g.grantedBy);
      U64(g.grantedAt);
    }

    method KeyGrant(v: Json) returns (r: Result<Unit>)
      modifies this
      ensures r.Ok? <==> KeyGrantOf(v).Ok?
      ensures r.Ok? ==> forall rest: Bytes {:trigger out + rest} ::
        out + rest == old(out) + PutKeyGrant(KeyGrantOf(v).value, rest)
    {
      hide StrField, UintField, BytesField, PutKeyGrant, ToU32;
      var g :- AsObject(v);
      var grantee :- StrField(g, "grantee_did");
      var epoch :- UintField(g, "key_epoch", TWO32);
      var keyId :- StrField(g, "grantee_public_key_id");
      var ephemeral :- BytesAt(g, "ephemeral_public_key");
      var encrypted :- BytesAt(g, "encrypted_key");
      var grantedBy :- StrField(g, "granted_by");
      var grantedAt :- UintField(g, "granted_at", TWO64);
      WriteKeyGrant(Bincode.KeyGrant(grantee, ToU32(epoch), keyId, ephemeral, encrypted, grantedBy, grantedAt));
      r := Ok(Unit);
    }

    method WriteTemplateHead(id: GoString, version: U32, variantId: GoString, parameters: Blob, contracts: Strs,
                             events: Strs)
      modifies this
      ensures forall rest: Bytes {:trigger out + rest} ::
        out + rest == old(out) +
          PutStr(id, PutU32(version, PutStr(variantId, PutVec(parameters, PutStrs(contracts, PutStrs(events, rest))))))
    {
      hide PutU8, PutU32, PutU64, PutStr, PutVec, PutStrs;
      Str(id);
      U32(version);
      Str(variantId);
      BytesVec(parameters);
      Strs(contracts);
      Strs(events);
    }

    method ChainOption(c: Fields) returns (r: Result<Unit>)
      modifies this
      ensures r.Ok? <==> Opt(c, "chain", AsString).Ok?
      ensures r.Ok? ==> forall rest: Bytes {:trigger out + rest} ::
        out + rest == old(out) + PutOption(PutStr, Opt(c, "chain", AsString).value, rest)
    {
      hide PutStr;
      var some := OptionTag(c, "chain");
      if some {
        var s :- AsString(c["chain"]);
        Str(s);
      }
      r := Ok(Unit);
    }

    method TemplateConfig(v: Json) returns (r: Result<Unit>)
      modifies this
      ensures r.Ok? <==> TemplateOf(v).Ok?
      ensures r.Ok? ==> forall rest: Bytes {:trigger out + rest} ::
        out + rest == old(out) + PutTemplate(TemplateOf(v).value, rest)
    {
      hide StrField, UintField, BytesField, StrsField, Opt, ToU32, PutU8, PutU32, PutU64, PutStr, PutVec, PutStrs,
           PutOption;
      var c :- AsObject(v);
      var templateId :- StrField(c, "template_id");
      var version :- UintField(c, "template_version", TWO32);
      var variantId :- StrField(c, "variant_id");
      var parameters :- BytesAt(c, "parameters");
      var contracts :- StringsAt(c, "contracts");
      var events :- StringsAt(c, "event_signatures");
      WriteTemplateHead(templateId, ToU32(version), variantId, parameters, contracts, events);
      r := ChainOption(c);
    }

    method IdentityFields(t: Fields) returns (r: Result<Unit>)
      modifies this
      ensures r.Ok? <==> IdentityOf(t).Ok?
      ensures r.Ok? ==> forall rest: Bytes {:trigger out + rest} ::
        out + rest == old(out) + PutIdentity(IdentityOf(t).value, rest)
    {
      hide StrField, StrOr, AsStrings, PutStr, PutStrs;
      var id :- StrField(t, "subgrove_id");
      Str(id);
      var name :- StrField(t, "name");
      Str(name);
      var description :- StrOr(t, "description", "");
      Str(description);
      var schema :- StrField(t, "schema");
      Str(schema);
      var owner :- StrField(t, "owner_did");
      Str(owner);
      if "admins" in t {
        var admins :- ReadStrings(t["admins"]);
        Strs(admins);
      } else {
        Strs([]);
      }
      r := Ok(Unit);
    }

    method FundingOption(t: Fields) returns (r: Result<Unit>)
      modifies this
      ensures r.Ok? <==> Opt(t, "initial_funding", FundingOf).Ok?
      ensures r.Ok? ==> forall rest: Bytes {:trigger out + rest} ::
        out + rest == old(out) + PutOption(PutU128, Opt(t, "initial_funding", FundingOf).value, rest)
    {
      hide AsU128, PutU128;
      var some := OptionTag(t, "initial_funding");
      if some {
        var u :- ParseU128(t["initial_funding"], true);
        U128(u);
      }
      r := Ok(Unit);
    }

    method RequiredTeeOption(t: Fields) returns (r: Result<Unit>)
      modifies this
      ensures r.Ok? <==> RequiredTee(t).Ok?
      ensures r.Ok? ==> forall rest: Bytes {:trigger out + rest} ::
        out + rest == old(out) + PutOption(PutTee, RequiredTee(t).value, rest)
    {
      hide TeeOf, PutTee;
      if "checkpoint_verification" in t {
        var c :- AsObject(t["checkpoint_verification"]);
        var some := OptionTag(c, "required_tee");
        if some { var _ :- TeeType(c["required_tee"]); }
      } else {
        U8(0);
      }
      r := Ok(Unit);
    }

    /** DataStorage with an empty name, writers and free readers, and no pricing. */
    method DefaultMode()
      modifies this
      ensures forall rest: Bytes {:trigger out + rest} :: out + rest == old(out) + PutMode(DEFAULT_MODE, rest)
    {
      hide PutU32, PutStr, PutStrs;
      U32(0);
      Str("");
      Strs([]);
      Strs([]);
      U8(0);
    }

    method ModeField(t: Fields) returns (r: Result<Unit>)
      modifies this
      ensures r.Ok? <==> ModeOrDefault(t).Ok?
      ensures r.Ok? ==> forall rest: Bytes {:trigger out + rest} ::
        out + rest == old(out) + PutMode(ModeOrDefault(t).value, rest)
    {
      hide ModeOf, PutMode;
      if "mode" in t {
        r := SubgroveMode(t["mode"]);
      } else {
        DefaultMode();
        r := Ok(Unit);
      }
    }

    method PrivacyOption(t: Fields) returns (r: Result<Unit>)
      modifies this
      ensures r.Ok? <==> Opt(t, "privacy", PrivacyOf).Ok?
      ensures r.Ok? ==> forall rest: Bytes {:trigger out + rest} ::
        out + rest == old(out) + PutOption(PutPrivacy, Opt(t, "privacy", PrivacyOf).value, rest)
    {
      hide PrivacyOf, PutPrivacy;
      var some := OptionTag(t, "privacy");
      if some { var _ :- Privacy(t["privacy"]); }
      r := Ok(Unit);
    }

    method KeyGrantOption(t: Fields) returns (r: Result<Unit>)
      modifies this
      ensures r.Ok? <==> Opt(t, "initial_owner_key_grant", KeyGrantOf).Ok?
      ensures r.Ok? ==> forall rest: Bytes {:trigger out + rest} ::
        out + rest == old(out) + PutOption(PutKeyGrant, Opt(t, "initial_owner_key_grant", KeyGrantOf).value, rest)
    {
      hide KeyGrantOf, PutKeyGrant;
      var some := OptionTag(t, "initial_owner_key_grant");
      if some { var _ :- KeyGrant(t["initial_owner_key_grant"]); }
      r := Ok(Unit);
    }

    method TemplateOption(t: Fields) returns (r: Result<Unit>)
      modifies this
      ensures r.Ok? <==> Opt(t, "template_config", TemplateOf).Ok?
      ensures r.Ok? ==> forall rest: Bytes {:trigger out + rest} ::
        out + rest == old(out) + PutOption(PutTemplate, Opt(t, "template_config", TemplateOf).value, rest)
    {
      hide TemplateOf, PutTemplate;
      var some := OptionTag(t, "template_config");
      if some { var _ :- TemplateConfig(t["template_config"]); }
      r := Ok(Unit);
    }

    method TailFields(t: Fields) returns (r: Result<Unit>)
      modifies this
      ensures r.Ok? <==> TailOf(t).Ok?
      ensures r.Ok? ==> forall rest: Bytes {:trigger out + rest} ::
        out + rest == old(out) + PutTail(TailOf(t).value, rest)
    {
      hide UintOr, UintField, StrField, BytesField, BoolOr, ToU32, PutU8, PutU32, PutU64, PutVec, PutStr, PutBool;
      var depth :- UintOr(t, "confirmation_depth", TWO32, 0);
      U32(ToU32(depth));
      var _ :- BytesAt(t, "signature");
      BytesVec([]);
      var publicKeyId :- StrField(t, "public_key_id");
      Str(publicKeyId);
      var nonce :- UintField(t, "nonce", TWO64);
      U64(nonce);
      var completeness :- BoolOr(t, "cryptographic_completeness", false);
      Boolean(completeness);
      r := Ok(Unit);
    }

    method RegisterSubgrove(v: Json) returns (r: Result<Unit>)
      modifies this
      ensures r.Ok? <==> TxOf(v).Ok?
      ensures r.Ok? ==> forall rest: Bytes {:trigger out + rest} :: out + rest == old(out) + PutTx(TxOf(v).value, rest)
    {
      hide IdentityOf, Opt, RequiredTee, ModeOrDefault, TailOf, FundingOf, PrivacyOf, KeyGrantOf, TemplateOf,
           PutIdentity, PutOption, PutMode, PutTail, PutU128, PutTee, PutPrivacy, PutKeyGrant, PutTemplate;
      var t :- AsObject(v);
      var _ :- IdentityFields(t);
      var _ :- FundingOption(t);
      var _ :- RequiredTeeOption(t);
      var _ :- ModeField(t);
      var _ :- PrivacyOption(t);
      var _ :- KeyGrantOption(t);
      var _ :- TemplateOption(t);
      r := TailFields(t);
    }
  }

  /** The bytes a registration's Config hashes: those of the transaction the JSON denotes, or a
      refusal exactly when it denotes none. */
  method RegisterSubgroveUnsignedBincode(v: Json) returns (r: Result<Bytes>)
    ensures r == UnsignedBincode(v)
  {
    hide TxOf, PutTx;
    var e := new BincodeEncoder();
    var _ :- e.RegisterSubgrove(v);
    assert e.out + [] == e.out;
    assert [] + PutTx(TxOf(v).value, []) == PutTx(TxOf(v).value, []);
    r := Ok(e.out);
  }
}
