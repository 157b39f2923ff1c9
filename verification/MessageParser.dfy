/** The inverse of the signed-message builders: each message gives back its kind and every field, so
no two of different kinds or fields coincide. */
module MessageParser {
  import opened Bytes
  import opened Uint128s
  import opened SignedMessages

  /** A field read from the front of the lines, and the lines after it. */
  datatype Got<+T> = Got(value: T, rest: seq<string>)

  function Field(tag: string, lines: seq<string>): Result<Got<string>> {
    if lines == [] || !(tag + ": " <= lines[0]) then Err
    else Ok(Got(lines[0][|tag| + 2..], lines[1..]))
  }

  function NatField(tag: string, lines: seq<string>): Result<Got<nat>> {
    var f :- Field(tag, lines);
    if f.value == "" || !AllDigits(f.value) then Err else Ok(Got(Decimal(f.value), f.rest))
  }

  function HexField(tag: string, lines: seq<string>): Result<Got<Bytes>> {
    var f :- Field(tag, lines);
    var b :- Unhex(f.value);
    Ok(Got(b, f.rest))
  }

  function DigestField(tag: string, lines: seq<string>): Result<Got<Digest>> {
    var f :- HexField(tag, lines);
    if |f.value| != 32 then Err else Ok(Got(f.value, f.rest))
  }

  function ReadGrant(lines: seq<string>): Result<Got<Grant>> {
    var a :- Field("Grantee", lines);
    var b :- Field("GranteeKey", a.rest);
    var c :- NatField("KeyEpoch", b.rest);
    var d :- HexField("EphemeralKey", c.rest);
    var e :- HexField("EncryptedKey", d.rest);
    var f :- Field("GrantedBy", e.rest);
    var g :- NatField("GrantedAt", f.rest);
    Ok(Got(Grant(a.value, b.value, c.value, d.value, e.value, f.value, g.value), g.rest))
  }

  function ReadGrants(n: nat, lines: seq<string>): Result<Got<seq<Grant>>> {
    if n == 0 then Ok(Got([], lines))
    else
      var g :- ReadGrant(lines);
      var more :- ReadGrants(n - 1, g.rest);
      Ok(Got([g.value] + more.value, more.rest))
  }

  function ReadEncryption(text: string): Result<Option<Encryption>> {
    if text == "none" then Ok(None)
    else
      var (epoch, nonce) := Cut(text, ':');
      if epoch == "" || !AllDigits(epoch) || nonce.None? then Err
      else
        var b :- Unhex(nonce.value);
        Ok(Some(Encryption(Decimal(epoch), b)))
  }

  datatype Kind = KStoreData | KStoreFile | KDeleteFile | KRegister | KGrant | KRotate | KUnregister | KUnknown

  function KindOf(line: string): Kind {
    if line == "StoreData" then KStoreData
    else if line == "StoreFileManifest" then KStoreFile
    else if line == "DeleteFileManifest" then KDeleteFile
    else if line == "RegisterSubgrove" then KRegister
    else if line == "GrantSubgroveKey" then KGrant
    else if line == "RotateSubgroveKey" then KRotate
    else if line == "UnregisterStorageNode" then KUnregister
    else KUnknown
  }

  function ReadStoreData(lines: seq<string>): Result<Got<Message>> {
    var a :- Field("Subgrove", lines);
    var b :- Field("Key", a.rest);
    var c :- Field("Owner", b.rest);
    var d :- DigestField("DataHash", c.rest);
    var n :- NatField("Nonce", d.rest);
    Ok(Got(StoreData(a.value, b.value, c.value, d.value, n.value), n.rest))
  }

  datatype FileTexts = FileTexts(subgrove: string, key: string, owner: string, filename: string, contentType: string)

  function ReadFileTexts(lines: seq<string>): Result<Got<FileTexts>> {
    var a :- Field("Subgrove", lines);
    var b :- Field("Key", a.rest);
    var c :- Field("Owner", b.rest);
    var d :- Field("Filename", c.rest);
    var e :- Field("ContentType", d.rest);
    Ok(Got(FileTexts(a.value, b.value, c.value, d.value, e.value), e.rest))
  }

  function ReadStoreFile(lines: seq<string>): Result<Got<Message>> {
    var t :- ReadFileTexts(lines);
    var a :- NatField("TotalSize", t.rest);
    var b :- DigestField("ContentHash", a.rest);
    var c :- NatField("ChunkCount", b.rest);
    var d :- NatField("ChunkSize", c.rest);
    var e :- DigestField("ChunkMerkleRoot", d.rest);
    var f :- Field("Encryption", e.rest);
    var enc :- ReadEncryption(f.value);
    var n :- NatField("Nonce", f.rest);
    Ok(Got(StoreFileManifest(t.value.subgrove, t.value.key, t.value.owner, t.value.filename, t.value.contentType,
                             a.value, b.value, c.value, d.value, e.value, enc, n.value), n.rest))
  }

  function ReadDeleteFile(lines: seq<string>): Result<Got<Message>> {
    var a :- Field("Subgrove", lines);
    var b :- Field("Key", a.rest);
    var c :- Field("Owner", b.rest);
    var n :- NatField("Nonce", c.rest);
    Ok(Got(DeleteFileManifest(a.value, b.value, c.value, n.value), n.rest))
  }

  function ReadRegister(lines: seq<string>): Result<Got<Message>> {
    var a :- Field("Subgrove", lines);
    var b :- Field("Owner", a.rest);
    var c :- DigestField("Config", b.rest);
    var n :- NatField("Nonce", c.rest);
    Ok(Got(RegisterSubgrove(a.value, b.value, c.value, n.value), n.rest))
  }

  function ReadGrantMessage(lines: seq<string>): Result<Got<Message>> {
    var a :- Field("Subgrove", lines);
    var b :- Field("Sender", a.rest);
    var g :- ReadGrant(b.rest);
    var n :- NatField("Nonce", g.rest);
    Ok(Got(GrantSubgroveKey(a.value, b.value, g.value, n.value), n.rest))
  }

  function ReadRotate(lines: seq<string>): Result<Got<Message>> {
    var a :- Field("Subgrove", lines);
    var b :- Field("Sender", a.rest);
    var c :- NatField("NewEpoch", b.rest);
    var d :- NatField("Grants", c.rest);
    var g :- ReadGrants(d.value, d.rest);
    var n :- NatField("Nonce", g.rest);
    Ok(Got(RotateSubgroveKey(a.value, b.value, c.value, g.value, n.value), n.rest))
  }

  function ReadUnregister(lines: seq<string>): Result<Got<Message>> {
    var a :- Field("Node", lines);
    var n :- NatField("Nonce", a.rest);
    Ok(Got(UnregisterStorageNode(a.value, n.value), n.rest))
  }

  function ReadBody(kind: Kind, lines: seq<string>): Result<Got<Message>> {
    match kind
    case KStoreData => ReadStoreData(lines)
    case KStoreFile => ReadStoreFile(lines)
    case KDeleteFile => ReadDeleteFile(lines)
    case KRegister => ReadRegister(lines)
    case KGrant => ReadGrantMessage(lines)
    case KRotate => ReadRotate(lines)
    case KUnregister => ReadUnregister(lines)
    case KUnknown => Err
  }

  function ReadLines(lines: seq<string>): Result<Message> {
    if lines == [] then Err
    else
      var m :- ReadBody(KindOf(lines[0]), lines[1..]);
      if m.rest != [] then Err else Ok(m.value)
  }

  function Parse(s: string): Result<Message> { ReadLines(Split(s)) }

  // ----- fields read back

  lemma FieldFront(tag: string, value: string, rest: seq<string>)
    ensures Field(tag, [Line(tag, value)] + rest) == Ok(Got(value, rest))
  {
    var lines := [Line(tag, value)] + rest;
    assert lines[1..] == rest;
    assert Line(tag, value) == (tag + ": ") + value;
    assert Line(tag, value)[|tag| + 2..] == value;
  }

  lemma NatFront(tag: string, n: nat, rest: seq<string>)
    ensures NatField(tag, [NatLine(tag, n)] + rest) == Ok(Got(n, rest))
  {
    hide Field, Line;
    FieldFront(tag, Print(n), rest);
  }

  lemma HexFront(tag: string, b: Bytes, rest: seq<string>)
    ensures HexField(tag, [HexLine(tag, b)] + rest) == Ok(Got(b, rest))
  {
    hide Field, Line;
    FieldFront(tag, Hex(b), rest);
    UnhexInverts(b);
  }

  lemma DigestFront(tag: string, b: Digest, rest: seq<string>)
    ensures DigestField(tag, [HexLine(tag, b)] + rest) == Ok(Got(b, rest))
  {
    hide HexField, HexLine;
    HexFront(tag, b, rest);
  }

  lemma GrantFront(g: Grant, rest: seq<string>)
    ensures ReadGrant(GrantLines(g, rest)) == Ok(Got(g, rest))
  {
    hide Field, NatField, HexField, Line, NatLine, HexLine;
    var l6 := [NatLine("GrantedAt", g.grantedAt)] + rest;
    var l5 := [Line("GrantedBy", g.grantedBy)] + l6;
    var l4 := [HexLine("EncryptedKey", g.encryptedKey)] + l5;
    var l3 := [HexLine("EphemeralKey", g.ephemeralKey)] + l4;
    var l2 := [NatLine("KeyEpoch", g.keyEpoch)] + l3;
    var l1 := [Line("GranteeKey", g.granteeKey)] + l2;
    FieldFront("Grantee", g.grantee, l1);
    FieldFront("GranteeKey", g.granteeKey, l2);
    NatFront("KeyEpoch", g.keyEpoch, l3);
    HexFront("EphemeralKey", g.ephemeralKey, l4);
    HexFront("EncryptedKey", g.encryptedKey, l5);
    FieldFront("GrantedBy", g.grantedBy, l6);
    NatFront("GrantedAt", g.grantedAt, rest);
  }

  lemma {:induction false} GrantsFront(grants: seq<Grant>, rest: seq<string>)
    ensures ReadGrants(|grants|, GrantsLines(grants, rest)) == Ok(Got(grants, rest))
    decreases |grants|
  {
    hide ReadGrant, GrantLines;
    if grants == [] {
    } else {
      GrantFront(grants[0], GrantsLines(grants[1..], rest));
      GrantsFront(grants[1..], rest);
      assert [grants[0]] + grants[1..] == grants;
    }
  }

  lemma EncryptionReads(e: Option<Encryption>)
    ensures ReadEncryption(EncryptionText(e)) == Ok(e)
  {
    if e.Some? {
      var epoch := Print(e.value.keyEpoch);
      assert ':' !in epoch;
      CutFinds(epoch, ':', Hex(e.value.nonce));
      UnhexInverts(e.value.nonce);
      assert EncryptionText(e)[0] == epoch[0] && IsDigit(epoch[0]);
      assert EncryptionText(e) != "none";
    }
  }

  lemma StoreDataReads(m: Message)
    requires m.StoreData?
    ensures ReadStoreData(Lines(m)[1..]) == Ok(Got(m, []))
  {
    hide Field, NatField, DigestField, Line, NatLine, HexLine;
    var l4 := [NatLine("Nonce", m.nonce)] + [];
    var l3 := [HexLine("DataHash", m.dataHash)] + l4;
    var l2 := [Line("Owner", m.owner)] + l3;
    var l1 := [Line("Key", m.key)] + l2;
    assert Lines(m)[1..] == [Line("Subgrove", m.subgrove)] + l1;
    FieldFront("Subgrove", m.subgrove, l1);
    FieldFront("Key", m.key, l2);
    FieldFront("Owner", m.owner, l3);
    DigestFront("DataHash", m.dataHash, l4);
    NatFront("Nonce", m.nonce, []);
  }

  lemma FileTextsRead(m: Message, rest: seq<string>)
    requires m.StoreFileManifest?
    ensures ReadFileTexts([Line("Subgrove", m.subgrove)] + ([Line("Key", m.key)] + ([Line("Owner", m.owner)] +
              ([Line("Filename", m.filename)] + ([Line("ContentType", m.contentType)] + rest))))) ==
            Ok(Got(FileTexts(m.subgrove, m.key, m.owner, m.filename, m.contentType), rest))
  {
    hide Field, Line;
    var l4 := [Line("ContentType", m.contentType)] + rest;
    var l3 := [Line("Filename", m.filename)] + l4;
    var l2 := [Line("Owner", m.owner)] + l3;
    var l1 := [Line("Key", m.key)] + l2;
    FieldFront("Subgrove", m.subgrove, l1);
    FieldFront("Key", m.key, l2);
    FieldFront("Owner", m.owner, l3);
    FieldFront("Filename", m.filename, l4);
    FieldFront("ContentType", m.contentType, rest);
  }

  lemma StoreFileReads(m: Message)
    requires m.StoreFileManifest?
    ensures ReadStoreFile(Lines(m)[1..]) == Ok(Got(m, []))
  {
    hide Field, NatField, DigestField, Line, NatLine, HexLine, ReadFileTexts, ReadEncryption, EncryptionText;
    var l7 := [NatLine("Nonce", m.nonce)] + [];
    var l6 := [Line("Encryption", EncryptionText(m.encryption))] + l7;
    var l5 := [HexLine("ChunkMerkleRoot", m.chunkMerkleRoot)] + l6;
    var l4 := [NatLine("ChunkSize", m.chunkSize)] + l5;
    var l3 := [NatLine("ChunkCount", m.chunkCount)] + l4;
    var l2 := [HexLine("ContentHash", m.contentHash)] + l3;
    var l1 := [NatLine("TotalSize", m.totalSize)] + l2;
    FileTextsRead(m, l1);
    assert Lines(m)[1..] == [Line("Subgrove", m.subgrove)] + ([Line("Key", m.key)] + ([Line("Owner", m.owner)] +
      ([Line("Filename", m.filename)] + ([Line("ContentType", m.contentType)] + l1))));
    NatFront("TotalSize", m.totalSize, l2);
    DigestFront("ContentHash", m.contentHash, l3);
    NatFront("ChunkCount", m.chunkCount, l4);
    NatFront("ChunkSize", m.chunkSize, l5);
    DigestFront("ChunkMerkleRoot", m.chunkMerkleRoot, l6);
    FieldFront("Encryption", EncryptionText(m.encryption), l7);
    EncryptionReads(m.encryption);
    NatFront("Nonce", m.nonce, []);
  }

  lemma DeleteFileReads(m: Message)
    requires m.DeleteFileManifest?
    ensures ReadDeleteFile(Lines(m)[1..]) == Ok(Got(m, []))
  {
    hide Field, NatField, Line, NatLine;
    var l3 := [NatLine("Nonce", m.nonce)] + [];
    var l2 := [Line("Owner", m.owner)] + l3;
    var l1 := [Line("Key", m.key)] + l2;
    assert Lines(m)[1..] == [Line("Subgrove", m.subgrove)] + l1;
    FieldFront("Subgrove", m.subgrove, l1);
    FieldFront("Key", m.key, l2);
    FieldFront("Owner", m.owner, l3);
    NatFront("Nonce", m.nonce, []);
  }

  lemma RegisterReads(m: Message)
    requires m.RegisterSubgrove?
    ensures ReadRegister(Lines(m)[1..]) == Ok(Got(m, []))
  {
    hide Field, NatField, DigestField, Line, NatLine, HexLine;
    var l3 := [NatLine("Nonce", m.nonce)] + [];
    var l2 := [HexLine("Config", m.config)] + l3;
    var l1 := [Line("Owner", m.owner)] + l2;
    assert Lines(m)[1..] == [Line("Subgrove", m.subgrove)] + l1;
    FieldFront("Subgrove", m.subgrove, l1);
    FieldFront("Owner", m.owner, l2);
    DigestFront("Config", m.config, l3);
    NatFront("Nonce", m.nonce, []);
  }

  lemma GrantMessageReads(m: Message)
    requires m.GrantSubgroveKey?
    ensures ReadGrantMessage(Lines(m)[1..]) == Ok(Got(m, []))
  {
    hide Field, NatField, Line, NatLine, ReadGrant, GrantLines;
    var nonce := [NatLine("Nonce", m.nonce)];
    var l2 := GrantLines(m.grant, nonce);
    var l1 := [Line("Sender", m.sender)] + l2;
    assert Lines(m)[1..] == [Line("Subgrove", m.subgrove)] + l1;
    FieldFront("Subgrove", m.subgrove, l1);
    FieldFront("Sender", m.sender, l2);
    GrantFront(m.grant, nonce);
    assert nonce + [] == nonce;
    NatFront("Nonce", m.nonce, []);
  }

  lemma RotateReads(m: Message)
    requires m.RotateSubgroveKey?
    ensures ReadRotate(Lines(m)[1..]) == Ok(Got(m, []))
  {
    hide Field, NatField, Line, NatLine, ReadGrants, GrantsLines;
    var nonce := [NatLine("Nonce", m.nonce)];
    var l4 := GrantsLines(m.grants, nonce);
    var l3 := [NatLine("Grants", |m.grants|)] + l4;
    var l2 := [NatLine("NewEpoch", m.newEpoch)] + l3;
    var l1 := [Line("Sender", m.sender)] + l2;
    assert Lines(m)[1..] == [Line("Subgrove", m.subgrove)] + l1;
    FieldFront("Subgrove", m.subgrove, l1);
    FieldFront("Sender", m.sender, l2);
    NatFront("NewEpoch", m.newEpoch, l3);
    NatFront("Grants", |m.grants|, l4);
    GrantsFront(m.grants, nonce);
    assert nonce + [] == nonce;
    NatFront("Nonce", m.nonce, []);
  }

  lemma UnregisterReads(m: Message)
    requires m.UnregisterStorageNode?
    ensures ReadUnregister(Lines(m)[1..]) == Ok(Got(m, []))
  {
    hide Field, NatField, Line, NatLine;
    var l1 := [NatLine("Nonce", m.nonce)] + [];
    assert Lines(m)[1..] == [Line("Node", m.node)] + l1;
    FieldFront("Node", m.node, l1);
    NatFront("Nonce", m.nonce, []);
  }

  function KindFor(m: Message): Kind {
    match m
    case StoreData(_, _, _, _, _) => KStoreData
    case StoreFileManifest(_, _, _, _, _, _, _, _, _, _, _, _) => KStoreFile
    case DeleteFileManifest(_, _, _, _) => KDeleteFile
    case RegisterSubgrove(_, _, _, _) => KRegister
    case GrantSubgroveKey(_, _, _, _) => KGrant
    case RotateSubgroveKey(_, _, _, _, _) => KRotate
    case UnregisterStorageNode(_, _) => KUnregister
  }

  function KindName(k: Kind): string {
    match k
    case KStoreData => "StoreData"
    case KStoreFile => "StoreFileManifest"
    case KDeleteFile => "DeleteFileManifest"
    case KRegister => "RegisterSubgrove"
    case KGrant => "GrantSubgroveKey"
    case KRotate => "RotateSubgroveKey"
    case KUnregister => "UnregisterStorageNode"
    case KUnknown => ""
  }

  lemma KindNameReads(k: Kind)
    ensures KindOf(KindName(k)) == k
  {
    assert "GrantSubgroveKey"[0] != "RegisterSubgrove"[0];
    assert "RotateSubgroveKey"[0] != "StoreFileManifest"[0];
  }

  lemma FirstLine(m: Message)
    ensures |Lines(m)| >= 2 && Lines(m)[0] == KindName(KindFor(m))
  {
    hide Line, NatLine, HexLine, EncryptionText, GrantLines, GrantsLines;
  }

  lemma LinesRead(m: Message)
    ensures ReadLines(Lines(m)) == Ok(m)
  {
    hide Lines, KindOf, KindName, ReadStoreData, ReadStoreFile, ReadDeleteFile, ReadRegister, ReadGrantMessage,
         ReadRotate,
         ReadUnregister;
    FirstLine(m);
    KindNameReads(KindFor(m));
    match m
    case StoreData(_, _, _, _, _) => StoreDataReads(m);
    case StoreFileManifest(_, _, _, _, _, _, _, _, _, _, _, _) => StoreFileReads(m);
    case DeleteFileManifest(_, _, _, _) => DeleteFileReads(m);
    case RegisterSubgrove(_, _, _, _) => RegisterReads(m);
    case GrantSubgroveKey(_, _, _, _) => GrantMessageReads(m);
    case RotateSubgroveKey(_, _, _, _, _) => RotateReads(m);
    case UnregisterStorageNode(_, _) => UnregisterReads(m);
  }

  // ----- lines hold no line breaks

  predicate Plain(lines: seq<string>) { forall l :: l in lines ==> '\n' !in l }

  lemma LinePlain(tag: string, value: string)
    requires '\n' !in tag && '\n' !in value
    ensures '\n' !in Line(tag, value)
  {
  }

  lemma NatPlain(tag: string, n: nat)
    requires '\n' !in tag
    ensures '\n' !in NatLine(tag, n)
  {
    assert '\n' !in Print(n);
    LinePlain(tag, Print(n));
  }

  lemma HexPlain(tag: string, b: Bytes)
    requires '\n' !in tag
    ensures '\n' !in HexLine(tag, b)
  {
    HexIsPlain(b);
    LinePlain(tag, Hex(b));
  }

  lemma GrantPlain(g: Grant, rest: seq<string>)
    requires GrantOk(g) && Plain(rest)
    ensures Plain(GrantLines(g, rest))
  {
    hide Line, NatLine, HexLine, ValidUtf8;
    LinePlain("Grantee", g.grantee);
    LinePlain("GranteeKey", g.granteeKey);
    NatPlain("KeyEpoch", g.keyEpoch);
    HexPlain("EphemeralKey", g.ephemeralKey);
    HexPlain("EncryptedKey", g.encryptedKey);
    LinePlain("GrantedBy", g.grantedBy);
    NatPlain("GrantedAt", g.grantedAt);
  }

  lemma {:induction false} GrantsPlain(grants: seq<Grant>, rest: seq<string>)
    requires Plain(rest) && forall i :: 0 <= i < |grants| ==> GrantOk(grants[i])
    ensures Plain(GrantsLines(grants, rest))
    decreases |grants|
  {
    hide GrantOk, GrantLines;
    if grants == [] {
    } else {
      GrantsPlain(grants[1..], rest);
      GrantPlain(grants[0], GrantsLines(grants[1..], rest));
    }
  }

  lemma EncryptionPlain(e: Option<Encryption>)
    ensures '\n' !in EncryptionText(e)
  {
    if e.Some? {
      HexIsPlain(e.value.nonce);
      assert '\n' !in Print(e.value.keyEpoch);
    }
  }

  lemma FileLinesPlain(m: Message)
    requires m.StoreFileManifest? && Acceptable(m)
    ensures Plain(Lines(m))
  {
    hide Line, NatLine, HexLine, ValidUtf8, EncryptionText;
    LinePlain("Subgrove", m.subgrove);
    LinePlain("Key", m.key);
    LinePlain("Owner", m.owner);
    LinePlain("Filename", m.filename);
    LinePlain("ContentType", m.contentType);
    NatPlain("TotalSize", m.totalSize);
    HexPlain("ContentHash", m.contentHash);
    NatPlain("ChunkCount", m.chunkCount);
    NatPlain("ChunkSize", m.chunkSize);
    HexPlain("ChunkMerkleRoot", m.chunkMerkleRoot);
    EncryptionPlain(m.encryption);
    LinePlain("Encryption", EncryptionText(m.encryption));
    NatPlain("Nonce", m.nonce);
  }

  lemma GrantMessagePlain(m: Message)
    requires m.GrantSubgroveKey? && Acceptable(m)
    ensures Plain(Lines(m))
  {
    hide Line, NatLine, ValidUtf8, GrantLines, GrantOk, ValidDid;
    LinePlain("Subgrove", m.subgrove);
    LinePlain("Sender", m.sender);
    NatPlain("Nonce", m.nonce);
    GrantPlain(m.grant, [NatLine("Nonce", m.nonce)]);
  }

  lemma RotatePlain(m: Message)
    requires m.RotateSubgroveKey? && Acceptable(m)
    ensures Plain(Lines(m))
  {
    hide Line, NatLine, ValidUtf8, GrantsLines, GrantOk, ValidDid;
    LinePlain("Subgrove", m.subgrove);
    LinePlain("Sender", m.sender);
    NatPlain("NewEpoch", m.newEpoch);
    NatPlain("Grants", |m.grants|);
    NatPlain("Nonce", m.nonce);
    GrantsPlain(m.grants, [NatLine("Nonce", m.nonce)]);
  }

  lemma PlainCons(line: string, rest: seq<string>)
    requires '\n' !in line && Plain(rest)
    ensures Plain([line] + rest)
  {
  }

  lemma NoncePlain(m: Message)
    ensures Plain([NatLine("Nonce", m.nonce)])
  {
    hide NatLine;
    NatPlain("Nonce", m.nonce);
  }

  /** Where a message stores: three texts, before lines that are plain. */
  lemma StoredPlain(subgrove: string, key: string, owner: string, rest: seq<string>)
    requires TextOk(subgrove) && TextOk(key) && TextOk(owner) && Plain(rest)
    ensures Plain([Line("Subgrove", subgrove)] + ([Line("Key", key)] + ([Line("Owner", owner)] + rest)))
  {
    hide Line, ValidUtf8;
    LinePlain("Subgrove", subgrove);
    LinePlain("Key", key);
    LinePlain("Owner", owner);
    hide Plain;
    PlainCons(Line("Owner", owner), rest);
    PlainCons(Line("Key", key), [Line("Owner", owner)] + rest);
    PlainCons(Line("Subgrove", subgrove), [Line("Key", key)] + ([Line("Owner", owner)] + rest));
  }

  lemma DataLinesPlain(m: Message)
    requires m.StoreData? && Acceptable(m)
    ensures Plain(Lines(m))
  {
    var rest := [HexLine("DataHash", m.dataHash)] + [NatLine("Nonce", m.nonce)];
    HexPlain("DataHash", m.dataHash);
    NoncePlain(m);
    PlainCons(HexLine("DataHash", m.dataHash), [NatLine("Nonce", m.nonce)]);
    assert '\n' !in "StoreData";
    hide Line, NatLine, HexLine, TextOk, Plain;
    StoredPlain(m.subgrove, m.key, m.owner, rest);
    PlainCons("StoreData", [Line("Subgrove", m.subgrove)] + ([Line("Key", m.key)] + ([Line("Owner", m.owner)] + rest)));
  }

  lemma DeletionLinesPlain(m: Message)
    requires m.DeleteFileManifest? && Acceptable(m)
    ensures Plain(Lines(m))
  {
    var rest := [NatLine("Nonce", m.nonce)];
    NoncePlain(m);
    assert '\n' !in "DeleteFileManifest";
    hide Line, NatLine, HexLine, TextOk, Plain;
    StoredPlain(m.subgrove, m.key, m.owner, rest);
    PlainCons("DeleteFileManifest",
              [Line("Subgrove", m.subgrove)] + ([Line("Key", m.key)] + ([Line("Owner", m.owner)] + rest)));
  }

  lemma RegistrationLinesPlain(m: Message)
    requires m.RegisterSubgrove? && Acceptable(m)
    ensures Plain(Lines(m))
  {
    var rest := [HexLine("Config", m.config)] + [NatLine("Nonce", m.nonce)];
    HexPlain("Config", m.config);
    NoncePlain(m);
    PlainCons(HexLine("Config", m.config), [NatLine("Nonce", m.nonce)]);
    assert '\n' !in "RegisterSubgrove";
    hide ValidUtf8, Line, NatLine, HexLine;
    LinePlain("Owner", m.owner);
    LinePlain("Subgrove", m.subgrove);
    hide Plain;
    PlainCons(Line("Owner", m.owner), rest);
    PlainCons(Line("Subgrove", m.subgrove), [Line("Owner", m.owner)] + rest);
    PlainCons("RegisterSubgrove", [Line("Subgrove", m.subgrove)] + ([Line("Owner", m.owner)] + rest));
  }

  lemma NodeLinesPlain(m: Message)
    requires m.UnregisterStorageNode? && Acceptable(m)
    ensures Plain(Lines(m))
  {
    var rest := [NatLine("Nonce", m.nonce)];
    NoncePlain(m);
    assert '\n' !in "UnregisterStorageNode";
    hide ValidUtf8, Line, NatLine, HexLine;
    LinePlain("Node", m.node);
    hide Plain;
    PlainCons(Line("Node", m.node), rest);
    PlainCons("UnregisterStorageNode", [Line("Node", m.node)] + rest);
  }

  lemma LinesPlain(m: Message)
    requires Acceptable(m)
    ensures Plain(Lines(m))
  {
    hide Lines, Acceptable, Plain;
    match m
    case StoreData(_, _, _, _, _) => DataLinesPlain(m);
    case StoreFileManifest(_, _, _, _, _, _, _, _, _, _, _, _) => FileLinesPlain(m);
    case DeleteFileManifest(_, _, _, _) => DeletionLinesPlain(m);
    case RegisterSubgrove(_, _, _, _) => RegistrationLinesPlain(m);
    case GrantSubgroveKey(_, _, _, _) => GrantMessagePlain(m);
    case RotateSubgroveKey(_, _, _, _, _) => RotatePlain(m);
    case UnregisterStorageNode(_, _) => NodeLinesPlain(m);
  }

  /** Every message a builder returns parses back to its kind and every field. */
  lemma MessageRoundTrip(m: Message)
    requires Formatted(m).Ok?
    ensures Parse(Formatted(m).value) == Ok(m)
  {
    hide Lines, ReadLines, Split, Join;
    LinesPlain(m);
    FirstLine(m);
    SplitInvertsJoin(Lines(m));
    LinesRead(m);
  }

  /** So messages of different kinds or fields never coincide. */
  lemma MessagesAreDistinct(a: Message, b: Message)
    requires Formatted(a).Ok? && Formatted(b).Ok? && a != b
    ensures Formatted(a).value != Formatted(b).value
  {
    MessageRoundTrip(a);
    MessageRoundTrip(b);
  }

  // ----- the colon-joined revocation

  predicate ValidRevoke(subgrove: string, revokee: string, sender: string) {
    subgrove != "" && ':' !in subgrove && ValidDid(revokee) && ValidDid(sender)
  }

  const REVOKE := "RevokeSubgroveKey:"

  function RevokeText(subgrove: string, revokee: string, sender: string, nonce: nat): string {
    REVOKE + (subgrove + (":" + (revokee + (":" + (sender + (":" + Print(nonce)))))))
  }

  method RevokeSubgroveKeyMessage(subgrove: string, revokee: string, sender: string, nonce: nat)
    returns (r: Result<string>)
    ensures r ==
      if ValidRevoke(subgrove, revokee, sender) then Ok(RevokeText(subgrove, revokee, sender, nonce)) else Err
    ensures r.Ok? <==> |subgrove| > 0 && ':' !in subgrove && ValidDid(revokee) && ValidDid(sender)
    ensures r.Ok? ==> "RevokeSubgroveKey:" + subgrove + ":" <= r.value
  {
    if subgrove == "" { return Err; }
    if ':' in subgrove { return Err; }
    var valid := ValidateWillowDID(revokee);
    if !valid { return Err; }
    valid := ValidateWillowDID(sender);
    if !valid { return Err; }
    r := Ok(RevokeText(subgrove, revokee, sender, nonce));
    hide ValidDid;
    var rest := revokee + (":" + (sender + (":" + Print(nonce))));
    assert r.value == ("RevokeSubgroveKey:" + subgrove + ":") + rest;
  }

  /** A DID up to the colon after its own two. */
  function ReadDid(s: string): Result<(string, string)> {
    if !(DID_PREFIX <= s) then Err
    else
      var (body, rest) := Cut(s[|DID_PREFIX|..], ':');
      if rest.None? then Err else Ok((DID_PREFIX + body, rest.value))
  }

  datatype Revocation = Revocation(subgrove: string, revokee: string, sender: string, nonce: nat)

  function ParseRevoke(s: string): Result<Revocation> {
    if !(REVOKE <= s) then Err
    else
      var (subgrove, rest) := Cut(s[|REVOKE|..], ':');
      if rest.None? then Err
      else
        var revokee :- ReadDid(rest.value);
        var sender :- ReadDid(revokee.1);
        if sender.1 == "" || !AllDigits(sender.1) then Err
        else Ok(Revocation(subgrove, revokee.0, sender.0, Decimal(sender.1)))
  }

  lemma DidReads(did: string, rest: string)
    requires ValidDid(did)
    ensures ReadDid(did + (":" + rest)) == Ok((did, rest))
  {
    var s := did + (":" + rest);
    var body := did[|DID_PREFIX|..];
    assert s[|DID_PREFIX|..] == body + (":" + rest);
    assert forall i :: 0 <= i < |body| ==> body[i] == did[|DID_PREFIX| + i];
    CutFinds(body, ':', rest);
    assert did == DID_PREFIX + body;
  }

  /** The colon-joined message is unambiguous for every input validateRevoke accepts. */
  lemma RevokeRoundTrip(subgrove: string, revokee: string, sender: string, nonce: nat)
    requires ValidRevoke(subgrove, revokee, sender)
    ensures ParseRevoke(RevokeText(subgrove, revokee, sender, nonce)) ==
            Ok(Revocation(subgrove, revokee, sender, nonce))
  {
    hide ReadDid, Cut, ValidDid;
    var n := Print(nonce);
    var rest2 := sender + (":" + n);
    var rest1 := revokee + (":" + rest2);
    var s := RevokeText(subgrove, revokee, sender, nonce);
    assert s[|REVOKE|..] == subgrove + (":" + rest1);
    CutFinds(subgrove, ':', rest1);
    DidReads(revokee, rest2);
    DidReads(sender, n);
  }

  /** No revocation is the text of another message. */
  lemma RevokeIsNoOtherMessage(m: Message, subgrove: string, revokee: string, sender: string, nonce: nat)
    requires Formatted(m).Ok?
    ensures Formatted(m).value != RevokeText(subgrove, revokee, sender, nonce)
  {
    hide Lines, RevokeText, Acceptable;
    FirstLine(m);
    var s, k := Formatted(m).value, KindName(KindFor(m));
    assert s == k + ("\n" + Join(Lines(m)[1..]));
    assert s[0] == k[0] && s[1] == k[1] && s[2] == k[2];
    var t := RevokeText(subgrove, revokee, sender, nonce);
    RevokeStarts(subgrove, revokee, sender, nonce);
    assert k[0] != 'R' || k[1] != 'e' || k[2] != 'v' by { KindStarts(KindFor(m)); }
  }

  lemma RevokeStarts(subgrove: string, revokee: string, sender: string, nonce: nat)
    ensures var t := RevokeText(subgrove, revokee, sender, nonce);
            |t| >= 3 && t[0] == 'R' && t[1] == 'e' && t[2] == 'v'
  {
  }

  lemma KindStarts(k: Kind)
    requires !k.KUnknown?
    ensures |KindName(k)| >= 3 && (KindName(k)[0] != 'R' || KindName(k)[1] != 'e' || KindName(k)[2] != 'v')
  {
  }
}
