/** signed_messages.go: the messages transactions are signed over, and the parser that shows each
binds its kind and every field.

A Go string is a sequence of bytes; here it is a string whose characters are those bytes. */
module SignedMessages {
  import opened Bytes
  import opened Uint128s

  // ----- what fields may hold

  predicate Continuation(c: char) { 0x80 <= c as int <= 0xBF }

  /** The second byte a three- or four-byte form allows, by its first (section 4 of RFC 3629). */
  predicate SecondByte(first: char, c: char) {
    match first as int
    case 0xE0 => 0xA0 <= c as int <= 0xBF
    case 0xED => 0x80 <= c as int <= 0x9F
    case 0xF0 => 0x90 <= c as int <= 0xBF
    case 0xF4 => 0x80 <= c as int <= 0x8F
    case _ => Continuation(c)
  }

  predicate ValidUtf8(s: string) {
    if s == [] then true
    else
      var c := s[0] as int;
      if c < 0x80 then ValidUtf8(s[1..])
      else if 0xC2 <= c <= 0xDF then |s| >= 2 && Continuation(s[1]) && ValidUtf8(s[2..])
      else if 0xE0 <= c <= 0xEF then |s| >= 3 && SecondByte(s[0], s[1]) && Continuation(s[2]) && ValidUtf8(s[3..])
      else if 0xF0 <= c <= 0xF4 then
        |s| >= 4 && SecondByte(s[0], s[1]) && Continuation(s[2]) && Continuation(s[3]) && ValidUtf8(s[4..])
      else false
  }

  /** A text field: one line of valid UTF-8. */
  predicate TextOk(s: string) { '\n' !in s && ValidUtf8(s) }

  const DID_PREFIX := "did:willow:"

  predicate DidChar(c: char) { 'a' <= c <= 'z' || 'A' <= c <= 'Z' || '0' <= c <= '9' || c == '-' || c == '_' }

  predicate ValidDid(s: string) {
    && DID_PREFIX <= s && |DID_PREFIX| < |s| <= 128
    && forall i :: |DID_PREFIX| <= i < |s| ==> DidChar(s[i])
  }

  method ValidateWillowDID(did: string) returns (ok: bool)
    ensures ok == ValidDid(did)
  {
    if !(DID_PREFIX <= did) { return false; }
    var body := did[|DID_PREFIX|..];
    if |did| > 128 { return false; }
    if body == "" { return false; }
    for i := 0 to |body|
      invariant forall j :: 0 <= j < i ==> DidChar(body[j])
    {
      if !DidChar(body[i]) {
        assert did[|DID_PREFIX| + i] == body[i];
        return false;
      }
    }
    assert forall j :: |DID_PREFIX| <= j < |did| ==> did[j] == body[j - |DID_PREFIX|];
    ok := true;
  }

  // ----- hex

  function HexChar(n: nat): char
    requires n < 16
  {
    if n < 10 then ('0' as int + n) as char else ('a' as int + n - 10) as char
  }

  function HexDigit(c: char): nat {
    if '0' <= c <= '9' then c as int - '0' as int else if 'a' <= c <= 'f' then c as int - 'a' as int + 10 else 16
  }

  function Hex(b: Bytes): string {
    if b == [] then "" else [HexChar(b[0] / 16), HexChar(b[0] % 16)] + Hex(b[1..])
  }

  function Unhex(s: string): Result<Bytes> {
    if s == "" then Ok([])
    else if |s| == 1 || HexDigit(s[0]) > 15 || HexDigit(s[1]) > 15 then Err
    else
      var rest :- Unhex(s[2..]);
      Ok([16 * HexDigit(s[0]) + HexDigit(s[1])] + rest)
  }

  lemma HexDigitInverts(n: nat)
    requires n < 16
    ensures HexDigit(HexChar(n)) == n
  {
  }

  lemma UnhexNext(b: Byte, rest: string)
    ensures Unhex([HexChar(b / 16), HexChar(b % 16)] + rest) ==
            match Unhex(rest) case Ok(bs) => Ok([b] + bs) case Err => Err
  {
    HexDigitInverts(b / 16);
    HexDigitInverts(b % 16);
    hide HexDigit, HexChar;
    assert ([HexChar(b / 16), HexChar(b % 16)] + rest)[2..] == rest;
  }

  lemma {:induction false} UnhexInverts(b: Bytes)
    ensures Unhex(Hex(b)) == Ok(b)
  {
    if b == [] {
    } else {
      hide HexDigit, HexChar;
      UnhexInverts(b[1..]);
      UnhexNext(b[0], Hex(b[1..]));
      assert [b[0]] + b[1..] == b;
    }
  }

  lemma {:induction false} HexIsPlain(b: Bytes)
    ensures forall c :: c in Hex(b) ==> '0' <= c <= '9' || 'a' <= c <= 'f'
  {
    if b == [] {
    } else {
      HexIsPlain(b[1..]);
    }
  }

  // ----- lines

  function Join(lines: seq<string>): string {
    if lines == [] then "" else if |lines| == 1 then lines[0] else lines[0] + ("\n" + Join(lines[1..]))
  }

  /** The text up to the first occurrence of a character, and the text after it, if it occurs. */
  function Cut(s: string, at: char): (string, Option<string>) {
    if s == "" then ("", None)
    else if s[0] == at then ("", Some(s[1..]))
    else
      var (before, after) := Cut(s[1..], at);
      ([s[0]] + before, after)
  }

  function Split(s: string): seq<string>
    decreases |s|
  {
    var (line, rest) := Cut(s, '\n');
    CutShortens(s, '\n');
    if rest.None? then [line] else [line] + Split(rest.value)
  }

  lemma {:induction false} CutShortens(s: string, at: char)
    ensures Cut(s, at).1.Some? ==> |Cut(s, at).1.value| < |s|
  {
    if s == "" || s[0] == at {
    } else {
      CutShortens(s[1..], at);
    }
  }

  lemma {:induction false} CutFinds(before: string, at: char, after: string)
    requires at !in before
    ensures Cut(before + ([at] + after), at) == (before, Some(after))
    decreases |before|
  {
    var s := before + ([at] + after);
    if before != "" {
      assert s[1..] == before[1..] + ([at] + after);
      CutFinds(before[1..], at, after);
      assert [before[0]] + before[1..] == before;
    } else {
      assert s[1..] == after;
    }
  }

  lemma {:induction false} CutFindsNone(s: string, at: char)
    requires at !in s
    ensures Cut(s, at) == (s, None)
  {
    if s == "" {
    } else {
      CutFindsNone(s[1..], at);
      assert [s[0]] + s[1..] == s;
    }
  }

  lemma {:induction false} SplitInvertsJoin(lines: seq<string>)
    requires lines != [] && forall l :: l in lines ==> '\n' !in l
    ensures Split(Join(lines)) == lines
    decreases |lines|
  {
    if |lines| == 1 {
      CutFindsNone(lines[0], '\n');
    } else {
      CutFinds(lines[0], '\n', Join(lines[1..]));
      SplitInvertsJoin(lines[1..]);
      assert [lines[0]] + lines[1..] == lines;
    }
  }

  // ----- messages

  datatype Grant = Grant(grantee: string, granteeKey: string, keyEpoch: nat, ephemeralKey: Bytes,
                         encryptedKey: Bytes, grantedBy: string, grantedAt: nat)

  datatype Encryption = Encryption(keyEpoch: nat, nonce: Bytes)

  datatype Message =
    | StoreData(subgrove: string, key: string, owner: string, dataHash: Digest, nonce: nat)
    | StoreFileManifest(subgrove: string, key: string, owner: string, filename: string, contentType: string,
                        totalSize: nat, contentHash: Digest, chunkCount: nat, chunkSize: nat, chunkMerkleRoot: Digest,
                        encryption: Option<Encryption>, nonce: nat)
    | DeleteFileManifest(subgrove: string, key: string, owner: string, nonce: nat)
    | RegisterSubgrove(subgrove: string, owner: string, config: Digest, nonce: nat)
    | GrantSubgroveKey(subgrove: string, sender: string, grant: Grant, nonce: nat)
    | RotateSubgroveKey(subgrove: string, sender: string, newEpoch: nat, grants: seq<Grant>, nonce: nat)
    | UnregisterStorageNode(node: string, nonce: nat)

  function Line(tag: string, value: string): string { tag + (": " + value) }

  function NatLine(tag: string, n: nat): string { Line(tag, Print(n)) }

  function HexLine(tag: string, b: Bytes): string { Line(tag, Hex(b)) }

  function GrantLines(g: Grant, rest: seq<string>): seq<string> {
    [Line("Grantee", g.grantee)] + ([Line("GranteeKey", g.granteeKey)] + ([NatLine("KeyEpoch", g.keyEpoch)] +
    ([HexLine("EphemeralKey", g.ephemeralKey)] + ([HexLine("EncryptedKey", g.encryptedKey)] +
    ([Line("GrantedBy", g.grantedBy)] + ([NatLine("GrantedAt", g.grantedAt)] + rest))))))
  }

  function GrantsLines(grants: seq<Grant>, rest: seq<string>): seq<string> {
    if grants == [] then rest else GrantLines(grants[0], GrantsLines(grants[1..], rest))
  }

  function EncryptionText(e: Option<Encryption>): string {
    match e
    case None => "none"
    case Some(x) => Print(x.keyEpoch) + (":" + Hex(x.nonce))
  }

  function Lines(m: Message): seq<string> {
    var nonce := [NatLine("Nonce", m.nonce)];
    match m
    case StoreData(sub, key, owner, hash, _) =>
      ["StoreData"] + ([Line("Subgrove", sub)] + ([Line("Key", key)] + ([Line("Owner", owner)] +
      ([HexLine("DataHash", hash)] + nonce))))
    case StoreFileManifest(sub, key, owner, name, ctype, total, chash, count, size, root, enc, _) =>
      ["StoreFileManifest"] + ([Line("Subgrove", sub)] + ([Line("Key", key)] + ([Line("Owner", owner)] +
      ([Line("Filename", name)] + ([Line("ContentType", ctype)] + ([NatLine("TotalSize", total)] +
      ([HexLine("ContentHash", chash)] + ([NatLine("ChunkCount", count)] + ([NatLine("ChunkSize", size)] +
      ([HexLine("ChunkMerkleRoot", root)] + ([Line("Encryption", EncryptionText(enc))] + nonce)))))))))))
    case DeleteFileManifest(sub, key, owner, _) =>
      ["DeleteFileManifest"] + ([Line("Subgrove", sub)] + ([Line("Key", key)] + ([Line("Owner", owner)] + nonce)))
    case RegisterSubgrove(sub, owner, config, _) =>
      ["RegisterSubgrove"] + ([Line("Subgrove", sub)] + ([Line("Owner", owner)] +
      ([HexLine("Config", config)] + nonce)))
    case GrantSubgroveKey(sub, sender, g, _) =>
      ["GrantSubgroveKey"] + ([Line("Subgrove", sub)] + ([Line("Sender", sender)] + GrantLines(g, nonce)))
    case RotateSubgroveKey(sub, sender, epoch, grants, _) =>
      ["RotateSubgroveKey"] + ([Line("Subgrove", sub)] + ([Line("Sender", sender)] + ([NatLine("NewEpoch", epoch)] +
      ([NatLine("Grants", |grants|)] + GrantsLines(grants, nonce)))))
    case UnregisterStorageNode(node, _) => ["UnregisterStorageNode"] + ([Line("Node", node)] + nonce)
  }

  predicate GrantOk(g: Grant) { TextOk(g.grantee) && TextOk(g.granteeKey) && TextOk(g.grantedBy) }

  /** What the builders refuse: text that is no line, grants to what is no DID, and rotations without
      grants or with a grant of another epoch. */
  predicate Acceptable(m: Message) {
    match m
    case StoreData(sub, key, owner, _, _) => TextOk(sub) && TextOk(key) && TextOk(owner)
    case StoreFileManifest(sub, key, owner, name, ctype, _, _, _, _, _, _, _) =>
      TextOk(sub) && TextOk(key) && TextOk(owner) && TextOk(name) && TextOk(ctype)
    case DeleteFileManifest(sub, key, owner, _) => TextOk(sub) && TextOk(key) && TextOk(owner)
    case RegisterSubgrove(sub, owner, _, _) => TextOk(sub) && TextOk(owner)
    case GrantSubgroveKey(sub, sender, g, _) => TextOk(sub) && TextOk(sender) && GrantOk(g) && ValidDid(g.grantee)
    case RotateSubgroveKey(sub, sender, epoch, grants, _) =>
      && TextOk(sub) && TextOk(sender) && grants != []
      && forall i :: 0 <= i < |grants| ==>
           grants[i].keyEpoch == epoch && ValidDid(grants[i].grantee) && GrantOk(grants[i])
    case UnregisterStorageNode(node, _) => TextOk(node)
  }

  function Formatted(m: Message): Result<string> {
    if Acceptable(m) then Ok(Join(Lines(m))) else Err
  }

  // ----- the builder

  /** The lines with one more, as the builder grows them. */
  function Add(lines: seq<string>, line: string): seq<string> { lines + [line] }

  lemma AddThen(lines: seq<string>, line: string, rest: seq<string>)
    ensures Add(lines, line) + rest == lines + ([line] + rest)
  {
  }

  function AddGrantTo(lines: seq<string>, g: Grant): seq<string> {
    var grantee := Add(lines, Line("Grantee", g.grantee));
    var key := Add(grantee, Line("GranteeKey", g.granteeKey));
    var epoch := Add(key, NatLine("KeyEpoch", g.keyEpoch));
    var ephemeral := Add(epoch, HexLine("EphemeralKey", g.ephemeralKey));
    var encrypted := Add(ephemeral, HexLine("EncryptedKey", g.encryptedKey));
    Add(Add(encrypted, Line("GrantedBy", g.grantedBy)), NatLine("GrantedAt", g.grantedAt))
  }

  function AddGrantsTo(lines: seq<string>, grants: seq<Grant>): seq<string>
    decreases |grants|
  {
    if grants == [] then lines else AddGrantsTo(AddGrantTo(lines, grants[0]), grants[1..])
  }

  /** A grant's lines, added at the end, stand before whatever follows. */
  lemma GrantThen(lines: seq<string>, g: Grant, rest: seq<string>)
    ensures AddGrantTo(lines, g) + rest == lines + GrantLines(g, rest)
  {
    var grantee := Add(lines, Line("Grantee", g.grantee));
    var key := Add(grantee, Line("GranteeKey", g.granteeKey));
    var epoch := Add(key, NatLine("KeyEpoch", g.keyEpoch));
    var ephemeral := Add(epoch, HexLine("EphemeralKey", g.ephemeralKey));
    var encrypted := Add(ephemeral, HexLine("EncryptedKey", g.encryptedKey));
    var granter := Add(encrypted, Line("GrantedBy", g.grantedBy));
    hide Add, Line, NatLine, HexLine;
    var r6 := [NatLine("GrantedAt", g.grantedAt)] + rest;
    var r5 := [Line("GrantedBy", g.grantedBy)] + r6;
    var r4 := [HexLine("EncryptedKey", g.encryptedKey)] + r5;
    var r3 := [HexLine("EphemeralKey", g.ephemeralKey)] + r4;
    var r2 := [NatLine("KeyEpoch", g.keyEpoch)] + r3;
    var r1 := [Line("GranteeKey", g.granteeKey)] + r2;
    AddThen(granter, NatLine("GrantedAt", g.grantedAt), rest);
    AddThen(encrypted, Line("GrantedBy", g.grantedBy), r6);
    AddThen(ephemeral, HexLine("EncryptedKey", g.encryptedKey), r5);
    AddThen(epoch, HexLine("EphemeralKey", g.ephemeralKey), r4);
    AddThen(key, NatLine("KeyEpoch", g.keyEpoch), r3);
    AddThen(grantee, Line("GranteeKey", g.granteeKey), r2);
    AddThen(lines, Line("Grantee", g.grantee), r1);
  }

  lemma {:induction false} GrantsThen(lines: seq<string>, grants: seq<Grant>, rest: seq<string>)
    ensures AddGrantsTo(lines, grants) + rest == lines + GrantsLines(grants, rest)
    decreases |grants|
  {
    hide AddGrantTo, GrantLines;
    if grants == [] {
    } else {
      GrantsThen(AddGrantTo(lines, grants[0]), grants[1..], rest);
      GrantThen(lines, grants[0], GrantsLines(grants[1..], rest));
    }
  }

  /** Adding before anything is putting a line before it. */
  lemma AddBefore()
    ensures forall lines: seq<string>, line: string, rest: seq<string> {:trigger Add(lines, line) + rest} ::
      Add(lines, line) + rest == lines + ([line] + rest)
  {
  }

  lemma AddLast()
    ensures forall lines: seq<string>, line: string {:trigger Add(lines, line)} :: Add(lines, line) == lines + [line]
  {
  }

  // The lines of each kind as its builder adds them, and that they are the message's.

  function DataBuilt(m: Message): seq<string>
    requires m.StoreData?
  {
    var subgrove := Add(["StoreData"], Line("Subgrove", m.subgrove));
    var key := Add(subgrove, Line("Key", m.key));
    var owner := Add(key, Line("Owner", m.owner));
    var dataHash := Add(owner, HexLine("DataHash", m.dataHash));
    Add(dataHash, NatLine("Nonce", m.nonce))
  }

  lemma DataLines(m: Message)
    requires m.StoreData?
    ensures DataBuilt(m) == Lines(m)
  {
    AddBefore();
    hide Line, NatLine, HexLine, EncryptionText, GrantLines, GrantsLines, AddGrantTo, AddGrantsTo;
  }

  function FileHead(m: Message): seq<string>
    requires m.StoreFileManifest?
  {
    var subgrove := Add(["StoreFileManifest"], Line("Subgrove", m.subgrove));
    var key := Add(subgrove, Line("Key", m.key));
    var owner := Add(key, Line("Owner", m.owner));
    var filename := Add(owner, Line("Filename", m.filename));
    Add(filename, Line("ContentType", m.contentType))
  }

  function FileBuilt(m: Message): seq<string>
    requires m.StoreFileManifest?
  {
    var totalSize := Add(FileHead(m), NatLine("TotalSize", m.totalSize));
    var contentHash := Add(totalSize, HexLine("ContentHash", m.contentHash));
    var chunkCount := Add(contentHash, NatLine("ChunkCount", m.chunkCount));
    var chunkSize := Add(chunkCount, NatLine("ChunkSize", m.chunkSize));
    var chunkMerkleRoot := Add(chunkSize, HexLine("ChunkMerkleRoot", m.chunkMerkleRoot));
    var encryption := Add(chunkMerkleRoot, Line("Encryption", EncryptionText(m.encryption)));
    Add(encryption, NatLine("Nonce", m.nonce))
  }

  /** The numbers and hashes of a manifest's message, and its nonce. */
  function FileTail(m: Message): seq<string>
    requires m.StoreFileManifest?
  {
    [NatLine("TotalSize", m.totalSize)] + ([HexLine("ContentHash", m.contentHash)] +
    ([NatLine("ChunkCount", m.chunkCount)] + ([NatLine("ChunkSize", m.chunkSize)] +
    ([HexLine("ChunkMerkleRoot", m.chunkMerkleRoot)] + ([Line("Encryption", EncryptionText(m.encryption))] +
    [NatLine("Nonce", m.nonce)])))))
  }

  lemma FileHeadThen(m: Message, rest: seq<string>)
    requires m.StoreFileManifest?
    ensures FileHead(m) + rest ==
            ["StoreFileManifest"] + ([Line("Subgrove", m.subgrove)] + ([Line("Key", m.key)] +
            ([Line("Owner", m.owner)] + ([Line("Filename", m.filename)] +
            ([Line("ContentType", m.contentType)] + rest)))))
  {
    AddBefore();
    hide Add, Line;
  }

  lemma FileTailThen(m: Message)
    requires m.StoreFileManifest?
    ensures FileBuilt(m) == FileHead(m) + FileTail(m)
  {
    AddBefore();
    AddLast();
    hide FileHead, Add, Line, NatLine, HexLine, EncryptionText;
  }

  lemma FileLines(m: Message)
    requires m.StoreFileManifest?
    ensures FileBuilt(m) == Lines(m)
  {
    FileHeadThen(m, FileTail(m));
    FileTailThen(m);
    hide FileBuilt, FileHead, Line, NatLine, HexLine, EncryptionText;
  }

  function DeletionBuilt(m: Message): seq<string>
    requires m.DeleteFileManifest?
  {
    var subgrove := Add(["DeleteFileManifest"], Line("Subgrove", m.subgrove));
    var key := Add(subgrove, Line("Key", m.key));
    var owner := Add(key, Line("Owner", m.owner));
    Add(owner, NatLine("Nonce", m.nonce))
  }

  lemma DeletionLines(m: Message)
    requires m.DeleteFileManifest?
    ensures DeletionBuilt(m) == Lines(m)
  {
    AddBefore();
    hide Line, NatLine, HexLine, EncryptionText, GrantLines, GrantsLines, AddGrantTo, AddGrantsTo;
  }

  function RegistrationBuilt(m: Message): seq<string>
    requires m.RegisterSubgrove?
  {
    var subgrove := Add(["RegisterSubgrove"], Line("Subgrove", m.subgrove));
    var owner := Add(subgrove, Line("Owner", m.owner));
    var config := Add(owner, HexLine("Config", m.config));
    Add(config, NatLine("Nonce", m.nonce))
  }

  lemma RegistrationLines(m: Message)
    requires m.RegisterSubgrove?
    ensures RegistrationBuilt(m) == Lines(m)
  {
    AddBefore();
    hide Line, NatLine, HexLine, EncryptionText, GrantLines, GrantsLines, AddGrantTo, AddGrantsTo;
  }

  function GrantingBuilt(m: Message): seq<string>
    requires m.GrantSubgroveKey?
  {
    var subgrove := Add(["GrantSubgroveKey"], Line("Subgrove", m.subgrove));
    var sender := Add(subgrove, Line("Sender", m.sender));
    var granted := AddGrantTo(sender, m.grant);
    Add(granted, NatLine("Nonce", m.nonce))
  }

  lemma GrantingLines(m: Message)
    requires m.GrantSubgroveKey?
    ensures GrantingBuilt(m) == Lines(m)
  {
    AddBefore();
    var sender := Add(Add(["GrantSubgroveKey"], Line("Subgrove", m.subgrove)), Line("Sender", m.sender));
    GrantThen(sender, m.grant, [NatLine("Nonce", m.nonce)]);
    hide Line, NatLine, HexLine, EncryptionText, GrantLines, GrantsLines, AddGrantTo, AddGrantsTo;
  }

  function RotationHead(m: Message): seq<string>
    requires m.RotateSubgroveKey?
  {
    var subgrove := Add(["RotateSubgroveKey"], Line("Subgrove", m.subgrove));
    var sender := Add(subgrove, Line("Sender", m.sender));
    var newEpoch := Add(sender, NatLine("NewEpoch", m.newEpoch));
    Add(newEpoch, NatLine("Grants", |m.grants|))
  }

  function RotationBuilt(m: Message): seq<string>
    requires m.RotateSubgroveKey?
  {
    Add(AddGrantsTo(RotationHead(m), m.grants), NatLine("Nonce", m.nonce))
  }

  lemma RotationHeadThen(m: Message, rest: seq<string>)
    requires m.RotateSubgroveKey?
    ensures RotationHead(m) + rest ==
            ["RotateSubgroveKey"] + ([Line("Subgrove", m.subgrove)] + ([Line("Sender", m.sender)] +
            ([NatLine("NewEpoch", m.newEpoch)] + ([NatLine("Grants", |m.grants|)] + rest))))
  {
    AddBefore();
    hide Add, Line, NatLine;
  }

  lemma RotationLines(m: Message)
    requires m.RotateSubgroveKey?
    ensures RotationBuilt(m) == Lines(m)
  {
    var nonce := [NatLine("Nonce", m.nonce)];
    GrantsThen(RotationHead(m), m.grants, nonce);
    RotationHeadThen(m, GrantsLines(m.grants, nonce));
    hide RotationHead, Line, NatLine, GrantsLines, AddGrantsTo;
  }

  function NodeBuilt(m: Message): seq<string>
    requires m.UnregisterStorageNode?
  {
    var node := Add(["UnregisterStorageNode"], Line("Node", m.node));
    Add(node, NatLine("Nonce", m.nonce))
  }

  lemma NodeLines(m: Message)
    requires m.UnregisterStorageNode?
    ensures NodeBuilt(m) == Lines(m)
  {
    AddBefore();
    hide Line, NatLine, HexLine, EncryptionText, GrantLines, GrantsLines, AddGrantTo, AddGrantsTo;
  }

  /** signedMessage: it collects lines, and remembers that a field was refused. */
  class Builder {
    var lines: seq<string>
    var err: bool

    constructor (kind: string)
      ensures lines == [kind] && !err
    {
      lines := [kind];
      err := false;
    }

    method AddText(tag: string, value: string)
      modifies this
      ensures lines == Add(old(lines), Line(tag, value)) && err == (old(err) || !TextOk(value))
    {
      if !err && '\n' in value { err := true; }
      if !err && !ValidUtf8(value) { err := true; }
      AddLine(tag, value);
    }

    method AddLine(tag: string, value: string)
      modifies this
      ensures lines == Add(old(lines), Line(tag, value)) && err == old(err)
    {
      lines := lines + [tag + (": " + value)];
    }

    method AddGrant(g: Grant)
      modifies this
      ensures lines == AddGrantTo(old(lines), g) && err == (old(err) || !GrantOk(g))
    {
      hide TextOk, Line, Add;
      AddText("Grantee", g.grantee);
      AddText("GranteeKey", g.granteeKey);
      AddLine("KeyEpoch", Print(g.keyEpoch));
      AddLine("EphemeralKey", Hex(g.ephemeralKey));
      AddLine("EncryptedKey", Hex(g.encryptedKey));
      AddText("GrantedBy", g.grantedBy);
      AddLine("GrantedAt", Print(g.grantedAt));
    }

    method AddGrants(grants: seq<Grant>)
      modifies this
      ensures lines == AddGrantsTo(old(lines), grants)
      ensures err == (old(err) || exists j :: 0 <= j < |grants| && !GrantOk(grants[j]))
    {
      hide AddGrantTo, GrantOk;
      assert grants[0..] == grants;
      for i := 0 to |grants|
        invariant AddGrantsTo(lines, grants[i..]) == AddGrantsTo(old(lines), grants)
        invariant err == (old(err) || exists j :: 0 <= j < i && !GrantOk(grants[j]))
      {
        assert grants[i..][1..] == grants[i + 1..];
        AddGrant(grants[i]);
      }
    }

    method Build() returns (r: Result<string>)
      ensures r == if err then Err else Ok(Join(lines))
    {
      r := if err then Err else Ok(Join(lines));
    }
  }

  method FormatDataStoreMessage(H: Hash, subgrove: string, key: string, owner: string, data: Bytes, nonce: nat)
    returns (r: Result<string>)
    ensures r == Formatted(StoreData(subgrove, key, owner, H(data), nonce))
  {
    hide TextOk, Line, Join, Hex, Add, ValidDid, AddGrantTo, AddGrantsTo, GrantOk, EncryptionText;
    var m := new Builder("StoreData");
    m.AddText("Subgrove", subgrove);
    m.AddText("Key", key);
    m.AddText("Owner", owner);
    m.AddLine("DataHash", Hex(H(data)));
    m.AddLine("Nonce", Print(nonce));
    DataLines(StoreData(subgrove, key, owner, H(data), nonce));
    hide Lines;
    r := m.Build();
  }

  method FormatStoreFileManifestMessage(f: Message) returns (r: Result<string>)
    requires f.StoreFileManifest?
    ensures r == Formatted(f)
  {
    hide TextOk, Line, Join, Hex, Add, ValidDid, AddGrantTo, AddGrantsTo, GrantOk, EncryptionText;
    var m := new Builder("StoreFileManifest");
    m.AddText("Subgrove", f.subgrove);
    m.AddText("Key", f.key);
    m.AddText("Owner", f.owner);
    m.AddText("Filename", f.filename);
    m.AddText("ContentType", f.contentType);
    m.AddLine("TotalSize", Print(f.totalSize));
    m.AddLine("ContentHash", Hex(f.contentHash));
    m.AddLine("ChunkCount", Print(f.chunkCount));
    m.AddLine("ChunkSize", Print(f.chunkSize));
    m.AddLine("ChunkMerkleRoot", Hex(f.chunkMerkleRoot));
    m.AddLine("Encryption", EncryptionText(f.encryption));
    m.AddLine("Nonce", Print(f.nonce));
    FileLines(f);
    hide Lines;
    r := m.Build();
  }

  method FormatDeleteFileManifestMessage(subgrove: string, key: string, owner: string, nonce: nat)
    returns (r: Result<string>)
    ensures r == Formatted(DeleteFileManifest(subgrove, key, owner, nonce))
  {
    hide TextOk, Line, Join, Hex, Add, ValidDid, AddGrantTo, AddGrantsTo, GrantOk, EncryptionText;
    var m := new Builder("DeleteFileManifest");
    m.AddText("Subgrove", subgrove);
    m.AddText("Key", key);
    m.AddText("Owner", owner);
    m.AddLine("Nonce", Print(nonce));
    DeletionLines(DeleteFileManifest(subgrove, key, owner, nonce));
    hide Lines;
    r := m.Build();
  }

  /** The chain of calls that ends FormatRegisterSubgroveMessage, over the bytes its Config hashes. */
  method RegistrationMessage(H: Hash, subgrove: string, owner: string, unsigned: Bytes, nonce: nat)
    returns (r: Result<string>)
    ensures r == Formatted(RegisterSubgrove(subgrove, owner, H(unsigned), nonce))
  {
    hide TextOk, Line, Join, Hex, Add, ValidDid, AddGrantTo, AddGrantsTo, GrantOk, EncryptionText;
    var m := new Builder("RegisterSubgrove");
    m.AddText("Subgrove", subgrove);
    m.AddText("Owner", owner);
    m.AddLine("Config", Hex(H(unsigned)));
    m.AddLine("Nonce", Print(nonce));
    RegistrationLines(RegisterSubgrove(subgrove, owner, H(unsigned), nonce));
    hide Lines;
    r := m.Build();
  }

  method FormatGrantSubgroveKeyMessage(subgrove: string, sender: string, grant: Grant, nonce: nat)
    returns (r: Result<string>)
    ensures r == Formatted(GrantSubgroveKey(subgrove, sender, grant, nonce))
  {
    hide TextOk, Line, Join, Hex, Add, ValidDid, AddGrantTo, AddGrantsTo, GrantOk, EncryptionText;
    var valid := ValidateWillowDID(grant.grantee);
    if !valid { return Err; }
    var m := new Builder("GrantSubgroveKey");
    m.AddText("Subgrove", subgrove);
    m.AddText("Sender", sender);
    m.AddGrant(grant);
    m.AddLine("Nonce", Print(nonce));
    GrantingLines(GrantSubgroveKey(subgrove, sender, grant, nonce));
    hide Lines;
    r := m.Build();
  }

  /** validateRotation. */
  method ValidateRotation(newEpoch: nat, grants: seq<Grant>) returns (ok: bool)
    ensures ok <==>
      grants != [] &&
      forall i :: 0 <= i < |grants| ==> grants[i].keyEpoch == newEpoch && ValidDid(grants[i].grantee)
  {
    hide ValidDid;
    if |grants| == 0 { return false; }
    for i := 0 to |grants|
      invariant forall j :: 0 <= j < i ==> grants[j].keyEpoch == newEpoch
    {
      if grants[i].keyEpoch != newEpoch { return false; }
    }
    for i := 0 to |grants|
      invariant forall j :: 0 <= j < i ==> ValidDid(grants[j].grantee)
    {
      var valid := ValidateWillowDID(grants[i].grantee);
      if !valid { return false; }
    }
    ok := true;
  }

  method FormatRotateSubgroveKeyMessage(subgrove: string, sender: string, newEpoch: nat, grants: seq<Grant>, nonce: nat)
    returns (r: Result<string>)
    ensures r == Formatted(RotateSubgroveKey(subgrove, sender, newEpoch, grants, nonce))
  {
    hide TextOk, Line, Join, Hex, Add, ValidDid, AddGrantTo, AddGrantsTo, GrantOk, EncryptionText;
    var valid := ValidateRotation(newEpoch, grants);
    if !valid { return Err; }
    var m := new Builder("RotateSubgroveKey");
    m.AddText("Subgrove", subgrove);
    m.AddText("Sender", sender);
    m.AddLine("NewEpoch", Print(newEpoch));
    m.AddLine("Grants", Print(|grants|));
    m.AddGrants(grants);
    m.AddLine("Nonce", Print(nonce));
    RotationLines(RotateSubgroveKey(subgrove, sender, newEpoch, grants, nonce));
    hide Lines;
    r := m.Build();
  }

  method FormatUnregisterStorageNodeMessage(node: string, nonce: nat) returns (r: Result<string>)
    ensures r == Formatted(UnregisterStorageNode(node, nonce))
  {
    hide TextOk, Line, Join, Hex, Add, ValidDid, AddGrantTo, AddGrantsTo, GrantOk, EncryptionText;
    var m := new Builder("UnregisterStorageNode");
    m.AddText("Node", node);
    m.AddLine("Nonce", Print(nonce));
    NodeLines(UnregisterStorageNode(node, nonce));
    hide Lines;
    r := m.Build();
  }
}
