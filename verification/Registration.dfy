/** What a RegisterSubgrove signature is over (signed_messages.go): its message names the subgrove,
the owner and the nonce, and hashes the transaction's bincode as its Config. */
module Registration {
  import opened Bytes
  import opened Bincode
  import opened RegisterJson
  import S = SignedMessages
  import P = MessageParser
  import U = Utf8

  /** The message of the transaction a JSON value denotes. */
  function MessageOf(H: Hash, j: Json): S.Message
    requires UnsignedBincode(j).Ok?
  {
    var t := TxOf(j).value;
    S.RegisterSubgrove(t.identity.subgroveId, t.identity.ownerDid, H(UnsignedBincode(j).value), t.tail.nonce)
  }

  /** The JSON denotes a transaction, and the message takes its id and owner. */
  predicate Signable(H: Hash, j: Json) { UnsignedBincode(j).Ok? && S.Formatted(MessageOf(H, j)).Ok? }

  /** Config binds every field of the transaction but the signature: two registrations have one
      message exactly when they denote one transaction, or their bincodes collide. */
  lemma SignatureBindsTheTransaction(H: Hash, a: Json, b: Json)
    ensures Signable(H, a) && Signable(H, b) ==>
              || (S.Formatted(MessageOf(H, a)) == S.Formatted(MessageOf(H, b)) <==> TxOf(a) == TxOf(b))
              || Collide(H, UnsignedBincode(a).value, UnsignedBincode(b).value)
  {
    hide TxOf, PutTx, S.Formatted;
    if Signable(H, a) && Signable(H, b) {
      BincodeBindsTheTransaction(a, b);
      if MessageOf(H, a) != MessageOf(H, b) {
        P.MessagesAreDistinct(MessageOf(H, a), MessageOf(H, b));
      }
    }
  }

  // ----- what is checked before signing

  predicate Alphanumeric(c: char) { 'a' <= c <= 'z' || 'A' <= c <= 'Z' || '0' <= c <= '9' }

  predicate StorageId(id: string) {
    && 1 <= |id| <= 64 && Alphanumeric(id[0])
    && forall i :: 0 <= i < |id| ==> Alphanumeric(id[i]) || id[i] == '-' || id[i] == '_'
  }

  method ValidateStorageSubgroveID(id: string) returns (ok: bool)
    ensures ok == StorageId(id)
  {
    if id == "" || |id| > 64 { return false; }
    for i := 0 to |id|
      invariant i > 0 ==> Alphanumeric(id[0])
      invariant forall j :: 0 <= j < i ==> Alphanumeric(id[j]) || id[j] == '-' || id[j] == '_'
    {
      var alnum := Alphanumeric(id[i]);
      if i == 0 && !alnum { return false; }
      if !alnum && id[i] != '-' && id[i] != '_' { return false; }
    }
    ok := true;
  }

  predicate AllDids(xs: Strs) { forall i :: 0 <= i < |xs| ==> S.ValidDid(xs[i]) }

  method ValidateDids(xs: Strs) returns (ok: bool)
    ensures ok == AllDids(xs)
  {
    hide S.ValidDid;
    for i := 0 to |xs|
      invariant forall j :: 0 <= j < i ==> S.ValidDid(xs[j])
    {
      var valid := S.ValidateWillowDID(xs[i]);
      if !valid { return false; }
    }
    ok := true;
  }

  /** In a private DataStorage registration, an initial owner key grant is of epoch 0 to the owner. */
  predicate OwnerGrantOk(t: Tx) {
    t.mode.DataStorage? && t.privacy.Some? && t.ownerKeyGrant.Some? ==>
      var g := t.ownerKeyGrant.value;
      g.keyEpoch == 0 && g.grantee == t.identity.ownerDid && S.ValidDid(g.grantee)
  }

  /** What the chain takes, for a check of the schema's text. */
  predicate StorageOk(t: Tx, schemaOk: string -> bool) {
    && !t.mode.BlockchainIndexing?
    && StorageId(t.identity.subgroveId) && AllDids(t.identity.admins)
    && AllDids(t.mode.writers) && AllDids(t.mode.freeReaders)
    && schemaOk(t.identity.schema) && OwnerGrantOk(t)
  }

  method CheckOwnerGrant(t: Tx) returns (ok: bool)
    ensures ok == OwnerGrantOk(t)
  {
    hide S.ValidDid;
    if t.mode.DataStorage? && t.privacy.Some? && t.ownerKeyGrant.Some? {
      var g := t.ownerKeyGrant.value;
      if g.keyEpoch != 0 { return false; }
      if g.grantee != t.identity.ownerDid { return false; }
      ok := S.ValidateWillowDID(g.grantee);
    } else {
      ok := true;
    }
  }

  method CheckStorageRegistration(t: Tx, schemaOk: string -> bool) returns (ok: bool)
    requires !t.mode.BlockchainIndexing?
    ensures ok == StorageOk(t, schemaOk)
  {
    hide StorageId, AllDids, OwnerGrantOk;
    ok := ValidateStorageSubgroveID(t.identity.subgroveId);
    if !ok { return; }
    ok := ValidateDids(t.identity.admins);
    if !ok { return; }
    ok := ValidateDids(t.mode.writers);
    if !ok { return; }
    ok := ValidateDids(t.mode.freeReaders);
    if !ok { return; }
    if !schemaOk(t.identity.schema) { return false; }
    ok := CheckOwnerGrant(t);
  }

  /** The message a transaction is signed over, or a refusal. */
  function Signed(H: Hash, t: Tx, schemaOk: string -> bool): Result<string> {
    if StorageOk(t, schemaOk)
    then S.Formatted(S.RegisterSubgrove(t.identity.subgroveId, t.identity.ownerDid, H(PutTx(t, [])), t.tail.nonce))
    else Err
  }

  method FormatRegisterSubgroveMessage(H: Hash, t: Tx, schemaOk: string -> bool) returns (r: Result<string>)
    ensures r == Signed(H, t, schemaOk)
  {
    hide PutTx, S.Formatted, StorageId, AllDids, OwnerGrantOk;
    if t.mode.BlockchainIndexing? { return Err; }
    var ok := CheckStorageRegistration(t, schemaOk);
    if !ok { return Err; }
    var unsigned := PutTx(t, []);
    r := S.RegistrationMessage(H, t.identity.subgroveId, t.identity.ownerDid, unsigned, t.tail.nonce);
  }

  /** An id is 1 to 64 letters, digits, dashes and underscores, and starts with a letter or digit. */
  lemma IdExactlyWhen(id: string)
    ensures StorageId(id) <==> 1 <= |id| <= 64 && U.AllAllowed(id) && id[0] != '-' && id[0] != '_'
  {
    U.BodyExactly(id);
    hide U.AllAllowed;
  }

  /** Such an id is a line of text. */
  lemma {:induction false} IdIsText(id: string)
    requires forall i :: 0 <= i < |id| ==> S.DidChar(id[i])
    ensures S.TextOk(id)
  {
    if id == "" {
    } else {
      IdIsText(id[1..]);
      assert id == [id[0]] + id[1..];
    }
  }

  /** A registration is signed exactly when it stores data or files, its id is valid, every admin,
      writer and free reader is a DID, its schema passes, its owner is one line of UTF-8, and an owner
      key grant in a private DataStorage registration is of epoch 0 to the owner, a DID. */
  lemma SignedExactlyWhen(H: Hash, t: Tx, schemaOk: string -> bool)
    ensures Signed(H, t, schemaOk).Ok? <==>
      && (t.mode.DataStorage? || t.mode.FileStorage?)
      && 1 <= |t.identity.subgroveId| <= 64 && U.AllAllowed(t.identity.subgroveId)
      && t.identity.subgroveId[0] != '-' && t.identity.subgroveId[0] != '_'
      && (forall i :: 0 <= i < |t.identity.admins| ==> S.ValidDid(t.identity.admins[i]))
      && (forall i :: 0 <= i < |t.mode.writers| ==> S.ValidDid(t.mode.writers[i]))
      && (forall i :: 0 <= i < |t.mode.freeReaders| ==> S.ValidDid(t.mode.freeReaders[i]))
      && schemaOk(t.identity.schema) && U.OneLine(t.identity.ownerDid)
      && (t.mode.DataStorage? && t.privacy.Some? && t.ownerKeyGrant.Some? ==>
            && t.ownerKeyGrant.value.keyEpoch == 0
            && t.ownerKeyGrant.value.grantee == t.identity.ownerDid && S.ValidDid(t.identity.ownerDid))
  {
    IdExactlyWhen(t.identity.subgroveId);
    if StorageId(t.identity.subgroveId) { IdIsText(t.identity.subgroveId); }
    U.TextOkIsOneLine(t.identity.ownerDid);
    hide PutTx, StorageId, U.AllAllowed, S.ValidDid, S.TextOk, U.OneLine, S.Lines, S.Join;
  }

  /** The message names the transaction's id, owner and nonce, and the hash of its bincode. */
  lemma SignedReadsBack(H: Hash, t: Tx, schemaOk: string -> bool)
    requires Signed(H, t, schemaOk).Ok?
    ensures P.Parse(Signed(H, t, schemaOk).value) ==
            Ok(S.RegisterSubgrove(t.identity.subgroveId, t.identity.ownerDid, H(PutTx(t, [])), t.tail.nonce))
  {
    hide PutTx, StorageOk, S.Formatted, P.Parse;
    P.MessageRoundTrip(S.RegisterSubgrove(t.identity.subgroveId, t.identity.ownerDid, H(PutTx(t, [])), t.tail.nonce));
  }

  /** Two transactions signed have one message exactly when they are one, or their bincodes collide. */
  lemma MessageBindsTheTransaction(H: Hash, schemaOk: string -> bool, t: Tx, u: Tx)
    ensures Signed(H, t, schemaOk).Ok? && Signed(H, u, schemaOk).Ok? ==>
              || (Signed(H, t, schemaOk) == Signed(H, u, schemaOk) <==> t == u)
              || Collide(H, PutTx(t, []), PutTx(u, []))
  {
    hide StorageOk, PutTx, ReadTx, S.Formatted;
    if Signed(H, t, schemaOk).Ok? && Signed(H, u, schemaOk).Ok? {
      TxRoundTrip(t, []);
      TxRoundTrip(u, []);
      var a := S.RegisterSubgrove(t.identity.subgroveId, t.identity.ownerDid, H(PutTx(t, [])), t.tail.nonce);
      var b := S.RegisterSubgrove(u.identity.subgroveId, u.identity.ownerDid, H(PutTx(u, [])), u.tail.nonce);
      if a != b { P.MessagesAreDistinct(a, b); }
    }
  }
}
