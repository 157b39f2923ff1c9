/** walkStateProof and checkStateAnswer of eth_state.go: an account's state and storage slots, read
from an indexer's answer and its Merkle Patricia proofs. */
module EthState {
  import opened Bytes
  import opened Rlp
  import opened Mpt

  /** The answer as the wire carries it: bytes are JSON numbers, of any value. */
  datatype SlotProof = SlotProof(slot: seq<int>, value: seq<int>, nodes: seq<seq<int>>)

  datatype StateProof = StateProof(
    address: seq<int>,
    blockNumber: nat,
    stateRoot: seq<int>,
    nonce: nat,
    balance: seq<int>,
    storageHash: seq<int>,
    codeHash: seq<int>,
    nodes: seq<seq<int>>,
    slots: seq<SlotProof>
  )

  /** intsToBytes: each number is cut to its low eight bits. */
  function Cut(ints: seq<int>): (b: Bytes)
    ensures |b| == |ints|
  {
    seq(|ints|, i requires 0 <= i < |ints| => ints[i] % 256)
  }

  lemma CutKeepsLowBits(ints: seq<int>, i: nat)
    requires i < |ints|
    ensures (ints[i] - Cut(ints)[i]) % 256 == 0
  {
  }

  function CutAll(s: seq<seq<int>>): seq<Bytes> {
    seq(|s|, i requires 0 <= i < |s| => Cut(s[i]))
  }

  /** wireBytes: exactly n numbers, each a byte. */
  function WireBytes(ints: seq<int>, n: nat): (r: Result<Bytes>)
    ensures r.Ok? <==> |ints| == n && forall i :: 0 <= i < n ==> 0 <= ints[i] < 256
    ensures r.Ok? ==> r.value == ints
  {
    if |ints| == n && (forall i :: 0 <= i < n ==> 0 <= ints[i] < 256) then
      assert Cut(ints) == ints;
      Ok(Cut(ints))
    else Err
  }

  // ----- accounts

  datatype EthAccount = EthAccount(nonce: nat, balance: nat, storageRoot: Bytes, codeHash: Bytes) {
    function Members(): seq<Member> {
      [Text(UintToMinBE(nonce)), Text(TrimLeadingZeros(MinBE(balance))), Text(storageRoot), Text(codeHash)]
    }
    /** Its nonce is a u64 and its fields are of lengths RLP can write. */
    predicate Fits() {
      && nonce < TWO64
      && (forall i :: 0 <= i < 4 ==> |Members()[i].bytes| < TWO64)
      && |Concat(Encoded(Members()))| < TWO64
    }
  }

  function EncodeAccount(a: EthAccount): Bytes {
    EncodeList(Encoded(a.Members()))
  }

  lemma AccountDecodes(a: EthAccount)
    requires a.Fits()
    ensures DecodeList(EncodeAccount(a)) == Ok([MinBE(a.nonce), MinBE(a.balance), a.storageRoot, a.codeHash])
  {
    hide DecodeList, EncodeList, EncodeBytes;
    var ms := a.Members();
    ListRoundTrip(ms, []);
    assert EncodeAccount(a) + [] == EncodeAccount(a);
    UintToMinBEIsMinimal(a.nonce);
    MinBEHead(a.balance);
    assert Texts(ms) == [MinBE(a.nonce), MinBE(a.balance), a.storageRoot, a.codeHash];
  }

  /** The encoding determines the account. */
  lemma EncodeAccountInjective(a: EthAccount, b: EthAccount)
    requires a.Fits() && b.Fits() && EncodeAccount(a) == EncodeAccount(b)
    ensures a == b
  {
    AccountDecodes(a);
    AccountDecodes(b);
    var l := [MinBE(a.nonce), MinBE(a.balance), a.storageRoot, a.codeHash];
    assert l == [MinBE(b.nonce), MinBE(b.balance), b.storageRoot, b.codeHash];
    assert l[0] == MinBE(b.nonce) && l[1] == MinBE(b.balance) && l[2] == b.storageRoot && l[3] == b.codeHash;
    MinBEInverts(a.nonce);
    MinBEInverts(b.nonce);
    MinBEInverts(a.balance);
    MinBEInverts(b.balance);
  }

  // ----- walkStateProof

  function Claimed(p: StateProof): EthAccount {
    EthAccount(p.nonce, BE(Cut(p.balance)), Cut(p.storageHash), Cut(p.codeHash))
  }

  /** What an absent account must be claimed as: the empty storage root and code hash may also be
      named as zero hashes. */
  predicate Empty(H: Hash, a: EthAccount) {
    && a.nonce == 0 && a.balance == 0
    && (a.storageRoot == EmptyTrieRoot(H) || a.storageRoot == ZeroHash())
    && (a.codeHash == H([]) || a.codeHash == ZeroHash())
  }

  /** The storage root to walk the slots under, once the account proof is accepted. */
  function AccountPart(H: Hash, p: StateProof): Result<Bytes> {
    var address :- WireBytes(p.address, 20);
    match LookupProof(H, Cut(p.stateRoot), H(address), CutAll(p.nodes))
    case Refused => Err
    case Found(leaf) => if leaf == EncodeAccount(Claimed(p)) then Ok(Cut(p.storageHash)) else Err
    case Absent => if Empty(H, Claimed(p)) then Ok(EmptyTrieRoot(H)) else Err
  }

  function SlotValue(sp: SlotProof): nat { BE(Cut(sp.value)) }

  predicate SlotPart(H: Hash, storageRoot: Bytes, sp: SlotProof) {
    var slot := WireBytes(sp.slot, 32);
    && slot.Ok?
    && match LookupProof(H, storageRoot, H(slot.value), CutAll(sp.nodes))
       case Refused => false
       case Absent => SlotValue(sp) == 0
       case Found(leaf) => SlotValue(sp) != 0 && leaf == EncodeBytes(MinBE(SlotValue(sp)))
  }

  predicate Accepts(H: Hash, p: StateProof) {
    var root := AccountPart(H, p);
    root.Ok? && forall i :: 0 <= i < |p.slots| ==> SlotPart(H, root.value, p.slots[i])
  }

  method WalkAccount(H: Hash, p: StateProof) returns (r: Result<Bytes>)
    ensures r == AccountPart(H, p)
  {
    var address := WireBytes(p.address, 20);
    if address.Err? { return Err; }
    var a := MptLookup(H, Cut(p.stateRoot), H(address.value), CutAll(p.nodes));
    if a.Refused? { return Err; }
    if a.Found? {
      if a.value != EncodeAccount(Claimed(p)) { return Err; }
      r := Ok(Cut(p.storageHash));
    } else {
      if !Empty(H, Claimed(p)) { return Err; }
      r := Ok(EmptyTrieRoot(H));
    }
  }

  method WalkSlot(H: Hash, storageHash: Bytes, sp: SlotProof) returns (ok: bool)
    ensures ok == SlotPart(H, storageHash, sp)
  {
    var slot := WireBytes(sp.slot, 32);
    if slot.Err? { return false; }
    var value := BE(Cut(sp.value));
    var found := MptLookup(H, storageHash, H(slot.value), CutAll(sp.nodes));
    if found.Refused? { return false; }
    if !found.Found? && value != 0 { return false; }
    if found.Found? && value == 0 { return false; }
    if found.Found? && found.value != EncodeBytes(MinBE(value)) { return false; }
    ok := true;
  }

  method WalkStateProof(H: Hash, p: StateProof) returns (ok: bool)
    ensures ok == Accepts(H, p)
  {
    hide AccountPart, SlotPart;
    var storageHash := WalkAccount(H, p);
    if storageHash.Err? { return false; }
    for i := 0 to |p.slots|
      invariant forall j :: 0 <= j < i ==> SlotPart(H, storageHash.value, p.slots[j])
    {
      var good := WalkSlot(H, storageHash.value, p.slots[i]);
      if !good { return false; }
    }
    ok := true;
  }

  // ----- checkStateAnswer

  predicate Answers(p: StateProof, address: Bytes, keys: seq<Bytes>, blockNumber: nat) {
    && |p.balance| <= 32
    && (forall i :: 0 <= i < |p.slots| ==> |p.slots[i].value| <= 32)
    && WireBytes(p.address, 20) == Ok(address)
    && p.blockNumber == blockNumber
    && |p.slots| == |keys|
    && forall i :: 0 <= i < |keys| ==> WireBytes(p.slots[i].slot, 32) == Ok(keys[i])
  }

  method CheckStateAnswer(p: StateProof, address: Bytes, keys: seq<Bytes>, blockNumber: nat) returns (ok: bool)
    ensures ok == Answers(p, address, keys, blockNumber)
  {
    if |p.balance| > 32 { return false; }
    for i := 0 to |p.slots|
      invariant forall j :: 0 <= j < i ==> |p.slots[j].value| <= 32
    {
      if |p.slots[i].value| > 32 { return false; }
    }
    if WireBytes(p.address, 20) != Ok(address) || p.blockNumber != blockNumber || |p.slots| != |keys| { return false; }
    for i := 0 to |p.slots|
      invariant forall j :: 0 <= j < i ==> WireBytes(p.slots[j].slot, 32) == Ok(keys[j])
    {
      if WireBytes(p.slots[i].slot, 32) != Ok(keys[i]) { return false; }
    }
    ok := true;
  }

  // ----- an accepted answer is true

  function KeyPath(H: Hash, key: Bytes): Path { Nibbles(H(key)) }

  /** The account proof holds a node that collides with the state trie's. */
  ghost predicate AccountCollision(H: Hash, state: Trie, p: StateProof) {
    WireBytes(p.address, 20).Ok? &&
    CollidesWithTrie(H, state, KeyPath(H, WireBytes(p.address, 20).value), Shown(CutAll(p.nodes)))
  }

  ghost predicate SlotCollision(H: Hash, storage: Trie, sp: SlotProof) {
    WireBytes(sp.slot, 32).Ok? &&
    CollidesWithTrie(H, storage, KeyPath(H, WireBytes(sp.slot, 32).value), Shown(CutAll(sp.nodes)))
  }

  /** What the answer says of an absent account: nothing, its storage and code named by the hashes of
      nothing, or by zeros. */
  predicate SaysEmpty(H: Hash, p: StateProof) {
    && p.nonce == 0 && BE(Cut(p.balance)) == 0
    && (Cut(p.storageHash) == H([0x80]) || Cut(p.storageHash) == Repeat(0, 32))
    && (Cut(p.codeHash) == H([]) || Cut(p.codeHash) == Repeat(0, 32))
  }

  /** The four fields the answer says of an account, as RLP carries them. */
  function SaidFields(p: StateProof): seq<Bytes> {
    [MinBE(p.nonce), MinBE(BE(Cut(p.balance))), Cut(p.storageHash), Cut(p.codeHash)]
  }

  lemma EmptyIsSaid(H: Hash, p: StateProof)
    ensures Empty(H, Claimed(p)) <==> SaysEmpty(H, p)
  {
    hide BE, Cut, Repeat;
  }

  lemma AccountLeaf(H: Hash, state: Trie, p: StateProof)
    requires WellFormed(H, state) && Cut(p.stateRoot) == Root(H, state) && AccountPart(H, p).Ok?
    ensures AccountCollision(H, state, p) ||
            match Get(state, KeyPath(H, WireBytes(p.address, 20).value))
            case None => SaysEmpty(H, p) && AccountPart(H, p) == Ok(H([0x80]))
            case Some(leaf) => leaf == EncodeAccount(Claimed(p)) && AccountPart(H, p) == Ok(Cut(p.storageHash))
  {
    LookupAnswersTheTrie(H, state, H(WireBytes(p.address, 20).value), CutAll(p.nodes));
    EmptyIsSaid(H, p);
    hide WellFormed, LookupProof, CollidesWithTrie, EncodeAccount, WireBytes, Cut, CutAll, BE, Empty, SaysEmpty, Claimed;
  }

  /** Every claimed account field is the state trie's, and an account it does not hold is claimed
      empty; or the proof names a collision. */
  lemma AccountIsTrue(H: Hash, state: Trie, p: StateProof, a: EthAccount)
    requires WellFormed(H, state) && Cut(p.stateRoot) == Root(H, state) && AccountPart(H, p).Ok?
    requires Claimed(p).Fits() && a.Fits()
    ensures AccountCollision(H, state, p) ||
            match Get(state, KeyPath(H, WireBytes(p.address, 20).value))
            case None => SaysEmpty(H, p) && AccountPart(H, p) == Ok(H([0x80]))
            case Some(leaf) =>
              && DecodeList(leaf) == Ok(SaidFields(p)) && AccountPart(H, p) == Ok(Cut(p.storageHash))
              && leaf == EncodeAccount(Claimed(p)) && (leaf == EncodeAccount(a) ==> a == Claimed(p))
  {
    AccountLeaf(H, state, p);
    AccountDecodes(Claimed(p));
    hide AccountCollision, AccountPart, SaysEmpty, WellFormed, DecodeList, EncodeAccount;
    if EncodeAccount(a) == EncodeAccount(Claimed(p)) {
      EncodeAccountInjective(a, Claimed(p));
    }
  }

  /** A claimed slot value is the storage trie's, and a slot it does not hold is claimed zero. */
  lemma SlotIsTrue(H: Hash, storage: Trie, sp: SlotProof, v: nat)
    requires WellFormed(H, storage) && SlotPart(H, Root(H, storage), sp)
    requires |MinBE(v)| < TWO64 && |MinBE(SlotValue(sp))| < TWO64
    ensures SlotCollision(H, storage, sp) ||
            match Get(storage, KeyPath(H, WireBytes(sp.slot, 32).value))
            case None => SlotValue(sp) == 0
            case Some(leaf) =>
              && SlotValue(sp) != 0 && leaf == EncodeBytes(MinBE(SlotValue(sp)))
              && (leaf == EncodeBytes(MinBE(v)) ==> v == SlotValue(sp))
  {
    var slot := WireBytes(sp.slot, 32).value;
    LookupAnswersTheTrie(H, storage, H(slot), CutAll(sp.nodes));
    if EncodeBytes(MinBE(v)) == EncodeBytes(MinBE(SlotValue(sp))) {
      EncodeBytesInjective(MinBE(v), MinBE(SlotValue(sp)));
      MinBEInverts(v);
      MinBEInverts(SlotValue(sp));
    }
  }

  /** The storage trie of the account at a path: that of its storage root, or none. */
  ghost predicate StorageOf(H: Hash, state: Trie, path: Path, storage: Trie) {
    match Get(state, path)
    case None => storage == Nil
    case Some(leaf) =>
      forall a: EthAccount :: a.Fits() && leaf == EncodeAccount(a) ==> a.storageRoot == Root(H, storage)
  }

  /** An answer that is about the address, block and slots asked for, and whose proofs walk, states
      for every slot asked for the value that address's storage holds under the answer's state
      root, absent slots and accounts reading as zero; or it names a collision. Both proofs are
      chosen by the prover; the tries are any with those roots. */
  lemma StateReadIsTrue(H: Hash, state: Trie, storage: Trie, p: StateProof,
                        address: Bytes, keys: seq<Bytes>, blockNumber: nat, i: nat, v: nat)
    requires Answers(p, address, keys, blockNumber) && Accepts(H, p)
    requires WellFormed(H, state) && Cut(p.stateRoot) == Root(H, state)
    requires WellFormed(H, storage) && StorageOf(H, state, KeyPath(H, address), storage)
    requires Claimed(p).Fits() && i < |keys| && |MinBE(v)| < TWO64
    ensures AccountCollision(H, state, p) || SlotCollision(H, storage, p.slots[i]) ||
            match Get(storage, KeyPath(H, keys[i]))
            case None => SlotValue(p.slots[i]) == 0
            case Some(leaf) =>
              && SlotValue(p.slots[i]) != 0 && leaf == EncodeBytes(MinBE(SlotValue(p.slots[i])))
              && (leaf == EncodeBytes(MinBE(v)) ==> SlotValue(p.slots[i]) == v)
  {
    AccountIsTrue(H, state, p, Claimed(p));
    if !AccountCollision(H, state, p) {
      assert AccountPart(H, p) == Ok(Root(H, storage));
      assert SlotPart(H, Root(H, storage), p.slots[i]);
      WordFits(p.slots[i].value);
      SlotIsTrue(H, storage, p.slots[i], v);
    }
  }

  /** A word of at most 32 bytes is far below any length limit. */
  lemma WordFits(ints: seq<int>)
    requires |ints| <= 32
    ensures |MinBE(BE(Cut(ints)))| <= 32
  {
    BEBound(Cut(ints));
    PowMonotone(|ints|, 32);
    MinBELength(BE(Cut(ints)), 32);
  }

  // ----- a true answer with honest proofs is accepted

  /** What the answer says of the account is what the state trie holds. */
  ghost predicate TrueAccount(H: Hash, state: Trie, p: StateProof) {
    && WireBytes(p.address, 20).Ok?
    && match Get(state, KeyPath(H, WireBytes(p.address, 20).value))
       case None => SaysEmpty(H, p)
       case Some(leaf) =>
         leaf == EncodeAccount(EthAccount(p.nonce, BE(Cut(p.balance)), Cut(p.storageHash), Cut(p.codeHash)))
  }

  ghost predicate TrueSlot(H: Hash, storage: Trie, sp: SlotProof) {
    && WireBytes(sp.slot, 32).Ok?
    && match Get(storage, KeyPath(H, WireBytes(sp.slot, 32).value))
       case None => BE(Cut(sp.value)) == 0
       case Some(leaf) => BE(Cut(sp.value)) != 0 && leaf == EncodeBytes(MinBE(BE(Cut(sp.value))))
  }

  /** The nodes are the trie's own along the path of a key, and it holds none in whole there. */
  ghost predicate HonestNodes(H: Hash, t: Trie, key: Bytes, nodes: seq<seq<int>>) {
    && WellFormed(H, t) && HashReferenced(H, t, KeyPath(H, key))
    && CutAll(nodes) == Prove(H, t, KeyPath(H, key))
  }

  lemma TrueAccountIsAccepted(H: Hash, state: Trie, p: StateProof)
    requires Cut(p.stateRoot) == Root(H, state) && TrueAccount(H, state, p)
    requires HonestNodes(H, state, WireBytes(p.address, 20).value, p.nodes)
    ensures AccountPart(H, p) ==
            Ok(if Get(state, KeyPath(H, WireBytes(p.address, 20).value)).None? then H([0x80]) else Cut(p.storageHash))
  {
    HonestProofIsAccepted(H, state, H(WireBytes(p.address, 20).value));
    hide WellFormed, HashReferenced, LookupProof, Prove, Root;
  }

  lemma TrueSlotIsAccepted(H: Hash, storage: Trie, sp: SlotProof)
    requires TrueSlot(H, storage, sp) && HonestNodes(H, storage, WireBytes(sp.slot, 32).value, sp.nodes)
    ensures SlotPart(H, Root(H, storage), sp)
  {
    HonestProofIsAccepted(H, storage, H(WireBytes(sp.slot, 32).value));
    hide WellFormed, HashReferenced, LookupProof, Prove, Root;
  }

  /** An answer that is true of the state trie, and of the storage trie of its account, is accepted
      with the tries' own proofs. */
  lemma TrueAnswerIsAccepted(H: Hash, state: Trie, storage: Trie, p: StateProof)
    requires Cut(p.stateRoot) == Root(H, state) && TrueAccount(H, state, p)
    requires HonestNodes(H, state, WireBytes(p.address, 20).value, p.nodes)
    requires Root(H, storage) ==
             if Get(state, KeyPath(H, WireBytes(p.address, 20).value)).None? then H([0x80]) else Cut(p.storageHash)
    requires forall i :: 0 <= i < |p.slots| ==>
               && TrueSlot(H, storage, p.slots[i])
               && HonestNodes(H, storage, WireBytes(p.slots[i].slot, 32).value, p.slots[i].nodes)
    ensures Accepts(H, p)
  {
    hide TrueAccount, TrueSlot, HonestNodes, AccountPart, SlotPart, Root;
    TrueAccountIsAccepted(H, state, p);
    forall i | 0 <= i < |p.slots| ensures SlotPart(H, Root(H, storage), p.slots[i]) {
      assert TrueSlot(H, storage, p.slots[i]);
      TrueSlotIsAccepted(H, storage, p.slots[i]);
    }
  }

  /** The answer is accepted as one to the request exactly if it names the address, the block and the
      slots asked for, in order, and no number in it is longer than a word. */
  lemma AnswersExactlyWhen(p: StateProof, address: Bytes, keys: seq<Bytes>, blockNumber: nat)
    requires |address| == 20 && forall i :: 0 <= i < |keys| ==> |keys[i]| == 32
    ensures Answers(p, address, keys, blockNumber) <==>
      && p.address == address && p.blockNumber == blockNumber && |p.balance| <= 32
      && |p.slots| == |keys|
      && forall i :: 0 <= i < |keys| ==> p.slots[i].slot == keys[i] && |p.slots[i].value| <= 32
  {
  }
}
