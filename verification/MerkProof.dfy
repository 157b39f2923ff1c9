/** ExecuteMerkProof of grovedb/verifier.go: the decoder's in-place reading, the stack machine, and
what it computes from the operations of a proof tree. */
module MerkProof {
  import opened Bytes
  import opened Merk

  // ----- the decoder

  class MerkDecoder {
    const data: Bytes
    var offset: nat

    ghost predicate Valid() reads this { offset <= |data| }

    ghost function Left(): Bytes
      requires Valid()
      reads this
    {
      data[offset..]
    }

    constructor (bytes: Bytes)
      ensures Valid() && Left() == bytes
    {
      data := bytes;
      offset := 0;
    }

    predicate HasMore() reads this { offset < |data| }

    method ReadBytes(n: nat) returns (r: Result<Bytes>)
      requires Valid()
      modifies this
      ensures Valid() && Reads(Take(old(Left()), n), r, Left())
    {
      if offset + n > |data| { return Err; }
      assert data[offset..][..n] == data[offset..offset + n];
      r := Ok(data[offset..offset + n]);
      offset := offset + n;
    }

    method ReadValueLen(large: bool) returns (r: Result<nat>)
      requires Valid()
      modifies this
      ensures Valid() && Reads(ReadLength(old(Left()), large), r, Left())
    {
      var width := if large then 4 else 2;
      var bytes := ReadBytes(width);
      if bytes.Err? { return Err; }
      var v := BE(bytes.value);
      if large && v < LARGE_VALUE_THRESHOLD { return Err; }
      if large && v > MAX_VALUE_LEN { return Err; }
      r := Ok(v);
    }

    method ReadKeyBytes() returns (r: Result<Bytes>)
      requires Valid()
      modifies this
      ensures Valid() && Reads(ReadKey(old(Left())), r, Left())
    {
      if offset >= |data| { return Err; }
      var keyLen := data[offset];
      offset := offset + 1;
      r := ReadBytes(keyLen);
    }

    method ReadValueBytes(large: bool) returns (r: Result<Bytes>)
      requires Valid()
      modifies this
      ensures Valid() && Reads(ReadValue(old(Left()), large), r, Left())
    {
      hide Take, ReadLength;
      var n := ReadValueLen(large);
      if n.Err? { return Err; }
      r := ReadBytes(n.value);
    }

    method DecodeEntry(large: bool) returns (r: Result<Entry>)
      requires Valid()
      modifies this
      ensures Valid() && Reads(ReadEntry(old(Left()), large), r, Left())
    {
      hide ReadKey, ReadValue, Take;
      var key := ReadKeyBytes();
      if key.Err? { return Err; }
      var value := ReadValueBytes(large);
      if value.Err? { return Err; }
      var h := ReadBytes(32);
      if h.Err? { return Err; }
      r := Ok(Entry(key.value, value.value, h.value));
    }

    method DecodeNode(kind: Kind, large: bool) returns (r: Result<MerkNode>)
      requires Valid()
      modifies this
      ensures Valid() && Reads(ReadNode(kind, large, old(Left())), r, Left())
    {
      hide ReadKey, ReadValue, ReadEntry;
      match kind {
        case HashKind =>
          var h := ReadBytes(32);
          r := if h.Err? then Err else Ok(HashNode(h.value));
        case KVHashKind =>
          var h := ReadBytes(32);
          r := if h.Err? then Err else Ok(KVHash(h.value));
        case KVDigestKind =>
          var key := ReadKeyBytes();
          if key.Err? { return Err; }
          var h := ReadBytes(32);
          r := if h.Err? then Err else Ok(KVDigest(key.value, h.value));
        case KVKind =>
          var key := ReadKeyBytes();
          if key.Err? { return Err; }
          var value := ReadValueBytes(large);
          r := if value.Err? then Err else Ok(KV(key.value, value.value));
        case KVValueHashKind =>
          var e := DecodeEntry(large);
          r := if e.Err? then Err else Ok(KVValueHash(e.value.key, e.value.value, e.value.valueHash));
        case KVRefKind =>
          var e := DecodeEntry(large);
          r := if e.Err? then Err else Ok(KVRefValueHash(e.value.key, e.value.value, e.value.valueHash));
      }
    }

    /** Next: no operation where the data ends. */
    method Next() returns (r: Result<Option<Op>>)
      requires Valid()
      modifies this
      ensures Valid()
      ensures old(Left()) == [] ==> r == Ok(None) && Left() == []
      ensures old(Left()) != [] ==>
        r != Ok(None) && Reads(DecodeOp(old(Left())), if r.Ok? then Ok(r.value.value) else Err, Left())
    {
      hide ReadNode, CodeOf;
      if !HasMore() { return Ok(None); }
      var code := CodeOf(data[offset]);
      offset := offset + 1;
      match code {
        case NoCode => r := Err;
        case TreeCode(op) => r := Ok(Some(op));
        case PushCode(kind, inverted, large) =>
          var node := DecodeNode(kind, large);
          if node.Err? { return Err; }
          r := Ok(Some(if inverted then PushInverted(node.value) else Push(node.value)));
      }
    }
  }

  // ----- the machine

  datatype Tree = Tree(node: MerkNode, left: Option<Tree>, right: Option<Tree>, leftHeight: nat, rightHeight: nat) {
    function Height(): nat {
      if leftHeight > rightHeight then leftHeight + 1 else rightHeight + 1
    }
  }

  function KvHash(H: Hash, n: MerkNode): Digest
    requires !n.HashNode?
  {
    match n
    case KVHash(h) => h
    case KV(k, v) => H(k + H(v))
    case KVValueHash(k, _, h) => H(k + h)
    case KVDigest(k, h) => H(k + h)
    case KVRefValueHash(k, _, h) => H(k + h)
  }

  function CombineNode(H: Hash, n: MerkNode, left: Digest, right: Digest): Digest {
    if n.HashNode? then n.hash else H(KvHash(H, n) + left + right)
  }

  /** Tree.Hash: a hash node answers its own hash, whatever is attached under it. */
  function TreeHash(H: Hash, t: Tree): Digest {
    CombineNode(H, t.node,
      if t.left.Some? then TreeHash(H, t.left.value) else ZeroHash(),
      if t.right.Some? then TreeHash(H, t.right.value) else ZeroHash())
  }

  function IntoHash(H: Hash, t: Tree): Tree {
    Tree(HashNode(TreeHash(H, t)), None, None, t.leftHeight, t.rightHeight)
  }

  function Attach(H: Hash, parent: Tree, isLeft: bool, child: Tree): Tree {
    if isLeft then parent.(left := Some(IntoHash(H, child)), leftHeight := child.Height())
    else parent.(right := Some(IntoHash(H, child)), rightHeight := child.Height())
  }

  datatype Proved = Proved(key: Bytes, value: Option<Bytes>, proofHash: Digest)

  function ProvedBy(H: Hash, n: MerkNode): seq<Proved> {
    match n
    case KV(k, v) => [Proved(k, Some(v), H(v))]
    case KVValueHash(k, v, h) => [Proved(k, Some(v), h)]
    case KVRefValueHash(k, v, h) => [Proved(k, Some(v), h)]
    case KVDigest(k, h) => [Proved(k, None, h)]
    case _ => []
  }

  datatype State = State(stack: seq<Tree>, results: seq<Proved>)

  function Exec(H: Hash, s: State, op: Op): Result<State> {
    var n := |s.stack|;
    match op
    case Push(node) => Ok(State(s.stack + [Tree(node, None, None, 0, 0)], s.results + ProvedBy(H, node)))
    case PushInverted(node) => Ok(State(s.stack + [Tree(node, None, None, 0, 0)], s.results + ProvedBy(H, node)))
    case Parent =>
      if n < 2 then Err
      else Ok(s.(stack := s.stack[..n - 2] + [Attach(H, s.stack[n - 1], true, s.stack[n - 2])]))
    case Child =>
      if n < 2 then Err
      else Ok(s.(stack := s.stack[..n - 2] + [Attach(H, s.stack[n - 2], false, s.stack[n - 1])]))
    case ParentInverted =>
      if n < 2 then Err
      else Ok(s.(stack := s.stack[..n - 2] + [Attach(H, s.stack[n - 1], false, s.stack[n - 2])]))
    case ChildInverted =>
      if n < 2 then Err
      else Ok(s.(stack := s.stack[..n - 2] + [Attach(H, s.stack[n - 2], true, s.stack[n - 1])]))
  }

  function Run(H: Hash, s: State, b: Bytes): Result<State>
    decreases |b|
  {
    if b == [] then Ok(s)
    else
      var op :- DecodeOp(b);
      var next :- Exec(H, s, op.value);
      Run(H, next, op.rest)
  }

  datatype Execution = Execution(rootHash: Digest, results: seq<Proved>)

  /** One tree must be left, whose two sides differ in height by at most one. */
  function Finish(H: Hash, s: State): Result<Execution> {
    if |s.stack| != 1 then Err
    else
      var t := s.stack[0];
      if t.leftHeight > t.rightHeight + 1 || t.rightHeight > t.leftHeight + 1 then Err
      else Ok(Execution(TreeHash(H, t), s.results))
  }

  function Execute(H: Hash, b: Bytes): Result<Execution> {
    var s :- Run(H, State([], []), b);
    Finish(H, s)
  }

  method ExecuteMerkProof(H: Hash, bytes: Bytes) returns (r: Result<Execution>)
    ensures r == Execute(H, bytes)
  {
    hide DecodeOp, Exec, Finish;
    var decoder := new MerkDecoder(bytes);
    var s := State([], []);
    while decoder.HasMore()
      invariant decoder.Valid()
      invariant Run(H, State([], []), bytes) == Run(H, s, decoder.Left())
      decreases |decoder.data| - decoder.offset
    {
      var op := decoder.Next();
      if op.Err? { return Err; }
      var next := Exec(H, s, op.value.value);
      if next.Err? { return Err; }
      s := next.value;
    }
    r := Finish(H, s);
  }

  // ----- proof trees

  /** A tree whose operations make a proof. */
  datatype ProofTree = Empty | Node(node: MerkNode, left: ProofTree, right: ProofTree)

  predicate Fits(t: ProofTree) {
    t.Node? ==> t.node.Fits() && Fits(t.left) && Fits(t.right)
  }

  /** The operations of a tree: left to right, or inverted, right to left. */
  function Ops(t: ProofTree, inverted: bool): seq<Op> {
    match t
    case Empty => []
    case Node(n, l, r) =>
      if !inverted then
        Ops(l, false) + ([Push(n)] +
          ((if l.Node? then [Parent] else []) + (Ops(r, false) + if r.Node? then [Child] else [])))
      else
        Ops(r, true) + ([PushInverted(n)] +
          ((if r.Node? then [ParentInverted] else []) + (Ops(l, true) + if l.Node? then [ChildInverted] else [])))
  }

  // The tree computed recursively.

  function Height(t: ProofTree): nat {
    match t
    case Empty => 0
    case Node(_, l, r) => 1 + if Height(l) > Height(r) then Height(l) else Height(r)
  }

  /** The hash of a node over its children's hashes, with its bytes spelled out for each kind. */
  function NodeRoot(H: Hash, n: MerkNode, left: Digest, right: Digest): Digest {
    match n
    case HashNode(hash) => hash
    case KVHash(kvHash) => H(kvHash + (left + right))
    case KV(key, value) => H(H(key + H(value)) + (left + right))
    case KVValueHash(key, _, valueHash) => H(H(key + valueHash) + (left + right))
    case KVDigest(key, valueHash) => H(H(key + valueHash) + (left + right))
    case KVRefValueHash(key, _, valueHash) => H(H(key + valueHash) + (left + right))
  }

  /** A missing child hashes to thirty-two zero bytes. */
  function Root(H: Hash, t: ProofTree): Digest {
    match t
    case Empty => Repeat(0, 32)
    case Node(n, l, r) => NodeRoot(H, n, Root(H, l), Root(H, r))
  }

  /** What a node proves: its key, its value if it carries one, and the value's hash. */
  function Proves(H: Hash, n: MerkNode): seq<Proved> {
    match n
    case HashNode(_) => []
    case KVHash(_) => []
    case KV(key, value) => [Proved(key, Some(value), H(value))]
    case KVValueHash(key, value, valueHash) => [Proved(key, Some(value), valueHash)]
    case KVDigest(key, valueHash) => [Proved(key, None, valueHash)]
    case KVRefValueHash(key, value, valueHash) => [Proved(key, Some(value), valueHash)]
  }

  function InOrder(H: Hash, t: ProofTree): seq<Proved> {
    match t
    case Empty => []
    case Node(n, l, r) => InOrder(H, l) + (Proves(H, n) + InOrder(H, r))
  }

  /** The machine hashes and collects as the specification says. */
  lemma CombineIsNodeRoot(H: Hash, n: MerkNode, left: Digest, right: Digest)
    ensures CombineNode(H, n, left, right) == NodeRoot(H, n, left, right)
  {
    if !n.HashNode? { Assoc(KvHash(H, n), left, right); }
  }

  lemma ProvedIsProves(H: Hash, n: MerkNode)
    ensures ProvedBy(H, n) == Proves(H, n)
  {
  }

  function Results(H: Hash, t: ProofTree, inverted: bool): seq<Proved> {
    if inverted then Reversed(InOrder(H, t)) else InOrder(H, t)
  }

  /** What the machine holds for a tree: its node, with each child collapsed to its hash. */
  function Built(H: Hash, t: ProofTree): Tree
    requires t.Node?
  {
    Tree(t.node, Collapsed(H, t.left), Collapsed(H, t.right), Height(t.left), Height(t.right))
  }

  function Collapsed(H: Hash, t: ProofTree): Option<Tree> {
    match t
    case Empty => None
    case Node(_, l, r) => Some(Tree(HashNode(Root(H, t)), None, None, Height(l), Height(r)))
  }

  lemma BuiltHash(H: Hash, t: ProofTree)
    requires t.Node?
    ensures TreeHash(H, Built(H, t)) == Root(H, t)
    ensures Built(H, t).Height() == Height(t) && Some(IntoHash(H, Built(H, t))) == Collapsed(H, t)
  {
    assert t.left.Node? ==> TreeHash(H, Collapsed(H, t.left).value) == Root(H, t.left);
    assert t.right.Node? ==> TreeHash(H, Collapsed(H, t.right).value) == Root(H, t.right);
    CombineIsNodeRoot(H, t.node, Root(H, t.left), Root(H, t.right));
    hide CombineNode, NodeRoot;
  }

  // ----- running a list of operations

  function RunOps(H: Hash, s: State, ops: seq<Op>): Result<State>
    decreases |ops|
  {
    if ops == [] then Ok(s)
    else
      var next :- Exec(H, s, ops[0]);
      RunOps(H, next, ops[1..])
  }

  lemma {:induction false} RunOpsConcat(H: Hash, s: State, a: seq<Op>, b: seq<Op>)
    ensures RunOps(H, s, a + b) == match RunOps(H, s, a) case Ok(m) => RunOps(H, m, b) case Err => Err
    decreases |a|
  {
    hide Exec;
    if a == [] {
      assert a + b == b;
    } else {
      assert (a + b)[0] == a[0] && (a + b)[1..] == a[1..] + b;
      match Exec(H, s, a[0]) {
        case Ok(m) => RunOpsConcat(H, m, a[1..], b);
        case Err =>
      }
    }
  }

  /** The bytes of encoded operations run as the operations do. */
  lemma {:induction false} RunEncoded(H: Hash, s: State, ops: seq<Op>)
    requires forall i :: 0 <= i < |ops| ==> FitsOp(ops[i])
    ensures Run(H, s, EncodeOps(ops)) == RunOps(H, s, ops)
    decreases |ops|
  {
    hide Exec, DecodeOp, EncodeOp, FitsOp;
    if ops == [] {
    } else {
      OpRoundTrip(ops[0], EncodeOps(ops[1..]));
      assert EncodeOps(ops) != [] by { OpIsNotEmpty(ops[0]); }
      match Exec(H, s, ops[0]) {
        case Ok(m) => RunEncoded(H, m, ops[1..]);
        case Err =>
      }
    }
  }

  lemma OpIsNotEmpty(op: Op)
    ensures EncodeOp(op) != []
  {
  }

  // ----- when operations run

  /** How deep operations leave a stack of depth d, unless one of them needs more than is there. */
  function Depth(d: nat, ops: seq<Op>): Option<nat>
    decreases |ops|
  {
    if ops == [] then Some(d)
    else if ops[0].Push? || ops[0].PushInverted? then Depth(d + 1, ops[1..])
    else if d < 2 then None
    else Depth(d - 1, ops[1..])
  }

  /** Operations run exactly when none finds the stack too short. */
  lemma {:induction false} RunsExactlyWhen(H: Hash, s: State, ops: seq<Op>)
    ensures match RunOps(H, s, ops)
            case Ok(m) => Depth(|s.stack|, ops) == Some(|m.stack|)
            case Err => Depth(|s.stack|, ops) == None
    decreases |ops|
  {
    hide Attach, ProvedBy;
    if ops == [] {
    } else if Exec(H, s, ops[0]).Ok? {
      RunsExactlyWhen(H, Exec(H, s, ops[0]).value, ops[1..]);
    }
  }

  /** The operations bytes hold. */
  function Decoded(b: Bytes): Result<seq<Op>>
    decreases |b|
  {
    if b == [] then Ok([])
    else
      var op :- DecodeOp(b);
      var ops :- Decoded(op.rest);
      Ok([op.value] + ops)
  }

  lemma {:induction false} RunIsRunOps(H: Hash, s: State, b: Bytes)
    ensures Run(H, s, b) == if Decoded(b).Ok? then RunOps(H, s, Decoded(b).value) else Err
    decreases |b|
  {
    hide DecodeOp, Exec;
    if b == [] {
    } else if DecodeOp(b).Ok? && Exec(H, s, DecodeOp(b).value.value).Ok? {
      RunIsRunOps(H, Exec(H, s, DecodeOp(b).value.value).value, DecodeOp(b).value.rest);
    }
  }

  predicate LeavesBalanced(H: Hash, ops: seq<Op>) {
    var end := RunOps(H, State([], []), ops);
    && end.Ok? && |end.value.stack| == 1
    && var t := end.value.stack[0];
       t.leftHeight <= t.rightHeight + 1 && t.rightHeight <= t.leftHeight + 1
  }

  /** A proof, whatever its bytes, is executed exactly when they are operations that never find the
      stack too short, leave one tree, and that tree's two sides differ in height by at most one. */
  lemma ExecutesExactlyWhen(H: Hash, b: Bytes)
    ensures Execute(H, b).Ok? <==>
      Decoded(b).Ok? && Depth(0, Decoded(b).value) == Some(1) && LeavesBalanced(H, Decoded(b).value)
  {
    RunIsRunOps(H, State([], []), b);
    if Decoded(b).Ok? { RunsExactlyWhen(H, State([], []), Decoded(b).value); }
    hide Run, RunOps, Decoded, Depth;
  }

  // ----- the machine builds the tree

  /** The state with a tree's operations run on it. */
  function After(H: Hash, s: State, t: ProofTree, inverted: bool): State {
    match t
    case Empty => s
    case Node(_, _, _) => State(s.stack + [Built(H, t)], s.results + Results(H, t, inverted))
  }

  lemma RunOne(H: Hash, s: State, op: Op)
    ensures RunOps(H, s, [op]) == Exec(H, s, op)
  {
    hide Exec;
    match Exec(H, s, op) {
      case Ok(m) => assert RunOps(H, m, [op][1..]) == Ok(m);
      case Err =>
    }
  }

  /** Attaching the tree below the top of the stack to the top, as parent and child operations do. */
  lemma AttachBelow(H: Hash, s: State, t: ProofTree, top: Tree, inverted: bool)
    requires t.Node?
    ensures var m := s.(stack := s.stack + [Built(H, t)] + [top]);
            Exec(H, m, if inverted then ParentInverted else Parent) ==
            Ok(s.(stack := s.stack + [if inverted then top.(right := Collapsed(H, t), rightHeight := Height(t))
                                      else top.(left := Collapsed(H, t), leftHeight := Height(t))]))
  {
    hide TreeHash, Collapsed, Built;
    BuiltHash(H, t);
    var m := s.stack + [Built(H, t)] + [top];
    assert m[..|m| - 2] == s.stack;
  }

  lemma AttachAbove(H: Hash, s: State, top: Tree, t: ProofTree, inverted: bool)
    requires t.Node?
    ensures var m := s.(stack := s.stack + [top] + [Built(H, t)]);
            Exec(H, m, if inverted then ChildInverted else Child) ==
            Ok(s.(stack := s.stack + [if inverted then top.(left := Collapsed(H, t), leftHeight := Height(t))
                                      else top.(right := Collapsed(H, t), rightHeight := Height(t))]))
  {
    hide TreeHash, Collapsed, Built;
    BuiltHash(H, t);
    var m := s.stack + [top] + [Built(H, t)];
    assert m[..|m| - 2] == s.stack;
  }

  /** The node pushed over its first subtree, with that subtree attached. */
  lemma PushOver(H: Hash, s: State, n: MerkNode, first: ProofTree, inverted: bool)
    ensures var push := if inverted then PushInverted(n) else Push(n);
            var attach := if first.Empty? then [] else [if inverted then ParentInverted else Parent];
            var half := if inverted then Tree(n, None, Collapsed(H, first), 0, Height(first))
                        else Tree(n, Collapsed(H, first), None, Height(first), 0);
            RunOps(H, After(H, s, first, inverted), [push] + attach) ==
            Ok(State(s.stack + [half], After(H, s, first, inverted).results + ProvedBy(H, n)))
  {
    hide Built;
    var push := if inverted then PushInverted(n) else Push(n);
    var attach := if first.Empty? then [] else [if inverted then ParentInverted else Parent];
    var a := After(H, s, first, inverted);
    var m := State(a.stack + [Tree(n, None, None, 0, 0)], a.results + ProvedBy(H, n));
    assert Exec(H, a, push) == Ok(m);
    RunOne(H, a, push);
    RunOpsConcat(H, a, [push], attach);
    if first.Node? {
      AttachBelow(H, State(s.stack, m.results), first, Tree(n, None, None, 0, 0), inverted);
      RunOne(H, m, attach[0]);
    }
  }

  /** The second subtree run above the node, and attached to it. */
  lemma AttachSecond(H: Hash, s: State, half: Tree, second: ProofTree, inverted: bool)
    ensures var m := s.(stack := s.stack + [half]);
            var attach := if second.Empty? then [] else [if inverted then ChildInverted else Child];
            var whole := if second.Empty? then half
                         else if inverted then half.(left := Collapsed(H, second), leftHeight := Height(second))
                         else half.(right := Collapsed(H, second), rightHeight := Height(second));
            RunOps(H, After(H, m, second, inverted), attach) ==
            Ok(State(s.stack + [whole], After(H, m, second, inverted).results))
  {
    hide Built, Exec;
    var m := s.(stack := s.stack + [half]);
    if second.Node? {
      var a := After(H, m, second, inverted);
      AttachAbove(H, State(s.stack, a.results), half, second, inverted);
      RunOne(H, a, if inverted then ChildInverted else Child);
    }
  }

  /** Compiler correctness for proofs: the operations of a tree, run on any state, push one item,
      the tree's node with both children collapsed to hashes, and append the tree's results. */
  lemma {:induction false} OpsBuildTheTree(H: Hash, s: State, t: ProofTree, inverted: bool)
    ensures RunOps(H, s, Ops(t, inverted)) == Ok(After(H, s, t, inverted))
    decreases t
  {
    if t.Empty? {
    } else {
      var first, second := First(t, inverted), Second(t, inverted);
      var half := Half(H, t, inverted);
      var m := State(s.stack + [half], After(H, s, first, inverted).results + ProvedBy(H, t.node));
      OpsBuildTheTree(H, s, first, inverted);
      PushOver(H, s, t.node, first, inverted);
      OpsBuildTheTree(H, m, second, inverted);
      AttachSecond(H, State(s.stack, m.results), half, second, inverted);
      WholeIsBuilt(H, s, t, inverted);
      hide Exec, ProvedBy, RunOps, Ops, After;
      OpsSplit(t, inverted);
      RunOpsConcat(H, s, Ops(first, inverted), PushOps(t, inverted) + (Ops(second, inverted) + AttachOps(t, inverted)));
      RunOpsConcat(H, After(H, s, first, inverted), PushOps(t, inverted),
                   Ops(second, inverted) + AttachOps(t, inverted));
      RunOpsConcat(H, m, Ops(second, inverted), AttachOps(t, inverted));
    }
  }

  function First(t: ProofTree, inverted: bool): ProofTree
    requires t.Node?
  {
    if inverted then t.right else t.left
  }

  function Second(t: ProofTree, inverted: bool): ProofTree
    requires t.Node?
  {
    if inverted then t.left else t.right
  }

  /** The push of a node with its first subtree attached. */
  function PushOps(t: ProofTree, inverted: bool): seq<Op>
    requires t.Node?
  {
    [if inverted then PushInverted(t.node) else Push(t.node)] +
    if First(t, inverted).Empty? then [] else [if inverted then ParentInverted else Parent]
  }

  function AttachOps(t: ProofTree, inverted: bool): seq<Op>
    requires t.Node?
  {
    if Second(t, inverted).Empty? then [] else [if inverted then ChildInverted else Child]
  }

  /** The node with its first subtree attached. */
  function Half(H: Hash, t: ProofTree, inverted: bool): Tree
    requires t.Node?
  {
    if inverted then Tree(t.node, None, Collapsed(H, t.right), 0, Height(t.right))
    else Tree(t.node, Collapsed(H, t.left), None, Height(t.left), 0)
  }

  lemma OpsSplit(t: ProofTree, inverted: bool)
    requires t.Node?
    ensures Ops(t, inverted) ==
            Ops(First(t, inverted), inverted) +
            (PushOps(t, inverted) + (Ops(Second(t, inverted), inverted) + AttachOps(t, inverted)))
  {
    var push := [if inverted then PushInverted(t.node) else Push(t.node)];
    var attach := if First(t, inverted).Empty? then [] else [if inverted then ParentInverted else Parent];
    Assoc(push, attach, Ops(Second(t, inverted), inverted) + AttachOps(t, inverted));
  }

  /** The half tree with its second subtree attached is the whole, and so are the results. */
  lemma WholeIsBuilt(H: Hash, s: State, t: ProofTree, inverted: bool)
    requires t.Node?
    ensures var m := State(s.stack, After(H, s, First(t, inverted), inverted).results + ProvedBy(H, t.node));
            var second := Second(t, inverted);
            var half := Half(H, t, inverted);
            var whole := if second.Empty? then half
                         else if inverted then half.(left := Collapsed(H, second), leftHeight := Height(second))
                         else half.(right := Collapsed(H, second), rightHeight := Height(second));
            After(H, s, t, inverted) ==
            State(s.stack + [whole], After(H, m.(stack := m.stack + [half]), second, inverted).results)
  {
    ResultsSplit(H, s, t, inverted);
    ResultsAfter(H, State(s.stack + [Half(H, t, inverted)],
                          After(H, s, First(t, inverted), inverted).results + ProvedBy(H, t.node)),
                 Second(t, inverted), inverted);
    hide ProvedBy, Results;
  }

  /** Running a tree's operations appends its results. */
  lemma ResultsAfter(H: Hash, s: State, t: ProofTree, inverted: bool)
    ensures After(H, s, t, inverted).results == s.results + Results(H, t, inverted)
  {
    if t.Empty? { assert s.results + [] == s.results; }
  }

  /** A tree's results are those of its first subtree, its node, and its second subtree. */
  lemma ResultsOfNode(H: Hash, t: ProofTree, inverted: bool)
    requires t.Node?
    ensures Results(H, t, inverted) ==
            Results(H, First(t, inverted), inverted) + (ProvedBy(H, t.node) + Results(H, Second(t, inverted), inverted))
  {
    ProvedIsProves(H, t.node);
    if inverted {
      var l, n, r := InOrder(H, t.left), ProvedBy(H, t.node), InOrder(H, t.right);
      ReversedConcat(l, n, r);
    }
  }

  lemma ReversedConcat(l: seq<Proved>, n: seq<Proved>, r: seq<Proved>)
    requires |n| <= 1
    ensures Reversed(l + (n + r)) == Reversed(r) + (n + Reversed(l))
  {
  }

  lemma ResultsSplit(H: Hash, s: State, t: ProofTree, inverted: bool)
    requires t.Node?
    ensures After(H, s, t, inverted).results ==
            After(H, s, First(t, inverted), inverted).results + ProvedBy(H, t.node) +
            Results(H, Second(t, inverted), inverted)
  {
    ResultsAfter(H, s, t, inverted);
    ResultsAfter(H, s, First(t, inverted), inverted);
    ResultsOfNode(H, t, inverted);
    hide After, Results, ProvedBy;
    var first, n := Results(H, First(t, inverted), inverted), ProvedBy(H, t.node);
    var second := Results(H, Second(t, inverted), inverted);
    Assoc(s.results, first, n + second);
    Assoc(s.results + first, n, second);
  }

  // ----- the whole execution

  predicate AllFit(ops: seq<Op>) { forall i :: 0 <= i < |ops| ==> FitsOp(ops[i]) }

  lemma AllFitConcat(a: seq<Op>, b: seq<Op>)
    requires AllFit(a) && AllFit(b)
    ensures AllFit(a + b)
  {
  }

  lemma {:induction false} OpsFit(t: ProofTree, inverted: bool)
    requires Fits(t)
    ensures AllFit(Ops(t, inverted))
  {
    if t.Empty? {
    } else {
      var first, second := First(t, inverted), Second(t, inverted);
      OpsFit(first, inverted);
      OpsFit(second, inverted);
      OpsSplit(t, inverted);
      AllFitConcat(Ops(second, inverted), AttachOps(t, inverted));
      AllFitConcat(PushOps(t, inverted), Ops(second, inverted) + AttachOps(t, inverted));
      AllFitConcat(Ops(first, inverted), PushOps(t, inverted) + (Ops(second, inverted) + AttachOps(t, inverted)));
    }
  }

  /** Executing the bytes of any non-empty proof tree, normal or inverted, answers the tree's root
      and its results in key order, or in reverse; it succeeds exactly when the heights of the
      root's two sides differ by at most one. */
  lemma ExecutionComputesTheTree(H: Hash, t: ProofTree, inverted: bool)
    requires t.Node? && Fits(t)
    ensures Execute(H, EncodeOps(Ops(t, inverted))) ==
            if Height(t.left) <= Height(t.right) + 1 && Height(t.right) <= Height(t.left) + 1
            then Ok(Execution(Root(H, t), Results(H, t, inverted)))
            else Err
  {
    hide Exec, Run, RunOps, Ops, EncodeOps, TreeHash, Results;
    var start := State([], []);
    OpsFit(t, inverted);
    RunEncoded(H, start, Ops(t, inverted));
    OpsBuildTheTree(H, start, t, inverted);
    BuiltHash(H, t);
    assert [] + Results(H, t, inverted) == Results(H, t, inverted);
  }
}
