/** The Merkle Patricia proof walk of eth_state.go, against the tries it speaks of (Appendices C
and D of the Ethereum Yellow Paper).

The prover chooses the nodes. What a walk from a root can then answer is settled by the trie
under that root, unless one of the prover's nodes collides, under the hash, with the honest node
at the same place. The hash is a parameter, and the colliding pair is named. */
module Mpt {
  import opened Bytes
  import opened Rlp

  type Nibble = n: nat | n < 16
  type Path = seq<Nibble>

  // ----- nibble paths

  function Nibbles(b: Bytes): (p: Path)
    ensures |p| == 2 * |b|
  {
    seq(2 * |b|, i requires 0 <= i < 2 * |b| => if i % 2 == 0 then b[i / 2] / 16 else b[i / 2] % 16)
  }

  lemma NibblesAt(b: Bytes, i: nat)
    requires i < |b|
    ensures Nibbles(b)[2 * i] == b[i] / 16 && Nibbles(b)[2 * i + 1] == b[i] % 16
  {
  }

  function Pack(p: Path): (b: Bytes)
    requires |p| % 2 == 0
    ensures |b| == |p| / 2
  {
    seq(|p| / 2, i requires 0 <= i < |p| / 2 => Join(p[2 * i], p[2 * i + 1]))
  }

  function Join(hi: Nibble, lo: Nibble): (b: Byte)
    ensures b / 16 == hi && b % 16 == lo
  {
    16 * hi + lo
  }

  lemma NibblesInvertPack(p: Path)
    requires |p| % 2 == 0
    ensures Nibbles(Pack(p)) == p
  {
    var b := Pack(p);
    assert 2 * |b| == |p|;
    forall k | 0 <= k < |p| ensures Nibbles(b)[k] == p[k] {
      PackAt(p, k / 2);
      NibblesAt(b, k / 2);
    }
  }

  lemma PackAt(p: Path, i: nat)
    requires |p| % 2 == 0 && i < |p| / 2
    ensures Pack(p)[i] / 16 == p[2 * i] && Pack(p)[i] % 16 == p[2 * i + 1]
  {
    assert Pack(p)[i] == Join(p[2 * i], p[2 * i + 1]);
  }

  /** The hex-prefix encoding of Appendix C. */
  function HexPrefix(p: Path, leaf: bool): Bytes {
    var flag := if leaf then 2 else 0;
    if |p| % 2 == 0 then [Join(flag, 0)] + Pack(p) else [Join(flag + 1, p[0])] + Pack(p[1..])
  }

  /** decodeCompactPath: any flag of two or more reads as a leaf, and an even path's low nibble is
      not looked at. */
  function CompactPath(encoded: Bytes): (Path, bool) {
    if encoded == [] then ([], false)
    else
      var flag := encoded[0] / 16;
      ((if flag % 2 == 1 then [encoded[0] % 16] else []) + Nibbles(encoded[1..]), flag >= 2)
  }

  /** A path behind a byte of its flag and a low half. */
  lemma FlagReads(flag: Nibble, low: Nibble, rest: Bytes)
    ensures CompactPath([Join(flag, low)] + rest) ==
            ((if flag % 2 == 1 then [low] else []) + Nibbles(rest), flag >= 2)
  {
    hide Join, Nibbles;
    var encoded := [Join(flag, low)] + rest;
    assert encoded[0] == Join(flag, low) && encoded[1..] == rest;
  }

  lemma EvenPathInverts(p: Path, leaf: bool)
    requires |p| % 2 == 0
    ensures CompactPath([Join(if leaf then 2 else 0, 0)] + Pack(p)) == (p, leaf)
  {
    NibblesInvertPack(p);
    FlagReads(if leaf then 2 else 0, 0, Pack(p));
    hide CompactPath, Pack, Nibbles, Join;
    assert [] + p == p;
  }

  lemma OddPathInverts(low: Nibble, tail: Path, leaf: bool)
    requires |tail| % 2 == 0
    ensures CompactPath([Join(if leaf then 3 else 1, low)] + Pack(tail)) == ([low] + tail, leaf)
  {
    NibblesInvertPack(tail);
    FlagReads(if leaf then 3 else 1, low, Pack(tail));
    hide CompactPath, Pack, Nibbles, Join;
  }

  lemma CompactPathInverts(p: Path, leaf: bool)
    ensures CompactPath(HexPrefix(p, leaf)) == (p, leaf)
  {
    hide CompactPath, Pack, Join;
    if |p| % 2 == 0 {
      EvenPathInverts(p, leaf);
    } else {
      var low, tail := p[0], p[1..];
      assert p == [low] + tail;
      OddPathInverts(low, tail, leaf);
    }
  }

  // ----- tries

  /** A trie: a branch has sixteen children, and no value where its value is empty. */
  datatype Trie =
    | Nil
    | Leaf(path: Path, value: Bytes)
    | Ext(path: Path, child: Trie)
    | Branch(kids: seq<Trie>, value: Bytes)

  /** What a trie holds under a path. */
  function Get(t: Trie, path: Path): Option<Bytes>
    decreases t
  {
    match t
    case Nil => None
    case Leaf(p, v) => if p == path then Some(v) else None
    case Ext(p, c) => if p <= path then Get(c, path[|p|..]) else None
    case Branch(kids, v) =>
      if path == [] then (if v == [] then None else Some(v))
      else if path[0] < |kids| then Get(kids[path[0]], path[1..]) else None
  }

  /** A node's bytes. A child whose own bytes are fewer than 32 is put in whole; any other is named
      by its hash. */
  function Node(H: Hash, t: Trie): Bytes
    decreases t, 1
  {
    match t
    case Nil => [0x80]
    case _ => EncodeList(Encoded(Members(H, t)))
  }

  function Members(H: Hash, t: Trie): seq<Member>
    decreases t, 0
  {
    match t
    case Nil => []
    case Leaf(p, v) => [Text(HexPrefix(p, true)), Text(v)]
    case Ext(p, c) => [Text(HexPrefix(p, false)), Reference(c, Node(H, c), H)]
    case Branch(kids, v) =>
      seq(|kids|, i requires 0 <= i < |kids| => Reference(kids[i], Node(H, kids[i]), H)) + [Text(v)]
  }

  function Reference(t: Trie, node: Bytes, H: Hash): Member {
    if t.Nil? then Text([]) else if |node| < 32 then Nested(node) else Text(H(node))
  }

  function Root(H: Hash, t: Trie): Digest { H(Node(H, t)) }

  /** Branches have sixteen children, and every node fits the lengths RLP can write. */
  predicate WellFormed(H: Hash, t: Trie)
    decreases t
  {
    && (forall i :: 0 <= i < |Members(H, t)| && Members(H, t)[i].Text? ==> |Members(H, t)[i].bytes| < TWO64)
    && |Concat(Encoded(Members(H, t)))| < TWO64
    && match t
       case Nil => true
       case Leaf(_, _) => true
       case Ext(_, c) => WellFormed(H, c)
       case Branch(kids, _) => |kids| == 16 && forall i :: 0 <= i < |kids| ==> WellFormed(H, kids[i])
  }

  // ----- the walk

  datatype Answer = Found(value: Bytes) | Absent | Refused

  /** What one decoded node says of the rest of the path. */
  datatype Verdict = Done(answer: Answer) | Descend(ref: Digest, path: Path)

  function Visit(node: Bytes, path: Path): Verdict {
    match DecodeList(node)
    case Err => Done(Refused)
    case Ok(d) =>
      if |d| == 17 then
        if path == [] then Done(if d[16] == [] then Absent else Found(d[16]))
        else
          var next := d[path[0]];
          if next == [] then Done(Absent) else if |next| != 32 then Done(Refused) else Descend(next, path[1..])
      else if |d| == 2 then
        var (p, leaf) := CompactPath(d[0]);
        if !(p <= path) then Done(Absent)
        else if leaf then Done(if |p| == |path| then Found(d[1]) else Absent)
        else if |d[1]| != 32 then Done(Refused) else Descend(d[1], path[|p|..])
      else Done(Refused)
  }

  function Walk(H: Hash, expected: Bytes, path: Path, nodes: seq<Bytes>): Answer
    decreases |nodes|
  {
    if nodes == [] || H(nodes[0]) != expected then Refused
    else
      match Visit(nodes[0], path)
      case Done(a) => a
      case Descend(ref, rest) => Walk(H, ref, rest, nodes[1..])
  }

  const EMPTY_NODE: Bytes := [0x80]

  function EmptyTrieRoot(H: Hash): Digest { H(EMPTY_NODE) }

  function LookupProof(H: Hash, root: Bytes, key: Bytes, nodes: seq<Bytes>): Answer {
    if |root| != 32 || |key| != 32 then Refused
    else if nodes == [] || nodes == [EMPTY_NODE] then
      if root == EmptyTrieRoot(H) then Absent else Refused
    else Walk(H, root, Nibbles(key), nodes)
  }

  /** mptLookup, with its loop over the nodes. */
  method MptLookup(H: Hash, root: Bytes, key: Bytes, nodes: seq<Bytes>) returns (a: Answer)
    ensures a == LookupProof(H, root, key, nodes)
  {
    hide DecodeList, CompactPath, Nibbles;
    if |root| != 32 { return Refused; }
    if |key| != 32 { return Refused; }
    if |nodes| == 0 || (|nodes| == 1 && nodes[0] == EMPTY_NODE) {
      if root == EmptyTrieRoot(H) { return Absent; }
      return Refused;
    }
    var nibs := Nibbles(key);
    var expected, idx := root, 0;
    assert nibs[0..] == nibs && nodes[0..] == nodes;
    for i := 0 to |nodes|
      invariant 0 <= idx <= |nibs|
      invariant Walk(H, root, nibs, nodes) == Walk(H, expected, nibs[idx..], nodes[i..])
    {
      var node := nodes[i];
      ghost var rest := nibs[idx..];
      assert nodes[i..][1..] == nodes[i + 1..];
      if H(node) != expected { return Refused; }
      var decoded := ReadList(node);
      if decoded.Err? { return Refused; }
      var d := decoded.value;
      if |d| == 17 {
        if idx == |nibs| {
          if |d[16]| == 0 { return Absent; }
          return Found(d[16]);
        }
        var next := d[nibs[idx]];
        assert rest[1..] == nibs[idx + 1..];
        idx := idx + 1;
        if |next| == 0 { return Absent; }
        if |next| != 32 { return Refused; }
        expected := next;
      } else if |d| == 2 {
        var (p, leaf) := CompactPath(d[0]);
        var remaining := nibs[idx..];
        if |p| > |remaining| || p != remaining[..|p|] { return Absent; }
        assert rest[|p|..] == nibs[idx + |p|..];
        idx := idx + |p|;
        if leaf {
          if idx != |nibs| { return Absent; }
          return Found(d[1]);
        }
        if |d[1]| != 32 { return Refused; }
        expected := d[1];
      } else {
        return Refused;
      }
    }
    a := Refused;
  }

  // ----- an accepted walk answers what the trie holds

  function AsAnswer(o: Option<Bytes>): Answer {
    match o case None => Absent case Some(v) => Found(v)
  }

  /** The nodes of a trie a path passes through. */
  function Along(t: Trie, path: Path): (ts: seq<Trie>)
    ensures ts != [] && ts[0] == t
    decreases t
  {
    match t
    case Branch(kids, _) =>
      if path != [] && path[0] < |kids| then [t] + Along(kids[path[0]], path[1..]) else [t]
    case Ext(p, c) => if p <= path then [t] + Along(c, path[|p|..]) else [t]
    case _ => [t]
  }

  /** Some node of the proof collides with the trie's node at the same depth of the path. */
  ghost predicate CollidesWithTrie(H: Hash, t: Trie, path: Path, nodes: seq<Bytes>) {
    exists k :: 0 <= k < |nodes| && k < |Along(t, path)| && Collide(H, nodes[k], Node(H, Along(t, path)[k]))
  }

  lemma {:induction false} MembersFit(H: Hash, t: Trie)
    requires WellFormed(H, t)
    ensures forall i :: 0 <= i < |Members(H, t)| ==> Members(H, t)[i].Fits()
  {
    forall i | 0 <= i < |Members(H, t)| && Members(H, t)[i].Nested? ensures Members(H, t)[i].Fits() {
      if t.Ext? {
        NodeIsList(H, t.child);
      } else {
        NodeIsList(H, t.kids[i]);
      }
    }
  }

  lemma NodeIsList(H: Hash, t: Trie)
    requires WellFormed(H, t) && !t.Nil?
    ensures Node(H, t) != [] && Node(H, t)[0] >= 0xc0
  {
    var p := Concat(Encoded(Members(H, t)));
    assert |p| < TWO64 && Node(H, t) == Head(0xc0, |p|) + p;
    ListHead(|p|);
    hide WellFormed, Node, Members, Concat, Encoded, Head;
  }

  /** What a trie's own node decodes to. */
  lemma NodeDecodes(H: Hash, t: Trie)
    requires WellFormed(H, t)
    ensures DecodeList(Node(H, t)) ==
            if !t.Nil? && AllText(Members(H, t)) then Ok(Texts(Members(H, t))) else Err
  {
    if !t.Nil? {
      MembersFit(H, t);
      ListRoundTrip(Members(H, t), []);
      assert Node(H, t) + [] == Node(H, t);
    }
  }

  /** The trie a visited node refers to, and the path left to walk in it. */
  ghost predicate Leads(H: Hash, t: Trie, path: Path, v: Verdict, next: Trie) {
    && v.Descend? && v.ref == Root(H, next) && WellFormed(H, next) && !next.Nil? && next < t
    && Get(t, path) == Get(next, v.path)
    && Along(t, path) == [t] + Along(next, v.path)
  }

  lemma VisitLeaf(H: Hash, t: Trie, path: Path)
    requires WellFormed(H, t) && t.Leaf?
    ensures Visit(Node(H, t), path) == Done(AsAnswer(Get(t, path)))
  {
    NodeDecodes(H, t);
    LeafTexts(H, t);
    CompactPathInverts(t.path, true);
    hide WellFormed, Node, Members, DecodeList, CompactPath, HexPrefix, Texts;
  }

  lemma LeafTexts(H: Hash, t: Trie)
    requires t.Leaf?
    ensures AllText(Members(H, t)) && Texts(Members(H, t)) == [HexPrefix(t.path, true), t.value]
  {
    hide HexPrefix;
  }

  lemma VisitExt(H: Hash, t: Trie, path: Path)
    requires WellFormed(H, t) && t.Ext?
    ensures var v := Visit(Node(H, t), path);
            && (v == Done(Refused) <==> !AllText(Members(H, t)) || (t.path <= path && t.child.Nil?))
            && (v.Descend? <==> AllText(Members(H, t)) && t.path <= path && !t.child.Nil?)
            && (v.Descend? ==> Leads(H, t, path, v, t.child) && v.path == path[|t.path|..])
            && (v.Descend? || v == Done(Refused) || v == Done(AsAnswer(Get(t, path))))
  {
    NodeDecodes(H, t);
    var ms := Members(H, t);
    if AllText(ms) {
      assert |Texts(ms)| == 2 && Texts(ms)[0] == HexPrefix(t.path, false) && Texts(ms)[1] == ms[1].bytes;
      CompactPathInverts(t.path, false);
    }
  }

  lemma VisitBranch(H: Hash, t: Trie, path: Path)
    requires WellFormed(H, t) && t.Branch?
    ensures var v := Visit(Node(H, t), path);
            && (v == Done(Refused) <==> !AllText(Members(H, t)))
            && (v.Descend? <==> AllText(Members(H, t)) && path != [] && !t.kids[path[0]].Nil?)
            && (v.Descend? ==> Leads(H, t, path, v, t.kids[path[0]]) && v.path == path[1..])
            && (v.Descend? || v == Done(Refused) || v == Done(AsAnswer(Get(t, path))))
  {
    hide DecodeList, CompactPath, EncodeList, Encoded;
    NodeDecodes(H, t);
    var ms := Members(H, t);
    assert |ms| == 17 && ms[16] == Text(t.value);
    assert forall i :: 0 <= i < 16 ==> ms[i] == Reference(t.kids[i], Node(H, t.kids[i]), H);
    if AllText(ms) && path != [] {
      var kid := t.kids[path[0]];
      assert Texts(ms)[path[0]] == Reference(kid, Node(H, kid), H).bytes;
    }
  }

  /** The walk from the root of a trie: any accepted answer is what the trie holds, or the proof
      holds a node that collides with the trie's. */
  lemma {:induction false} WalkAnswersTheTrie(H: Hash, t: Trie, path: Path, nodes: seq<Bytes>)
    requires WellFormed(H, t)
    ensures var a := Walk(H, Root(H, t), path, nodes);
            a.Refused? || a == AsAnswer(Get(t, path)) || CollidesWithTrie(H, t, path, nodes)
    decreases t, 0
  {
    if nodes == [] || H(nodes[0]) != Root(H, t) {
    } else if nodes[0] != Node(H, t) {
      assert Collide(H, nodes[0], Node(H, Along(t, path)[0]));
    } else if t.Nil? {
      NodeDecodes(H, t);
    } else {
      match t {
        case Leaf(_, _) => VisitLeaf(H, t, path);
        case Ext(_, c) =>
          VisitExt(H, t, path);
          if Visit(nodes[0], path).Descend? { DescendInto(H, t, path, nodes, c); }
        case Branch(kids, _) =>
          VisitBranch(H, t, path);
          if Visit(nodes[0], path).Descend? { DescendInto(H, t, path, nodes, kids[path[0]]); }
      }
    }
  }

  lemma CollisionBelow(H: Hash, t: Trie, path: Path, nodes: seq<Bytes>, next: Trie, rest: Path)
    requires nodes != [] && Along(t, path) == [t] + Along(next, rest)
    requires CollidesWithTrie(H, next, rest, nodes[1..])
    ensures CollidesWithTrie(H, t, path, nodes)
  {
    hide Node, Collide;
    var below, all := Along(next, rest), Along(t, path);
    hide Along;
    var k :| 0 <= k < |nodes[1..]| && k < |below| && Collide(H, nodes[1..][k], Node(H, below[k]));
    assert nodes[k + 1] == nodes[1..][k] && all[k + 1] == below[k];
    assert Collide(H, nodes[k + 1], Node(H, all[k + 1]));
  }

  lemma {:induction false} DescendInto(H: Hash, t: Trie, path: Path, nodes: seq<Bytes>, next: Trie)
    requires WellFormed(H, t) && nodes != [] && H(nodes[0]) == Root(H, t)
    requires Leads(H, t, path, Visit(nodes[0], path), next)
    ensures var a := Walk(H, Root(H, t), path, nodes);
            a.Refused? || a == AsAnswer(Get(t, path)) || CollidesWithTrie(H, t, path, nodes)
    decreases next, 1
  {
    var v := Visit(nodes[0], path);
    WalkAnswersTheTrie(H, next, v.path, nodes[1..]);
    if CollidesWithTrie(H, next, v.path, nodes[1..]) {
      CollisionBelow(H, t, path, nodes, next, v.path);
    }
  }

  /** A proof of no nodes speaks for the empty node. */
  function Shown(nodes: seq<Bytes>): seq<Bytes> { if nodes == [] then [EMPTY_NODE] else nodes }

  /** The soundness of mptLookup: under the root of a trie, for any key and any nodes a prover
      chooses, an accepted answer is the trie's own, or two given strings collide. */
  lemma LookupAnswersTheTrie(H: Hash, t: Trie, key: Bytes, nodes: seq<Bytes>)
    requires WellFormed(H, t)
    ensures var a := LookupProof(H, Root(H, t), key, nodes);
            a.Refused? || a == AsAnswer(Get(t, Nibbles(key))) || CollidesWithTrie(H, t, Nibbles(key), Shown(nodes))
  {
    if nodes == [] || nodes == [EMPTY_NODE] {
      if !t.Nil? && Root(H, t) == EmptyTrieRoot(H) {
        NodeIsList(H, t);
        assert Collide(H, Shown(nodes)[0], Node(H, Along(t, Nibbles(key))[0]));
      }
    } else {
      WalkAnswersTheTrie(H, t, Nibbles(key), nodes);
    }
  }

  // ----- an honest proof is accepted

  /** No node the path passes through holds a child in whole, on the path or off it, and no extension
      on the path leads nowhere. */
  predicate HashReferenced(H: Hash, t: Trie, path: Path)
    decreases t
  {
    && AllText(Members(H, t))
    && match t
       case Ext(p, c) => p <= path ==> !c.Nil? && HashReferenced(H, c, path[|p|..])
       case Branch(kids, _) => path != [] && path[0] < |kids| ==> HashReferenced(H, kids[path[0]], path[1..])
       case _ => true
  }

  /** The nodes of the trie along the path, down to its leaf or where it ends. */
  function Prove(H: Hash, t: Trie, path: Path): seq<Bytes>
    decreases t
  {
    match t
    case Nil => []
    case Leaf(_, _) => [Node(H, t)]
    case Ext(p, c) => [Node(H, t)] + if p <= path then Prove(H, c, path[|p|..]) else []
    case Branch(kids, _) =>
      [Node(H, t)] + if path != [] && path[0] < |kids| then Prove(H, kids[path[0]], path[1..]) else []
  }

  lemma {:induction false} HonestWalk(H: Hash, t: Trie, path: Path)
    requires WellFormed(H, t) && HashReferenced(H, t, path) && !t.Nil?
    ensures Walk(H, Root(H, t), path, Prove(H, t, path)) == AsAnswer(Get(t, path))
    decreases t, 0
  {
    match t {
      case Leaf(_, _) => VisitLeaf(H, t, path);
      case Ext(p, c) =>
        VisitExt(H, t, path);
        if Visit(Node(H, t), path).Descend? { HonestStep(H, t, path, c, path[|p|..], Prove(H, t, path)); }
      case Branch(kids, _) =>
        VisitBranch(H, t, path);
        if Visit(Node(H, t), path).Descend? {
          HonestStep(H, t, path, kids[path[0]], path[1..], Prove(H, t, path));
        }
    }
  }

  lemma {:induction false} HonestStep(H: Hash, t: Trie, path: Path, next: Trie, rest: Path,
                                      proof: seq<Bytes>)
    requires Leads(H, t, path, Visit(Node(H, t), path), next) && Visit(Node(H, t), path).path == rest
    requires HashReferenced(H, next, rest) && proof == [Node(H, t)] + Prove(H, next, rest)
    ensures Walk(H, Root(H, t), path, proof) == AsAnswer(Get(t, path))
    decreases next, 1
  {
    HonestWalk(H, next, rest);
    assert proof[1..] == Prove(H, next, rest);
  }

  /** The honest proof of any key, present or absent, is accepted with the trie's own answer, as
      long as no node the path passes through holds a child in whole, on the path or off it. */
  lemma HonestProofIsAccepted(H: Hash, t: Trie, key: Bytes)
    requires WellFormed(H, t) && |key| == 32 && HashReferenced(H, t, Nibbles(key))
    ensures LookupProof(H, Root(H, t), key, Prove(H, t, Nibbles(key))) == AsAnswer(Get(t, Nibbles(key)))
  {
    if !t.Nil? {
      NodeIsList(H, t);
      HonestWalk(H, t, Nibbles(key));
    }
  }

  /** And only then: where a node the path passes through does, a walk over any nodes is refused, or
      meets a node that collides with the trie's. */
  lemma {:induction false} WalkIsRefused(H: Hash, t: Trie, path: Path, nodes: seq<Bytes>)
    requires WellFormed(H, t) && !HashReferenced(H, t, path)
    ensures Walk(H, Root(H, t), path, nodes).Refused? || CollidesWithTrie(H, t, path, nodes)
    decreases t, 0
  {
    hide Visit, Node, Members, Get;
    if nodes == [] || H(nodes[0]) != Root(H, t) {
    } else if nodes[0] != Node(H, t) {
      assert Collide(H, nodes[0], Node(H, Along(t, path)[0]));
    } else {
      hide Along;
      match t {
        case Nil => EndIsReferenced(H, t, path);
        case Leaf(_, _) => EndIsReferenced(H, t, path);
        case Ext(p, c) =>
          VisitExt(H, t, path);
          if Visit(nodes[0], path).Descend? { RefusedBelow(H, t, path, nodes, c); }
        case Branch(kids, _) =>
          VisitBranch(H, t, path);
          if path != [] { NilIsReferenced(H, kids[path[0]], path[1..]); }
          if Visit(nodes[0], path).Descend? { RefusedBelow(H, t, path, nodes, kids[path[0]]); }
      }
    }
  }

  lemma EndIsReferenced(H: Hash, t: Trie, path: Path)
    requires t.Nil? || t.Leaf?
    ensures HashReferenced(H, t, path)
  {
  }

  lemma NilIsReferenced(H: Hash, t: Trie, path: Path)
    ensures t.Nil? ==> HashReferenced(H, t, path)
  {
    if t.Nil? { EndIsReferenced(H, t, path); }
  }

  lemma {:induction false} RefusedBelow(H: Hash, t: Trie, path: Path, nodes: seq<Bytes>, next: Trie)
    requires nodes != [] && H(nodes[0]) == Root(H, t)
    requires Leads(H, t, path, Visit(nodes[0], path), next)
    requires !HashReferenced(H, next, Visit(nodes[0], path).path)
    ensures Walk(H, Root(H, t), path, nodes).Refused? || CollidesWithTrie(H, t, path, nodes)
    decreases next, 1
  {
    var v := Visit(nodes[0], path);
    WalkIsRefused(H, next, v.path, nodes[1..]);
    if CollidesWithTrie(H, next, v.path, nodes[1..]) {
      CollisionBelow(H, t, path, nodes, next, v.path);
    }
  }

  lemma UnsupportedTrieIsRefused(H: Hash, t: Trie, key: Bytes, nodes: seq<Bytes>)
    requires WellFormed(H, t) && !HashReferenced(H, t, Nibbles(key))
    ensures LookupProof(H, Root(H, t), key, nodes).Refused? || CollidesWithTrie(H, t, Nibbles(key), Shown(nodes))
  {
    if nodes == [] || nodes == [EMPTY_NODE] {
      if Root(H, t) == EmptyTrieRoot(H) {
        NodeIsList(H, t);
        assert Collide(H, Shown(nodes)[0], Node(H, Along(t, Nibbles(key))[0]));
      }
    } else {
      WalkIsRefused(H, t, Nibbles(key), nodes);
    }
  }

  // ----- what else is refused, and what is not looked at

  /** Roots and keys are hashes of 32 bytes. */
  lemma OtherLengthsAreRefused(H: Hash, root: Bytes, key: Bytes, nodes: seq<Bytes>)
    requires |root| != 32 || |key| != 32
    ensures LookupProof(H, root, key, nodes).Refused?
  {
  }

  /** No nodes, or the empty node alone, show every key absent under the empty trie's root, and nothing
      under any other. */
  lemma EmptyProofs(H: Hash, root: Bytes, key: Bytes)
    requires |root| == 32 && |key| == 32
    ensures var a := if root == H([0x80]) then Absent else Refused;
            LookupProof(H, root, key, []) == a && LookupProof(H, root, key, [[0x80]]) == a
  {
  }

  /** Nodes behind the one that answers are not looked at. */
  lemma {:induction false} LaterNodesAreIgnored(H: Hash, expected: Bytes, path: Path, nodes: seq<Bytes>,
                                                longer: seq<Bytes>)
    requires !Walk(H, expected, path, nodes).Refused? && nodes <= longer
    ensures Walk(H, expected, path, longer) == Walk(H, expected, path, nodes)
    decreases |nodes|
  {
    hide Visit;
    match Visit(nodes[0], path)
    case Done(_) =>
    case Descend(ref, rest) => LaterNodesAreIgnored(H, ref, rest, nodes[1..], longer[1..]);
  }

  /** A walk ends at the first node that does not have the hash expected, and where the nodes do. */
  lemma WrongNodesAreRefused(H: Hash, expected: Bytes, path: Path, nodes: seq<Bytes>)
    requires nodes == [] || H(nodes[0]) != expected
    ensures Walk(H, expected, path, nodes).Refused?
  {
  }

  // ----- two accepted walks under one root agree

  ghost predicate ProofsCollide(H: Hash, a: seq<Bytes>, b: seq<Bytes>) {
    exists k :: 0 <= k < |a| && k < |b| && Collide(H, a[k], b[k])
  }

  lemma {:induction false} WalksAgree(H: Hash, expected: Bytes, path: Path, a: seq<Bytes>, b: seq<Bytes>)
    ensures var x, y := Walk(H, expected, path, a), Walk(H, expected, path, b);
            x.Refused? || y.Refused? || x == y || ProofsCollide(H, a, b)
    decreases |a|
  {
    if a == [] || b == [] || H(a[0]) != expected || H(b[0]) != expected {
    } else if a[0] != b[0] {
      assert Collide(H, a[0], b[0]);
    } else {
      match Visit(a[0], path) {
        case Done(_) =>
        case Descend(ref, rest) =>
          WalksAgree(H, ref, rest, a[1..], b[1..]);
          if ProofsCollide(H, a[1..], b[1..]) {
            var k :| 0 <= k < |a[1..]| && k < |b[1..]| && Collide(H, a[1..][k], b[1..][k]);
            assert Collide(H, a[k + 1], b[k + 1]);
          }
      }
    }
  }

  lemma WalkRefusesEmptyNode(H: Hash, expected: Bytes, path: Path, nodes: seq<Bytes>)
    requires nodes != [] && nodes[0] == EMPTY_NODE
    ensures Walk(H, expected, path, nodes).Refused?
  {
    assert DecodeList(EMPTY_NODE).Err?;
  }

  /** Under one root and key, honest root or not, two accepted proofs give one answer, or hold a
      pair of nodes that collide. */
  lemma ProofsAgree(H: Hash, root: Bytes, key: Bytes, a: seq<Bytes>, b: seq<Bytes>)
    ensures var x, y := LookupProof(H, root, key, a), LookupProof(H, root, key, b);
            x.Refused? || y.Refused? || x == y || ProofsCollide(H, Shown(a), Shown(b))
  {
    if |root| == 32 && |key| == 32 {
      var path := Nibbles(key);
      var emptyA, emptyB := a == [] || a == [EMPTY_NODE], b == [] || b == [EMPTY_NODE];
      if !emptyA && !emptyB {
        WalksAgree(H, root, path, a, b);
      } else if emptyA != emptyB {
        var walked := if emptyA then b else a;
        if walked[0] == EMPTY_NODE {
          WalkRefusesEmptyNode(H, root, path, walked);
        } else if H(walked[0]) == root == H(EMPTY_NODE) {
          assert Collide(H, Shown(a)[0], Shown(b)[0]);
        }
      }
    }
  }
}
