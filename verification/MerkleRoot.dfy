/** computeMerkleRoot of files.go: the level loop over chunk hashes, and what its root binds. */
module MerkleRoot {
  import opened Bytes

  function Join(a: Digest, b: Digest): (r: Bytes)
    ensures |r| == 64 && r[..32] == a && r[32..] == b
  {
    var left: Bytes := a;
    left + b
  }

  /** Where the right-hand child of node i lies, if it exists: else the left-hand one stands in. */
  function Right(below: nat, i: nat): nat { if 2 * i + 1 < below then 2 * i + 1 else 2 * i }

  /** The two hashes under a node: the last of an odd level stands in for its missing neighbour. */
  function Pair(level: seq<Digest>, i: nat): Bytes
    requires 2 * i < |level|
  {
    Join(level[2 * i], level[Right(|level|, i)])
  }

  function Half(n: nat): nat { (n + 1) / 2 }

  /** The level above. */
  function Up(H: Hash, level: seq<Digest>): (up: seq<Digest>)
    ensures |up| == Half(|level|) && forall i :: 0 <= i < |up| ==> up[i] == H(Pair(level, i))
  {
    seq<Digest>(Half(|level|), i requires 0 <= i < Half(|level|) => H(Pair(level, i)))
  }

  /** A lone leaf is paired with itself, so it is hashed once. */
  function Leaves(hashes: seq<Digest>): seq<Digest> {
    if |hashes| == 1 then hashes + hashes else hashes
  }

  function Top(H: Hash, level: seq<Digest>): Digest
    requires level != []
    decreases |level|
  {
    if |level| == 1 then level[0] else Top(H, Up(H, level))
  }

  function Root(H: Hash, hashes: seq<Digest>): Digest {
    if hashes == [] then ZeroHash() else Top(H, Leaves(hashes))
  }

  /** A lone hash is hashed with itself. */
  lemma RootOfOne(H: Hash, h: Digest)
    ensures Root(H, [h]) == H(Join(h, h))
  {
    hide Join;
    var level := Leaves([h]);
    assert |level| == 2 && level[0] == h && level[1] == h;
    assert Up(H, level)[0] == H(Pair(level, 0));
    assert Top(H, level) == Top(H, Up(H, level));
  }

  method ComputeMerkleRoot(H: Hash, hashes: seq<Digest>) returns (r: Digest)
    ensures r == Root(H, hashes)
    ensures hashes == [] ==> r == Repeat(0, 32)
    ensures |hashes| == 1 ==> r == H(Join(hashes[0], hashes[0]))
  {
    if |hashes| == 1 {
      RootOfOne(H, hashes[0]);
      assert hashes == [hashes[0]];
    }
    hide Pair;
    if |hashes| == 0 { return ZeroHash(); }
    var current := hashes;
    if |current| == 1 { current := current + [current[0]]; }
    assert current == Leaves(hashes);
    while |current| > 1
      invariant current != [] && Top(H, current) == Root(H, hashes)
      decreases |current|
    {
      current := NextLevel(H, current);
    }
    r := current[0];
  }

  /** One round: pad an odd level, then hash its pairs. */
  method NextLevel(H: Hash, level: seq<Digest>) returns (next: seq<Digest>)
    requires |level| > 1
    ensures next == Up(H, level)
  {
    var padded := level;
    if |padded| % 2 != 0 { padded := padded + [padded[|padded| - 1]]; }
    next := [];
    var i := 0;
    while i < |padded|
      invariant 0 <= i <= |padded| && i % 2 == 0 && |next| == i / 2 && |padded| % 2 == 0
      invariant forall j :: 0 <= j < |next| ==> next[j] == H(Pair(level, j))
    {
      assert Join(padded[i], padded[i + 1]) == Pair(level, i / 2);
      next := next + [H(Join(padded[i], padded[i + 1]))];
      i := i + 2;
    }
  }

  // ----- the same root, top down

  /** How many nodes a tree of n leaves has k levels up, and how many levels it has. */
  function Count(n: nat, k: nat): nat {
    if k == 0 then n else Half(Count(n, k - 1))
  }

  function Levels(n: nat): nat
    requires n > 0
    decreases n
  {
    if n == 1 then 0 else 1 + Levels(Half(n))
  }

  /** The node at position i, k levels up, computed from its children alone. */
  function NodeAt(H: Hash, leaves: seq<Digest>, k: nat, i: nat): Digest
    requires i < Count(|leaves|, k)
    decreases k
  {
    if k == 0 then leaves[i]
    else
      H(Join(NodeAt(H, leaves, k - 1, 2 * i), NodeAt(H, leaves, k - 1, Right(Count(|leaves|, k - 1), i))))
  }

  lemma {:induction false} CountUp(n: nat, k: nat)
    ensures Count(n, k + 1) == Count(Half(n), k)
  {
    if k == 0 {
    } else {
      CountUp(n, k - 1);
    }
  }

  lemma ChildrenExist(n: nat, k: nat, i: nat)
    requires i < Count(n, k + 1)
    ensures 2 * i < Count(n, k) && Right(Count(n, k), i) < Count(n, k)
  {
  }

  lemma NodeFromChildren(H: Hash, leaves: seq<Digest>, k: nat, i: nat)
    requires i < Count(|leaves|, k + 1)
    ensures 2 * i < Count(|leaves|, k) && Right(Count(|leaves|, k), i) < Count(|leaves|, k)
    ensures NodeAt(H, leaves, k + 1, i) ==
            H(Join(NodeAt(H, leaves, k, 2 * i), NodeAt(H, leaves, k, Right(Count(|leaves|, k), i))))
  {
    hide Join;
    ChildrenExist(|leaves|, k, i);
  }

  lemma LevelNode(H: Hash, leaves: seq<Digest>, i: nat)
    requires 2 * i < |leaves|
    ensures Up(H, leaves)[i] == H(Join(leaves[2 * i], leaves[Right(|leaves|, i)]))
  {
    hide Join;
  }

  lemma {:induction false} NodeAtUp(H: Hash, leaves: seq<Digest>, k: nat, i: nat)
    requires i < Count(|leaves|, k + 1)
    ensures i < Count(|Up(H, leaves)|, k) && NodeAt(H, Up(H, leaves), k, i) == NodeAt(H, leaves, k + 1, i)
    decreases k
  {
    hide Join;
    CountUp(|leaves|, k);
    NodeFromChildren(H, leaves, k, i);
    if k == 0 {
      LevelNode(H, leaves, i);
    } else {
      CountUp(|leaves|, k - 1);
      NodeFromChildren(H, Up(H, leaves), k - 1, i);
      hide Pair, Up, Count, Half, NodeAt;
      NodeAtUp(H, leaves, k - 1, 2 * i);
      NodeAtUp(H, leaves, k - 1, Right(Count(|leaves|, k), i));
    }
  }

  lemma {:induction false} LevelsReachOne(n: nat)
    requires n > 0
    ensures Count(n, Levels(n)) == 1
    decreases n
  {
    if n == 1 {
    } else {
      LevelsReachOne(Half(n));
      CountUp(n, Levels(Half(n)));
    }
  }

  /** The level loop computes the recursive hash of the padded tree. */
  lemma {:induction false} TopIsTheTree(H: Hash, leaves: seq<Digest>)
    requires leaves != []
    ensures Count(|leaves|, Levels(|leaves|)) == 1
    ensures Top(H, leaves) == NodeAt(H, leaves, Levels(|leaves|), 0)
    decreases |leaves|
  {
    LevelsReachOne(|leaves|);
    if |leaves| == 1 {
    } else {
      var up := Up(H, leaves);
      TopIsTheTree(H, up);
      NodeAtUp(H, leaves, Levels(|up|), 0);
    }
  }

  // ----- equal roots, equal leaves

  /** At some level, the pairs at one position differ and have one hash. */
  ghost predicate LevelsCollide(H: Hash, a: seq<Digest>, b: seq<Digest>)
    requires |a| == |b|
    decreases |a|
  {
    || (exists i: nat :: 2 * i < |a| && Collide(H, Pair(a, i), Pair(b, i)))
    || (|a| > 1 && LevelsCollide(H, Up(H, a), Up(H, b)))
  }

  lemma PairsDetermine(a: seq<Digest>, b: seq<Digest>)
    requires |a| == |b| && forall i: nat :: 2 * i < |a| ==> Pair(a, i) == Pair(b, i)
    ensures a == b
  {
    forall j | 0 <= j < |a| ensures a[j] == b[j] {
      var i := j / 2;
      assert Pair(a, i) == Pair(b, i);
    }
  }

  lemma {:induction false} TopsBind(H: Hash, a: seq<Digest>, b: seq<Digest>)
    requires |a| == |b| && a != [] && Top(H, a) == Top(H, b)
    ensures a == b || LevelsCollide(H, a, b)
    decreases |a|
  {
    if |a| > 1 {
      var ua, ub := Up(H, a), Up(H, b);
      TopsBind(H, ua, ub);
      if ua == ub && a != b {
        if forall i: nat :: 2 * i < |a| ==> Pair(a, i) == Pair(b, i) {
          PairsDetermine(a, b);
        } else {
          var i: nat :| 2 * i < |a| && Pair(a, i) != Pair(b, i);
          assert ua[i] == H(Pair(a, i)) && ub[i] == H(Pair(b, i));
          assert Collide(H, Pair(a, i), Pair(b, i));
        }
      }
    }
  }

  /** For one chunk count, equal roots force equal hash lists, or name a pair that collides. */
  lemma RootBindsHashes(H: Hash, a: seq<Digest>, b: seq<Digest>)
    requires |a| == |b| && Root(H, a) == Root(H, b)
    ensures a == b || LevelsCollide(H, Leaves(a), Leaves(b))
  {
    if a != [] {
      TopsBind(H, Leaves(a), Leaves(b));
      if Leaves(a) == Leaves(b) {
        assert a == Leaves(a)[..|a|] && b == Leaves(b)[..|b|];
      }
    }
  }

  // ----- roots and counts

  /** Roots do not bind the count: an odd list and the list that repeats its last hash share one.
      So a root binds its hashes only beside the manifest's chunk count. */
  lemma RootDoesNotBindTheCount(H: Hash, hashes: seq<Digest>)
    requires |hashes| % 2 == 1
    ensures Root(H, hashes + [hashes[|hashes| - 1]]) == Root(H, hashes)
  {
    var more := hashes + [hashes[|hashes| - 1]];
    if |hashes| == 1 {
      assert more == Leaves(hashes);
    } else {
      forall i | 0 <= i < Half(|hashes|) ensures Pair(more, i) == Pair(hashes, i) {
        if 2 * i + 1 == |hashes| { assert more[2 * i + 1] == hashes[2 * i]; }
      }
      assert Up(H, more) == Up(H, hashes);
    }
  }

  /** Nor the level: a list of three or more hashes and the level above it share a root. */
  lemma RootDoesNotBindTheLevel(H: Hash, hashes: seq<Digest>)
    requires |hashes| > 2
    ensures Root(H, Up(H, hashes)) == Root(H, hashes)
  {
  }

  /** A padded tree, its leaves hashes of chunks. */
  datatype Tree = Leaf(hash: Digest) | Fork(left: Tree, right: Tree)

  function TreeHash(H: Hash, t: Tree): Digest {
    match t
    case Leaf(h) => h
    case Fork(l, r) => H(Join(TreeHash(H, l), TreeHash(H, r)))
  }

  /** The tree under the node at position i, k levels up. */
  function TreeAt(leaves: seq<Digest>, k: nat, i: nat): Tree
    requires i < Count(|leaves|, k)
    decreases k
  {
    if k == 0 then Leaf(leaves[i])
    else
      Fork(TreeAt(leaves, k - 1, 2 * i), TreeAt(leaves, k - 1, Right(Count(|leaves|, k - 1), i)))
  }

  /** The padded tree of a level: a missing right-hand node is a copy of its left-hand neighbour. */
  function Padded(level: seq<Digest>): Tree
    requires level != []
  {
    LevelsReachOne(|level|);
    TreeAt(level, Levels(|level|), 0)
  }

  lemma {:induction false} TreeAtHash(H: Hash, leaves: seq<Digest>, k: nat, i: nat)
    requires i < Count(|leaves|, k)
    ensures TreeHash(H, TreeAt(leaves, k, i)) == NodeAt(H, leaves, k, i)
    decreases k
  {
    hide Join;
    if k == 0 {
    } else {
      TreeAtHash(H, leaves, k - 1, 2 * i);
      TreeAtHash(H, leaves, k - 1, Right(Count(|leaves|, k - 1), i));
    }
  }

  /** The level loop computes the hash of the padded tree. */
  lemma TopIsPaddedHash(H: Hash, level: seq<Digest>)
    requires level != []
    ensures Top(H, level) == TreeHash(H, Padded(level))
  {
    TopIsTheTree(H, level);
    TreeAtHash(H, level, Levels(|level|), 0);
  }

  predicate Perfect(t: Tree, height: nat) {
    match t
    case Leaf(_) => height == 0
    case Fork(l, r) => height > 0 && Perfect(l, height - 1) && Perfect(r, height - 1)
  }

  lemma {:induction false} TreeAtIsPerfect(leaves: seq<Digest>, k: nat, i: nat)
    requires i < Count(|leaves|, k)
    ensures Perfect(TreeAt(leaves, k, i), k)
    decreases k
  {
    if k == 0 {
    } else {
      TreeAtIsPerfect(leaves, k - 1, 2 * i);
      TreeAtIsPerfect(leaves, k - 1, Right(Count(|leaves|, k - 1), i));
    }
  }

  /** At some place in both trees, the hashes under it differ and have one hash. */
  ghost predicate TreesCollide(H: Hash, a: Tree, b: Tree) {
    && a.Fork? && b.Fork?
    && (|| Collide(H, Join(TreeHash(H, a.left), TreeHash(H, a.right)), Join(TreeHash(H, b.left), TreeHash(H, b.right)))
        || TreesCollide(H, a.left, b.left)
        || TreesCollide(H, a.right, b.right))
  }

  lemma JoinInjective(a: Digest, b: Digest, c: Digest, d: Digest)
    requires Join(a, b) == Join(c, d)
    ensures a == c && b == d
  {
    assert Join(a, b)[..32] == a && Join(a, b)[32..] == b;
    assert Join(c, d)[..32] == c && Join(c, d)[32..] == d;
  }

  lemma {:induction false} HashBindsTree(H: Hash, a: Tree, b: Tree, height: nat)
    requires Perfect(a, height) && Perfect(b, height) && TreeHash(H, a) == TreeHash(H, b)
    ensures a == b || TreesCollide(H, a, b)
    decreases height
  {
    hide Join;
    if height == 0 {
    } else {
      var ja := Join(TreeHash(H, a.left), TreeHash(H, a.right));
      var jb := Join(TreeHash(H, b.left), TreeHash(H, b.right));
      if ja == jb {
        JoinInjective(TreeHash(H, a.left), TreeHash(H, a.right), TreeHash(H, b.left), TreeHash(H, b.right));
        HashBindsTree(H, a.left, b.left, height - 1);
        HashBindsTree(H, a.right, b.right, height - 1);
      }
    }
  }

  /** The level k rounds above. */
  function Level(H: Hash, level: seq<Digest>, k: nat): seq<Digest>
    decreases k
  {
    if k == 0 then level else Level(H, Up(H, level), k - 1)
  }

  lemma {:induction false} LevelKeepsTop(H: Hash, level: seq<Digest>, k: nat)
    requires level != [] && k <= Levels(|level|)
    ensures var up := Level(H, level, k);
            up != [] && Levels(|up|) == Levels(|level|) - k && Top(H, up) == Top(H, level)
    decreases k
  {
    hide Pair;
    if k == 0 {
    } else {
      LevelKeepsTop(H, Up(H, level), k - 1);
    }
  }

  /** Exactly when two lists, of whatever lengths, share a root: the padded tree of the one with
      fewer levels is that of the other's level as far from the top, or the two hold a pair that
      collides. */
  lemma RootsAgreeExactlyWhen(H: Hash, a: seq<Digest>, b: seq<Digest>)
    requires a != [] && b != [] && Levels(|Leaves(a)|) <= Levels(|Leaves(b)|)
    ensures var up := Level(H, Leaves(b), Levels(|Leaves(b)|) - Levels(|Leaves(a)|));
            && up != []
            && (|| (Root(H, a) == Root(H, b) <==> Padded(Leaves(a)) == Padded(up))
                || TreesCollide(H, Padded(Leaves(a)), Padded(up)))
  {
    hide Up, TreeAt, Join;
    var p := Levels(|Leaves(a)|);
    LevelKeepsTop(H, Leaves(b), Levels(|Leaves(b)|) - p);
    var up := Level(H, Leaves(b), Levels(|Leaves(b)|) - p);
    LevelsReachOne(|Leaves(a)|);
    LevelsReachOne(|up|);
    TopIsPaddedHash(H, Leaves(a));
    TopIsPaddedHash(H, up);
    TreeAtIsPerfect(Leaves(a), p, 0);
    TreeAtIsPerfect(up, p, 0);
    if Root(H, a) == Root(H, b) {
      HashBindsTree(H, Padded(Leaves(a)), Padded(up), p);
    }
  }
}
