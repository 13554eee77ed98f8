/** The Merkle tree over hex leaf hashes: on an odd count at any level the last node is paired with
  itself. The pair hash is a parameter; where it matters it is assumed injective. */
module Merkle {
  import opened Outcomes

  datatype Hash = Hash(hex: string)

  type PairHash = (Hash, Hash) -> Hash

  datatype Position = Left | Right

  /** `sibling` is hashed in on the side that `position` names. */
  datatype ProofStep = ProofStep(sibling: Hash, position: Position)

  ghost predicate Injective(h: PairHash) {
    forall a, b, c, d :: h(a, b) == h(c, d) ==> a == c && b == d
  }

  // ---- the tree, level by level -----------------------------------------------------------

  function Parent(h: PairHash, level: seq<Hash>, i: nat): Hash
    requires 2 * i < |level|
  {
    h(level[2 * i], if 2 * i + 1 < |level| then level[2 * i + 1] else level[2 * i])
  }

  function NextLevel(h: PairHash, level: seq<Hash>): (next: seq<Hash>)
    ensures |next| == (|level| + 1) / 2
  {
    seq((|level| + 1) / 2, i requires 0 <= i < (|level| + 1) / 2 => Parent(h, level, i))
  }

  function Root(h: PairHash, empty: Hash, leaves: seq<Hash>): Hash
    decreases |leaves|
  {
    if leaves == [] then empty
    else if |leaves| == 1 then leaves[0]
    else Root(h, empty, NextLevel(h, leaves))
  }

  function StepAt(level: seq<Hash>, i: nat): ProofStep
    requires i < |level|
  {
    if i % 2 == 1 then ProofStep(level[i - 1], Left)
    else ProofStep(if i + 1 < |level| then level[i + 1] else level[i], Right)
  }

  function Path(h: PairHash, leaves: seq<Hash>, i: nat): seq<ProofStep>
    requires i < |leaves|
    decreases |leaves|
  {
    if |leaves| == 1 then []
    else [StepAt(leaves, i)] + Path(h, NextLevel(h, leaves), i / 2)
  }

  lemma PathUnfolds(h: PairHash, level: seq<Hash>, i: nat)
    requires i < |level| && |level| > 1
    ensures i / 2 < |NextLevel(h, level)| < |level|
    ensures Path(h, level, i) == [StepAt(level, i)] + Path(h, NextLevel(h, level), i / 2)
  {
  }

  lemma AddStep(steps: seq<ProofStep>, step: ProofStep, rest: seq<ProofStep>)
    ensures steps + ([step] + rest) == steps + [step] + rest
  {
  }

  function Hashed(h: PairHash, x: Hash, step: ProofStep): Hash {
    if step.position == Left then h(step.sibling, x) else h(x, step.sibling)
  }

  function Climb(h: PairHash, leaf: Hash, proof: seq<ProofStep>): Hash
    decreases |proof|
  {
    if proof == [] then leaf else Climb(h, Hashed(h, leaf, proof[0]), proof[1..])
  }

  // ---- the loops --------------------------------------------------------------------------

  method BuildLevel(h: PairHash, level: seq<Hash>) returns (next: seq<Hash>)
    ensures next == NextLevel(h, level)
  {
    next := [];
    var i := 0;
    while i < |level|
      invariant i % 2 == 0 && |next| == i / 2 && i <= |level| + 1
      invariant forall n | 0 <= n < |next| :: next[n] == Parent(h, level, n)
    {
      var left := level[i];
      var right := if i + 1 < |level| then level[i + 1] else left;
      next := next + [h(left, right)];
      i := i + 2;
    }
  }

  method MerkleRoot(h: PairHash, empty: Hash, leaves: seq<Hash>) returns (root: Hash)
    ensures root == Root(h, empty, leaves)
    ensures leaves == [] ==> root == empty
  {
    if |leaves| == 0 { return empty; }
    var level := leaves;
    while |level| > 1
      invariant |level| > 0 && Root(h, empty, leaves) == Root(h, empty, level)
      decreases |level|
    {
      level := BuildLevel(h, level);
    }
    root := level[0];
  }

  method MerkleProof(h: PairHash, leaves: seq<Hash>, index: int) returns (proof: Option<seq<ProofStep>>)
    ensures proof == if 0 <= index < |leaves| then Some(Path(h, leaves, index)) else None
  {
    if index < 0 || index >= |leaves| { return None; }
    var steps: seq<ProofStep> := [];
    var level := leaves;
    var idx := index;
    while |level| > 1
      invariant 0 <= idx < |level|
      invariant Path(h, leaves, index) == steps + Path(h, level, idx)
      decreases |level|
    {
      var isRightNode := idx % 2 == 1;
      var siblingIdx := if isRightNode then idx - 1 else idx + 1;
      var sibling := if siblingIdx < |level| then level[siblingIdx] else level[idx];
      var step := ProofStep(sibling, if isRightNode then Left else Right);
      assert step == StepAt(level, idx);
      hide *;
      PathUnfolds(h, level, idx);
      AddStep(steps, step, Path(h, NextLevel(h, level), idx / 2));
      steps := steps + [step];
      level := BuildLevel(h, level);
      idx := idx / 2;
    }
    assert steps + [] == steps;
    proof := Some(steps);
  }

  method VerifyProof(h: PairHash, leaf: Hash, proof: seq<ProofStep>, root: Hash) returns (ok: bool)
    ensures ok <==> Climb(h, leaf, proof) == root
  {
    var computed := leaf;
    var i := 0;
    while i < |proof|
      invariant 0 <= i <= |proof| && Climb(h, leaf, proof) == Climb(h, computed, proof[i..])
    {
      assert proof[i..][1..] == proof[i + 1..];
      computed := if proof[i].position == Left then h(proof[i].sibling, computed) else h(computed, proof[i].sibling);
      i := i + 1;
    }
    ok := computed == root;
  }

  // ---- proofs are complete and sound ------------------------------------------------------

  function Pow2(k: nat): nat {
    if k == 0 then 1 else 2 * Pow2(k - 1)
  }

  /** Every leaf's own proof climbs to the root, and it is as long as the tree is high: the least k
    with 2^k at least the number of leaves. */
  lemma {:induction false} ProofComplete(h: PairHash, empty: Hash, leaves: seq<Hash>, i: nat)
    requires i < |leaves|
    ensures Climb(h, leaves[i], Path(h, leaves, i)) == Root(h, empty, leaves)
    ensures IsHeight(|leaves|, |Path(h, leaves, i)|)
    decreases |leaves|
  {
    if |leaves| > 1 {
      var next := NextLevel(h, leaves);
      ProofComplete(h, empty, next, i / 2);
      PathUnfolds(h, leaves, i);
      StepClimbs(h, leaves, i);
      NextHeight(|leaves|, |Path(h, next, i / 2)|);
      hide Path, StepAt, IsHeight, Hashed, Parent;
      assert Path(h, leaves, i)[1..] == Path(h, next, i / 2);
    }
  }

  lemma StepClimbs(h: PairHash, level: seq<Hash>, i: nat)
    requires i < |level|
    ensures Hashed(h, level[i], StepAt(level, i)) == NextLevel(h, level)[i / 2]
  {
    assert NextLevel(h, level)[i / 2] == Parent(h, level, i / 2);
  }

  lemma NextHeight(n: nat, k: nat)
    requires n > 1 && IsHeight((n + 1) / 2, k)
    ensures IsHeight(n, k + 1)
  {
    assert k > 0 ==> Pow2(k) == 2 * Pow2(k - 1);
  }

  /** k is the least height that holds n leaves. */
  predicate IsHeight(n: nat, k: nat) {
    n <= Pow2(k) && (k > 0 ==> Pow2(k - 1) < n)
  }

  /** The positions in a leaf's proof spell its index: on level n the sibling is to the left exactly if bit n
    of the index is set. */
  lemma {:induction false} ProofSpellsIndex(h: PairHash, leaves: seq<Hash>, i: nat, n: nat)
    requires i < |leaves| && n < |Path(h, leaves, i)|
    ensures Pow2(n) > 0 && (Path(h, leaves, i)[n].position == Left <==> i / Pow2(n) % 2 == 1)
    decreases n
  {
    PathUnfolds(h, leaves, i);
    if n > 0 {
      hide StepAt, NextLevel;
      assert Path(h, leaves, i)[n] == Path(h, NextLevel(h, leaves), i / 2)[n - 1];
      ProofSpellsIndex(h, NextLevel(h, leaves), i / 2, n - 1);
      DivideTwice(i, Pow2(n - 1));
    }
  }

  lemma DivideTwice(i: nat, p: nat)
    requires p > 0
    ensures i / (2 * p) == i / 2 / p
  {
    var q := i / 2 / p;
    var r := i / 2 - q * p;
    assert i / 2 == q * p + r && 0 <= r < p;
    var t := i - 2 * p * q;
    assert t == 2 * r + i % 2 && 0 <= t < 2 * p;
    QuotientIs(i, 2 * p, q, t);
  }

  lemma QuotientIs(i: nat, d: nat, q: nat, t: nat)
    requires d > 0 && i == d * q + t && t < d
    ensures i / d == q
  {
    Small(i / d - q, d, t - i % d);
  }

  lemma Small(e: int, d: int, x: int)
    requires d > 0 && e * d == x && -d < x < d
    ensures e == 0
  {
    Multiple(e, d);
  }

  lemma Multiple(e: int, d: int)
    requires d > 0
    ensures e >= 1 ==> e * d >= d
    ensures e <= -1 ==> e * d <= -d
  {
    if e >= 1 { assert (e - 1) * d >= 0; }
    if e <= -1 { assert (-e - 1) * d >= 0; }
  }

  predicate SameShape(p: seq<ProofStep>, q: seq<ProofStep>) {
    |p| == |q| && forall n | 0 <= n < |p| :: p[n].position == q[n].position
  }

  /** With an injective hash, two climbs of the same shape meet only if they started alike and took
    the same siblings. */
  lemma {:induction false} ClimbInjective(h: PairHash, x: Hash, p: seq<ProofStep>, y: Hash, q: seq<ProofStep>)
    requires Injective(h) && SameShape(p, q) && Climb(h, x, p) == Climb(h, y, q)
    ensures x == y && p == q
    decreases |p|
  {
    if p != [] {
      assert forall n | 0 <= n < |p| - 1 :: p[1..][n] == p[n + 1] && q[1..][n] == q[n + 1];
      ClimbInjective(h, Hashed(h, x, p[0]), p[1..], Hashed(h, y, q[0]), q[1..]);
      assert p == [p[0]] + p[1..] && q == [q[0]] + q[1..];
    }
  }

  /** Among proofs of the shape that belongs to index i, exactly the right one for the right leaf is
    accepted. */
  lemma ProofSoundIff(h: PairHash, empty: Hash, leaves: seq<Hash>, i: nat, leaf: Hash, proof: seq<ProofStep>)
    requires Injective(h) && i < |leaves| && SameShape(proof, Path(h, leaves, i))
    ensures Climb(h, leaf, proof) == Root(h, empty, leaves) <==> leaf == leaves[i] && proof == Path(h, leaves, i)
  {
    ProofComplete(h, empty, leaves, i);
    if Climb(h, leaf, proof) == Root(h, empty, leaves) {
      ClimbInjective(h, leaf, proof, leaves[i], Path(h, leaves, i));
    }
  }

  // ---- the tree, from the top -------------------------------------------------------------

  datatype Tree = Leaf(hash: Hash) | Node(left: Tree, right: Tree)

  function HashOf(h: PairHash, t: Tree): Hash {
    match t
    case Leaf(x) => x
    case Node(l, r) => h(HashOf(h, l), HashOf(h, r))
  }

  /** The leaves under the left child of a node of height k + 1; a node without a right child has its
    left child twice. */
  function LeftPart(leaves: seq<Hash>, k: nat): (part: seq<Hash>)
    requires 0 < |leaves| <= Pow2(k + 1)
    ensures 0 < |part| <= Pow2(k)
  {
    if |leaves| <= Pow2(k) then leaves else leaves[..Pow2(k)]
  }

  function RightPart(leaves: seq<Hash>, k: nat): (part: seq<Hash>)
    requires 0 < |leaves| <= Pow2(k + 1)
    ensures 0 < |part| <= Pow2(k)
  {
    if |leaves| <= Pow2(k) then leaves else leaves[Pow2(k)..]
  }

  /** The tree of height k over the leaves, built from the top. */
  function Build(leaves: seq<Hash>, k: nat): Tree
    requires 0 < |leaves| <= Pow2(k)
    decreases k
  {
    if k == 0 then Leaf(leaves[0])
    else Node(Build(LeftPart(leaves, k - 1), k - 1), Build(RightPart(leaves, k - 1), k - 1))
  }

  lemma PartsOfNextLevel(h: PairHash, leaves: seq<Hash>, k: nat)
    requires 0 < |leaves| <= Pow2(k + 2) && 0 < |NextLevel(h, leaves)| <= Pow2(k + 1)
    ensures NextLevel(h, LeftPart(leaves, k + 1)) == LeftPart(NextLevel(h, leaves), k)
    ensures NextLevel(h, RightPart(leaves, k + 1)) == RightPart(NextLevel(h, leaves), k)
  {
    var half := Pow2(k);
    assert Pow2(k + 1) == 2 * half;
    if |leaves| > 2 * half {
      SplitLevel(h, leaves, half);
    }
  }

  lemma SplitLevel(h: PairHash, leaves: seq<Hash>, half: nat)
    requires |leaves| > 2 * half
    ensures NextLevel(h, leaves[..2 * half]) == NextLevel(h, leaves)[..half]
    ensures NextLevel(h, leaves[2 * half..]) == NextLevel(h, leaves)[half..]
  {
    assert forall i | 0 <= i < half :: Parent(h, leaves[..2 * half], i) == Parent(h, leaves, i);
    assert forall i | 0 <= i < (|leaves| - 2 * half + 1) / 2 :: Parent(h, leaves[2 * half..], i) == Parent(h, leaves, i + half);
  }

  lemma {:induction false} NextLevelKeepsTree(h: PairHash, leaves: seq<Hash>, k: nat)
    requires 0 < |leaves| <= Pow2(k + 1)
    ensures |NextLevel(h, leaves)| <= Pow2(k)
    ensures HashOf(h, Build(leaves, k + 1)) == HashOf(h, Build(NextLevel(h, leaves), k))
    decreases k
  {
    LevelFits(h, leaves, k);
    if k == 0 {
      SmallTree(h, leaves);
    } else {
      TreeHalves(h, leaves, k - 1);
      hide *;
      NextLevelKeepsTree(h, LeftPart(leaves, k), k - 1);
      NextLevelKeepsTree(h, RightPart(leaves, k), k - 1);
    }
  }

  lemma LevelFits(h: PairHash, leaves: seq<Hash>, k: nat)
    requires 0 < |leaves| <= Pow2(k + 1)
    ensures 0 < |NextLevel(h, leaves)| <= Pow2(k)
  {
    assert Pow2(k + 1) == 2 * Pow2(k);
  }

  lemma SmallTree(h: PairHash, leaves: seq<Hash>)
    requires 0 < |leaves| <= Pow2(1) && |NextLevel(h, leaves)| <= Pow2(0)
    ensures HashOf(h, Build(leaves, 1)) == HashOf(h, Build(NextLevel(h, leaves), 0))
  {
    BuildNode(leaves, 0);
    assert Build(LeftPart(leaves, 0), 0) == Leaf(leaves[0]);
  }

  /** Both trees split alike: into the halves, and into the next levels of the halves. */
  lemma TreeHalves(h: PairHash, leaves: seq<Hash>, k: nat)
    requires 0 < |leaves| <= Pow2(k + 2) && 0 < |NextLevel(h, leaves)| <= Pow2(k + 1)
    ensures var l, r := LeftPart(leaves, k + 1), RightPart(leaves, k + 1);
            && 0 < |NextLevel(h, l)| <= Pow2(k) && 0 < |NextLevel(h, r)| <= Pow2(k)
            && HashOf(h, Build(leaves, k + 2)) == h(HashOf(h, Build(l, k + 1)), HashOf(h, Build(r, k + 1)))
            && HashOf(h, Build(NextLevel(h, leaves), k + 1)) == h(HashOf(h, Build(NextLevel(h, l), k)), HashOf(h, Build(NextLevel(h, r), k)))
  {
    PartsOfNextLevel(h, leaves, k);
    LevelFits(h, LeftPart(leaves, k + 1), k);
    LevelFits(h, RightPart(leaves, k + 1), k);
    BuildNode(leaves, k + 1);
    BuildNode(NextLevel(h, leaves), k);
    hide Build, LeftPart, RightPart, NextLevel, Pow2;
  }

  /** The level-by-level root is the hash of the recursive tree of the least sufficient height. */
  lemma {:induction false} RootIsTreeHash(h: PairHash, empty: Hash, leaves: seq<Hash>, k: nat)
    requires leaves != [] && IsHeight(|leaves|, k)
    ensures Root(h, empty, leaves) == HashOf(h, Build(leaves, k))
    decreases k
  {
    if k > 0 {
      assert |leaves| > 1;
      NextLevelKeepsTree(h, leaves, k - 1);
      assert k > 1 ==> Pow2(k - 1) == 2 * Pow2(k - 2);
      RootIsTreeHash(h, empty, NextLevel(h, leaves), k - 1);
    }
  }

  predicate Perfect(t: Tree, k: nat) {
    if k == 0 then t.Leaf? else t.Node? && Perfect(t.left, k - 1) && Perfect(t.right, k - 1)
  }

  lemma {:induction false} HashInjective(h: PairHash, t: Tree, u: Tree, k: nat)
    requires Injective(h) && Perfect(t, k) && Perfect(u, k) && HashOf(h, t) == HashOf(h, u)
    ensures t == u
    decreases k
  {
    if k > 0 {
      HashInjective(h, t.left, u.left, k - 1);
      HashInjective(h, t.right, u.right, k - 1);
    }
  }

  lemma {:induction false} BuildPerfect(leaves: seq<Hash>, k: nat)
    requires 0 < |leaves| <= Pow2(k)
    ensures Perfect(Build(leaves, k), k)
    decreases k
  {
    if k > 0 {
      BuildPerfect(LeftPart(leaves, k - 1), k - 1);
      BuildPerfect(RightPart(leaves, k - 1), k - 1);
    }
  }

  /** Trees of the same height have the same root exactly when they are the same tree: the root
    commits to the leaves with the last node of every odd level repeated. */
  lemma RootsEqualIff(h: PairHash, empty: Hash, a: seq<Hash>, b: seq<Hash>, k: nat)
    requires Injective(h) && a != [] && b != [] && IsHeight(|a|, k) && IsHeight(|b|, k)
    ensures Root(h, empty, a) == Root(h, empty, b) <==> Build(a, k) == Build(b, k)
  {
    RootIsTreeHash(h, empty, a, k);
    RootIsTreeHash(h, empty, b, k);
    BuildPerfect(a, k);
    BuildPerfect(b, k);
    hide Root, Build, Injective;
    if HashOf(h, Build(a, k)) == HashOf(h, Build(b, k)) {
      HashInjective(h, Build(a, k), Build(b, k), k);
    }
  }

  lemma {:induction false} BuildInjective(a: seq<Hash>, b: seq<Hash>, k: nat)
    requires 0 < |a| == |b| <= Pow2(k) && Build(a, k) == Build(b, k)
    ensures a == b
    decreases k
  {
    if k == 0 {
      BuildSingle(a, b);
    } else {
      BuildParts(a, b, k - 1);
      hide *;
      BuildInjective(LeftPart(a, k - 1), LeftPart(b, k - 1), k - 1);
      BuildInjective(RightPart(a, k - 1), RightPart(b, k - 1), k - 1);
    }
  }

  lemma BuildSingle(a: seq<Hash>, b: seq<Hash>)
    requires 0 < |a| == |b| <= Pow2(0) && Build(a, 0) == Build(b, 0)
    ensures a == b
  {
    assert a == [a[0]] && b == [b[0]];
  }

  lemma BuildNode(leaves: seq<Hash>, k: nat)
    requires 0 < |leaves| <= Pow2(k + 1)
    ensures Build(leaves, k + 1) == Node(Build(LeftPart(leaves, k), k), Build(RightPart(leaves, k), k))
  {
  }

  lemma BuildParts(a: seq<Hash>, b: seq<Hash>, k: nat)
    requires 0 < |a| == |b| <= Pow2(k + 1) && Build(a, k + 1) == Build(b, k + 1)
    ensures |LeftPart(a, k)| == |LeftPart(b, k)| && |RightPart(a, k)| == |RightPart(b, k)|
    ensures Build(LeftPart(a, k), k) == Build(LeftPart(b, k), k) && Build(RightPart(a, k), k) == Build(RightPart(b, k), k)
    ensures LeftPart(a, k) == LeftPart(b, k) && RightPart(a, k) == RightPart(b, k) ==> a == b
  {
    BuildNode(a, k);
    BuildNode(b, k);
    PartsDetermine(a, b, k);
    hide *;
  }

  lemma PartsDetermine(a: seq<Hash>, b: seq<Hash>, k: nat)
    requires 0 < |a| == |b| <= Pow2(k + 1)
    ensures |LeftPart(a, k)| == |LeftPart(b, k)| && |RightPart(a, k)| == |RightPart(b, k)|
    ensures LeftPart(a, k) == LeftPart(b, k) && RightPart(a, k) == RightPart(b, k) ==> a == b
  {
    if |a| > Pow2(k) {
      assert a == a[..Pow2(k)] + a[Pow2(k)..] && b == b[..Pow2(k)] + b[Pow2(k)..];
    }
  }

  lemma {:induction false} HeightExists(n: nat) returns (k: nat)
    requires n > 0
    ensures IsHeight(n, k)
    decreases n
  {
    if n == 1 {
      k := 0;
    } else {
      var j := HeightExists((n + 1) / 2);
      k := j + 1;
      NextHeight(n, j);
    }
  }

  /** Lists of equal length with equal roots are equal. */
  lemma RootBinding(h: PairHash, empty: Hash, a: seq<Hash>, b: seq<Hash>)
    requires Injective(h) && |a| == |b| && Root(h, empty, a) == Root(h, empty, b)
    ensures a == b
  {
    if a != [] {
      var k := HeightExists(|a|);
      RootsEqualIff(h, empty, a, b, k);
      BuildInjective(a, b, k);
    }
  }

  /** Equal length is needed: repeating an odd last leaf never changes the root. */
  lemma RepeatedLeafCollides(h: PairHash, empty: Hash, leaves: seq<Hash>)
    requires |leaves| % 2 == 1 && |leaves| > 1
    ensures Root(h, empty, leaves + [leaves[|leaves| - 1]]) == Root(h, empty, leaves)
  {
    var more := leaves + [leaves[|leaves| - 1]];
    assert NextLevel(h, more) == NextLevel(h, leaves) by {
      assert forall i | 0 <= i < (|leaves| + 1) / 2 :: Parent(h, more, i) == Parent(h, leaves, i);
    }
  }
}
