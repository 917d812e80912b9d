/**
 The checkpoint's Merkle tree (apps/checkpoint/src/merkle.ts), which pairs level by level and
 promotes an odd node, and the recursive tree of RFC 6962 it has to equal: section 2.1 for the root
 and section 2.1.1 for audit paths.
 */
module Merkle {
  import opened Hashes
  import opened Outcomes

  // --- Hashes ---------------------------------------------------------------------------------

  function LeafHash(h: Hash, entry: Bytes): (d: Bytes)
    ensures |d| == DIGEST_BYTES
  {
    h([0x00] + entry)
  }

  function NodeHash(h: Hash, left: Bytes, right: Bytes): (d: Bytes)
    ensures |d| == DIGEST_BYTES
  {
    h([0x01] + left + right)
  }

  // --- RFC 6962 -------------------------------------------------------------------------------

  /** The largest power of two below `n`, searched upwards from `k`. */
  function SplitFrom(n: nat, k: nat): (r: nat)
    requires 1 <= k < n
    ensures k <= r < n <= 2 * r
    decreases n - k
  {
    if 2 * k < n then SplitFrom(n, 2 * k) else k
  }

  /** The largest power of two smaller than `n`. */
  function Split(n: nat): (k: nat)
    requires n > 1
    ensures 1 <= k < n <= 2 * k
  {
    SplitFrom(n, 1)
  }

  /** MTH of section 2.1 of RFC 6962, over leaf hashes. */
  function Mth(h: Hash, leaves: seq<Bytes>): Bytes {
    if |leaves| == 0 then h([])
    else if |leaves| == 1 then leaves[0]
    else
      var k := Split(|leaves|);
      NodeHash(h, Mth(h, leaves[..k]), Mth(h, leaves[k..]))
  }

  datatype Side = OnLeft | OnRight

  datatype Step = Step(side: Side, hash: Bytes)

  /** PATH of section 2.1.1 of RFC 6962, with the side each sibling sits on. */
  function AuditPath(h: Hash, leaves: seq<Bytes>, m: nat): (path: seq<Step>)
    requires m < |leaves|
    decreases |leaves|
  {
    if |leaves| == 1 then []
    else
      var k := Split(|leaves|);
      if m < k then AuditPath(h, leaves[..k], m) + [Step(OnRight, Mth(h, leaves[k..]))]
      else AuditPath(h, leaves[k..], m - k) + [Step(OnLeft, Mth(h, leaves[..k]))]
  }

  // --- One level of the tree ------------------------------------------------------------------

  /** One pairing pass; an odd last node is promoted unchanged. */
  function PairUp(h: Hash, level: seq<Bytes>): (next: seq<Bytes>)
    ensures |next| == (|level| + 1) / 2
  {
    if |level| == 0 then []
    else if |level| == 1 then [level[0]]
    else [NodeHash(h, level[0], level[1])] + PairUp(h, level[2..])
  }

  lemma PairUpHead(h: Hash, level: seq<Bytes>)
    requires |level| > 1
    ensures PairUp(h, level) == [NodeHash(h, level[0], level[1])] + PairUp(h, level[2..])
  {
    hide NodeHash;
  }

  lemma PairUpFirst(h: Hash, level: seq<Bytes>)
    requires level != []
    ensures PairUp(h, level) != []
    ensures PairUp(h, level)[0] == if |level| > 1 then NodeHash(h, level[0], level[1]) else level[0]
  {
    hide NodeHash;
  }

  lemma ConsConcat<T>(x: T, xs: seq<T>, ys: seq<T>)
    ensures [x] + (xs + ys) == ([x] + xs) + ys
  {}

  /** Pairing an even prefix and the rest apart is pairing the whole. */
  lemma {:induction false} PairUpSplits(h: Hash, level: seq<Bytes>, k: nat)
    requires k % 2 == 0 && k <= |level|
    ensures PairUp(h, level) == PairUp(h, level[..k]) + PairUp(h, level[k..])
    decreases k
  {
    if k == 0 {
      assert level[..0] == [] && level[0..] == level;
    } else {
      hide PairUp, NodeHash;
      var start, rest := level[..k], level[2..];
      PairUpSplits(h, rest, k - 2);
      PairUpHead(h, level);
      PairUpHead(h, start);
      assert rest[..k - 2] == start[2..] && rest[k - 2..] == level[k..];
      assert start[0] == level[0] && start[1] == level[1];
      ConsConcat(NodeHash(h, level[0], level[1]), PairUp(h, start[2..]), PairUp(h, level[k..]));
    }
  }

  lemma {:induction false} PairUpAt(h: Hash, level: seq<Bytes>, i: nat, j: nat)
    requires j == 2 * i && j < |level|
    ensures i < |PairUp(h, level)|
    ensures PairUp(h, level)[i] == if j + 1 < |level| then NodeHash(h, level[j], level[j + 1]) else level[j]
  {
    hide NodeHash, PairUp;
    var from := level[j..];
    PairUpSplits(h, level, j);
    PairUpFirst(h, from);
    assert from[0] == level[j];
    assert j + 1 < |level| ==> from[1] == level[j + 1];
    AfterPrefix(PairUp(h, level[..j]), PairUp(h, from));
  }

  lemma AfterPrefix<T>(xs: seq<T>, ys: seq<T>)
    requires ys != []
    ensures (xs + ys)[|xs|] == ys[0]
  {}

  lemma {:induction false} SplitFromHalves(n: nat, k: nat)
    requires 1 <= k && 2 * k < n
    ensures SplitFrom(n, 2 * k) == 2 * SplitFrom((n + 1) / 2, k)
    decreases n - k
  {
    if 4 * k < n {
      SplitFromHalves(n, 2 * k);
    }
  }

  /** Above two leaves the split is even, and halves with the level. */
  lemma SplitHalves(n: nat)
    requires n > 2
    ensures Split(n) == 2 * Split((n + 1) / 2)
  {
    SplitFromHalves(n, 1);
  }

  lemma PairUpSingle(h: Hash, level: seq<Bytes>)
    requires |level| == 1
    ensures PairUp(h, level) == level
  {}

  /** The halves of the next level are the next levels of the halves. */
  lemma NextHalves(h: Hash, level: seq<Bytes>)
    requires |level| > 2
    ensures Split(|level|) % 2 == 0
    ensures |PairUp(h, level)| > 1 && Split(|PairUp(h, level)|) == Split(|level|) / 2
    ensures PairUp(h, level)[..Split(|level|) / 2] == PairUp(h, level[..Split(|level|)])
    ensures PairUp(h, level)[Split(|level|) / 2..] == PairUp(h, level[Split(|level|)..])
  {
    hide PairUp, Split;
    SplitHalves(|level|);
    var half := Split((|level| + 1) / 2);
    HalvesOf(h, level, half);
  }

  lemma HalvesOf(h: Hash, level: seq<Bytes>, half: nat)
    requires 2 * half <= |level|
    ensures PairUp(h, level)[..half] == PairUp(h, level[..2 * half])
    ensures PairUp(h, level)[half..] == PairUp(h, level[2 * half..])
  {
    hide PairUp;
    PairUpSplits(h, level, 2 * half);
  }

  /** One pairing pass preserves the RFC 6962 tree hash. */
  lemma {:induction false} PairUpPreservesMth(h: Hash, level: seq<Bytes>)
    requires |level| > 0
    ensures Mth(h, PairUp(h, level)) == Mth(h, level)
    decreases |level|
  {
    if |level| == 1 {
      PairUpSingle(h, level);
    } else if |level| == 2 {
      assert Split(2) == 1;
      assert Mth(h, level[..1]) == level[0] && Mth(h, level[1..]) == level[1];
    } else {
      hide PairUp, Split;
      var k := Split(|level|);
      NextHalves(h, level);
      PairUpPreservesMth(h, level[..k]);
      PairUpPreservesMth(h, level[k..]);
    }
  }

  // --- The root as computed -------------------------------------------------------------------

  /** The inner loop of `merkleRoot` and `inclusionProof`. */
  method NextLevel(h: Hash, level: seq<Bytes>) returns (next: seq<Bytes>)
    ensures next == PairUp(h, level)
  {
    hide PairUp, NodeHash;
    next := [];
    var i := 0;
    while i < |level|
      invariant i % 2 == 0 && i <= |level| + 1 && |next| == i / 2
      invariant forall j :: 0 <= j < |next| ==> next[j] == PairUp(h, level)[j]
    {
      PairUpAt(h, level, i / 2, i);
      if i + 1 < |level| {
        next := next + [NodeHash(h, level[i], level[i + 1])];
      } else {
        next := next + [level[i]];
      }
      i := i + 2;
    }
  }

  /** `merkleRoot`: the level-by-level root is the RFC 6962 tree hash. */
  method MerkleRoot(h: Hash, leaves: seq<Bytes>) returns (root: Bytes)
    ensures root == Mth(h, leaves)
  {
    if |leaves| == 0 {
      return h([]);
    }
    var level := leaves;
    while |level| > 1
      invariant |level| > 0
      invariant Mth(h, level) == Mth(h, leaves)
      decreases |level|
    {
      PairUpPreservesMth(h, level);
      level := NextLevel(h, level);
    }
    root := level[0];
  }

  // --- Audit paths as computed ----------------------------------------------------------------

  datatype InclusionProof = InclusionProof(index: nat, treeSize: nat, path: seq<Step>)

  /** The sibling of node `i` on `level`, if it has one. */
  function SiblingStep(level: seq<Bytes>, i: nat): seq<Step>
    requires i < |level|
  {
    if i % 2 == 1 then [Step(OnLeft, level[i - 1])]
    else if i + 1 < |level| then [Step(OnRight, level[i + 1])]
    else []
  }

  lemma AuditPathSplits(h: Hash, leaves: seq<Bytes>, m: nat)
    requires m < |leaves| && |leaves| > 1
    ensures var k := Split(|leaves|);
            AuditPath(h, leaves, m) ==
              if m < k then AuditPath(h, leaves[..k], m) + [Step(OnRight, Mth(h, leaves[k..]))]
              else AuditPath(h, leaves[k..], m - k) + [Step(OnLeft, Mth(h, leaves[..k]))]
  {}

  /** Climbing one level: the sibling, then the parent's path. */
  lemma {:induction false} PathClimbs(h: Hash, level: seq<Bytes>, i: nat)
    requires i < |level|
    ensures AuditPath(h, level, i) == SiblingStep(level, i) + AuditPath(h, PairUp(h, level), i / 2)
    decreases |level|
  {
    if |level| == 1 {
      PairUpSingle(h, level);
    } else if |level| == 2 {
      assert Split(2) == 1;
      assert level[..1] == [level[0]] && level[1..] == [level[1]];
    } else {
      PathClimbsHalves(h, level, i);
    }
  }

  lemma {:induction false} PathClimbsHalves(h: Hash, level: seq<Bytes>, i: nat)
    requires i < |level| && |level| > 2
    ensures AuditPath(h, level, i) == SiblingStep(level, i) + AuditPath(h, PairUp(h, level), i / 2)
    decreases |level|, 0
  {
    hide AuditPath, PairUp, Split, Mth, SiblingStep;
    var k, next := Split(|level|), PairUp(h, level);
    NextHalves(h, level);
    AuditPathSplits(h, level, i);
    AuditPathSplits(h, next, i / 2);
    if i < k {
      PathClimbs(h, level[..k], i);
      PairUpPreservesMth(h, level[k..]);
      SiblingBefore(level, k, i);
      Associative(SiblingStep(level, i), AuditPath(h, next[..k / 2], i / 2), [Step(OnRight, Mth(h, level[k..]))]);
    } else {
      PathClimbs(h, level[k..], i - k);
      PairUpPreservesMth(h, level[..k]);
      SiblingAfter(level, k, i);
      Associative(SiblingStep(level, i), AuditPath(h, next[k / 2..], i / 2 - k / 2), [Step(OnLeft, Mth(h, level[..k]))]);
    }
  }

  lemma Associative<T>(a: seq<T>, b: seq<T>, c: seq<T>)
    ensures (a + b) + c == a + (b + c)
  {}

  lemma SiblingBefore(level: seq<Bytes>, k: nat, i: nat)
    requires k % 2 == 0 && i < k <= |level|
    ensures SiblingStep(level[..k], i) == SiblingStep(level, i)
  {}

  lemma SiblingAfter(level: seq<Bytes>, k: nat, i: nat)
    requires k % 2 == 0 && k <= i < |level|
    ensures SiblingStep(level[k..], i - k) == SiblingStep(level, i)
    ensures (i - k) / 2 == i / 2 - k / 2
  {}

  /** `inclusionProof`: the audit path of section 2.1.1, or a RangeError. */
  method ProveInclusion(h: Hash, leaves: seq<Bytes>, index: int) returns (r: Option<InclusionProof>)
    ensures r.Some? <==> 0 <= index < |leaves|
    ensures r.Some? ==> r.value == InclusionProof(index, |leaves|, AuditPath(h, leaves, index))
  {
    if index < 0 || index >= |leaves| {
      return None;
    }
    var path: seq<Step> := [];
    var level := leaves;
    var i: nat := index;
    while |level| > 1
      invariant i < |level|
      invariant AuditPath(h, leaves, index) == path + AuditPath(h, level, i)
      decreases |level|
    {
      hide AuditPath, PairUp;
      PathClimbs(h, level, i);
      Associative(path, SiblingStep(level, i), AuditPath(h, PairUp(h, level), i / 2));
      ghost var climbed := path + SiblingStep(level, i);
      var isRight := i % 2 == 1;
      if isRight {
        path := path + [Step(OnLeft, level[i - 1])];
      } else if i + 1 < |level| {
        path := path + [Step(OnRight, level[i + 1])];
      }
      assert path == climbed;
      level := NextLevel(h, level);
      i := i / 2;
    }
    r := Some(InclusionProof(index, |leaves|, path));
  }

  /** Two to the `n`. */
  function Pow2(n: nat): nat {
    if n == 0 then 1 else 2 * Pow2(n - 1)
  }

  lemma {:induction false} PowerBetween(n: nat, k: nat, c: nat)
    requires 1 <= k < n && k == Pow2(c)
    ensures exists d :: d >= c && SplitFrom(n, k) == Pow2(d)
    decreases n - k
  {
    if 2 * k < n {
      PowerBetween(n, 2 * k, c + 1);
      var d :| d >= c + 1 && SplitFrom(n, 2 * k) == Pow2(d);
      assert d >= c && SplitFrom(n, k) == Pow2(d);
    } else {
      assert SplitFrom(n, k) == Pow2(c);
    }
  }

  lemma {:induction false} Pow2Monotone(a: nat, b: nat)
    requires Pow2(a) < Pow2(b)
    ensures a < b
  {
    if a >= b {
      Pow2Increases(b, a);
    }
  }

  lemma {:induction false} Pow2Increases(a: nat, b: nat)
    requires a <= b
    ensures 1 <= Pow2(a) <= Pow2(b)
    decreases b
  {
    if a < b {
      Pow2Increases(a, b - 1);
    } else if b > 0 {
      Pow2Increases(b - 1, b - 1);
    }
  }

  /** An audit path has at most ceil(log2 n) steps: no shorter tree could hold n leaves. */
  lemma {:induction false} PathLength(h: Hash, leaves: seq<Bytes>, m: nat, c: nat)
    requires m < |leaves| <= Pow2(c)
    ensures |AuditPath(h, leaves, m)| <= c
    decreases |leaves|
  {
    if |leaves| > 1 {
      var k := Split(|leaves|);
      PowerBetween(|leaves|, 1, 0);
      var d :| d >= 0 && Split(|leaves|) == Pow2(d);
      Pow2Monotone(d, c);
      Pow2Increases(d, c - 1);
      if m < k {
        PathLength(h, leaves[..k], m, c - 1);
      } else {
        PathLength(h, leaves[k..], m - k, c - 1);
      }
    }
  }

  // --- Verification ---------------------------------------------------------------------------

  /** The root a leaf and a path lead to. */
  function Climb(h: Hash, leaf: Bytes, path: seq<Step>): Bytes {
    if path == [] then leaf
    else
      var below := Climb(h, leaf, path[..|path| - 1]);
      var step := path[|path| - 1];
      if step.side == OnLeft then NodeHash(h, step.hash, below) else NodeHash(h, below, step.hash)
  }

  /** `verifyInclusion` reads the path only; the index and the tree size are not checked. */
  method VerifyInclusion(h: Hash, leaf: Bytes, proof: InclusionProof, root: Bytes) returns (ok: bool)
    ensures ok <==> Climb(h, leaf, proof.path) == root
  {
    var acc := leaf;
    var i := 0;
    while i < |proof.path|
      invariant i <= |proof.path|
      invariant acc == Climb(h, leaf, proof.path[..i])
    {
      var step := proof.path[i];
      assert proof.path[..i + 1][..i] == proof.path[..i];
      acc := if step.side == OnLeft then NodeHash(h, step.hash, acc) else NodeHash(h, acc, step.hash);
      i := i + 1;
    }
    assert proof.path[..|proof.path|] == proof.path;
    ok := acc == root;
  }

  lemma ClimbLast(h: Hash, leaf: Bytes, path: seq<Step>, step: Step)
    ensures Climb(h, leaf, path + [step]) ==
            if step.side == OnLeft then NodeHash(h, step.hash, Climb(h, leaf, path))
            else NodeHash(h, Climb(h, leaf, path), step.hash)
  {
    assert (path + [step])[..|path|] == path;
  }

  /** Completeness: every proof leads to the root of its tree. */
  lemma {:induction false} PathLeadsToRoot(h: Hash, leaves: seq<Bytes>, m: nat)
    requires m < |leaves|
    ensures Climb(h, leaves[m], AuditPath(h, leaves, m)) == Mth(h, leaves)
    decreases |leaves|
  {
    if |leaves| > 1 {
      var k := Split(|leaves|);
      if m < k {
        PathLeadsToRoot(h, leaves[..k], m);
        ClimbLast(h, leaves[m], AuditPath(h, leaves[..k], m), Step(OnRight, Mth(h, leaves[k..])));
      } else {
        PathLeadsToRoot(h, leaves[k..], m - k);
        ClimbLast(h, leaves[m], AuditPath(h, leaves[k..], m - k), Step(OnLeft, Mth(h, leaves[..k])));
      }
    }
  }
}
