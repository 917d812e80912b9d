/**
 What a Merkle root binds. Leaf hashes carry the prefix 0x00 and node hashes 0x01, and an odd node is
 never duplicated; so one root has one list of entries, and a proof is accepted only at the place of
 the entry it proves, unless two of the hashed byte strings collide.
 */
module MerkleBinding {
  import opened Hashes
  import opened Merkle

  function LeafHashes(h: Hash, entries: seq<Bytes>): (leaves: seq<Bytes>)
    ensures |leaves| == |entries|
    ensures forall i :: 0 <= i < |leaves| ==> leaves[i] == LeafHash(h, entries[i])
  {
    seq(|entries|, i requires 0 <= i < |entries| => LeafHash(h, entries[i]))
  }

  lemma LeafHashesSlice(h: Hash, entries: seq<Bytes>, k: nat)
    requires k <= |entries|
    ensures LeafHashes(h, entries)[..k] == LeafHashes(h, entries[..k])
    ensures LeafHashes(h, entries)[k..] == LeafHashes(h, entries[k..])
  {}

  function LeafInput(entry: Bytes): Bytes {
    [0x00] + entry
  }

  function NodeInput(left: Bytes, right: Bytes): Bytes {
    [0x01] + left + right
  }

  /** The byte strings hashed to compute the tree over `leaves`. */
  ghost function NodeInputs(h: Hash, leaves: seq<Bytes>): set<Bytes> {
    if |leaves| == 0 then {[]}
    else if |leaves| == 1 then {}
    else
      var k := Split(|leaves|);
      {NodeInput(Mth(h, leaves[..k]), Mth(h, leaves[k..]))}
      + NodeInputs(h, leaves[..k]) + NodeInputs(h, leaves[k..])
  }

  ghost function LeafInputs(entries: seq<Bytes>): set<Bytes> {
    set i | 0 <= i < |entries| :: LeafInput(entries[i])
  }

  /** Everything hashed to compute the root over `entries`. */
  ghost function TreeInputs(h: Hash, entries: seq<Bytes>): set<Bytes> {
    LeafInputs(entries) + NodeInputs(h, LeafHashes(h, entries))
  }

  /** Everything hashed to check a path for `entry`. */
  ghost function PathInputs(h: Hash, leaf: Bytes, path: seq<Step>): set<Bytes> {
    if path == [] then {}
    else
      var init, step := path[..|path| - 1], path[|path| - 1];
      var below := Climb(h, leaf, init);
      {if step.side == OnLeft then NodeInput(step.hash, below) else NodeInput(below, step.hash)}
      + PathInputs(h, leaf, init)
  }

  ghost predicate AllDigests(leaves: seq<Bytes>) {
    forall i :: 0 <= i < |leaves| ==> |leaves[i]| == DIGEST_BYTES
  }

  lemma {:induction false} MthLength(h: Hash, leaves: seq<Bytes>)
    requires AllDigests(leaves)
    ensures |Mth(h, leaves)| == DIGEST_BYTES
  {}

  lemma {:induction false} ClimbLength(h: Hash, leaf: Bytes, path: seq<Step>)
    requires |leaf| == DIGEST_BYTES
    ensures |Climb(h, leaf, path)| == DIGEST_BYTES
  {}

  /** A node hash fixes its two children. */
  lemma NodeInputInjective(l: Bytes, r: Bytes, m: Bytes, s: Bytes)
    requires NodeInput(l, r) == NodeInput(m, s)
    requires |l| == |m| || |r| == |s|
    ensures l == m && r == s
  {
    var x, y := NodeInput(l, r), NodeInput(m, s);
    assert |x| == 1 + |l| + |r| && |y| == 1 + |m| + |s|;
    assert l == x[1..1 + |l|] && m == y[1..1 + |m|];
    assert r == x[1 + |l|..] && s == y[1 + |m|..];
  }

  lemma Collide(h: Hash, x: Bytes, y: Bytes, hashed: set<Bytes>)
    requires x in hashed && y in hashed && h(x) == h(y)
    ensures x == y || CollisionAmong(h, hashed)
  {}

  /** A leaf hash is a node hash, or the empty hash, only by a collision. */
  lemma PrefixesSeparate(entry: Bytes, l: Bytes, r: Bytes)
    ensures LeafInput(entry) != NodeInput(l, r)
    ensures LeafInput(entry) != [] && NodeInput(l, r) != []
  {
    assert LeafInput(entry)[0] == 0x00 && NodeInput(l, r)[0] == 0x01;
  }

  // --- One root, one list ---------------------------------------------------------------------

  lemma LeafInputsSlice(entries: seq<Bytes>, k: nat)
    requires k <= |entries|
    ensures LeafInputs(entries[..k]) <= LeafInputs(entries)
    ensures LeafInputs(entries[k..]) <= LeafInputs(entries)
  {
    forall x | x in LeafInputs(entries[..k]) ensures x in LeafInputs(entries) {
      var i :| 0 <= i < k && LeafInput(entries[..k][i]) == x;
      assert entries[i] == entries[..k][i];
    }
    forall x | x in LeafInputs(entries[k..]) ensures x in LeafInputs(entries) {
      var i :| 0 <= i < |entries| - k && LeafInput(entries[k..][i]) == x;
      assert entries[k + i] == entries[k..][i];
    }
  }

  /** The inputs of both halves, and of the root node, are inputs of the tree. */
  lemma TreeInputsSplit(h: Hash, entries: seq<Bytes>)
    requires |entries| > 1
    ensures var k := Split(|entries|);
            && TreeInputs(h, entries[..k]) <= TreeInputs(h, entries)
            && TreeInputs(h, entries[k..]) <= TreeInputs(h, entries)
            && NodeInput(Mth(h, LeafHashes(h, entries[..k])), Mth(h, LeafHashes(h, entries[k..]))) in TreeInputs(h, entries)
  {
    var k := Split(|entries|);
    LeafHashesSlice(h, entries, k);
    LeafInputsSlice(entries, k);
  }

  ghost function Root(h: Hash, entries: seq<Bytes>): Bytes {
    Mth(h, LeafHashes(h, entries))
  }

  /** The smallest trees, byte by byte: nothing, one entry, and three, where the odd one is promoted unchanged. */
  lemma {:induction false} SmallRoots(h: Hash, a: Bytes, b: Bytes, c: Bytes)
    ensures Root(h, []) == h([])
    ensures Root(h, [a]) == h([0] + a)
    ensures Root(h, [a, b, c]) == h([1] + h([1] + h([0] + a) + h([0] + b)) + h([0] + c))
  {
    var x, y, z := LeafHash(h, a), LeafHash(h, b), LeafHash(h, c);
    assert x == h([0] + a) && y == h([0] + b) && z == h([0] + c);
    assert LeafHashes(h, [a, b, c]) == [x, y, z] && LeafHashes(h, [a]) == [x];
    hide LeafHash, LeafHashes;
    ThreeLeaves(h, x, y, z);
  }

  lemma ThreeLeaves(h: Hash, x: Bytes, y: Bytes, z: Bytes)
    ensures Mth(h, [x, y, z]) == h([1] + h([1] + x + y) + z)
    ensures Mth(h, [x]) == x
  {
    assert NodeHash(h, x, y) == h([1] + x + y);
    assert NodeHash(h, NodeHash(h, x, y), z) == h([1] + h([1] + x + y) + z);
    hide NodeHash;
    SplitsOf();
    hide Split;
    TwoLeaves(h, x, y);
    assert [x, y, z][..2] == [x, y] && [x, y, z][2..] == [z];
    assert Mth(h, [z]) == z;
  }

  lemma TwoLeaves(h: Hash, x: Bytes, y: Bytes)
    ensures Mth(h, [x, y]) == NodeHash(h, x, y)
  {
    hide NodeHash;
    SplitsOf();
    hide Split;
    assert [x, y][..1] == [x] && [x, y][1..] == [y];
    assert Mth(h, [x]) == x && Mth(h, [y]) == y;
  }

  lemma SplitsOf()
    ensures Split(2) == 1 && Split(3) == 2
  {}

  lemma RootOfMany(h: Hash, entries: seq<Bytes>)
    requires |entries| > 1
    ensures var k := Split(|entries|);
            Root(h, entries) == h(NodeInput(Root(h, entries[..k]), Root(h, entries[k..])))
  {
    LeafHashesSlice(h, entries, Split(|entries|));
  }

  lemma RootLength(h: Hash, entries: seq<Bytes>)
    ensures |Root(h, entries)| == DIGEST_BYTES
  {
    MthLength(h, LeafHashes(h, entries));
  }

  /** What is hashed last to compute a root. */
  ghost function RootInput(h: Hash, entries: seq<Bytes>): Bytes {
    if |entries| == 0 then []
    else if |entries| == 1 then LeafInput(entries[0])
    else NodeInput(Root(h, entries[..Split(|entries|)]), Root(h, entries[Split(|entries|)..]))
  }

  lemma RootInputHashed(h: Hash, entries: seq<Bytes>)
    ensures Root(h, entries) == h(RootInput(h, entries))
    ensures RootInput(h, entries) in TreeInputs(h, entries)
  {
    if |entries| > 1 {
      RootOfMany(h, entries);
      TreeInputsSplit(h, entries);
    } else if |entries| == 1 {
      assert LeafInput(entries[0]) in LeafInputs(entries);
    }
  }

  /** Two lists of entries with one root are one list, whatever their lengths, or something collides. */
  lemma {:induction false} RootPinsEntries(h: Hash, a: seq<Bytes>, b: seq<Bytes>)
    requires Root(h, a) == Root(h, b)
    ensures a == b || CollisionAmong(h, TreeInputs(h, a) + TreeInputs(h, b))
    decreases |a|
  {
    var all := TreeInputs(h, a) + TreeInputs(h, b);
    RootInputHashed(h, a);
    RootInputHashed(h, b);
    hide TreeInputs, Root, CollisionAmong;
    Collide(h, RootInput(h, a), RootInput(h, b), all);
    if RootInput(h, a) == RootInput(h, b) {
      if |a| > 1 && |b| > 1 {
        RootPinsHalves(h, a, b);
      } else if |a| == 1 && |b| == 1 {
        assert a[0] == LeafInput(a[0])[1..] == LeafInput(b[0])[1..] == b[0];
        assert a == [a[0]] && b == [b[0]];
      } else if |a| == 1 && |b| > 1 {
        PrefixesSeparate(a[0], Root(h, b[..Split(|b|)]), Root(h, b[Split(|b|)..]));
      } else if |b| == 1 && |a| > 1 {
        PrefixesSeparate(b[0], Root(h, a[..Split(|a|)]), Root(h, a[Split(|a|)..]));
      }
    }
  }

  lemma HalfRootsAgree(h: Hash, a: seq<Bytes>, b: seq<Bytes>)
    requires |a| > 1 && |b| > 1 && RootInput(h, a) == RootInput(h, b)
    ensures Root(h, a[..Split(|a|)]) == Root(h, b[..Split(|b|)])
    ensures Root(h, a[Split(|a|)..]) == Root(h, b[Split(|b|)..])
  {
    hide Root;
    RootLength(h, a[..Split(|a|)]);
    RootLength(h, b[..Split(|b|)]);
    NodeInputInjective(Root(h, a[..Split(|a|)]), Root(h, a[Split(|a|)..]),
                       Root(h, b[..Split(|b|)]), Root(h, b[Split(|b|)..]));
  }

  lemma Halves<T>(s: seq<T>, k: nat)
    requires k <= |s|
    ensures s[..k] + s[k..] == s
  {}

  lemma {:induction false} RootPinsHalves(h: Hash, a: seq<Bytes>, b: seq<Bytes>)
    requires |a| > 1 && |b| > 1 && RootInput(h, a) == RootInput(h, b)
    ensures a == b || CollisionAmong(h, TreeInputs(h, a) + TreeInputs(h, b))
    decreases |a|, 0
  {
    hide TreeInputs, Root, Split, CollisionAmong, NodeInput, RootInput;
    var k, m := Split(|a|), Split(|b|);
    HalfRootsAgree(h, a, b);
    Halves(a, k);
    Halves(b, m);
    if a[..k] != b[..m] {
      RootPinsEntries(h, a[..k], b[..m]);
      InputsOfHalves(h, a, b);
      CollisionMonotone(h, TreeInputs(h, a[..k]) + TreeInputs(h, b[..m]), TreeInputs(h, a) + TreeInputs(h, b));
    } else if a[k..] != b[m..] {
      RootPinsEntries(h, a[k..], b[m..]);
      InputsOfHalves(h, a, b);
      CollisionMonotone(h, TreeInputs(h, a[k..]) + TreeInputs(h, b[m..]), TreeInputs(h, a) + TreeInputs(h, b));
    }
  }

  lemma InputsOfHalves(h: Hash, a: seq<Bytes>, b: seq<Bytes>)
    requires |a| > 1 && |b| > 1
    ensures TreeInputs(h, a[..Split(|a|)]) + TreeInputs(h, b[..Split(|b|)]) <= TreeInputs(h, a) + TreeInputs(h, b)
    ensures TreeInputs(h, a[Split(|a|)..]) + TreeInputs(h, b[Split(|b|)..]) <= TreeInputs(h, a) + TreeInputs(h, b)
  {
    hide TreeInputs;
    TreeInputsSplit(h, a);
    TreeInputsSplit(h, b);
  }

  /**
   Without the leaf prefix the claim fails: a two-leaf tree and the one-leaf tree over its root share
   a root.
   */
  lemma RawListsShareRoot(h: Hash, l: Bytes, r: Bytes)
    ensures Mth(h, [l, r]) == Mth(h, [NodeHash(h, l, r)])
    ensures [l, r] != [NodeHash(h, l, r)]
  {
    assert Split(2) == 1;
    assert [l, r][..1] == [l] && [l, r][1..] == [r];
    assert |[l, r]| != |[NodeHash(h, l, r)]|;
  }

  lemma MthOfMany(h: Hash, leaves: seq<Bytes>)
    requires |leaves| > 1 && AllDigests(leaves)
    ensures var k := Split(|leaves|);
            var l, r := Mth(h, leaves[..k]), Mth(h, leaves[k..]);
            && Mth(h, leaves) == h(NodeInput(l, r)) && |l| == DIGEST_BYTES
            && AllDigests(leaves[..k]) && AllDigests(leaves[k..])
            && NodeInput(l, r) in NodeInputs(h, leaves)
            && NodeInputs(h, leaves[..k]) <= NodeInputs(h, leaves) && NodeInputs(h, leaves[k..]) <= NodeInputs(h, leaves)
  {
    MthLength(h, leaves[..Split(|leaves|)]);
  }

  lemma {:induction false} EqualLengthsPinRaw(h: Hash, a: seq<Bytes>, b: seq<Bytes>)
    requires AllDigests(a) && AllDigests(b) && |a| == |b| && Mth(h, a) == Mth(h, b)
    ensures a == b || CollisionAmong(h, NodeInputs(h, a) + NodeInputs(h, b))
    decreases |a|
  {
    if |a| == 1 {
      assert a == [a[0]] && b == [b[0]];
    } else if |a| > 1 {
      var k, all := Split(|a|), NodeInputs(h, a) + NodeInputs(h, b);
      MthOfMany(h, a);
      MthOfMany(h, b);
      hide Mth, NodeInputs, Split, AllDigests, CollisionAmong, NodeInput;
      Collide(h, NodeInput(Mth(h, a[..k]), Mth(h, a[k..])), NodeInput(Mth(h, b[..k]), Mth(h, b[k..])), all);
      if !CollisionAmong(h, all) {
        NodeInputInjective(Mth(h, a[..k]), Mth(h, a[k..]), Mth(h, b[..k]), Mth(h, b[k..]));
        EqualLengthsPinRaw(h, a[..k], b[..k]);
        EqualLengthsPinRaw(h, a[k..], b[k..]);
        if CollisionAmong(h, NodeInputs(h, a[..k]) + NodeInputs(h, b[..k])) {
          CollisionMonotone(h, NodeInputs(h, a[..k]) + NodeInputs(h, b[..k]), all);
        } else if CollisionAmong(h, NodeInputs(h, a[k..]) + NodeInputs(h, b[k..])) {
          CollisionMonotone(h, NodeInputs(h, a[k..]) + NodeInputs(h, b[k..]), all);
        }
        Halves(a, k);
        Halves(b, k);
      }
    }
  }

  /**
   What the leaf prefix adds: two raw lists of digests with one root are one list exactly when they
   are of one length, or two of the node inputs hashed collide.
   */
  lemma {:induction false} RawListsExact(h: Hash, a: seq<Bytes>, b: seq<Bytes>)
    requires AllDigests(a) && AllDigests(b) && Mth(h, a) == Mth(h, b)
    ensures (a == b <==> |a| == |b|) || CollisionAmong(h, NodeInputs(h, a) + NodeInputs(h, b))
  {
    if |a| == |b| {
      EqualLengthsPinRaw(h, a, b);
    }
  }

  // --- One proof, one place -------------------------------------------------------------------

  /** `leaf` is the hash of the node the path leads to from the root, and the siblings are the tree's. */
  ghost predicate IsNodeAt(h: Hash, leaves: seq<Bytes>, leaf: Bytes, path: seq<Step>)
    decreases |path|
  {
    if path == [] then leaf == Mth(h, leaves)
    else
      && |leaves| > 1
      && var k, init, step := Split(|leaves|), path[..|path| - 1], path[|path| - 1];
         if step.side == OnRight then step.hash == Mth(h, leaves[k..]) && IsNodeAt(h, leaves[..k], leaf, init)
         else step.hash == Mth(h, leaves[..k]) && IsNodeAt(h, leaves[k..], leaf, init)
  }

  /** Every node of the tree is accepted at its place, interior nodes included. */
  lemma {:induction false} NodesAreAccepted(h: Hash, leaves: seq<Bytes>, leaf: Bytes, path: seq<Step>)
    requires IsNodeAt(h, leaves, leaf, path)
    ensures Climb(h, leaf, path) == Mth(h, leaves)
    decreases |path|
  {
    if path != [] {
      var k, init, step := Split(|leaves|), path[..|path| - 1], path[|path| - 1];
      if step.side == OnRight {
        NodesAreAccepted(h, leaves[..k], leaf, init);
      } else {
        NodesAreAccepted(h, leaves[k..], leaf, init);
      }
    }
  }

  /** A digest other than a leaf is accepted too: the root itself, with the empty path. */
  lemma InteriorNodeAccepted(h: Hash, l: Bytes, r: Bytes)
    requires NodeHash(h, l, r) != l && NodeHash(h, l, r) != r
    ensures Climb(h, NodeHash(h, l, r), []) == Mth(h, [l, r])
    ensures NodeHash(h, l, r) !in [l, r]
  {
    assert Split(2) == 1;
    assert [l, r][..1] == [l] && [l, r][1..] == [r];
  }

  lemma ClimbTop(h: Hash, leaf: Bytes, path: seq<Step>)
    requires path != []
    ensures var init, step := path[..|path| - 1], path[|path| - 1];
            var input := if step.side == OnLeft then NodeInput(step.hash, Climb(h, leaf, init))
                         else NodeInput(Climb(h, leaf, init), step.hash);
            && Climb(h, leaf, path) == h(input)
            && input in PathInputs(h, leaf, path)
            && PathInputs(h, leaf, init) <= PathInputs(h, leaf, path)
  {}

  /**
   What is accepted is a node of the tree, with the tree's own siblings, or something collides. Only
   digests are considered: a path that stops at a node checks nothing below it.
   */
  lemma {:induction false} AcceptedIsNode(h: Hash, entries: seq<Bytes>, leaf: Bytes, path: seq<Step>)
    requires |leaf| == DIGEST_BYTES
    requires Climb(h, leaf, path) == Root(h, entries)
    ensures || IsNodeAt(h, LeafHashes(h, entries), leaf, path)
            || CollisionAmong(h, PathInputs(h, leaf, path) + TreeInputs(h, entries))
    decreases |path|
  {
    if path != [] {
      var all := PathInputs(h, leaf, path) + TreeInputs(h, entries);
      var init, step := path[..|path| - 1], path[|path| - 1];
      var below := Climb(h, leaf, init);
      var input := if step.side == OnLeft then NodeInput(step.hash, below) else NodeInput(below, step.hash);
      ClimbTop(h, leaf, path);
      ClimbLength(h, leaf, init);
      RootInputHashed(h, entries);
      Collide(h, input, RootInput(h, entries), all);
      if input == RootInput(h, entries) {
        if |entries| > 1 {
          AcceptedBelow(h, entries, leaf, path);
        } else if |entries| == 1 {
          PrefixesSeparate(entries[0], step.hash, below);
          PrefixesSeparate(entries[0], below, step.hash);
        }
      }
    }
  }

  /** The half of `entries` the last step of `path` goes up from, and the other one. */
  ghost function HalfBelow(entries: seq<Bytes>, path: seq<Step>): seq<Bytes>
    requires path != [] && |entries| > 1
  {
    if path[|path| - 1].side == OnLeft then entries[Split(|entries|)..] else entries[..Split(|entries|)]
  }

  ghost function HalfBeside(entries: seq<Bytes>, path: seq<Step>): seq<Bytes>
    requires path != [] && |entries| > 1
  {
    if path[|path| - 1].side == OnLeft then entries[..Split(|entries|)] else entries[Split(|entries|)..]
  }

  lemma NodeAtSplits(h: Hash, entries: seq<Bytes>, leaf: Bytes, path: seq<Step>)
    requires path != [] && |entries| > 1
    ensures IsNodeAt(h, LeafHashes(h, entries), leaf, path) <==>
            && path[|path| - 1].hash == Root(h, HalfBeside(entries, path))
            && IsNodeAt(h, LeafHashes(h, HalfBelow(entries, path)), leaf, path[..|path| - 1])
  {
    LeafHashesSlice(h, entries, Split(|entries|));
  }

  lemma InputsBelow(h: Hash, entries: seq<Bytes>, path: seq<Step>)
    requires path != [] && |entries| > 1
    ensures TreeInputs(h, HalfBelow(entries, path)) <= TreeInputs(h, entries)
    ensures |HalfBelow(entries, path)| < |entries|
  {
    hide TreeInputs;
    TreeInputsSplit(h, entries);
  }

  lemma SiblingsAgree(h: Hash, entries: seq<Bytes>, leaf: Bytes, path: seq<Step>)
    requires |leaf| == DIGEST_BYTES && path != [] && |entries| > 1
    requires var init, step := path[..|path| - 1], path[|path| - 1];
             RootInput(h, entries) == if step.side == OnLeft then NodeInput(step.hash, Climb(h, leaf, init))
                                      else NodeInput(Climb(h, leaf, init), step.hash)
    ensures path[|path| - 1].hash == Root(h, HalfBeside(entries, path))
    ensures Climb(h, leaf, path[..|path| - 1]) == Root(h, HalfBelow(entries, path))
  {
    hide Root, Climb, NodeInput;
    var init, step, k := path[..|path| - 1], path[|path| - 1], Split(|entries|);
    ClimbLength(h, leaf, init);
    RootLength(h, entries[..k]);
    RootLength(h, entries[k..]);
    if step.side == OnLeft {
      NodeInputInjective(step.hash, Climb(h, leaf, init), Root(h, entries[..k]), Root(h, entries[k..]));
    } else {
      NodeInputInjective(Climb(h, leaf, init), step.hash, Root(h, entries[..k]), Root(h, entries[k..]));
    }
  }

  lemma {:induction false} AcceptedBelow(h: Hash, entries: seq<Bytes>, leaf: Bytes, path: seq<Step>)
    requires |leaf| == DIGEST_BYTES && path != [] && |entries| > 1
    requires var init, step := path[..|path| - 1], path[|path| - 1];
             RootInput(h, entries) == if step.side == OnLeft then NodeInput(step.hash, Climb(h, leaf, init))
                                      else NodeInput(Climb(h, leaf, init), step.hash)
    ensures || IsNodeAt(h, LeafHashes(h, entries), leaf, path)
            || CollisionAmong(h, PathInputs(h, leaf, path) + TreeInputs(h, entries))
    decreases |path|, 0
  {
    SiblingsAgree(h, entries, leaf, path);
    hide TreeInputs, PathInputs, Root, Climb, NodeInput, RootInput, CollisionAmong, HalfBelow, HalfBeside;
    var init, half := path[..|path| - 1], HalfBelow(entries, path);
    NodeAtSplits(h, entries, leaf, path);
    hide IsNodeAt;
    AcceptedIsNode(h, half, leaf, init);
    if CollisionAmong(h, PathInputs(h, leaf, init) + TreeInputs(h, half)) {
      ClimbTop(h, leaf, path);
      InputsBelow(h, entries, path);
      CollisionMonotone(h, PathInputs(h, leaf, init) + TreeInputs(h, half),
                        PathInputs(h, leaf, path) + TreeInputs(h, entries));
    }
  }

  /** A leaf hash sits only at a leaf, and its path there is the audit path of RFC 6962. */
  lemma {:induction false} LeafNodeIsEntry(h: Hash, entries: seq<Bytes>, entry: Bytes, path: seq<Step>)
    requires IsNodeAt(h, LeafHashes(h, entries), LeafHash(h, entry), path)
    ensures || (exists m :: 0 <= m < |entries| && entries[m] == entry && path == AuditPath(h, LeafHashes(h, entries), m))
            || CollisionAmong(h, {LeafInput(entry)} + TreeInputs(h, entries))
    decreases |path|
  {
    var leaves := LeafHashes(h, entries);
    var all := {LeafInput(entry)} + TreeInputs(h, entries);
    if path == [] {
      hide CollisionAmong, TreeInputs;
      RootInputHashed(h, entries);
      Collide(h, LeafInput(entry), RootInput(h, entries), all);
      if |entries| > 1 {
        PrefixesSeparate(entry, Root(h, entries[..Split(|entries|)]), Root(h, entries[Split(|entries|)..]));
      } else if |entries| == 1 && LeafInput(entry) == LeafInput(entries[0]) {
        assert entry == LeafInput(entry)[1..] == LeafInput(entries[0])[1..] == entries[0];
        assert AuditPath(h, leaves, 0) == path;
      }
    } else {
      LeafNodeBelow(h, entries, entry, path);
    }
  }

  lemma RootIsMth(h: Hash, entries: seq<Bytes>)
    ensures Root(h, entries) == Mth(h, LeafHashes(h, entries))
  {}

  lemma AuditPathRight(h: Hash, entries: seq<Bytes>, m: nat)
    requires |entries| > 1 && m < |entries[Split(|entries|)..]|
    ensures var k := Split(|entries|);
            AuditPath(h, LeafHashes(h, entries), k + m)
            == AuditPath(h, LeafHashes(h, entries[k..]), m) + [Step(OnLeft, Root(h, entries[..k]))]
  {
    hide *;
    LeafHashesSlice(h, entries, Split(|entries|));
    RootIsMth(h, entries[..Split(|entries|)]);
    AuditPathSplits(h, LeafHashes(h, entries), Split(|entries|) + m);
  }

  lemma AuditPathLeft(h: Hash, entries: seq<Bytes>, m: nat)
    requires |entries| > 1 && m < Split(|entries|)
    ensures var k := Split(|entries|);
            AuditPath(h, LeafHashes(h, entries), m)
            == AuditPath(h, LeafHashes(h, entries[..k]), m) + [Step(OnRight, Root(h, entries[k..]))]
  {
    hide *;
    LeafHashesSlice(h, entries, Split(|entries|));
    RootIsMth(h, entries[Split(|entries|)..]);
    AuditPathSplits(h, LeafHashes(h, entries), m);
  }

  /** Entry `m` of the half below is an entry of the whole, and its path there goes one step further. */
  lemma AuditPathBelow(h: Hash, entries: seq<Bytes>, path: seq<Step>, m: nat)
    requires path != [] && |entries| > 1 && m < |HalfBelow(entries, path)|
    requires path[|path| - 1].hash == Root(h, HalfBeside(entries, path))
    requires path[..|path| - 1] == AuditPath(h, LeafHashes(h, HalfBelow(entries, path)), m)
    ensures exists n :: 0 <= n < |entries| && entries[n] == HalfBelow(entries, path)[m]
                        && path == AuditPath(h, LeafHashes(h, entries), n)
  {
    hide Split, Mth, AuditPath, LeafHashes, Root;
    var k, init, step := Split(|entries|), path[..|path| - 1], path[|path| - 1];
    assert path == init + [step];
    if step.side == OnLeft {
      AuditPathRight(h, entries, m);
      assert entries[k + m] == entries[k..][m];
    } else {
      AuditPathLeft(h, entries, m);
      assert entries[m] == entries[..k][m];
    }
  }

  lemma {:induction false} LeafNodeBelow(h: Hash, entries: seq<Bytes>, entry: Bytes, path: seq<Step>)
    requires IsNodeAt(h, LeafHashes(h, entries), LeafHash(h, entry), path) && path != []
    ensures || (exists m :: 0 <= m < |entries| && entries[m] == entry && path == AuditPath(h, LeafHashes(h, entries), m))
            || CollisionAmong(h, {LeafInput(entry)} + TreeInputs(h, entries))
    decreases |path|, 0
  {
    assert |entries| > 1;
    NodeAtSplits(h, entries, LeafHash(h, entry), path);
    hide TreeInputs, Root, HalfBelow, HalfBeside, IsNodeAt, CollisionAmong, AuditPath, LeafHash;
    var init, half := path[..|path| - 1], HalfBelow(entries, path);
    LeafNodeIsEntry(h, half, entry, init);
    if CollisionAmong(h, {LeafInput(entry)} + TreeInputs(h, half)) {
      InputsBelow(h, entries, path);
      CollisionMonotone(h, {LeafInput(entry)} + TreeInputs(h, half), {LeafInput(entry)} + TreeInputs(h, entries));
    } else {
      var m :| 0 <= m < |half| && half[m] == entry && init == AuditPath(h, LeafHashes(h, half), m);
      AuditPathBelow(h, entries, path, m);
    }
  }

  /**
   Soundness and non-malleability: an entry's leaf hash and a path accepted against a root come from
   that entry's own place in the list, and the path is that place's audit path; or something collides.
   */
  lemma {:induction false} AcceptedProofIsAuditPath(h: Hash, entries: seq<Bytes>, entry: Bytes, path: seq<Step>)
    requires Climb(h, LeafHash(h, entry), path) == Root(h, entries)
    ensures || (exists m :: 0 <= m < |entries| && entries[m] == entry && path == AuditPath(h, LeafHashes(h, entries), m))
            || CollisionAmong(h, {LeafInput(entry)} + PathInputs(h, LeafHash(h, entry), path) + TreeInputs(h, entries))
  {
    var leaf := LeafHash(h, entry);
    var all := {LeafInput(entry)} + PathInputs(h, leaf, path) + TreeInputs(h, entries);
    hide CollisionAmong, TreeInputs, PathInputs, IsNodeAt;
    AcceptedIsNode(h, entries, leaf, path);
    if CollisionAmong(h, PathInputs(h, leaf, path) + TreeInputs(h, entries)) {
      CollisionMonotone(h, PathInputs(h, leaf, path) + TreeInputs(h, entries), all);
    } else {
      LeafNodeIsEntry(h, entries, entry, path);
      if CollisionAmong(h, {LeafInput(entry)} + TreeInputs(h, entries)) {
        CollisionMonotone(h, {LeafInput(entry)} + TreeInputs(h, entries), all);
      }
    }
  }

  /** Completeness, from the other side: every entry's audit path is accepted. */
  lemma {:induction false} AuditPathAccepted(h: Hash, entries: seq<Bytes>, m: nat)
    requires m < |entries|
    ensures Climb(h, LeafHash(h, entries[m]), AuditPath(h, LeafHashes(h, entries), m)) == Root(h, entries)
  {
    PathLeadsToRoot(h, LeafHashes(h, entries), m);
  }
}
