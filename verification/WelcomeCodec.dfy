/** The Welcome wire form: a snapshot of a whole key tree as seen by one leaf. */
module WelcomeCodec {
  import opened Common
  import TreeMath

  const MAX_LEAVES: nat := 8192
  const MAX_PATH_KEYS: nat := 64
  const MAX_CIPHERTEXT: nat := 64 * (4096 + 8) + 4096

  datatype PathKey = PathKey(index: nat, publicKey: Bytes, encrypted: Bytes)
  datatype NodeKey = NodeKey(index: nat, publicKey: Option<Bytes>)
  datatype Welcome = Welcome(
    version: nat, generation: nat, numLeaves: nat, leafIndex: nat, pathKeys: seq<PathKey>, nodes: seq<NodeKey>,
    treeHash: Bytes)

  function Width(w: Welcome): int { 2 * w.numLeaves - 1 }

  function PathIndices(keys: seq<PathKey>): seq<nat> { seq(|keys|, i requires 0 <= i < |keys| => keys[i].index) }
  function NodeIndices(nodes: seq<NodeKey>): seq<nat> { seq(|nodes|, i requires 0 <= i < |nodes| => nodes[i].index) }

  /** Every tree index a Welcome mentions, in the order it is read. */
  function Mentioned(w: Welcome): seq<nat> { [w.leafIndex] + PathIndices(w.pathKeys) + NodeIndices(w.nodes) }

  // ---------------------------------------------------------------- what is accepted

  predicate HeaderOk(w: Welcome, localRecovery: bool) {
    && w.version == 2
    && 1 <= w.generation <= 0xffff_ffff
    && 2 <= w.numLeaves <= MAX_LEAVES
    && w.leafIndex < Width(w) && w.leafIndex % 2 == 0
    && (localRecovery || w.leafIndex == 2 * (w.numLeaves - 1))
    && 1 <= |w.pathKeys| <= MAX_PATH_KEYS
    && |w.nodes| <= Width(w) - 2
    && |w.treeHash| == 32
  }

  predicate PathBytesOk(k: PathKey) { |k.publicKey| == 65 && 1 <= |k.encrypted| <= MAX_CIPHERTEXT }
  predicate NodeBytesOk(n: NodeKey) { n.publicKey.Some? ==> |n.publicKey.value| == 65 }

  function DirectPath(w: Welcome): seq<nat> {
    if w.numLeaves >= 1 && w.leafIndex < Width(w) then TreeMath.DirectPath(w.leafIndex, w.numLeaves) else []
  }

  /** The path keys follow the direct path upwards: each lies on it, above the one before. */
  predicate InOrder(path: seq<nat>, keys: seq<PathKey>) {
    keys == [] ||
    var front, last := keys[..|keys| - 1], keys[|keys| - 1];
    && InOrder(path, front)
    && IndexOf(path, last.index) > (if front == [] then -1 else IndexOf(path, front[|front| - 1].index))
  }

  function IndexOf(path: seq<nat>, x: nat): int
    ensures var k := IndexOf(path, x);
      -1 <= k < |path| && (k >= 0 ==> path[k] == x) && (k == -1 ==> x !in path)
  {
    if path == [] then -1
    else if path[0] == x then 0
    else
      var k := IndexOf(path[1..], x);
      if k == -1 then -1 else k + 1
  }

  ghost predicate Distinct(s: seq<nat>) { forall i, j :: 0 <= i < j < |s| ==> s[i] != s[j] }

  /** Every index below the width is mentioned exactly once, and nothing else is. */
  ghost predicate CoversExactly(s: seq<nat>, width: int) {
    Distinct(s) && forall x: nat :: x in s <==> x < width
  }

  /** A tree node strictly above the leaf the Welcome is for. */
  predicate AboveLeaf(w: Welcome, x: nat) { w.numLeaves >= 1 && TreeMath.Ancestor(x, w.leafIndex, w.numLeaves) }

  /** The path keys are for nodes above the leaf, each higher than the one before. */
  predicate KeysClimb(w: Welcome) {
    && (forall i :: 0 <= i < |w.pathKeys| ==> AboveLeaf(w, w.pathKeys[i].index))
    && (forall i, j :: 0 <= i < j < |w.pathKeys| ==>
          TreeMath.NodeLevel(w.pathKeys[i].index) < TreeMath.NodeLevel(w.pathKeys[j].index))
  }

  /** A node above the leaf that has no path key must be blank. */
  predicate BlankAbove(w: Welcome, n: NodeKey) { AboveLeaf(w, n.index) ==> n.publicKey.None? }

  /** What the decoder accepts, spelled out: the header's bounds; the appended rightmost leaf, or any leaf
      in a local recovery; path keys that climb to the root; every node of the tree exactly once; keys of
      their fixed sizes; blank nodes above the leaf where there is no path key. */
  ghost predicate WireOk(w: Welcome, localRecovery: bool) {
    && w.version == 2 && 1 <= w.generation <= 4294967295 && 2 <= w.numLeaves <= 8192 && |w.treeHash| == 32
    && w.leafIndex % 2 == 0 && w.leafIndex <= 2 * w.numLeaves - 2
    && (!localRecovery ==> w.leafIndex == 2 * w.numLeaves - 2)
    && 1 <= |w.pathKeys| <= 64 && |w.nodes| <= 2 * w.numLeaves - 3
    && KeysClimb(w) && w.pathKeys[|w.pathKeys| - 1].index == TreeMath.Root(w.numLeaves)
    && CoversExactly(Mentioned(w), 2 * w.numLeaves - 1)
    && (forall k :: k in w.pathKeys ==> |k.publicKey| == 65 && 1 <= |k.encrypted| <= 266752)
    && (forall n :: n in w.nodes ==> n.publicKey.Some? ==> |n.publicKey.value| == 65 && !AboveLeaf(w, n.index))
  }

  lemma HeaderIs(w: Welcome, localRecovery: bool)
    ensures HeaderOk(w, localRecovery) <==>
              && w.version == 2 && 1 <= w.generation <= 4294967295 && 2 <= w.numLeaves <= 8192 && |w.treeHash| == 32
              && w.leafIndex % 2 == 0 && w.leafIndex <= 2 * w.numLeaves - 2
              && (!localRecovery ==> w.leafIndex == 2 * w.numLeaves - 2)
              && 1 <= |w.pathKeys| <= 64 && |w.nodes| <= 2 * w.numLeaves - 3
  {}

  lemma SizesAre(w: Welcome)
    ensures (forall k :: k in w.pathKeys ==> |k.publicKey| == 65 && 1 <= |k.encrypted| <= 266752) <==>
              forall i :: 0 <= i < |w.pathKeys| ==> PathBytesOk(w.pathKeys[i])
    ensures (forall n :: n in w.nodes ==> n.publicKey.Some? ==> |n.publicKey.value| == 65 && !AboveLeaf(w, n.index)) <==>
              forall i :: 0 <= i < |w.nodes| ==> NodeBytesOk(w.nodes[i]) && BlankAbove(w, w.nodes[i])
  {
    assert (forall k :: k in w.pathKeys ==> PathBytesOk(k)) <==> forall i :: 0 <= i < |w.pathKeys| ==> PathBytesOk(w.pathKeys[i]);
    assert (forall n :: n in w.nodes ==> NodeBytesOk(n) && BlankAbove(w, n)) <==>
           forall i :: 0 <= i < |w.nodes| ==> NodeBytesOk(w.nodes[i]) && BlankAbove(w, w.nodes[i]);
  }

  lemma WireOkIs(w: Welcome, localRecovery: bool)
    ensures WireOk(w, localRecovery) <==>
              && HeaderOk(w, localRecovery) && KeysClimb(w)
              && w.pathKeys[|w.pathKeys| - 1].index == TreeMath.Root(w.numLeaves)
              && CoversExactly(Mentioned(w), Width(w))
              && (forall i :: 0 <= i < |w.pathKeys| ==> PathBytesOk(w.pathKeys[i]))
              && (forall i :: 0 <= i < |w.nodes| ==> NodeBytesOk(w.nodes[i]) && BlankAbove(w, w.nodes[i]))
  {
    HeaderIs(w, localRecovery);
    SizesAre(w);
  }

  lemma PathIsAbove(w: Welcome, x: nat)
    requires w.numLeaves >= 1 && w.leafIndex < Width(w)
    ensures x in DirectPath(w) <==> AboveLeaf(w, x)
  {
    TreeMath.DirectPathIsAncestors(w.leafIndex, w.numLeaves, x);
  }

  /** Later on the path means higher in the tree. */
  lemma OffsetIsLevel(w: Welcome, x: nat, y: nat)
    requires w.numLeaves >= 1 && w.leafIndex < Width(w) && x in DirectPath(w) && y in DirectPath(w)
    ensures IndexOf(DirectPath(w), x) < IndexOf(DirectPath(w), y) <==> TreeMath.NodeLevel(x) < TreeMath.NodeLevel(y)
  {
    PathClimbs(w);
    OffsetsAreLevels(DirectPath(w), x, y);
  }

  ghost predicate Rises(path: seq<nat>) {
    forall i, j :: 0 <= i < j < |path| ==> TreeMath.NodeLevel(path[i]) < TreeMath.NodeLevel(path[j])
  }

  lemma PathClimbs(w: Welcome)
    requires w.numLeaves >= 1 && w.leafIndex < Width(w)
    ensures Rises(DirectPath(w))
  {
    TreeMath.DirectPathClimbs(w.leafIndex, w.numLeaves);
  }

  lemma OffsetsAreLevels(path: seq<nat>, x: nat, y: nat)
    requires Rises(path) && x in path && y in path
    ensures IndexOf(path, x) < IndexOf(path, y) <==> TreeMath.NodeLevel(x) < TreeMath.NodeLevel(y)
  {
    var i, j := IndexOf(path, x), IndexOf(path, y);
    assert path[i] == x && path[j] == y;
  }

  lemma ClimbOn(w: Welcome, w': Welcome)
    requires w.pathKeys != [] && w' == w.(pathKeys := w.pathKeys[..|w.pathKeys| - 1])
    ensures var last := w.pathKeys[|w.pathKeys| - 1].index;
      KeysClimb(w) <==>
        && KeysClimb(w') && AboveLeaf(w, last)
        && (w'.pathKeys != [] ==> TreeMath.NodeLevel(w'.pathKeys[|w'.pathKeys| - 1].index) < TreeMath.NodeLevel(last))
  {
    assert forall i :: 0 <= i < |w'.pathKeys| ==> w'.pathKeys[i] == w.pathKeys[i];
  }

  lemma InOrderOn(w: Welcome, w': Welcome)
    requires w.numLeaves >= 1 && w.leafIndex < Width(w)
    requires w.pathKeys != [] && w' == w.(pathKeys := w.pathKeys[..|w.pathKeys| - 1])
    requires InOrder(DirectPath(w'), w'.pathKeys) <==> KeysClimb(w')
    ensures InOrder(DirectPath(w), w.pathKeys) <==> KeysClimb(w)
  {
    var front, last := w'.pathKeys, w.pathKeys[|w.pathKeys| - 1].index;
    ClimbOn(w, w');
    PathIsAbove(w, last);
    if front != [] && KeysClimb(w') {
      PathIsAbove(w, front[|front| - 1].index);
      if AboveLeaf(w, last) { OffsetIsLevel(w, front[|front| - 1].index, last); }
    }
  }

  /** Following the direct path upwards is climbing among the nodes above the leaf. */
  lemma {:induction false} InOrderIff(w: Welcome)
    requires w.numLeaves >= 1 && w.leafIndex < Width(w)
    ensures InOrder(DirectPath(w), w.pathKeys) <==> KeysClimb(w)
    decreases |w.pathKeys|
  {
    if w.pathKeys != [] {
      var w' := w.(pathKeys := w.pathKeys[..|w.pathKeys| - 1]);
      InOrderIff(w');
      InOrderOn(w, w');
    }
  }

  // ---------------------------------------------------------------- the pigeonhole

  function Below(n: nat): set<nat> { if n == 0 then {} else Below(n - 1) + {n - 1} }

  lemma {:induction false} BelowIs(n: nat)
    ensures |Below(n)| == n && forall x: nat :: x in Below(n) <==> x < n
  {
    if n > 0 { BelowIs(n - 1); }
  }

  /** Distinct indices below the width cover the tree exactly when there are as many as nodes. */
  lemma CountIsCover(s: seq<nat>, width: nat)
    requires Distinct(s) && forall i :: 0 <= i < |s| ==> s[i] < width
    ensures |s| == width <==> CoversExactly(s, width)
  {
    ElementsSize(s);
    BelowIs(width);
    assert Elements(s) <= Below(width);
    SubsetSize(Elements(s), Below(width));
    if |s| == width {
      forall x: nat ensures x in s <==> x < width { assert x in Elements(s) <==> x in Below(width); }
    }
    if CoversExactly(s, width) { assert Elements(s) == Below(width); }
  }

  // ---------------------------------------------------------------- decoding

  /** The path keys read so far: in order, distinct, within the tree and of the right sizes. */
  ghost predicate ReadSoFar(w: Welcome, n: nat, previous: int, covered: set<nat>)
    requires w.numLeaves >= 1 && w.leafIndex < Width(w) && n <= |w.pathKeys|
  {
    && InOrder(DirectPath(w), w.pathKeys[..n])
    && previous == (if n == 0 then -1 else IndexOf(DirectPath(w), w.pathKeys[n - 1].index))
    && covered == Elements([w.leafIndex] + PathIndices(w.pathKeys[..n]))
    && Distinct([w.leafIndex] + PathIndices(w.pathKeys[..n])) && (forall x :: x in covered ==> x < Width(w))
    && forall i :: 0 <= i < n ==> PathBytesOk(w.pathKeys[i])
  }

  lemma ReadsOn(w: Welcome, n: nat, previous: int, covered: set<nat>)
    requires w.numLeaves >= 1 && w.leafIndex < Width(w) && n < |w.pathKeys| && ReadSoFar(w, n, previous, covered)
    requires var k := w.pathKeys[n];
      k.index < Width(w) && k.index !in covered && IndexOf(DirectPath(w), k.index) > previous && PathBytesOk(k)
    ensures ReadSoFar(w, n + 1, IndexOf(DirectPath(w), w.pathKeys[n].index), covered + {w.pathKeys[n].index})
  {
    var k := w.pathKeys[n];
    ReadOne([w.leafIndex], PathIndices(w.pathKeys[..n]), k.index);
    assert PathIndices(w.pathKeys[..n + 1]) == PathIndices(w.pathKeys[..n]) + [k.index];
    assert w.pathKeys[..n + 1][..n] == w.pathKeys[..n];
  }

  lemma OutOfPathOrder(w: Welcome, n: nat, previous: int, covered: set<nat>)
    requires w.numLeaves >= 1 && w.leafIndex < Width(w) && n < |w.pathKeys| && ReadSoFar(w, n, previous, covered)
    requires IndexOf(DirectPath(w), w.pathKeys[n].index) <= previous
    ensures !KeysClimb(w)
  {
    InOrderIff(w);
    OrderNeedsPrefix(DirectPath(w), w.pathKeys, n + 1);
    assert w.pathKeys[..n + 1][..n] == w.pathKeys[..n];
  }

  /** Read the path keys in order, recording what they cover. */
  method ReadPathKeys(w: Welcome) returns (ok: bool, covered: set<nat>)
    requires w.numLeaves >= 1 && w.leafIndex < Width(w)
    ensures ok ==> KeysClimb(w) && covered == Elements([w.leafIndex] + PathIndices(w.pathKeys))
    ensures ok ==> Distinct([w.leafIndex] + PathIndices(w.pathKeys)) && (forall x :: x in covered ==> x < Width(w))
    ensures ok ==> forall i :: 0 <= i < |w.pathKeys| ==> PathBytesOk(w.pathKeys[i])
    ensures !ok ==> !KeysClimb(w) || !CoversExactly(Mentioned(w), Width(w))
                    || exists i :: 0 <= i < |w.pathKeys| && !PathBytesOk(w.pathKeys[i])
  {
    var path := DirectPath(w);
    covered := {w.leafIndex};
    var previous := -1;
    for n := 0 to |w.pathKeys|
      invariant ReadSoFar(w, n, previous, covered)
    {
      var k := w.pathKeys[n];
      var offset := IndexOf(path, k.index);
      if k.index >= Width(w) || k.index in covered {
        MentionedTwice(w, n);
        return false, covered;
      }
      if offset <= previous {
        OutOfPathOrder(w, n, previous, covered);
        return false, covered;
      }
      if !PathBytesOk(k) { return false, covered; }
      ReadsOn(w, n, previous, covered);
      previous, covered := offset, covered + {k.index};
    }
    assert w.pathKeys[..|w.pathKeys|] == w.pathKeys;
    InOrderIff(w);
    ok := true;
  }

  /** One more distinct index. */
  lemma ReadOne(a: seq<nat>, b: seq<nat>, x: nat)
    requires Distinct(a + b) && x !in Elements(a + b)
    ensures Distinct(a + (b + [x])) && Elements(a + (b + [x])) == Elements(a + b) + {x}
  {
    assert a + (b + [x]) == (a + b) + [x];
  }

  lemma {:induction false} OrderNeedsPrefix(path: seq<nat>, keys: seq<PathKey>, n: nat)
    requires n <= |keys|
    ensures InOrder(path, keys) ==> InOrder(path, keys[..n])
    decreases |keys|
  {
    if n == |keys| {
      assert keys[..n] == keys;
    } else if InOrder(path, keys) {
      OrderNeedsPrefix(path, keys[..|keys| - 1], n);
      assert keys[..|keys| - 1][..n] == keys[..n];
    }
  }

  lemma MentionedTwice(w: Welcome, n: nat)
    requires n < |w.pathKeys|
    requires w.pathKeys[n].index >= Width(w) || w.pathKeys[n].index in Elements([w.leafIndex] + PathIndices(w.pathKeys[..n]))
    ensures !CoversExactly(Mentioned(w), Width(w))
  {
    var all, early := Mentioned(w), [w.leafIndex] + PathIndices(w.pathKeys[..n]);
    var x := w.pathKeys[n].index;
    assert all[n + 1] == x && x in all;
    if x in Elements(early) {
      var i :| 0 <= i < |early| && early[i] == x;
      assert all[i] == early[i];
    }
  }

  lemma NodeMentionedTwice(w: Welcome, n: nat)
    requires n < |w.nodes|
    requires w.nodes[n].index >= Width(w)
             || w.nodes[n].index in Elements([w.leafIndex] + PathIndices(w.pathKeys) + NodeIndices(w.nodes[..n]))
    ensures !CoversExactly(Mentioned(w), Width(w))
  {
    var all := Mentioned(w);
    var early := [w.leafIndex] + PathIndices(w.pathKeys) + NodeIndices(w.nodes[..n]);
    var x := w.nodes[n].index;
    assert all[1 + |w.pathKeys| + n] == x && x in all;
    if x in Elements(early) {
      var i :| 0 <= i < |early| && early[i] == x;
      assert all[i] == early[i];
    }
  }

  /** Read the remaining tree nodes. */
  method ReadNodes(w: Welcome, before: set<nat>) returns (ok: bool, covered: set<nat>)
    requires w.numLeaves >= 1 && w.leafIndex < Width(w)
    requires before == Elements([w.leafIndex] + PathIndices(w.pathKeys)) && Distinct([w.leafIndex] + PathIndices(w.pathKeys))
    requires forall x :: x in before ==> x < Width(w)
    ensures ok ==> covered == Elements(Mentioned(w)) && Distinct(Mentioned(w)) && forall x :: x in covered ==> x < Width(w)
    ensures ok ==> forall i :: 0 <= i < |w.nodes| ==> NodeBytesOk(w.nodes[i]) && BlankAbove(w, w.nodes[i])
    ensures !ok ==> !CoversExactly(Mentioned(w), Width(w))
                    || exists i :: 0 <= i < |w.nodes| && !(NodeBytesOk(w.nodes[i]) && BlankAbove(w, w.nodes[i]))
  {
    var path := DirectPath(w);
    covered := before;
    ghost var head := [w.leafIndex] + PathIndices(w.pathKeys);
    assert head + NodeIndices(w.nodes[..0]) == head;
    for n := 0 to |w.nodes|
      invariant covered == Elements(head + NodeIndices(w.nodes[..n])) && Distinct(head + NodeIndices(w.nodes[..n]))
      invariant forall x :: x in covered ==> x < Width(w)
      invariant forall i :: 0 <= i < n ==> NodeBytesOk(w.nodes[i]) && BlankAbove(w, w.nodes[i])
    {
      var node := w.nodes[n];
      if node.index >= Width(w) || node.index in covered {
        NodeMentionedTwice(w, n);
        return false, covered;
      }
      PathIsAbove(w, node.index);
      if !NodeBytesOk(node) || (node.index in path && node.publicKey.Some?) { return false, covered; }
      ReadOne(head, NodeIndices(w.nodes[..n]), node.index);
      assert NodeIndices(w.nodes[..n + 1]) == NodeIndices(w.nodes[..n]) + [node.index];
      covered := covered + {node.index};
    }
    assert w.nodes[..|w.nodes|] == w.nodes;
    ok := true;
  }

  /** Decode a wire Welcome: it is returned as it stands, exactly when it is well formed. */
  method Decode(w: Welcome, localRecovery: bool) returns (r: Option<Welcome>)
    ensures r.Some? <==> WireOk(w, localRecovery)
    ensures r.Some? ==> r.value == w
  {
    WireOkIs(w, localRecovery);
    if !HeaderOk(w, localRecovery) { return None; }
    var pathOk, covered := ReadPathKeys(w);
    if !pathOk { return None; }
    if w.pathKeys[|w.pathKeys| - 1].index != TreeMath.Root(w.numLeaves) { return None; }
    var nodesOk, all := ReadNodes(w, covered);
    if !nodesOk { return None; }
    ElementsSize(Mentioned(w));
    assert forall i :: 0 <= i < |Mentioned(w)| ==> Mentioned(w)[i] in all;
    CountIsCover(Mentioned(w), Width(w));
    if |all| != Width(w) { return None; }
    r := Some(w);
  }

  // ---------------------------------------------------------------- encoding

  /** The blanks for the indices from `from` on that nothing mentions. */
  function Blanks(covered: set<nat>, from: nat, width: nat): seq<NodeKey>
    decreases width - from
  {
    if from >= width then []
    else (if from in covered then [] else [NodeKey(from, None)]) + Blanks(covered, from + 1, width)
  }

  /** The complete form of a Welcome: omitted slots filled with blanks. */
  function Filled(w: Welcome): Welcome
    requires w.numLeaves >= 1
  {
    w.(nodes := w.nodes + Blanks(Elements(Mentioned(w)), 0, 2 * w.numLeaves - 1))
  }

  /** Encode: fill the blanks, then let the decoder judge the result. */
  method Encode(w: Welcome, localRecovery: bool) returns (r: Option<Welcome>)
    ensures r.Some? <==> 2 <= w.numLeaves <= MAX_LEAVES && |w.pathKeys| <= MAX_PATH_KEYS && |w.nodes| <= Width(w) - 2
                         && WireOk(Filled(w), localRecovery)
    ensures r.Some? ==> r.value == Filled(w)
  {
    if w.numLeaves < 2 || w.numLeaves > MAX_LEAVES || |w.pathKeys| > MAX_PATH_KEYS || |w.nodes| > Width(w) - 2 { return None; }
    var covered, width := Elements(Mentioned(w)), 2 * w.numLeaves - 1;
    var nodes := w.nodes;
    assert nodes + Blanks(covered, 0, width) == w.nodes + Blanks(covered, 0, width);
    for i := 0 to width
      invariant nodes + Blanks(covered, i, width) == w.nodes + Blanks(covered, 0, width)
    {
      if i !in covered {
        assert nodes + ([NodeKey(i, None)] + Blanks(covered, i + 1, width)) == nodes + [NodeKey(i, None)] + Blanks(covered, i + 1, width);
        nodes := nodes + [NodeKey(i, None)];
      } else {
        assert [] + Blanks(covered, i + 1, width) == Blanks(covered, i + 1, width);
      }
    }
    assert nodes + [] == nodes;
    r := Decode(w.(nodes := nodes), localRecovery);
  }

  lemma {:induction false} BlanksAre(covered: set<nat>, from: nat, width: nat)
    requires from <= width
    ensures var b := Blanks(covered, from, width);
      && (forall n :: n in b <==> n.publicKey == None && from <= n.index < width && n.index !in covered)
      && Distinct(NodeIndices(b))
    decreases width - from
  {
    if from < width {
      BlanksAre(covered, from + 1, width);
      var rest := Blanks(covered, from + 1, width);
      if from !in covered {
        var b := [NodeKey(from, None)] + rest;
        assert NodeIndices(b) == [from] + NodeIndices(rest);
        forall i | 0 <= i < |rest| ensures NodeIndices(rest)[i] > from { assert rest[i] in rest; }
      } else {
        assert Blanks(covered, from, width) == rest;
      }
    }
  }

  /** A complete Welcome has nothing to fill in, so encoding and decoding it is the identity. */
  lemma CompleteIsFilled(w: Welcome)
    requires w.numLeaves >= 1 && CoversExactly(Mentioned(w), Width(w))
    ensures Filled(w) == w
  {
    var covered, width := Elements(Mentioned(w)), 2 * w.numLeaves - 1;
    assert forall x: nat :: x < width ==> x in Mentioned(w);
    NoBlanks(covered, 0, width);
    assert w.nodes + [] == w.nodes;
  }

  lemma {:induction false} NoBlanks(covered: set<nat>, from: nat, width: nat)
    requires forall x: nat :: x < width ==> x in covered
    ensures Blanks(covered, from, width) == []
    decreases width - from
  {
    if from < width { NoBlanks(covered, from + 1, width); }
  }

  /** Filling keeps what was there and adds only blanks, at indices nothing mentioned; a Welcome whose
      own indices are distinct and in range becomes a complete cover. */
  lemma FilledCovers(w: Welcome)
    requires w.numLeaves >= 1 && Distinct(Mentioned(w)) && forall x :: x in Mentioned(w) ==> x < Width(w)
    ensures w.nodes <= Filled(w).nodes
    ensures forall i :: |w.nodes| <= i < |Filled(w).nodes| ==>
              Filled(w).nodes[i].publicKey.None? && Filled(w).nodes[i].index !in Mentioned(w)
    ensures CoversExactly(Mentioned(Filled(w)), Width(w))
  {
    var covered, width := Elements(Mentioned(w)), 2 * w.numLeaves - 1;
    var b := Blanks(covered, 0, width);
    BlanksAre(covered, 0, width);
    forall i | |w.nodes| <= i < |Filled(w).nodes|
      ensures Filled(w).nodes[i].publicKey.None? && Filled(w).nodes[i].index !in Mentioned(w)
    {
      assert Filled(w).nodes[i] == b[i - |w.nodes|] && b[i - |w.nodes|] in b;
    }
    FilledMentions(w, b);
    forall x: nat ensures x in Mentioned(w) + NodeIndices(b) <==> x < width {
      if x < width && x !in Mentioned(w) {
        assert NodeKey(x, None) in b;
        var k :| 0 <= k < |b| && b[k] == NodeKey(x, None);
        assert NodeIndices(b)[k] == x;
      }
      if x in NodeIndices(b) {
        var k :| 0 <= k < |b| && NodeIndices(b)[k] == x;
        assert b[k] in b;
      }
    }
    forall i, j | 0 <= i < |Mentioned(w)| && 0 <= j < |b| ensures Mentioned(w)[i] != NodeIndices(b)[j] { assert b[j] in b; }
  }

  lemma FilledMentions(w: Welcome, b: seq<NodeKey>)
    requires w.numLeaves >= 1 && b == Blanks(Elements(Mentioned(w)), 0, 2 * w.numLeaves - 1)
    ensures Mentioned(Filled(w)) == Mentioned(w) + NodeIndices(b)
  {
    NodeIndicesConcat(w.nodes, b);
    var head := [w.leafIndex] + PathIndices(w.pathKeys);
    assert head + (NodeIndices(w.nodes) + NodeIndices(b)) == head + NodeIndices(w.nodes) + NodeIndices(b);
  }

  lemma NodeIndicesConcat(a: seq<NodeKey>, b: seq<NodeKey>)
    ensures NodeIndices(a + b) == NodeIndices(a) + NodeIndices(b)
  {}

  /** Decoding what was encoded gives the Welcome back with its omitted slots blank. */
  method RoundTrip(w: Welcome, localRecovery: bool) returns (encoded: Option<Welcome>, decoded: Option<Welcome>)
    ensures encoded.Some? ==> w.numLeaves >= 2 && decoded == encoded && decoded.value == Filled(w)
    ensures WireOk(w, localRecovery) ==> encoded == Some(w) && decoded == Some(w)
  {
    if WireOk(w, localRecovery) { CompleteIsFilled(w); }
    encoded := Encode(w, localRecovery);
    decoded := None;
    if encoded.Some? { decoded := Decode(encoded.value, localRecovery); }
  }

  /** In an accepted Welcome every node of the tree has exactly one slot. */
  lemma AcceptedCoversTree(w: Welcome, localRecovery: bool, x: nat)
    requires WireOk(w, localRecovery) && x < Width(w)
    ensures exists i :: 0 <= i < |Mentioned(w)| && Mentioned(w)[i] == x
                        && forall j :: 0 <= j < |Mentioned(w)| && Mentioned(w)[j] == x ==> j == i
  {
    assert x in Mentioned(w);
    var i :| 0 <= i < |Mentioned(w)| && Mentioned(w)[i] == x;
    assert Distinct(Mentioned(w));
  }

  lemma OffsetsFollow(w: Welcome, i: nat, j: nat)
    requires w.numLeaves >= 1 && w.leafIndex < Width(w) && KeysClimb(w) && i < j < |w.pathKeys|
    ensures w.pathKeys[i].index in DirectPath(w) && w.pathKeys[j].index in DirectPath(w)
    ensures 0 <= IndexOf(DirectPath(w), w.pathKeys[i].index) < IndexOf(DirectPath(w), w.pathKeys[j].index)
  {
    PathIsAbove(w, w.pathKeys[i].index);
    PathIsAbove(w, w.pathKeys[j].index);
    OffsetIsLevel(w, w.pathKeys[i].index, w.pathKeys[j].index);
  }

  lemma PathEndsAtRoot(w: Welcome)
    requires w.numLeaves >= 1 && w.leafIndex < Width(w) && w.leafIndex != TreeMath.Root(w.numLeaves)
    ensures DirectPath(w) != [] && DirectPath(w)[|DirectPath(w)| - 1] == TreeMath.Root(w.numLeaves)
  {
    TreeMath.DirectPathClimbs(w.leafIndex, w.numLeaves);
  }

  /** Path keys of an accepted Welcome lie on the direct path in its order, each strictly above the one
      before, and the last is the root's. */
  lemma PathKeysClimb(w: Welcome, localRecovery: bool, i: nat, j: nat)
    requires WireOk(w, localRecovery) && i < j < |w.pathKeys|
    ensures w.pathKeys[i].index in DirectPath(w) && w.pathKeys[j].index in DirectPath(w)
    ensures TreeMath.NodeLevel(w.pathKeys[i].index) < TreeMath.NodeLevel(w.pathKeys[j].index)
    ensures 0 <= IndexOf(DirectPath(w), w.pathKeys[i].index) < IndexOf(DirectPath(w), w.pathKeys[j].index)
    ensures w.pathKeys[|w.pathKeys| - 1].index == DirectPath(w)[|DirectPath(w)| - 1]
  {
    OffsetsFollow(w, i, j);
    if w.leafIndex == TreeMath.Root(w.numLeaves) { TreeMath.DirectPathClimbs(w.leafIndex, w.numLeaves); }
    PathEndsAtRoot(w);
  }
}
