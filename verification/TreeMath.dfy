/** Index arithmetic of the left-balanced tree (leaves at even indices, level = trailing one bits). */
module TreeMath {
  function Pow2(k: nat): (p: nat)
    ensures p >= 1
  {
    if k == 0 then 1 else 2 * Pow2(k - 1)
  }

  function NodeLevel(i: nat): nat { if i % 2 == 0 then 0 else NodeLevel((i - 1) / 2) + 1 }

  function FloorLog2(v: nat): nat { if v < 2 then 0 else FloorLog2(v / 2) + 1 }

  function Width(leaves: nat): nat
    requires leaves >= 1
  {
    2 * leaves - 1
  }

  function RootLevel(leaves: nat): nat
    requires leaves >= 1
  {
    FloorLog2(Width(leaves))
  }

  function Root(leaves: nat): nat
    requires leaves >= 1
  {
    Pow2(RootLevel(leaves)) - 1
  }

  function ParentStep(i: nat): int {
    var step := Pow2(NodeLevel(i));
    if i / (2 * step) % 2 == 0 then i + step else i - step
  }

  // ---------------------------------------------------------------- levels and positions

  /** The node at position m of level k. */
  function At(k: nat, m: nat): nat { if k == 0 then 2 * m else 2 * At(k - 1, m) + 1 }

  lemma {:induction false} LevelOfAt(k: nat, m: nat)
    ensures NodeLevel(At(k, m)) == k
  {
    if k > 0 { LevelOfAt(k - 1, m); }
  }

  lemma {:induction false} PositionOf(i: nat) returns (m: nat)
    ensures i == At(NodeLevel(i), m)
  {
    if i % 2 == 0 { m := i / 2; } else { m := PositionOf((i - 1) / 2); }
  }

  lemma {:induction false} AtLow(k: nat, m: nat)
    ensures if m == 0 then At(k, m) == Pow2(k) - 1 else At(k, m) >= 3 * Pow2(k) - 1
  {
    if k > 0 { AtLow(k - 1, m); }
  }

  lemma SmallMultiple(e: int, d: int)
    requires d > 0 && -d < e * d < d
    ensures e == 0
  {}

  lemma HalfDiv(j: nat, d: nat)
    requires d > 0
    ensures (2 * j + 1) / (2 * d) == j / d
  {
    var q, r, n := j / d, j % d, 2 * j + 1;
    var e := n / (2 * d) - q;
    assert j == q * d + r;
    assert n == (n / (2 * d)) * (2 * d) + n % (2 * d);
    assert e * (2 * d) == (2 * r + 1) - n % (2 * d);
    SmallMultiple(e, 2 * d);
  }

  lemma ParentOfOdd(j: nat)
    ensures ParentStep(2 * j + 1) == 2 * ParentStep(j) + 1
  {
    var i, s := 2 * j + 1, Pow2(NodeLevel(j));
    assert NodeLevel(i) == NodeLevel(j) + 1;
    assert Pow2(NodeLevel(i)) == 2 * s;
    HalfDiv(j, 2 * s);
    assert 2 * (2 * s) == 2 * Pow2(NodeLevel(i));
  }

  lemma ParentOfEven(m: nat)
    ensures ParentStep(2 * m) == 4 * (m / 2) + 1
  {
    assert NodeLevel(2 * m) == 0 && Pow2(0) == 1;
    assert 2 * m / 2 == m;
  }

  /** One step up goes to the next level, at half the position. */
  lemma {:induction false} ParentOfAt(k: nat, m: nat)
    ensures ParentStep(At(k, m)) == At(k + 1, m / 2)
  {
    if k == 0 {
      ParentOfEven(m);
      assert At(1, m / 2) == 2 * At(0, m / 2) + 1;
    } else {
      ParentOfAt(k - 1, m);
      ParentOfOdd(At(k - 1, m));
    }
  }

  lemma {:induction false} LogBounds(v: nat)
    requires v >= 1
    ensures Pow2(FloorLog2(v)) <= v < 2 * Pow2(FloorLog2(v))
  {
    if v >= 2 { LogBounds(v / 2); }
  }

  lemma {:induction false} PowMonotone(j: nat, k: nat)
    requires j <= k
    ensures Pow2(j) <= Pow2(k)
    decreases k
  {
    if j < k { PowMonotone(j, k - 1); }
  }

  /** The nodes of the complete tree around one with `leaves` leaves. */
  predicate Inside(i: nat, leaves: nat)
    requires leaves >= 1
  {
    i < 2 * Pow2(RootLevel(leaves)) - 1
  }

  lemma WidthInside(i: nat, leaves: nat)
    requires leaves >= 1 && i < Width(leaves)
    ensures Inside(i, leaves)
  {
    LogBounds(Width(leaves));
  }

  /** A node of the complete tree is below the root's level, or it is the root. */
  lemma LevelBound(i: nat, leaves: nat)
    requires leaves >= 1 && Inside(i, leaves)
    ensures NodeLevel(i) <= RootLevel(leaves)
    ensures NodeLevel(i) == RootLevel(leaves) ==> i == Root(leaves)
  {
    var k, l := NodeLevel(i), RootLevel(leaves);
    var m := PositionOf(i);
    AtLow(k, m);
    PowGap(l, k);
  }

  lemma PowGap(l: nat, k: nat)
    ensures k > l ==> Pow2(k) >= 2 * Pow2(l)
  {
    if k > l { PowMonotone(l + 1, k); }
  }

  lemma StepStaysInside(i: nat, leaves: nat)
    requires leaves >= 1 && Inside(i, leaves) && NodeLevel(i) < RootLevel(leaves)
    ensures ParentStep(i) >= 0 && Inside(ParentStep(i), leaves) && NodeLevel(ParentStep(i)) == NodeLevel(i) + 1
  {
    var k, l := NodeLevel(i), RootLevel(leaves);
    var m := PositionOf(i);
    ParentOfAt(k, m);
    LevelOfAt(k + 1, m / 2);
    StepBound(k, m, l);
  }

  /** Stepping up cannot leave the complete tree: the parent's block already lies inside it. */
  lemma {:induction false} StepBound(k: nat, m: nat, l: nat)
    requires k < l && At(k, m) < 2 * Pow2(l) - 1
    ensures At(k + 1, m / 2) < 2 * Pow2(l) - 1
    decreases k
  {
    if k > 0 {
      StepBound(k - 1, m, l - 1);
    } else {
      assert At(1, m / 2) == 2 * At(0, m / 2) + 1;
    }
  }

  // ---------------------------------------------------------------- the direct path

  /** Step up until the node is in the actual tree again. */
  function ParentInWidth(i: nat, leaves: nat): (p: nat)
    requires leaves >= 1 && Inside(i, leaves) && NodeLevel(i) < RootLevel(leaves)
    ensures p < Width(leaves) && NodeLevel(i) < NodeLevel(p) <= RootLevel(leaves)
    decreases RootLevel(leaves) - NodeLevel(i)
  {
    StepStaysInside(i, leaves);
    var next := ParentStep(i);
    LevelBound(next, leaves);
    LogBounds(Width(leaves));
    if next < Width(leaves) then next else ParentInWidth(next, leaves)
  }

  function DirectPath(i: nat, leaves: nat): (path: seq<nat>)
    requires leaves >= 1 && i < Width(leaves)
    decreases RootLevel(leaves) - NodeLevel(i)
  {
    WidthInside(i, leaves);
    LevelBound(i, leaves);
    if i == Root(leaves) then []
    else
      var parent := ParentInWidth(i, leaves);
      [parent] + DirectPath(parent, leaves)
  }

  /** The direct path climbs strictly, stays in the tree and ends at the root. */
  lemma {:induction false} DirectPathClimbs(i: nat, leaves: nat)
    requires leaves >= 1 && i < Width(leaves)
    ensures var path := DirectPath(i, leaves);
      && (forall k :: 0 <= k < |path| ==> path[k] < Width(leaves) && NodeLevel(i) < NodeLevel(path[k]))
      && (forall j, k :: 0 <= j < k < |path| ==> NodeLevel(path[j]) < NodeLevel(path[k]))
      && (path == [] <==> i == Root(leaves))
      && (path != [] ==> path[|path| - 1] == Root(leaves))
    decreases RootLevel(leaves) - NodeLevel(i)
  {
    WidthInside(i, leaves);
    LevelBound(i, leaves);
    if i != Root(leaves) {
      var parent := ParentInWidth(i, leaves);
      DirectPathClimbs(parent, leaves);
    }
  }

  // ---------------------------------------------------------------- ancestors

  /** The nodes below x, and x itself: one contiguous block of indices. */
  function Low(x: nat): int { x - (Pow2(NodeLevel(x)) - 1) }

  function High(x: nat): int { x + (Pow2(NodeLevel(x)) - 1) }

  predicate Covers(x: nat, i: nat) { Low(x) <= i <= High(x) }

  /** x is a node of the tree strictly above i. */
  predicate Ancestor(x: nat, i: nat, leaves: nat)
    requires leaves >= 1
  {
    x < 2 * leaves - 1 && NodeLevel(i) < NodeLevel(x) && x - (Pow2(NodeLevel(x)) - 1) <= i <= x + (Pow2(NodeLevel(x)) - 1)
  }

  lemma {:induction false} AtValue(k: nat, m: nat)
    ensures At(k, m) == Pow2(k + 1) * m + Pow2(k) - 1
  {
    if k > 0 {
      AtValue(k - 1, m);
      assert Pow2(k + 1) * m == 2 * (Pow2(k) * m);
    }
  }

  /** The block of the node at position m of level k. */
  lemma AtBlock(k: nat, m: nat)
    ensures Low(At(k, m)) == Pow2(k + 1) * m && High(At(k, m)) == Pow2(k + 1) * m + Pow2(k + 1) - 2
  {
    LevelOfAt(k, m);
    AtValue(k, m);
  }

  lemma HalfBlock(p: nat, m: nat)
    ensures 2 * p * (m / 2) <= p * m && p * m + p <= 2 * p * (m / 2) + 2 * p
  {
    var h, r := m / 2, m % 2;
    assert m == 2 * h + r;
    assert p * m == 2 * p * h + p * r;
  }

  /** A parent's block contains its child's. */
  lemma ParentNests(i: nat)
    ensures ParentStep(i) >= 0 && NodeLevel(ParentStep(i)) == NodeLevel(i) + 1
    ensures Low(ParentStep(i)) <= Low(i) && High(i) <= High(ParentStep(i))
  {
    var k := NodeLevel(i);
    var m := PositionOf(i);
    ParentOfAt(k, m);
    LevelOfAt(k + 1, m / 2);
    AtBlock(k, m);
    AtBlock(k + 1, m / 2);
    HalfBlock(Pow2(k + 1), m);
  }

  lemma SameBlock(p: nat, m: nat, n: nat, i: int)
    requires p > 0 && p * m <= i <= p * m + p - 2 && p * n <= i <= p * n + p - 2
    ensures m == n
  {
    assert (m - n) * p == p * m - p * n;
    SmallMultiple(m - n, p);
  }

  /** Each level has at most one node above a given one. */
  lemma OnePerLevel(x: nat, y: nat, i: nat)
    requires NodeLevel(x) == NodeLevel(y) && Covers(x, i) && Covers(y, i)
    ensures x == y
  {
    var k := NodeLevel(x);
    var m := PositionOf(x);
    var n := PositionOf(y);
    AtBlock(k, m);
    AtBlock(k, n);
    SameBlock(Pow2(k + 1), m, n, i);
  }

  /** Above every node there is one at each higher level, and its block contains the node's. */
  lemma {:induction false} AboveAt(i: nat, level: nat) returns (y: nat)
    requires NodeLevel(i) <= level
    ensures NodeLevel(y) == level && Low(y) <= Low(i) && High(i) <= High(y)
    decreases level - NodeLevel(i)
  {
    if NodeLevel(i) == level { return i; }
    ParentNests(i);
    y := AboveAt(ParentStep(i), level);
  }

  /** What is above a node is its parent or above its parent, and conversely. */
  lemma AboveParent(x: nat, i: nat)
    ensures ParentStep(i) >= 0
    ensures NodeLevel(i) < NodeLevel(x) && Covers(x, i) <==>
              x == ParentStep(i) || (NodeLevel(ParentStep(i)) < NodeLevel(x) && Covers(x, ParentStep(i)))
  {
    ParentNests(i);
    var p := ParentStep(i);
    if NodeLevel(i) < NodeLevel(x) && Covers(x, i) {
      var y := AboveAt(p, NodeLevel(x));
      OnePerLevel(x, y, i);
    }
    if NodeLevel(p) < NodeLevel(x) && Covers(x, p) {
      var y := AboveAt(p, NodeLevel(x));
      OnePerLevel(x, y, p);
    }
  }

  /** Stepping up until the tree is reached again misses none of its nodes. */
  lemma {:induction false} AboveInWidth(x: nat, i: nat, leaves: nat)
    requires leaves >= 1 && Inside(i, leaves) && NodeLevel(i) < RootLevel(leaves) && x < Width(leaves)
    ensures var p := ParentInWidth(i, leaves);
      Ancestor(x, i, leaves) <==> x == p || Ancestor(x, p, leaves)
    decreases RootLevel(leaves) - NodeLevel(i)
  {
    StepStaysInside(i, leaves);
    AboveParent(x, i);
    var next := ParentStep(i);
    LevelBound(next, leaves);
    LogBounds(Width(leaves));
    if next >= Width(leaves) { AboveInWidth(x, next, leaves); }
  }

  lemma RootHasNone(x: nat, leaves: nat)
    requires leaves >= 1
    ensures !Ancestor(x, Root(leaves), leaves)
  {
    if x < Width(leaves) {
      WidthInside(x, leaves);
      LevelBound(x, leaves);
      AtLow(RootLevel(leaves), 0);
      LevelOfAt(RootLevel(leaves), 0);
    }
  }

  /** The direct path holds every ancestor, and nothing else. */
  lemma {:induction false} DirectPathIsAncestors(i: nat, leaves: nat, x: nat)
    requires leaves >= 1 && i < Width(leaves)
    ensures x in DirectPath(i, leaves) <==> Ancestor(x, i, leaves)
    decreases RootLevel(leaves) - NodeLevel(i)
  {
    WidthInside(i, leaves);
    LevelBound(i, leaves);
    if i == Root(leaves) {
      RootHasNone(x, leaves);
    } else {
      var p := ParentInWidth(i, leaves);
      DirectPathIsAncestors(p, leaves, x);
      if x < Width(leaves) { AboveInWidth(x, i, leaves); }
    }
  }

  /** The level of a node is the number of twos in its index plus one. */
  lemma LevelCountsTwos(i: nat) returns (m: nat)
    ensures i + 1 == Pow2(NodeLevel(i)) * (2 * m + 1)
  {
    m := PositionOf(i);
    AtValue(NodeLevel(i), m);
    assert Pow2(NodeLevel(i) + 1) * m == Pow2(NodeLevel(i)) * (2 * m);
  }

  /** The root is above every other node of the tree. */
  lemma RootIsAbove(i: nat, leaves: nat)
    requires leaves >= 1 && i < Width(leaves)
    ensures Root(leaves) < Width(leaves) && (i == Root(leaves) || Ancestor(Root(leaves), i, leaves))
  {
    LogBounds(Width(leaves));
    DirectPathClimbs(i, leaves);
    if i != Root(leaves) { DirectPathIsAncestors(i, leaves, Root(leaves)); }
  }
}
