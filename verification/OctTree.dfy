/** The octree of points: nodes that split when they receive a point above the deepest level. */
module OctTree {
  import opened Lists
  import opened Modular
  import opened OctTreeLoc

  datatype Point<V> = Point(loc: Loc, value: V)

  /** A location at the deepest level, below or at `l`. */
  predicate Placed(p: Loc, max: nat, l: Loc) {
    p.level == max && IsChildOf(p, l)
  }

  /** The points that belong below `l`, in the order in which they were added. */
  function Within<V>(pts: seq<Point<V>>, l: Loc): seq<Point<V>> {
    if pts == [] then []
    else
      var rest := Within(pts[..|pts| - 1], l);
      if IsChildOf(pts[|pts| - 1].loc, l) then rest + [pts[|pts| - 1]] else rest
  }

  lemma WithinSnoc<V>(pts: seq<Point<V>>, p: Point<V>, l: Loc)
    ensures Within(pts + [p], l) == Within(pts, l) + if IsChildOf(p.loc, l) then [p] else []
  {
    assert (pts + [p])[..|pts|] == pts;
  }

  lemma {:induction false} WithinMembers<V>(pts: seq<Point<V>>, l: Loc)
    ensures forall p :: p in Within(pts, l) <==> p in pts && IsChildOf(p.loc, l)
  {
    if pts != [] {
      WithinMembers(pts[..|pts| - 1], l);
      assert pts == pts[..|pts| - 1] + [pts[|pts| - 1]];
    }
  }

  /** Points are found below `l` the same way through anything above `l`. */
  lemma {:induction false} WithinWithin<V>(pts: seq<Point<V>>, c: Loc, l: Loc)
    requires l.level < LEVELS && c.level < LEVELS && IsChildOf(l, c) && forall p <- pts :: p.loc.level < LEVELS
    ensures Within(Within(pts, c), l) == Within(pts, l)
  {
    if pts != [] {
      var most, p := pts[..|pts| - 1], pts[|pts| - 1];
      WithinWithin(most, c, l);
      assert pts == most + [p];
      WithinSnoc(most, p, c);
      WithinSnoc(most, p, l);
      if IsChildOf(p.loc, c) {
        WithinSnoc(Within(most, c), p, l);
      } else if IsChildOf(p.loc, l) {
        ChildOfChild(p.loc, l, c);
      }
    }
  }

  /** Exactly one child of a location lies above a deeper one. */
  lemma OneChild(l: Loc, p: Loc, i: nat)
    requires IsValid(l) && l.level < p.level < LEVELS && IsChildOf(p, l) && i < 8
    ensures IndexOfChild(l, p).Some? && IndexOfChild(l, p).value < 8
    ensures IsChildOf(p, GetChild(l, i)) <==> IndexOfChild(l, p) == Some(i)
  {
    ValidIsSmall(l);
    ChildIsTowards(l, p);
    var k := IndexOfChild(l, p).value;
    ChildLevel(l, i);
    ChildLevel(l, k);
    if IsChildOf(p, GetChild(l, i)) {
      SameAncestor(p, GetChild(l, i), GetChild(l, k));
      SameChild(l, i, k);
    }
  }

  lemma SameAncestor(p: Loc, a: Loc, b: Loc)
    requires a.level == b.level && IsChildOf(p, a) && IsChildOf(p, b)
    ensures a == b
  {
  }

  lemma SameChild(l: Loc, i: nat, k: nat)
    requires Small(l) && i < 8 && k < 8 && GetChild(l, i) == GetChild(l, k)
    ensures i == k
  {
    SameBit(l.x, i % 2, k % 2);
    SameBit(l.y, i / 2 % 2, k / 2 % 2);
    SameBit(l.z, i / 4 % 2, k / 4 % 2);
    BitsMakeIndex(i);
    BitsMakeIndex(k);
  }

  lemma SameBit(x: Word, b: nat, c: nat)
    requires x < HALF && b < 2 && c < 2 && Double(x, b) == Double(x, c)
    ensures b == c
  {
    DoubleIs(x, b);
    DoubleIs(x, c);
  }

  lemma BitsMakeIndex(i: nat)
    requires i < 8
    ensures i == 4 * (i / 4 % 2) + 2 * (i / 2 % 2) + i % 2
  {
  }

  class OctNode<V> {
    const loc: Loc
    var pts: seq<Point<V>>
    var children: seq<OctNode<V>>
    var isLeaf: bool
    /** All points added at or below this node, and the nodes there. */
    ghost var added: seq<Point<V>>
    ghost var repr: set<OctNode<V>>

    constructor (loc: Loc)
      ensures this.loc == loc && pts == [] && children == [] && isLeaf && added == [] && repr == {this}
    {
      this.loc := loc;
      pts, children, isLeaf, added, repr := [], [], true, [], {this};
    }

    ghost predicate Valid(max: nat)
      reads this, repr
      decreases max - loc.level, 3
    {
      && this in repr && loc.level <= max < LEVELS && IsValid(loc)
      && (forall p <- added :: Placed(p.loc, max, loc))
      && (isLeaf <==> children == [])
      && if isLeaf then repr == {this} && pts == added && (loc.level < max ==> pts == [])
         else pts == [] && loc.level < max && Family(children, repr - {this}, loc, added, max)
    }

    /** Adds a point; a leaf above the deepest level gives its points to eight new children. */
    method AddPoint(max: nat, l: Loc, value: V)
      requires Valid(max) && Placed(l, max, loc)
      modifies repr
      ensures Valid(max) && added == old(added) + [Point(l, value)]
      ensures old(repr) <= repr && fresh(repr - old(repr))
      decreases max - loc.level, 2
    {
      hide GetChild, IsValid;
      ghost var all := added + [Point(l, value)];
      if isLeaf {
        pts := pts + [Point(l, value)];
        if loc.level < max && l.level > loc.level {
          ghost var region;
          children, region := NewNodes(seq(8, (idx: nat) => GetChild(loc, idx)));
          NewFamily(children, region, loc, max);
          region := HandDown(children, region, loc, [], max, pts);
          repr := {this} + region;
          pts := [];
          isLeaf := false;
        }
      } else {
        ghost var region := AddBelow(children, repr - {this}, loc, added, max, Point(l, value));
        repr := {this} + region;
      }
      added := all;
    }

    /** Appends the leaves at and below this node. */
    method GetLeafNodes(max: nat, leafNodes: seq<OctNode<V>>, getEmptyNodes: bool) returns (all: seq<OctNode<V>>)
      requires Valid(max)
      ensures all == leafNodes + Leaves(this, max, getEmptyNodes)
      decreases max - loc.level, 9
    {
      all := leafNodes;
      if |children| == 0 && (getEmptyNodes || |pts| > 0) {
        all := all + [this];
      }
      if children != [] {
        assert Family(children, repr - {this}, loc, added, max);
        all := LeavesOfChildren(children, repr - {this}, loc, max, all, getEmptyNodes);
      }
    }

    /** Keeps one point of each location. */
    method ConsolidatePts(max: nat)
      requires Valid(max)
      modifies repr
      ensures Valid(max) && repr == old(repr)
      ensures Thinned(old(added), added)
      decreases max - loc.level, 2
    {
      if |children| == 0 && |pts| > 1 {
        var sorted := SortByLoc(pts);
        var kept := Unique(sorted);
        ThinnedBy(pts, sorted, kept);
        pts := kept;
        added := pts;
      } else if children != [] {
        assert Family(children, repr - {this}, loc, added, max);
        added := ConsolidateAll(children, repr - {this}, loc, added, max);
      } else {
        ThinAlready(added);
      }
    }
  }

  /** The tree: its top node covers everything, and points are added at the deepest level. */
  class OctTree<V> {
    const maxLevel: nat
    const topNode: OctNode<V>
    var ptCnt: nat

    /** The nodes, and the points there are: those added, in order, until they are consolidated. */
    ghost predicate Valid()
      reads this, topNode, topNode.repr
    {
      topNode.Valid(maxLevel) && topNode.loc == Loc(0, 0, 0, 0)
    }

    constructor (maxLevel: nat)
      requires maxLevel < LEVELS
      ensures Valid() && this.maxLevel == maxLevel && topNode.added == [] && ptCnt == 0 && fresh(topNode.repr)
    {
      this.maxLevel := maxLevel;
      topNode := new OctNode(Loc(0, 0, 0, 0));
      ptCnt := 0;
    }

    method AddPoint(l: Loc, value: V)
      requires Valid() && IsValid(l) && l.level == maxLevel
      modifies this, topNode.repr
      ensures Valid() && topNode.added == old(topNode.added) + [Point(l, value)] && ptCnt == old(ptCnt) + 1
      ensures fresh(topNode.repr - old(topNode.repr))
    {
      BelowTop(l);
      topNode.AddPoint(maxLevel, l, value);
      ptCnt := ptCnt + 1;
    }
  }

  /** Every valid location lies below the top. */
  lemma BelowTop(l: Loc)
    requires IsValid(l) && l.level < LEVELS
    ensures IsChildOf(l, Loc(0, 0, 0, 0))
  {
    ValidIsSmall(l);
    HighestPower(l.level);
    ShiftedOut(l.x, l.level);
    ShiftedOut(l.y, l.level);
    ShiftedOut(l.z, l.level);
  }

  lemma ShiftedOut(x: nat, k: nat)
    requires x < Shl(1, k)
    ensures Shr(x, k) == 0
  {
    ShrRest(x, k);
    if Shr(x, k) > 0 {
      ShlGrows(Shr(x, k), k);
    }
  }

  // ---------------------------------------------------------------- leaves

  /** The leaves at and below a node, depth first; without the empty ones unless they are asked for. */
  ghost function Leaves<V>(n: OctNode<V>, max: nat, empty: bool): seq<OctNode<V>>
    requires n.Valid(max)
    reads n, n.repr
    decreases max - n.loc.level, 9
  {
    if n.children == [] then if empty || n.pts != [] then [n] else []
    else
      assert Family(n.children, n.repr - {n}, n.loc, n.added, max);
      LeavesFrom(n.children, n.repr - {n}, n.loc, max, empty, 0)
  }

  ghost function LeavesFrom<V>(cs: seq<OctNode<V>>, region: set<OctNode<V>>, l: Loc, max: nat, empty: bool, i: nat): seq<OctNode<V>>
    requires Kin(cs, region, l, max) && i <= 8
    reads region
    decreases max - l.level, 8 - i
  {
    if i == 8 then []
    else
      assert IsChild(cs[i], region, l, i, max);
      Leaves(cs[i], max, empty) + LeavesFrom(cs, region, l, max, empty, i + 1)
  }

  /** What a list of leaves below `l` shows of the points `pts`: every leaf is at the deepest level and holds exactly
      the points added there, in order; no two leaves are in the same place; and every point is in one of them. */
  ghost predicate Shows<V>(leaves: seq<OctNode<V>>, l: Loc, pts: seq<Point<V>>, max: nat)
    reads leaves
  {
    && (forall i :: 0 <= i < |leaves| ==> Holds(leaves[i], l, pts, max))
    && (forall i, j :: 0 <= i < j < |leaves| ==> leaves[i].loc != leaves[j].loc)
    && (forall p <- pts :: exists i :: 0 <= i < |leaves| && leaves[i].loc == p.loc)
  }

  ghost predicate Holds<V>(leaf: OctNode<V>, l: Loc, pts: seq<Point<V>>, max: nat)
    reads leaf
  {
    leaf.isLeaf && leaf.pts != [] && Placed(leaf.loc, max, l) && leaf.pts == Within(pts, leaf.loc)
  }

  method LeavesOfChildren<V>(cs: seq<OctNode<V>>, ghost region: set<OctNode<V>>, l: Loc, max: nat,
                             leafNodes: seq<OctNode<V>>, empty: bool) returns (all: seq<OctNode<V>>)
    requires Kin(cs, region, l, max)
    ensures all == leafNodes + LeavesFrom(cs, region, l, max, empty, 0)
    decreases max - l.level, 8
  {
    hide Within, GetChild;
    all := leafNodes;
    for i := 0 to |cs|
      invariant all + LeavesFrom(cs, region, l, max, empty, i) == leafNodes + LeavesFrom(cs, region, l, max, empty, 0)
    {
      assert IsChild(cs[i], region, l, i, max);
      all := cs[i].GetLeafNodes(max, all, empty);
    }
  }

  lemma LeavesShow<V>(n: OctNode<V>, max: nat)
    requires n.Valid(max)
    ensures Shows(Leaves(n, max, false), n.loc, n.added, max)
    decreases max - n.loc.level, 9
  {
    if n.isLeaf {
      if n.pts != [] {
        LeafHolds(n, max);
      }
    } else {
      assert Family(n.children, n.repr - {n}, n.loc, n.added, max);
      LeavesFromShow(n.children, n.repr - {n}, n.loc, n.added, max, 0);
      forall p | p in n.added ensures InPart(n.loc, p.loc, 0) {
        OneChild(n.loc, p.loc, 0);
      }
    }
  }

  /** At the deepest level, below a location is at it. */
  lemma LeafHolds<V>(n: OctNode<V>, max: nat)
    requires n.Valid(max) && n.isLeaf && n.pts != []
    ensures Shows([n], n.loc, n.added, max)
  {
    assert n.loc.level == max;
    forall p | p in n.added ensures p.loc == n.loc {
      assert Placed(p.loc, max, n.loc);
    }
    AllWithin(n.added, n.loc);
    assert n.pts[0] in n.added;
    assert Holds(n, n.loc, n.added, max);
    assert forall p <- n.added :: [n][0].loc == p.loc;
  }

  lemma {:induction false} AllWithin<V>(pts: seq<Point<V>>, l: Loc)
    requires forall p <- pts :: IsChildOf(p.loc, l)
    ensures Within(pts, l) == pts
  {
    if pts != [] {
      AllWithin(pts[..|pts| - 1], l);
    }
  }

  /** `p` lies below the children of `l` from the `i`-th on. */
  ghost predicate InPart(l: Loc, p: Loc, i: nat) {
    IndexOfChild(l, p).Some? && i <= IndexOfChild(l, p).value < 8
  }

  /** The same for the children from the `i`-th on. */
  ghost predicate ShowsPart<V>(leaves: seq<OctNode<V>>, l: Loc, pts: seq<Point<V>>, max: nat, i: nat)
    reads leaves
  {
    && (forall k :: 0 <= k < |leaves| ==> Holds(leaves[k], l, pts, max) && InPart(l, leaves[k].loc, i))
    && (forall j, k :: 0 <= j < k < |leaves| ==> leaves[j].loc != leaves[k].loc)
    && (forall p <- pts :: InPart(l, p.loc, i) ==> exists k :: 0 <= k < |leaves| && leaves[k].loc == p.loc)
  }

  lemma {:induction false} LeavesFromShow<V>(cs: seq<OctNode<V>>, region: set<OctNode<V>>, l: Loc, pts: seq<Point<V>>, max: nat, i: nat)
    requires Family(cs, region, l, pts, max) && i <= 8 && IsValid(l) && max < LEVELS
    requires forall p <- pts :: Placed(p.loc, max, l)
    ensures ShowsPart(LeavesFrom(cs, region, l, max, false, i), l, pts, max, i)
    decreases max - l.level, 8 - i
  {
    if i < 8 {
      assert IsChild(cs[i], region, l, i, max);
      LeavesShow(cs[i], max);
      LeavesFromShow(cs, region, l, pts, max, i + 1);
      WidenChild(Leaves(cs[i], max, false), l, i, pts, max);
      JoinParts(Leaves(cs[i], max, false), LeavesFrom(cs, region, l, max, false, i + 1), l, pts, max, i);
    }
  }

  /** The leaves below one child, seen from its parent. */
  ghost predicate ShowsOne<V>(leaves: seq<OctNode<V>>, l: Loc, pts: seq<Point<V>>, max: nat, i: nat)
    reads leaves
  {
    && (forall k :: 0 <= k < |leaves| ==> Holds(leaves[k], l, pts, max) && IndexOfChild(l, leaves[k].loc) == Some(i))
    && (forall j, k :: 0 <= j < k < |leaves| ==> leaves[j].loc != leaves[k].loc)
    && (forall p <- pts :: IndexOfChild(l, p.loc) == Some(i) ==> exists k :: 0 <= k < |leaves| && leaves[k].loc == p.loc)
  }

  lemma WidenChild<V>(leaves: seq<OctNode<V>>, l: Loc, i: nat, pts: seq<Point<V>>, max: nat)
    requires IsValid(l) && l.level < max < LEVELS && i < 8 && GetChild(l, i).level == l.level + 1
    requires forall p <- pts :: Placed(p.loc, max, l)
    requires Shows(leaves, GetChild(l, i), Within(pts, GetChild(l, i)), max)
    ensures ShowsOne(leaves, l, pts, max, i)
  {
    var c := GetChild(l, i);
    ValidIsSmall(l);
    ChildIsChild(l, i);
    forall k | 0 <= k < |leaves|
      ensures Holds(leaves[k], l, pts, max) && IndexOfChild(l, leaves[k].loc) == Some(i)
    {
      var leaf := leaves[k].loc;
      assert Holds(leaves[k], c, Within(pts, c), max);
      WithinWithin(pts, c, leaf);
      ChildOfChild(leaf, c, l);
      OneChild(l, leaf, i);
    }
    forall p | p in pts && IndexOfChild(l, p.loc) == Some(i) ensures exists k :: 0 <= k < |leaves| && leaves[k].loc == p.loc {
      OneChild(l, p.loc, i);
      WithinMembers(pts, c);
      assert p in Within(pts, c);
    }
  }

  lemma JoinParts<V>(one: seq<OctNode<V>>, more: seq<OctNode<V>>, l: Loc, pts: seq<Point<V>>, max: nat, i: nat)
    requires ShowsOne(one, l, pts, max, i) && ShowsPart(more, l, pts, max, i + 1) && i < 8
    ensures ShowsPart(one + more, l, pts, max, i)
  {
    var all := one + more;
    forall p | p in pts && InPart(l, p.loc, i) ensures exists k :: 0 <= k < |all| && all[k].loc == p.loc {
      if IndexOfChild(l, p.loc) == Some(i) {
        var k :| 0 <= k < |one| && one[k].loc == p.loc;
        assert all[k].loc == p.loc;
      } else {
        assert InPart(l, p.loc, i + 1);
        var k :| 0 <= k < |more| && more[k].loc == p.loc;
        assert all[|one| + k].loc == p.loc;
      }
    }
  }

  // ---------------------------------------------------------------- with the empty leaves

  /** A leaf at or below `l`, holding exactly the points that were added there, in order. */
  ghost predicate Tile<V>(leaf: OctNode<V>, l: Loc, pts: seq<Point<V>>, max: nat)
    reads leaf
  {
    && leaf.isLeaf && leaf.children == [] && leaf.loc.level <= max && IsChildOf(leaf.loc, l)
    && leaf.pts == Within(pts, leaf.loc)
  }

  predicate Covers<V>(leaf: OctNode<V>, p: Loc) {
    IsChildOf(p, leaf.loc)
  }

  /** Every location at the deepest level lies in exactly one of the leaves. */
  ghost predicate Tiles<V>(leaves: seq<OctNode<V>>, l: Loc, pts: seq<Point<V>>, max: nat)
    reads leaves
  {
    && (forall k :: 0 <= k < |leaves| ==> Tile(leaves[k], l, pts, max))
    && (forall p :: Placed(p, max, l) ==> exists k :: 0 <= k < |leaves| && Covers(leaves[k], p))
    && (forall p, j, k :: Placed(p, max, l) && 0 <= j < k < |leaves| ==> !Covers(leaves[j], p) || !Covers(leaves[k], p))
  }

  /** The same for the children from the `i`-th on, or for the `i`-th alone. */
  ghost predicate TilesPart<V>(leaves: seq<OctNode<V>>, l: Loc, pts: seq<Point<V>>, max: nat, i: nat, alone: bool)
    reads leaves
  {
    && (forall k :: 0 <= k < |leaves| ==> Tile(leaves[k], l, pts, max))
    && (forall p, k :: Placed(p, max, l) && 0 <= k < |leaves| && Covers(leaves[k], p) ==> Inside(l, p, i, alone))
    && (forall p :: Placed(p, max, l) && Inside(l, p, i, alone) ==> exists k :: 0 <= k < |leaves| && Covers(leaves[k], p))
    && (forall p, j, k :: Placed(p, max, l) && 0 <= j < k < |leaves| ==> !Covers(leaves[j], p) || !Covers(leaves[k], p))
  }

  predicate Inside(l: Loc, p: Loc, i: nat, alone: bool) {
    IndexOfChild(l, p).Some? && i <= IndexOfChild(l, p).value < if alone then i + 1 else 8
  }

  lemma TilesChild<V>(leaves: seq<OctNode<V>>, l: Loc, i: nat, pts: seq<Point<V>>, max: nat)
    requires IsValid(l) && l.level < max < LEVELS && i < 8 && GetChild(l, i).level == l.level + 1
    requires forall p <- pts :: Placed(p.loc, max, l)
    requires Tiles(leaves, GetChild(l, i), Within(pts, GetChild(l, i)), max)
    ensures TilesPart(leaves, l, pts, max, i, true)
  {
    var c := GetChild(l, i);
    ValidIsSmall(l);
    ChildIsChild(l, i);
    forall k | 0 <= k < |leaves| ensures Tile(leaves[k], l, pts, max) {
      assert Tile(leaves[k], c, Within(pts, c), max);
      WithinWithin(pts, c, leaves[k].loc);
      ChildOfChild(leaves[k].loc, c, l);
    }
    forall p | Placed(p, max, l) ensures Inside(l, p, i, true) <==> Placed(p, max, c) {
      OneChild(l, p, i);
    }
    forall p, k | Placed(p, max, l) && 0 <= k < |leaves| && Covers(leaves[k], p) ensures Inside(l, p, i, true) {
      assert Tile(leaves[k], c, Within(pts, c), max);
      ChildOfChild(p, leaves[k].loc, c);
      assert Placed(p, max, c);
    }
    forall p, j, k | Placed(p, max, l) && 0 <= j < k < |leaves| ensures !Covers(leaves[j], p) || !Covers(leaves[k], p) {
      if Covers(leaves[j], p) {
        assert Inside(l, p, i, true);
      }
    }
  }

  lemma TilesJoin<V>(one: seq<OctNode<V>>, more: seq<OctNode<V>>, l: Loc, pts: seq<Point<V>>, max: nat, i: nat)
    requires TilesPart(one, l, pts, max, i, true) && TilesPart(more, l, pts, max, i + 1, false) && i < 8
    ensures TilesPart(one + more, l, pts, max, i, false)
  {
    var all := one + more;
    forall p | Placed(p, max, l) && Inside(l, p, i, false) ensures exists k :: 0 <= k < |all| && Covers(all[k], p) {
      if Inside(l, p, i, true) {
        var k :| 0 <= k < |one| && Covers(one[k], p);
        assert Covers(all[k], p);
      } else {
        assert Inside(l, p, i + 1, false);
        var k :| 0 <= k < |more| && Covers(more[k], p);
        assert Covers(all[|one| + k], p);
      }
    }
    forall p, k | Placed(p, max, l) && 0 <= k < |all| && Covers(all[k], p) ensures Inside(l, p, i, false) {
      assert if k < |one| then Covers(one[k], p) else Covers(more[k - |one|], p);
    }
    forall p, j, k | Placed(p, max, l) && 0 <= j < k < |all| ensures !Covers(all[j], p) || !Covers(all[k], p) {
      assert if j < |one| then all[j] == one[j] else all[j] == more[j - |one|];
      assert if k < |one| then all[k] == one[k] else all[k] == more[k - |one|];
    }
  }

  lemma {:induction false} ChildrenTile<V>(cs: seq<OctNode<V>>, region: set<OctNode<V>>, l: Loc, pts: seq<Point<V>>, max: nat, i: nat)
    requires Family(cs, region, l, pts, max) && i <= 8 && IsValid(l) && max < LEVELS
    requires forall p <- pts :: Placed(p.loc, max, l)
    ensures TilesPart(LeavesFrom(cs, region, l, max, true, i), l, pts, max, i, false)
    decreases max - l.level, 8 - i
  {
    hide Tiles, TilesPart, GetChild;
    if i < 8 {
      assert IsChild(cs[i], region, l, i, max);
      LeavesTile(cs[i], max);
      ChildrenTile(cs, region, l, pts, max, i + 1);
      TilesChild(Leaves(cs[i], max, true), l, i, pts, max);
      TilesJoin(Leaves(cs[i], max, true), LeavesFrom(cs, region, l, max, true, i + 1), l, pts, max, i);
    } else {
      NoTiles(l, pts, max);
    }
  }

  lemma NoTiles<V>(l: Loc, pts: seq<Point<V>>, max: nat)
    ensures TilesPart<V>([], l, pts, max, 8, false)
  {
  }

  /** With the empty ones the leaves share out all of space: every location lies in exactly one of them, and each holds
      exactly the points that were added there. */
  lemma {:induction false} LeavesTile<V>(n: OctNode<V>, max: nat)
    requires n.Valid(max)
    ensures Tiles(Leaves(n, max, true), n.loc, n.added, max)
    decreases max - n.loc.level, 9
  {
    if n.isLeaf {
      forall p | p in n.added ensures IsChildOf(p.loc, n.loc) {
        assert Placed(p.loc, max, n.loc);
      }
      AllWithin(n.added, n.loc);
      assert IsChildOf(n.loc, n.loc);
      assert Tile(n, n.loc, n.added, max);
      forall p | Placed(p, max, n.loc) ensures exists k :: 0 <= k < |[n]| && Covers([n][k], p) {
        assert Covers([n][0], p);
      }
    } else {
      assert Family(n.children, n.repr - {n}, n.loc, n.added, max);
      ChildrenTile(n.children, n.repr - {n}, n.loc, n.added, max, 0);
      forall p | Placed(p, max, n.loc) ensures Inside(n.loc, p, 0, false) {
        OneChild(n.loc, p, 0);
      }
    }
  }

  // ---------------------------------------------------------------- one point for each location

  /** The points kept: some of those there were, and exactly one for each location there was. */
  ghost predicate Thinned<V>(pts: seq<Point<V>>, kept: seq<Point<V>>) {
    && (forall p <- kept :: p in pts)
    && Apart(kept)
    && (forall p <- pts :: Has(kept, p.loc))
  }

  ghost predicate Has<V>(pts: seq<Point<V>>, l: Loc) {
    exists q :: q in pts && q.loc == l
  }

  lemma ThinAlready<V>(pts: seq<Point<V>>)
    requires |pts| <= 1
    ensures Thinned(pts, pts)
  {
  }

  /** The order of locations: by level, then by coordinates. */
  predicate Less(a: Loc, b: Loc) {
    if a.level != b.level then a.level < b.level
    else if a.x != b.x then a.x < b.x
    else if a.y != b.y then a.y < b.y
    else a.z < b.z
  }

  ghost predicate Sorted<V>(pts: seq<Point<V>>) {
    forall i, j :: 0 <= i < j < |pts| ==> !Less(pts[j].loc, pts[i].loc)
  }

  /** `p` goes before `b` when it does not come after it. */
  lemma NotAfter(a: Loc, b: Loc, p: Loc)
    requires !Less(b, a) && !Less(a, p)
    ensures !Less(b, p)
  {
  }

  lemma Inserted<V>(r: seq<Point<V>>, k: nat, p: Point<V>)
    requires Sorted(r) && k <= |r|
    requires (forall i :: 0 <= i < k ==> Less(r[i].loc, p.loc)) && (k < |r| ==> !Less(r[k].loc, p.loc))
    ensures Sorted(r[..k] + [p] + r[k..])
  {
    var t := r[..k] + [p] + r[k..];
    forall i, j | 0 <= i < j < |t| ensures !Less(t[j].loc, t[i].loc) {
      if i == k {
        assert t[j] == r[j - 1] && t[i] == p;
        if j - 1 > k {
          NotAfter(r[k].loc, r[j - 1].loc, p.loc);
        }
      }
    }
  }

  /** Sorts by location; points at the same location may come in any order. */
  method SortByLoc<V>(pts: seq<Point<V>>) returns (r: seq<Point<V>>)
    ensures Sorted(r) && multiset(r) == multiset(pts)
  {
    r := [];
    for n := 0 to |pts|
      invariant Sorted(r) && multiset(r) == multiset(pts[..n])
    {
      var k := 0;
      while k < |r| && Less(r[k].loc, pts[n].loc)
        invariant k <= |r| && forall i :: 0 <= i < k ==> Less(r[i].loc, pts[n].loc)
      {
        k := k + 1;
      }
      assert pts[..n + 1] == pts[..n] + [pts[n]];
      Inserted(r, k, pts[n]);
      assert r == r[..k] + r[k..];
      r := r[..k] + [pts[n]] + r[k..];
    }
    assert pts[..|pts|] == pts;
  }

  /** The first of each run of points at the same location. */
  function Firsts<V>(pts: seq<Point<V>>): seq<Point<V>> {
    if |pts| <= 1 then pts
    else
      var most, last := pts[..|pts| - 1], pts[|pts| - 1];
      if last.loc == most[|most| - 1].loc then Firsts(most) else Firsts(most) + [last]
  }

  method Unique<V>(pts: seq<Point<V>>) returns (r: seq<Point<V>>)
    ensures r == Firsts(pts)
  {
    r := [];
    for n := 0 to |pts|
      invariant r == Firsts(pts[..n])
    {
      assert pts[..n + 1][..n] == pts[..n];
      if n == 0 || pts[n].loc != pts[n - 1].loc {
        r := r + [pts[n]];
      }
    }
    assert pts[..|pts|] == pts;
  }

  lemma {:induction false} FirstsLast<V>(pts: seq<Point<V>>)
    requires pts != []
    ensures Firsts(pts) != [] && Firsts(pts)[|Firsts(pts)| - 1].loc == pts[|pts| - 1].loc
  {
    if |pts| > 1 {
      FirstsLast(pts[..|pts| - 1]);
    }
  }

  lemma {:induction false} FirstsMembers<V>(pts: seq<Point<V>>, p: Point<V>)
    ensures p in Firsts(pts) ==> p in pts
    ensures p in pts ==> Has(Firsts(pts), p.loc)
  {
    if |pts| > 1 {
      var most, last := pts[..|pts| - 1], pts[|pts| - 1];
      FirstsMembers(most, p);
      assert pts == most + [last];
      if p in pts && p !in most {
        FirstsLast(pts);
        assert Firsts(pts)[|Firsts(pts)| - 1] in Firsts(pts);
      } else if p in most {
        var q :| q in Firsts(most) && q.loc == p.loc;
        assert q in Firsts(pts);
      }
    }
  }

  ghost predicate Apart<V>(pts: seq<Point<V>>) {
    forall i, j :: 0 <= i < j < |pts| ==> pts[i].loc != pts[j].loc
  }

  lemma ApartSnoc<V>(pts: seq<Point<V>>, p: Point<V>)
    requires Apart(pts) && forall q <- pts :: q.loc != p.loc
    ensures Apart(pts + [p])
  {
  }

  /** What comes after a change of location in a sorted list is not at an earlier location. */
  lemma SortedLast<V>(most: seq<Point<V>>, last: Point<V>, q: Point<V>)
    requires Sorted(most + [last]) && most != [] && most[|most| - 1].loc != last.loc && q in most
    ensures q.loc != last.loc
  {
    var pts := most + [last];
    var i :| 0 <= i < |most| && most[i] == q;
    var end := |most| - 1;
    assert pts[i] == q && pts[end] == most[end] && pts[|most|] == last;
    assert !Less(pts[|most|].loc, pts[end].loc);
    assert i < end ==> !Less(pts[end].loc, pts[i].loc);
  }

  lemma {:induction false} FirstsApart<V>(pts: seq<Point<V>>)
    requires Sorted(pts)
    ensures Apart(Firsts(pts))
  {
    if |pts| > 1 {
      var most, last := pts[..|pts| - 1], pts[|pts| - 1];
      FirstsApart(most);
      if last.loc != most[|most| - 1].loc {
        assert pts == most + [last];
        forall q | q in Firsts(most) ensures q.loc != last.loc {
          FirstsMembers(most, q);
          SortedLast(most, last, q);
        }
        ApartSnoc(Firsts(most), last);
      }
    }
  }

  /** Of sorted points, exactly one for each location is the first of a run. */
  lemma {:induction false} ThinnedBy<V>(pts: seq<Point<V>>, sorted: seq<Point<V>>, kept: seq<Point<V>>)
    requires Sorted(sorted) && multiset(sorted) == multiset(pts) && kept == Firsts(sorted)
    ensures Thinned(pts, kept)
  {
    FirstsApart(sorted);
    forall p | p in kept || p in pts ensures (p in kept ==> p in pts) && (p in pts ==> Has(kept, p.loc)) {
      assert p in multiset(sorted) <==> p in multiset(pts);
      FirstsMembers(sorted, p);
    }
  }

  ghost function Gather<V>(parts: seq<seq<Point<V>>>, n: nat): seq<Point<V>>
    requires n <= |parts|
  {
    if n == 0 then [] else Gather(parts, n - 1) + parts[n - 1]
  }

  lemma {:induction false} WithinConcat<V>(a: seq<Point<V>>, b: seq<Point<V>>, l: Loc)
    ensures Within(a + b, l) == Within(a, l) + Within(b, l)
  {
    if b == [] {
      assert a + b == a;
    } else {
      var most, p := b[..|b| - 1], b[|b| - 1];
      WithinConcat(a, most, l);
      assert a + b == a + most + [p] && b == most + [p];
      WithinSnoc(a + most, p, l);
      WithinSnoc(most, p, l);
    }
  }

  lemma {:induction false} NoneWithin<V>(pts: seq<Point<V>>, l: Loc)
    requires forall p <- pts :: !IsChildOf(p.loc, l)
    ensures Within(pts, l) == []
  {
    if pts != [] {
      NoneWithin(pts[..|pts| - 1], l);
    }
  }

  /** Points that belong to the children of `l`, one part for each. */
  ghost predicate Parts<V>(parts: seq<seq<Point<V>>>, l: Loc, max: nat) {
    |parts| == 8 && forall i :: 0 <= i < 8 ==> InChild(parts[i], l, max, i)
  }

  ghost predicate InChild<V>(part: seq<Point<V>>, l: Loc, max: nat, i: nat) {
    forall p <- part :: Placed(p.loc, max, l) && IndexOfChild(l, p.loc) == Some(i)
  }

  lemma {:induction false} GatherWithin<V>(parts: seq<seq<Point<V>>>, l: Loc, max: nat, i: nat, n: nat)
    requires Parts(parts, l, max) && IsValid(l) && l.level < max < LEVELS && i < 8 && n <= 8
    ensures Within(Gather(parts, n), GetChild(l, i)) == if i < n then parts[i] else []
  {
    if n > 0 {
      GatherWithin(parts, l, max, i, n - 1);
      WithinConcat(Gather(parts, n - 1), parts[n - 1], GetChild(l, i));
      assert InChild(parts[n - 1], l, max, n - 1);
      forall p | p in parts[n - 1] ensures IsChildOf(p.loc, GetChild(l, i)) <==> i == n - 1 {
        OneChild(l, p.loc, i);
      }
      if i == n - 1 {
        AllWithin(parts[n - 1], GetChild(l, i));
      } else {
        NoneWithin(parts[n - 1], GetChild(l, i));
      }
    }
  }

  /** Points of the first `n` children. */
  ghost predicate InFirst<V>(pts: seq<Point<V>>, l: Loc, max: nat, n: nat) {
    forall p <- pts :: Placed(p.loc, max, l) && IndexOfChild(l, p.loc).Some? && IndexOfChild(l, p.loc).value < n
  }

  lemma {:induction false} GatherApart<V>(parts: seq<seq<Point<V>>>, l: Loc, max: nat, n: nat)
    requires Parts(parts, l, max) && n <= 8 && forall i :: 0 <= i < 8 ==> Apart(parts[i])
    ensures Apart(Gather(parts, n)) && InFirst(Gather(parts, n), l, max, n)
  {
    if n > 0 {
      GatherApart(parts, l, max, n - 1);
      assert InChild(parts[n - 1], l, max, n - 1);
      ApartConcat(Gather(parts, n - 1), parts[n - 1], l, max, n - 1);
    }
  }

  lemma ApartConcat<V>(a: seq<Point<V>>, b: seq<Point<V>>, l: Loc, max: nat, n: nat)
    requires Apart(a) && Apart(b) && InFirst(a, l, max, n) && InChild(b, l, max, n)
    ensures Apart(a + b) && InFirst(a + b, l, max, n + 1)
  {
    forall i, j | 0 <= i < j < |a + b| ensures (a + b)[i].loc != (a + b)[j].loc {
      if i < |a| <= j {
        assert a[i] in a && b[j - |a|] in b;
      }
    }
  }

  lemma {:induction false} FromPart<V>(parts: seq<seq<Point<V>>>, n: nat, p: Point<V>) returns (i: nat)
    requires n <= |parts| && p in Gather(parts, n)
    ensures i < n && p in parts[i]
  {
    if p in parts[n - 1] {
      i := n - 1;
    } else {
      i := FromPart(parts, n - 1, p);
    }
  }

  lemma {:induction false} InGather<V>(parts: seq<seq<Point<V>>>, n: nat, i: nat, p: Point<V>)
    requires i < n <= |parts| && p in parts[i]
    ensures p in Gather(parts, n)
  {
    if i < n - 1 {
      InGather(parts, n - 1, i, p);
    }
  }

  lemma ThinnedInChild<V>(pts: seq<Point<V>>, part: seq<Point<V>>, l: Loc, max: nat, i: nat)
    requires IsValid(l) && l.level < max < LEVELS && i < 8 && forall p <- pts :: Placed(p.loc, max, l)
    requires Thinned(Within(pts, GetChild(l, i)), part)
    ensures InChild(part, l, max, i) && Apart(part) && forall p <- part :: p in pts
    ensures forall p <- pts :: IndexOfChild(l, p.loc) == Some(i) ==> Has(part, p.loc)
  {
    WithinMembers(pts, GetChild(l, i));
    forall p | p in pts ensures IsChildOf(p.loc, GetChild(l, i)) <==> IndexOfChild(l, p.loc) == Some(i) {
      OneChild(l, p.loc, i);
    }
  }

  lemma HasInGather<V>(parts: seq<seq<Point<V>>>, i: nat, l: Loc)
    requires i < |parts| && Has(parts[i], l)
    ensures Has(Gather(parts, |parts|), l)
  {
    var q :| q in parts[i] && q.loc == l;
    InGather(parts, |parts|, i, q);
  }

  ghost predicate PartThinned<V>(pts: seq<Point<V>>, part: seq<Point<V>>, l: Loc, i: nat) {
    Thinned(Within(pts, GetChild(l, i)), part)
  }

  lemma PartsThinned<V>(pts: seq<Point<V>>, parts: seq<seq<Point<V>>>, l: Loc, max: nat)
    requires IsValid(l) && l.level < max < LEVELS && |parts| == 8 && forall p <- pts :: Placed(p.loc, max, l)
    requires forall i :: 0 <= i < 8 ==> PartThinned(pts, parts[i], l, i)
    ensures Parts(parts, l, max) && forall i :: 0 <= i < 8 ==> Apart(parts[i])
    ensures forall p <- Gather(parts, 8) :: p in pts
  {
    forall i | 0 <= i < 8 ensures InChild(parts[i], l, max, i) && Apart(parts[i]) {
      assert PartThinned(pts, parts[i], l, i);
      ThinnedInChild(pts, parts[i], l, max, i);
    }
    forall p | p in Gather(parts, 8) ensures p in pts {
      var i := FromPart(parts, 8, p);
      assert PartThinned(pts, parts[i], l, i);
      ThinnedInChild(pts, parts[i], l, max, i);
    }
  }

  lemma PartsCover<V>(pts: seq<Point<V>>, parts: seq<seq<Point<V>>>, l: Loc, max: nat, p: Point<V>)
    requires IsValid(l) && l.level < max < LEVELS && |parts| == 8 && (forall p <- pts :: Placed(p.loc, max, l)) && p in pts
    requires forall i :: 0 <= i < 8 ==> PartThinned(pts, parts[i], l, i)
    ensures Has(Gather(parts, 8), p.loc)
  {
    OneChild(l, p.loc, 0);
    var i := IndexOfChild(l, p.loc).value;
    assert PartThinned(pts, parts[i], l, i);
    ThinnedInChild(pts, parts[i], l, max, i);
    HasInGather(parts, i, p.loc);
  }

  /** Thinning each child's points thins all of them. */
  lemma GatherThinned<V>(pts: seq<Point<V>>, parts: seq<seq<Point<V>>>, l: Loc, max: nat)
    requires IsValid(l) && l.level < max < LEVELS && |parts| == 8 && forall p <- pts :: Placed(p.loc, max, l)
    requires forall i :: 0 <= i < 8 ==> PartThinned(pts, parts[i], l, i)
    ensures Parts(parts, l, max) && Thinned(pts, Gather(parts, 8)) && InFirst(Gather(parts, 8), l, max, 8)
  {
    PartsThinned(pts, parts, l, max);
    GatherApart(parts, l, max, 8);
    forall p | p in pts ensures Has(Gather(parts, 8), p.loc) {
      PartsCover(pts, parts, l, max, p);
    }
  }

  method ConsolidateOne<V>(cs: seq<OctNode<V>>, ghost region: set<OctNode<V>>, l: Loc, max: nat, k: nat)
    requires Kin(cs, region, l, max) && max < LEVELS && k < 8
    modifies region
    ensures Kin(cs, region, l, max) && Thinned(old(cs[k].added), cs[k].added)
    ensures forall i :: 0 <= i < 8 && i != k ==> cs[i].added == old(cs[i].added)
    decreases max - l.level, 0
  {
    assert IsChild(cs[k], region, l, k, max);
    label before:
    cs[k].ConsolidatePts(max);
    forall i | 0 <= i < 8
      ensures cs[i] in region && cs[i].repr <= region && IsChild(cs[i], region, l, i, max)
      ensures cs[i].repr == old@before(cs[i].repr) && (i != k ==> cs[i].added == old(cs[i].added))
    {
      assert old@before(IsChild(cs[i], region, l, i, max));
      assert i != k ==> cs[i] in old@before(cs[i].repr) && old@before(cs[i].repr) !! old@before(cs[k].repr);
    }
  }

  method ConsolidateAll<V>(cs: seq<OctNode<V>>, ghost region: set<OctNode<V>>, l: Loc, ghost pts: seq<Point<V>>, max: nat)
    returns (ghost kept: seq<Point<V>>)
    requires Family(cs, region, l, pts, max) && IsValid(l) && max < LEVELS && forall p <- pts :: Placed(p.loc, max, l)
    modifies region
    ensures Family(cs, region, l, kept, max) && Thinned(pts, kept) && forall p <- kept :: Placed(p.loc, max, l)
    decreases max - l.level, 1
  {
    for k := 0 to |cs|
      invariant Kin(cs, region, l, max)
      invariant forall i :: 0 <= i < 8 ==>
        if i < k then PartThinned(pts, cs[i].added, l, i) else cs[i].added == Within(pts, GetChild(l, i))
    {
      ConsolidateOne(cs, region, l, max, k);
    }
    ghost var parts := seq(8, i requires 0 <= i < 8 reads cs => cs[i].added);
    GatherThinned(pts, parts, l, max);
    kept := Gather(parts, 8);
    forall i | 0 <= i < 8 ensures cs[i].added == Within(kept, GetChild(l, i)) {
      GatherWithin(parts, l, max, i, 8);
    }
  }

  method NewNodes<V>(locs: seq<Loc>) returns (cs: seq<OctNode<V>>, ghost region: set<OctNode<V>>)
    ensures |cs| == |locs| && fresh(region) && Distinct(cs)
    ensures forall i :: 0 <= i < |cs| ==> cs[i] in region && Empty(cs[i], locs[i])
  {
    cs, region := [], {};
    for idx := 0 to |locs|
      invariant |cs| == idx && fresh(region) && Distinct(cs)
      invariant forall i :: 0 <= i < idx ==> cs[i] in region && Empty(cs[i], locs[i])
    {
      var child := new OctNode(locs[idx]);
      cs := cs + [child];
      region := region + {child};
    }
  }

  ghost predicate Distinct<V>(cs: seq<OctNode<V>>) {
    NoDup(cs)
  }

  lemma NewFamily<V>(cs: seq<OctNode<V>>, region: set<OctNode<V>>, l: Loc, max: nat)
    requires l.level < max < LEVELS && IsValid(l) && |cs| == 8 && Distinct(cs)
    requires forall i :: 0 <= i < 8 ==> cs[i] in region && Empty(cs[i], GetChild(l, i))
    ensures Family(cs, region, l, [], max)
  {
    forall i | 0 <= i < 8 ensures cs[i].repr <= region && IsChild(cs[i], region, l, i, max) && cs[i].added == [] {
      ChildIsValid(l, i);
      assert Empty(cs[i], GetChild(l, i));
    }
  }

  ghost predicate Empty<V>(n: OctNode<V>, l: Loc)
    reads n
  {
    n.loc == l && n.isLeaf && n.pts == [] && n.children == [] && n.added == [] && n.repr == {n}
  }

  /** The eight children of `l`, on nodes of their own from `region`. */
  ghost predicate Kin<V>(cs: seq<OctNode<V>>, region: set<OctNode<V>>, l: Loc, max: nat)
    reads region
    decreases max - l.level, 1
  {
    && l.level < max && |cs| == 8
    && (forall i :: 0 <= i < 8 ==> cs[i] in region && cs[i].repr <= region)
    && (forall i, j :: 0 <= i < j < 8 ==> cs[i].repr !! cs[j].repr)
    && (forall i :: 0 <= i < 8 ==> IsChild(cs[i], region, l, i, max))
  }

  ghost predicate IsChild<V>(c: OctNode<V>, region: set<OctNode<V>>, l: Loc, i: nat, max: nat)
    requires c in region && c.repr <= region && l.level < max
    reads region
    decreases max - l.level, 0
  {
    c in c.repr && c.loc == GetChild(l, i) && c.loc.level == l.level + 1 && c.Valid(max)
  }

  /** The children share the points `pts`. */
  ghost predicate Family<V>(cs: seq<OctNode<V>>, region: set<OctNode<V>>, l: Loc, pts: seq<Point<V>>, max: nat)
    reads region
    decreases max - l.level, 2
  {
    Kin(cs, region, l, max) && forall i :: 0 <= i < 8 ==> cs[i].added == Within(pts, GetChild(l, i))
  }

  /** One point goes to the child it belongs to. */
  method AddBelow<V>(cs: seq<OctNode<V>>, ghost region: set<OctNode<V>>, l: Loc, ghost pts: seq<Point<V>>, max: nat, p: Point<V>)
    returns (ghost wider: set<OctNode<V>>)
    requires Family(cs, region, l, pts, max) && IsValid(l) && max < LEVELS && Placed(p.loc, max, l)
    modifies region
    ensures Family(cs, wider, l, pts + [p], max) && region <= wider && fresh(wider - region)
    decreases max - l.level, 0
  {
    hide Within;
    OneChild(l, p.loc, 0);
    var k := IndexOfChild(l, p.loc).value;
    OneChild(l, p.loc, k);
    assert IsChild(cs[k], region, l, k, max);
    label before:
    cs[k].AddPoint(max, p.loc, p.value);
    wider := region + cs[k].repr;
    forall i | 0 <= i < 8
      ensures cs[i] in wider && cs[i].repr <= wider && IsChild(cs[i], wider, l, i, max)
      ensures cs[i].added == Within(pts + [p], GetChild(l, i))
      ensures i != k ==> cs[i].repr == old@before(cs[i].repr)
    {
      OneChild(l, p.loc, i);
      WithinSnoc(pts, p, GetChild(l, i));
      assert old@before(IsChild(cs[i], region, l, i, max));
      assert i != k ==> cs[i] in old@before(cs[i].repr) && old@before(cs[i].repr) !! old@before(cs[k].repr);
    }
  }

  method HandDown<V>(cs: seq<OctNode<V>>, ghost region: set<OctNode<V>>, l: Loc, ghost pts: seq<Point<V>>, max: nat, more: seq<Point<V>>)
    returns (ghost wider: set<OctNode<V>>)
    requires Family(cs, region, l, pts, max) && IsValid(l) && max < LEVELS && forall p <- more :: Placed(p.loc, max, l)
    modifies region
    ensures Family(cs, wider, l, pts + more, max) && region <= wider && fresh(wider - region)
    decreases max - l.level, 1
  {
    wider := region;
    assert pts + more[..0] == pts;
    for n := 0 to |more|
      invariant Family(cs, wider, l, pts + more[..n], max) && region <= wider && fresh(wider - region)
    {
      assert pts + more[..n + 1] == pts + more[..n] + [more[n]];
      wider := AddBelow(cs, wider, l, pts + more[..n], max, more[n]);
    }
    assert more[..|more|] == more;
  }
}
