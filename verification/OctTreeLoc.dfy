/** Locations in an octree: a level and three 32-bit coordinates at that level. */
module OctTreeLoc {
  import opened Lists
  import opened Modular

  const ROUND := 0x1_0000_0000
  const HALF := 0x8000_0000
  const INVALID_LOD: Word := 0xFFFF_FFFF

  type Word = x: int | 0 <= x < ROUND

  datatype Loc = Loc(level: Word, x: Word, y: Word, z: Word)

  const NOWHERE := Loc(INVALID_LOD, 0, 0, 0)

  function Wrap(x: int): Word {
    if 0 <= x < ROUND then x else x % ROUND
  }

  /** The value of an unsigned difference as a signed int. */
  function Delta(a: Word, b: Word): int {
    var d := a as int - b;
    if d < -HALF then d + ROUND else if d >= HALF then d - ROUND else d
  }

  /** `x << k` before it is cut to 32 bits. */
  function Shl(x: int, k: nat): int {
    if k == 0 then x else 2 * Shl(x, k - 1)
  }

  function GetChild(l: Loc, idx: nat): Loc {
    Loc(Wrap(l.level as int + 1), Double(l.x, idx % 2), Double(l.y, idx / 2 % 2), Double(l.z, idx / 4 % 2))
  }

  /** `(x << 1) + bit` */
  function Double(x: Word, bit: nat): Word {
    Wrap(Wrap(2 * x as int) as int + bit)
  }

  function ParentAtLevel(l: Loc, level: Word): Loc {
    var shift := Wrap(l.level - level);
    Loc(level, ShrWord(l.x, shift), ShrWord(l.y, shift), ShrWord(l.z, shift))
  }

  function ShrWord(x: Word, k: nat): Word {
    ShrShrinks(x, k);
    Shr(x, k)
  }

  function IsValid(l: Loc): bool {
    l.level != INVALID_LOD && var end := Wrap(Shl(1, l.level)); l.x < end && l.y < end && l.z < end
  }

  predicate IsChildOf(l: Loc, parent: Loc) {
    var delta := Delta(l.level, parent.level);
    delta >= 0 && Shr(l.x, delta) == parent.x && Shr(l.y, delta) == parent.y && Shr(l.z, delta) == parent.z
  }

  /** `None` stands for the index -1. */
  function IndexOfChild(l: Loc, child: Loc): Option<nat> {
    if child.level <= l.level then None
    else
      var c := if child.level as int > l.level as int + 1 then ParentAtLevel(child, Wrap(l.level as int + 1)) else child;
      var x, y, z := Local(c.x, l.x), Local(c.y, l.y), Local(c.z, l.z);
      if x > 1 || y > 1 || z > 1 then None else Some(4 * z as int + 2 * y as int + x)
  }

  function Local(child: Word, parent: Word): Word {
    Wrap(child - Wrap(2 * parent as int))
  }

  /** `l` as seen from `parent`. */
  function GlobalToLoc(l: Loc, parent: Loc): Loc {
    var delta := Delta(l.level, parent.level);
    if delta < 0 then NOWHERE
    else if Shr(l.x, delta) != parent.x || Shr(l.y, delta) != parent.y || Shr(l.z, delta) != parent.z then NOWHERE
    else Loc(delta, Wrap(l.x - Wrap(Shl(parent.x, delta))), Wrap(l.y - Wrap(Shl(parent.y, delta))),
             Wrap(l.z - Wrap(Shl(parent.z, delta))))
  }

  // ---------------------------------------------------------------- shifts

  lemma {:induction false} ShlShl(x: int, a: nat, b: nat)
    ensures Shl(Shl(x, a), b) == Shl(x, a + b)
  {
    if b > 0 {
      ShlShl(x, a, b - 1);
    }
  }

  lemma {:induction false} ShlAdd(x: int, y: int, k: nat)
    ensures Shl(x + y, k) == Shl(x, k) + Shl(y, k)
  {
    if k > 0 {
      ShlAdd(x, y, k - 1);
    }
  }

  lemma {:induction false} ShlGrows(x: nat, k: nat)
    ensures x <= Shl(x, k) && (x > 0 ==> Shl(1, k) <= Shl(x, k)) && 0 < Shl(1, k)
  {
    if k > 0 {
      ShlGrows(x, k - 1);
    }
  }

  /** What a right shift drops. */
  lemma {:induction false} ShrRest(x: nat, k: nat)
    ensures Shl(Shr(x, k), k) <= x < Shl(Shr(x, k), k) + Shl(1, k)
  {
    if k > 0 {
      var h := Shr(x, k - 1);
      ShrRest(x, k - 1);
      ShlAdd(h - 2 * (h / 2), 2 * (h / 2), k - 1);
      ShlDouble(h / 2, k - 1);
      if h == 2 * (h / 2) {
        ShlZero(k - 1);
      }
    }
  }

  lemma {:induction false} ShlZero(k: nat)
    ensures Shl(0, k) == 0
  {
    if k > 0 {
      ShlZero(k - 1);
    }
  }

  lemma ShlDouble(x: int, k: nat)
    ensures Shl(2 * x, k) == 2 * Shl(x, k)
  {
    ShlAdd(x, x, k);
  }

  /** Adding multiples before a right shift adds to its result. */
  lemma {:induction false} ShrAdd(x: nat, y: nat, k: nat)
    ensures 0 <= x + Shl(y, k) && Shr(x + Shl(y, k), k) == Shr(x, k) + y
    decreases k
  {
    ShlGrows(y, k);
    if k > 0 {
      ShlDouble(y, k - 1);
      ShlGrows(2 * y, k - 1);
      ShrAdd(x, 2 * y, k - 1);
    }
  }

  lemma ShlMonotone(a: nat, b: nat)
    requires a <= b
    ensures Shl(1, a) <= Shl(1, b)
  {
    ShlShl(1, a, b - a);
    ShlGrows(1, a);
    ShlGrows(Shl(1, a), b - a);
  }

  // ---------------------------------------------------------------- the location algebra

  const LEVELS := 32

  /** The coordinates can be doubled without loss, as those of every valid location can. */
  predicate Small(l: Loc) {
    l.level < LEVELS && l.x < HALF && l.y < HALF && l.z < HALF
  }

  lemma {:induction false} HighestPower(k: nat)
    requires k <= 31
    ensures 0 < Shl(1, k) <= HALF
  {
    ShlGrows(1, k);
    ShlMonotone(k, 31);
    assert Shl(1, 8) == 256;
    ShlShl(1, 8, 8);
    assert Shl(256, 8) == 65536;
    ShlShl(1, 16, 8);
    assert Shl(65536, 8) == 16777216;
    ShlShl(1, 24, 7);
    assert Shl(16777216, 7) == HALF;
  }

  lemma ValidIsSmall(l: Loc)
    requires l.level < LEVELS && IsValid(l)
    ensures Small(l) && Shl(1, l.level) <= HALF
  {
    HighestPower(l.level);
  }

  lemma DoubleIs(x: Word, bit: nat)
    requires x < HALF && bit < 2
    ensures Double(x, bit) == 2 * x + bit && Local(Double(x, bit), x) == bit
  {
  }

  /** The local coordinate is the last bit of a child's, and more than 1 for anything else. */
  lemma LocalIff(child: Word, parent: Word)
    requires parent < HALF
    ensures Local(child, parent) <= 1 <==> child / 2 == parent
    ensures child / 2 == parent ==> Local(child, parent) == child % 2 && Double(parent, child % 2) == child
  {
  }

  /** The ancestor of a location one level below a higher one. */
  function Towards(l: Loc, child: Loc): Loc {
    if child.level as int > l.level as int + 1 then ParentAtLevel(child, Wrap(l.level as int + 1)) else child
  }

  lemma TowardsHalves(l: Loc, child: Loc)
    requires l.level < child.level < LEVELS
    ensures var c, n := Towards(l, child), child.level - l.level;
            && c.level == l.level + 1 && Delta(child.level, l.level) == n && Delta(child.level, c.level) == n - 1
            && c.x == Shr(child.x, n - 1) && c.y == Shr(child.y, n - 1) && c.z == Shr(child.z, n - 1)
  {
  }

  /** A location has an index as a child exactly when it lies below; the index is made of the last bits of its
      ancestor there. */
  lemma IndexIff(l: Loc, child: Loc)
    requires Small(l) && child.level < LEVELS
    ensures IndexOfChild(l, child).Some? <==> l.level < child.level && IsChildOf(child, l)
  {
    if l.level < child.level {
      var c := Towards(l, child);
      TowardsHalves(l, child);
      HalvesIff(l, child, c, child.level - l.level);
      IndexFromHalves(l, child, c);
    }
  }

  /** `c` is half as far from the child as `l`, in each coordinate. */
  predicate Halves(l: Loc, c: Loc) {
    c.x / 2 == l.x && c.y / 2 == l.y && c.z / 2 == l.z
  }

  lemma HalvesIff(l: Loc, child: Loc, c: Loc, n: nat)
    requires n > 0 && Delta(child.level, l.level) == n
    requires c.x == Shr(child.x, n - 1) && c.y == Shr(child.y, n - 1) && c.z == Shr(child.z, n - 1)
    ensures IsChildOf(child, l) <==> Halves(l, c)
  {
  }

  lemma IndexFromHalves(l: Loc, child: Loc, c: Loc)
    requires Small(l) && l.level < child.level && c == Towards(l, child)
    ensures IndexOfChild(l, child)
            == if Halves(l, c) then Some(4 * (c.z % 2) + 2 * (c.y % 2) + c.x % 2) else None
  {
    LocalIff(c.x, l.x);
    LocalIff(c.y, l.y);
    LocalIff(c.z, l.z);
    IndexOfLocals(l, child, c, Local(c.x, l.x), Local(c.y, l.y), Local(c.z, l.z));
  }

  lemma IndexOfLocals(l: Loc, child: Loc, c: Loc, x: Word, y: Word, z: Word)
    requires l.level < child.level && c == Towards(l, child)
    requires x == Local(c.x, l.x) && y == Local(c.y, l.y) && z == Local(c.z, l.z)
    ensures IndexOfChild(l, child) == if x > 1 || y > 1 || z > 1 then None else Some(4 * z as int + 2 * y as int + x)
  {
  }

  lemma BelowTowards(l: Loc, child: Loc)
    requires l.level < child.level < LEVELS
    ensures IsChildOf(child, Towards(l, child))
  {
    TowardsHalves(l, child);
  }

  /** The child with that index lies on the way down. */
  lemma ChildIsTowards(l: Loc, child: Loc)
    requires Small(l) && child.level < LEVELS && l.level < child.level && IsChildOf(child, l)
    ensures var i := IndexOfChild(l, child);
            i.Some? && i.value < 8 && GetChild(l, i.value) == Towards(l, child) && IsChildOf(child, GetChild(l, i.value))
  {
    var c := Towards(l, child);
    TowardsHalves(l, child);
    HalvesIff(l, child, c, child.level - l.level);
    IndexFromHalves(l, child, c);
    BelowTowards(l, child);
    ChildFromBits(l, c);
  }

  lemma ChildFromBits(l: Loc, c: Loc)
    requires Small(l) && c.level == l.level + 1 && Halves(l, c)
    ensures var i := 4 * (c.z % 2) + 2 * (c.y % 2) + c.x % 2; i < 8 && GetChild(l, i) == c
  {
    IndexBits(c.x % 2, c.y % 2, c.z % 2);
    LocalIff(c.x, l.x);
    LocalIff(c.y, l.y);
    LocalIff(c.z, l.z);
    ChildLevel(l, 4 * (c.z % 2) + 2 * (c.y % 2) + c.x % 2);
  }

  lemma ChildLevel(l: Loc, idx: nat)
    requires l.level < LEVELS
    ensures GetChild(l, idx).level == l.level + 1
  {
  }

  lemma IndexBits(x: int, y: int, z: int)
    requires 0 <= x <= 1 && 0 <= y <= 1 && 0 <= z <= 1
    ensures var i := 4 * z + 2 * y + x; i < 8 && i % 2 == x && i / 2 % 2 == y && i / 4 % 2 == z
  {
  }

  lemma ChildIsValid(l: Loc, idx: nat)
    requires l.level < LEVELS - 1 && IsValid(l)
    ensures IsValid(GetChild(l, idx)) && GetChild(l, idx).level == l.level + 1
  {
    HighestPower(l.level);
    HighestPower(l.level + 1);
    ValidByEnd(l, Shl(1, l.level));
    ChildFits(l, idx, Shl(1, l.level));
    ValidByEnd(GetChild(l, idx), 2 * Shl(1, l.level));
  }

  /** A child lies below its parent. */
  lemma ChildIsChild(l: Loc, idx: nat)
    requires Small(l)
    ensures IsChildOf(GetChild(l, idx), l)
  {
    var c := GetChild(l, idx);
    DoubleIs(l.x, idx % 2);
    DoubleIs(l.y, idx / 2 % 2);
    DoubleIs(l.z, idx / 4 % 2);
    ChildLevel(l, idx);
    ShrOne(c.x);
    ShrOne(c.y);
    ShrOne(c.z);
  }

  lemma ChildFits(l: Loc, idx: nat, end: int)
    requires l.level < LEVELS && l.x < end && l.y < end && l.z < end && end <= HALF
    ensures var c := GetChild(l, idx); c.level == l.level + 1 && c.x < 2 * end && c.y < 2 * end && c.z < 2 * end
  {
    DoubleIs(l.x, idx % 2);
    DoubleIs(l.y, idx / 2 % 2);
    DoubleIs(l.z, idx / 4 % 2);
  }

  lemma ValidByEnd(l: Loc, end: int)
    requires l.level < LEVELS && end == Shl(1, l.level) && 0 < end <= HALF
    ensures IsValid(l) <==> l.x < end && l.y < end && l.z < end
  {
  }

  /** Going down, one child at a time. */
  function Descend(l: Loc, target: Loc): Loc
    requires l.level <= target.level < LEVELS
    decreases target.level - l.level
  {
    if l.level == target.level then l
    else
      match IndexOfChild(l, target)
      case None => l
      case Some(i) =>
        ChildLevel(l, i);
        Descend(GetChild(l, i), target)
  }

  lemma {:induction false} DescendReaches(l: Loc, target: Loc)
    requires l.level <= target.level < LEVELS && IsValid(l) && IsChildOf(target, l)
    ensures Descend(l, target) == target
    decreases target.level - l.level
  {
    if l.level < target.level {
      ValidIsSmall(l);
      ChildIsTowards(l, target);
      var i := IndexOfChild(l, target).value;
      ChildIsValid(l, i);
      DescendReaches(GetChild(l, i), target);
    }
  }

  lemma LocalCoordinate(x: Word, parent: Word, delta: nat)
    requires Shr(x, delta) == parent
    ensures Wrap(x - Wrap(Shl(parent, delta))) == x - Shl(parent, delta)
    ensures 0 <= x - Shl(parent, delta) < Shl(1, delta)
  {
    ShrRest(x, delta);
    ShlGrows(parent, delta);
  }

  /** A local location determines the global one; it is valid exactly when the global one lies in the parent. */
  lemma GlobalToLocIff(l: Loc, parent: Loc)
    requires l.level < LEVELS && parent.level < LEVELS
    ensures var r := GlobalToLoc(l, parent);
            && (IsValid(r) <==> IsChildOf(l, parent)) && (r == NOWHERE <==> !IsChildOf(l, parent))
            && (IsChildOf(l, parent) ==>
                  r.level == l.level - parent.level && l.x == Shl(parent.x, r.level) + r.x
                  && l.y == Shl(parent.y, r.level) + r.y && l.z == Shl(parent.z, r.level) + r.z)
  {
    if IsChildOf(l, parent) {
      var delta := l.level - parent.level;
      LocalCoordinate(l.x, parent.x, delta);
      LocalCoordinate(l.y, parent.y, delta);
      LocalCoordinate(l.z, parent.z, delta);
      HighestPower(delta);
    }
  }

  /** One coordinate seen from a root and from something below the root, whose own coordinate is seen from there. */
  lemma CoordinateComposes(x: Word, q: Word, p: Word, xp: Word, qp: Word, m: nat, k: nat)
    requires Shr(q, m) == p && Shr(x, m + k) == p && x == Shl(p, m + k) + xp && q == Shl(p, m) + qp
    ensures Shr(xp, k) == qp <==> Shr(x, k) == q
    ensures xp - Shl(qp, k) == x - Shl(q, k)
  {
    ShrRest(x, m + k);
    ShrRest(q, m);
    ShlShl(p, m, k);
    ShlGrows(p, m);
    ShrAdd(xp, Shl(p, m), k);
    ShlAdd(qp, Shl(p, m), k);
  }

  lemma ChildIff(l: Loc, p: Loc)
    requires l.level < LEVELS && p.level < LEVELS
    ensures IsChildOf(l, p) <==> p.level <= l.level && Above(p.x, l.x, l.level - p.level)
                                 && Above(p.y, l.y, l.level - p.level) && Above(p.z, l.z, l.level - p.level)
  {
  }

  predicate Above(p: nat, x: nat, k: nat) {
    Shr(x, k) == p
  }

  lemma AboveTwice(p: nat, q: nat, x: nat, a: nat, b: nat, c: nat)
    requires Above(q, x, a) && Above(p, q, b) && c == a + b
    ensures Above(p, x, c)
  {
    ShrShr(x, a, b);
  }

  lemma ChildOfChild(l: Loc, q: Loc, p: Loc)
    requires l.level < LEVELS && q.level < LEVELS && p.level < LEVELS && IsChildOf(l, q) && IsChildOf(q, p)
    ensures IsChildOf(l, p)
  {
    ChildIff(l, q);
    ChildIff(q, p);
    ChildIff(l, p);
    var a, b, c := l.level - q.level, q.level - p.level, l.level - p.level;
    AboveTwice(p.x, q.x, l.x, a, b, c);
    AboveTwice(p.y, q.y, l.y, a, b, c);
    AboveTwice(p.z, q.z, l.z, a, b, c);
  }

  /** Two pairs of locations that relate to each other in the same way. */
  lemma SameRelation(l: Loc, q: Loc, lp: Loc, qp: Loc, k: nat)
    requires l.level < LEVELS && lp.level < LEVELS && l.level - q.level == k == lp.level - qp.level
    requires (Shr(lp.x, k) == qp.x <==> Shr(l.x, k) == q.x) && lp.x - Shl(qp.x, k) == l.x - Shl(q.x, k)
    requires (Shr(lp.y, k) == qp.y <==> Shr(l.y, k) == q.y) && lp.y - Shl(qp.y, k) == l.y - Shl(q.y, k)
    requires (Shr(lp.z, k) == qp.z <==> Shr(l.z, k) == q.z) && lp.z - Shl(qp.z, k) == l.z - Shl(q.z, k)
    ensures GlobalToLoc(lp, qp) == GlobalToLoc(l, q) && (IsChildOf(lp, qp) <==> IsChildOf(l, q))
  {
    ChildIff(l, q);
    ChildIff(lp, qp);
    GlobalToLocIff(l, q);
    GlobalToLocIff(lp, qp);
  }

  /** Being seen from `q` is the same from anywhere above `q`: locations relative to `p` relate to each other as the
      global ones do. */
  lemma GlobalToLocComposes(l: Loc, q: Loc, p: Loc)
    requires l.level < LEVELS && q.level < LEVELS && p.level < LEVELS && IsChildOf(q, p)
    ensures GlobalToLoc(GlobalToLoc(l, p), GlobalToLoc(q, p)) == GlobalToLoc(l, q)
    ensures IsChildOf(GlobalToLoc(l, p), GlobalToLoc(q, p)) <==> IsChildOf(l, q)
  {
    if IsChildOf(l, q) {
      ChildOfChild(l, q, p);
    }
    GlobalToLocIff(l, p);
    GlobalToLocIff(q, p);
    ChildIff(q, p);
    ChildIff(l, p);
    ChildIff(l, q);
    Composes(l, q, p, GlobalToLoc(l, p), GlobalToLoc(q, p));
  }

  lemma Composes(l: Loc, q: Loc, p: Loc, lp: Loc, qp: Loc)
    requires l.level < LEVELS && p.level <= q.level < LEVELS && IsChildOf(q, p) && Seen(q, p, qp)
    requires IsChildOf(l, q) ==> IsChildOf(l, p) && q.level <= l.level
    requires if IsChildOf(l, p) then p.level <= l.level && Seen(l, p, lp) else lp == NOWHERE
    ensures GlobalToLoc(lp, qp) == GlobalToLoc(l, q) && (IsChildOf(lp, qp) <==> IsChildOf(l, q))
  {
    if IsChildOf(l, p) && q.level <= l.level {
      ComposesInside(l, q, p, lp, qp);
    } else {
      ComposesOutside(l, q, lp, qp);
    }
  }

  /** `lp` is what `l` looks like from `p`. */
  predicate Seen(l: Loc, p: Loc, lp: Loc) {
    && lp.level == l.level - p.level
    && l.x == Shl(p.x, lp.level) + lp.x && l.y == Shl(p.y, lp.level) + lp.y && l.z == Shl(p.z, lp.level) + lp.z
  }

  lemma ComposesOutside(l: Loc, q: Loc, lp: Loc, qp: Loc)
    requires l.level < LEVELS && q.level < LEVELS && !IsChildOf(l, q) && qp.level < LEVELS
    requires lp == NOWHERE || lp.level < qp.level
    ensures GlobalToLoc(l, q) == NOWHERE == GlobalToLoc(lp, qp) && !IsChildOf(lp, qp)
  {
    GlobalToLocIff(l, q);
  }

  lemma ComposesInside(l: Loc, q: Loc, p: Loc, lp: Loc, qp: Loc)
    requires l.level < LEVELS && p.level <= q.level <= l.level && IsChildOf(q, p) && IsChildOf(l, p)
    requires Seen(l, p, lp) && Seen(q, p, qp)
    ensures GlobalToLoc(lp, qp) == GlobalToLoc(l, q) && (IsChildOf(lp, qp) <==> IsChildOf(l, q))
  {
    ChildIff(q, p);
    ChildIff(l, p);
    AllCompose(l, q, p, lp, qp);
    SameRelation(l, q, lp, qp, l.level - q.level);
  }

  lemma AllCompose(l: Loc, q: Loc, p: Loc, lp: Loc, qp: Loc)
    requires p.level <= q.level <= l.level && Seen(l, p, lp) && Seen(q, p, qp)
    requires var n, m := l.level - p.level, q.level - p.level;
             && Above(p.x, l.x, n) && Above(p.y, l.y, n) && Above(p.z, l.z, n)
             && Above(p.x, q.x, m) && Above(p.y, q.y, m) && Above(p.z, q.z, m)
    ensures var k := l.level - q.level;
            && (Shr(lp.x, k) == qp.x <==> Shr(l.x, k) == q.x) && lp.x - Shl(qp.x, k) == l.x - Shl(q.x, k)
            && (Shr(lp.y, k) == qp.y <==> Shr(l.y, k) == q.y) && lp.y - Shl(qp.y, k) == l.y - Shl(q.y, k)
            && (Shr(lp.z, k) == qp.z <==> Shr(l.z, k) == q.z) && lp.z - Shl(qp.z, k) == l.z - Shl(q.z, k)
  {
    var m, k := q.level - p.level, l.level - q.level;
    CoordinateComposes(l.x, q.x, p.x, lp.x, qp.x, m, k);
    CoordinateComposes(l.y, q.y, p.y, lp.y, qp.y, m, k);
    CoordinateComposes(l.z, q.z, p.z, lp.z, qp.z, m, k);
  }

  // ---------------------------------------------------------------- the location that is none

  lemma {:induction false} ShrAll(x: nat, k: nat)
    requires x < Shl(1, k)
    ensures Shr(x, k) == 0
  {
    ShrRest(x, k);
    if Shr(x, k) > 0 {
      ShlGrows(Shr(x, k), k);
    }
  }

  /** The level of the invalid location is taken for -1: it lies below no location, and every valid one lies below it,
      as long as the shift by one more than the level is defined. */
  lemma EverythingBelowNowhere(l: Loc)
    requires IsValid(l) && l.level < LEVELS - 1
    ensures !IsChildOf(NOWHERE, l) && GlobalToLoc(NOWHERE, l) == NOWHERE
    ensures IsChildOf(l, NOWHERE) && GlobalToLoc(l, NOWHERE) == l.(level := l.level + 1)
  {
    ValidIsSmall(l);
    BelowEnd(l);
    var k: nat := l.level + 1;
    ShrAll(l.x, k);
    ShrAll(l.y, k);
    ShrAll(l.z, k);
    ShlZero(k);
    assert Delta(l.level, INVALID_LOD) == k;
  }

  lemma BelowEnd(l: Loc)
    requires IsValid(l) && l.level < LEVELS
    ensures var end := Shl(1, l.level + 1); l.x < end && l.y < end && l.z < end
  {
    HighestPower(l.level);
  }
}
