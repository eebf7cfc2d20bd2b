/** Filling missing depths from the pyramid: each takes the value of the nearest level that has one. The level after
    the last that is built holds zeros, and ends the search. The pyramid takes an infinite depth for missing, but the
    filling leaves it alone. */
module DepthHoles {
  import opened Modular
  import opened DepthSamples
  import opened DepthPyramid

  /** What level `k` holds before anything is filled in; level 0 are the depths themselves. */
  function Own(src: seq<Sample>, w: nat, k: nat, x: nat, y: nat): Sample
    requires AllPositive(src)
  {
    if k == 0 then At(src, w, x, y) else Lod(src, w, k, x, y)
  }

  function Filled(src: seq<Sample>, w: nat, k: nat, last: nat, x: nat, y: nat): Sample
    requires AllPositive(src)
    decreases last - k
  {
    if k >= last then Finite(0.0)
    else if !Own(src, w, k, x, y).Missing? then Own(src, w, k, x, y)
    else Filled(src, w, k + 1, last, x / 2, y / 2)
  }

  /** What level `i` holds above a cell of level `k`. */
  function OwnAbove(src: seq<Sample>, w: nat, k: nat, x: nat, y: nat, i: nat): Sample
    requires AllPositive(src) && k <= i
  {
    Own(src, w, i, Shr(x, i - k), Shr(y, i - k))
  }

  lemma AboveParent(src: seq<Sample>, w: nat, k: nat, x: nat, y: nat, i: nat)
    requires AllPositive(src) && k < i
    ensures OwnAbove(src, w, k, x, y, i) == OwnAbove(src, w, k + 1, x / 2, y / 2, i)
  {
    ShrOne(x);
    ShrOne(y);
    ShrShr(x, 1, i - (k + 1));
    ShrShr(y, 1, i - (k + 1));
  }

  /** A sample that is not missing stays, even when it is infinite; a missing one becomes what its nearest ancestor holds,
      or zero when no level has any sample around it. */
  lemma {:induction false} NearestAncestor(src: seq<Sample>, w: nat, k: nat, last: nat, x: nat, y: nat) returns (m: nat)
    requires AllPositive(src) && k <= last
    ensures k <= m <= last && forall i: nat :: k <= i < m ==> OwnAbove(src, w, k, x, y, i).Missing?
    ensures if m < last then !OwnAbove(src, w, k, x, y, m).Missing? && Filled(src, w, k, last, x, y) == OwnAbove(src, w, k, x, y, m)
            else Filled(src, w, k, last, x, y) == Finite(0.0)
    decreases last - k
  {
    m := k;
    assert OwnAbove(src, w, k, x, y, k) == Own(src, w, k, x, y);
    if k < last && Own(src, w, k, x, y).Missing? {
      m := NearestAncestor(src, w, k + 1, last, x / 2, y / 2);
      forall i: nat | k < i <= m ensures OwnAbove(src, w, k, x, y, i) == OwnAbove(src, w, k + 1, x / 2, y / 2, i) {
        AboveParent(src, w, k, x, y, i);
      }
    }
  }

  /** Nothing is missing when it is filled, and it is finite unless it was infinite. */
  lemma {:induction false} FilledFinite(src: seq<Sample>, w: nat, k: nat, last: nat, x: nat, y: nat)
    requires AllPositive(src) && k < last
    ensures !Filled(src, w, k, last, x, y).Missing?
    ensures Filled(src, w, k, last, x, y).Finite? <==> k > 0 || !At(src, w, x, y).Infinite?
    decreases last - k
  {
    if k + 1 < last {
      FilledFinite(src, w, k + 1, last, x / 2, y / 2);
    }
  }

  /** What is filled in lies between two of the finite samples, unless there is none around. */
  lemma {:induction false} FilledBetween(src: seq<Sample>, w: nat, k: nat, last: nat, x: nat, y: nat)
    returns (i: nat, j: nat, m: nat, n: nat)
    requires AllPositive(src) && Filled(src, w, k, last, x, y).Finite? && Filled(src, w, k, last, x, y) != Finite(0.0)
    ensures At(src, w, i, j).Finite? && At(src, w, m, n).Finite?
    ensures At(src, w, i, j).value <= Filled(src, w, k, last, x, y).value <= At(src, w, m, n).value
    decreases last - k
  {
    if !Own(src, w, k, x, y).Missing? {
      i, j, m, n := x, y, x, y;
      if k > 0 {
        i, j, m, n := LodBetween(src, w, k, x, y);
      }
    } else {
      i, j, m, n := FilledBetween(src, w, k + 1, last, x / 2, y / 2);
    }
  }

  // ---------------------------------------------------------------- filling in place

  /** Where the cell above `x` and `y` is looked for in the next level. */
  function ParentIndex(w0: nat, x: nat, y: nat): nat {
    y / 2 * (w0 / 2) + x / 2
  }

  /** It is looked for inside the next level. */
  ghost predicate ParentsInside(w0: nat, h0: nat) {
    forall x: nat, y: nat :: x < w0 && y < h0 ==> ParentIndex(w0, x, y) < h0 / 2 * (w0 / 2)
  }

  /** Even sides, or no rows. */
  predicate Halves(w0: nat, h0: nat) {
    h0 == 0 || (w0 % 2 == 0 && h0 % 2 == 0)
  }

  /** That is so exactly for even sides, if there are any cells. */
  lemma ParentsInsideIff(w0: nat, h0: nat)
    requires w0 > 0
    ensures ParentsInside(w0, h0) <==> Halves(w0, h0)
  {
    var lw, lh := w0 / 2, h0 / 2;
    if h0 > 0 && (w0 % 2 == 1 || h0 % 2 == 1) {
      var last := ParentIndex(w0, w0 - 1, h0 - 1);
      assert h0 % 2 == 1 ==> last >= lh * lw;
      assert h0 % 2 == 0 ==> (lh - 1) * lw + lw == lh * lw;
      assert !ParentsInside(w0, h0);
    } else {
      forall x: nat, y: nat | x < w0 && y < h0 ensures ParentIndex(w0, x, y) < lh * lw {
        IndexFits(x / 2, y / 2, lw, lh);
      }
    }
  }

  /** One cell of level `k` at `at`, filled or not yet. */
  ghost predicate CellIs(a: seq<Sample>, at: nat, lw: nat, x: nat, y: nat, s: Sample) {
    at + y * lw + x < |a| && a[at + y * lw + x] == s
  }

  ghost predicate LevelOwn(a: seq<Sample>, at: nat, src: seq<Sample>, w: nat, k: nat, lw: nat, lh: nat)
    requires AllPositive(src)
  {
    forall x: nat, y: nat :: x < lw && y < lh ==> CellIs(a, at, lw, x, y, Own(src, w, k, x, y))
  }

  ghost predicate LevelFilled(a: seq<Sample>, at: nat, src: seq<Sample>, w: nat, k: nat, last: nat, lw: nat, lh: nat)
    requires AllPositive(src)
  {
    forall x: nat, y: nat :: x < lw && y < lh ==> CellIs(a, at, lw, x, y, Filled(src, w, k, last, x, y))
  }

  /** The cells before column `x` of row `y` are filled, the others not yet. */
  ghost predicate Partly(a: seq<Sample>, at: nat, src: seq<Sample>, w: nat, k: nat, last: nat, lw: nat, lh: nat, x: nat, y: nat)
    requires AllPositive(src)
  {
    forall i: nat, j: nat :: i < lw && j < lh ==>
      CellIs(a, at, lw, i, j, if j < y || (j == y && i < x) then Filled(src, w, k, last, i, j) else Own(src, w, k, i, j))
  }

  lemma {:induction false} PartlyMore(a: seq<Sample>, b: seq<Sample>, at: nat, src: seq<Sample>, w: nat, k: nat, last: nat,
                                      lw: nat, lh: nat, x: nat, y: nat)
    requires AllPositive(src) && x < lw && y < lh && Partly(a, at, src, w, k, last, lw, lh, x, y)
    requires at + y * lw + x < |a| && b == a[at + y * lw + x := Filled(src, w, k, last, x, y)]
    ensures Partly(b, at, src, w, k, last, lw, lh, x + 1, y)
  {
    hide Filled, Own;
    forall i: nat, j: nat | i < lw && j < lh
      ensures CellIs(b, at, lw, i, j, if j < y || (j == y && i < x + 1) then Filled(src, w, k, last, i, j) else Own(src, w, k, i, j))
    {
      assert CellIs(a, at, lw, i, j, if j < y || (j == y && i < x) then Filled(src, w, k, last, i, j) else Own(src, w, k, i, j));
      if j * lw + i == y * lw + x {
        OneIndex(lw, i, j, x, y);
      }
    }
  }

  lemma FilledStill(a: seq<Sample>, b: seq<Sample>, at: nat, src: seq<Sample>, w: nat, k: nat, last: nat, lw: nat, lh: nat)
    requires AllPositive(src) && at <= |a| == |b| && a[at..] == b[at..] && LevelFilled(a, at, src, w, k, last, lw, lh)
    ensures LevelFilled(b, at, src, w, k, last, lw, lh)
  {
    forall x: nat, y: nat | x < lw && y < lh ensures CellIs(b, at, lw, x, y, Filled(src, w, k, last, x, y)) {
      assert CellIs(a, at, lw, x, y, Filled(src, w, k, last, x, y));
      assert a[at..][y * lw + x] == b[at..][y * lw + x];
    }
  }

  /** One missing cell takes the value of its parent. */
  method FillCell(coarse: array<Sample>, at1: nat, fine: array<Sample>, at0: nat, w0: nat, ghost h0: nat, x: nat, y: nat,
                  ghost src: seq<Sample>, ghost w: nat, ghost k: nat, ghost last: nat)
    requires AllPositive(src) && k < last && w0 % 2 == 0 && h0 % 2 == 0 && x < w0 && y < h0
    requires at0 + h0 * w0 <= fine.Length && at1 <= coarse.Length && (coarse == fine ==> at0 + h0 * w0 <= at1)
    requires LevelFilled(coarse[..], at1, src, w, k + 1, last, w0 / 2, h0 / 2)
    requires Partly(fine[..], at0, src, w, k, last, w0, h0, x, y)
    modifies fine
    ensures LevelFilled(coarse[..], at1, src, w, k + 1, last, w0 / 2, h0 / 2)
    ensures Partly(fine[..], at0, src, w, k, last, w0, h0, x + 1, y)
    ensures fine[..at0] == old(fine[..at0]) && fine[at0 + h0 * w0..] == old(fine[at0 + h0 * w0..])
  {
    ghost var f0, c0 := fine[..], coarse[..];
    FilledValue(f0, at0, c0, at1, src, w, k, last, w0, h0, x, y);
    if fine[at0 + y * w0 + x].Missing? {
      fine[at0 + y * w0 + x] := coarse[at1 + ParentIndex(w0, x, y)];
    }
    assert fine[..] == f0[at0 + y * w0 + x := Filled(src, w, k, last, x, y)];
    PartlyMore(f0, fine[..], at0, src, w, k, last, w0, h0, x, y);
    FilledStill(c0, coarse[..], at1, src, w, k + 1, last, w0 / 2, h0 / 2);
  }

  lemma FilledValue(fine: seq<Sample>, at0: nat, coarse: seq<Sample>, at1: nat, src: seq<Sample>, w: nat,
                    k: nat, last: nat, w0: nat, h0: nat, x: nat, y: nat)
    requires AllPositive(src) && k < last && w0 % 2 == 0 && h0 % 2 == 0 && x < w0 && y < h0
    requires LevelFilled(coarse, at1, src, w, k + 1, last, w0 / 2, h0 / 2) && Partly(fine, at0, src, w, k, last, w0, h0, x, y)
    ensures y * w0 + x < h0 * w0 && at0 + y * w0 + x < |fine| && at1 + ParentIndex(w0, x, y) < |coarse|
    ensures var own := fine[at0 + y * w0 + x];
            Filled(src, w, k, last, x, y) == if own.Missing? then coarse[at1 + ParentIndex(w0, x, y)] else own
  {
    IndexFits(x, y, w0, h0);
    assert CellIs(fine, at0, w0, x, y, Own(src, w, k, x, y));
    assert CellIs(coarse, at1, w0 / 2, x / 2, y / 2, Filled(src, w, k + 1, last, x / 2, y / 2));
  }

  lemma NextRow(a: seq<Sample>, at: nat, src: seq<Sample>, w: nat, k: nat, last: nat, lw: nat, lh: nat, y: nat)
    requires AllPositive(src) && Partly(a, at, src, w, k, last, lw, lh, lw, y)
    ensures Partly(a, at, src, w, k, last, lw, lh, 0, y + 1)
  {
    forall i: nat, j: nat | i < lw && j < lh
      ensures CellIs(a, at, lw, i, j, if j < y + 1 || (j == y + 1 && i < 0) then Filled(src, w, k, last, i, j) else Own(src, w, k, i, j))
    {
      assert CellIs(a, at, lw, i, j, if j < y || (j == y && i < lw) then Filled(src, w, k, last, i, j) else Own(src, w, k, i, j));
    }
  }

  /** Fills level `k` from the one above it. */
  method DepthFillEmpty(coarse: array<Sample>, at1: nat, fine: array<Sample>, at0: nat, w0: nat, h0: nat,
                        ghost src: seq<Sample>, ghost w: nat, ghost k: nat, ghost last: nat)
    requires AllPositive(src) && k < last && Halves(w0, h0)
    requires at0 + h0 * w0 <= fine.Length && at1 <= coarse.Length && (coarse == fine ==> at0 + h0 * w0 <= at1)
    requires LevelFilled(coarse[..], at1, src, w, k + 1, last, w0 / 2, h0 / 2)
    requires LevelOwn(fine[..], at0, src, w, k, w0, h0)
    modifies fine
    ensures LevelFilled(fine[..], at0, src, w, k, last, w0, h0)
    ensures fine[..at0] == old(fine[..at0]) && fine[at0 + h0 * w0..] == old(fine[at0 + h0 * w0..])
  {
    for y := 0 to h0
      invariant LevelFilled(coarse[..], at1, src, w, k + 1, last, w0 / 2, h0 / 2)
      invariant Partly(fine[..], at0, src, w, k, last, w0, h0, 0, y)
      invariant fine[..at0] == old(fine[..at0]) && fine[at0 + h0 * w0..] == old(fine[at0 + h0 * w0..])
    {
      for x := 0 to w0
        invariant LevelFilled(coarse[..], at1, src, w, k + 1, last, w0 / 2, h0 / 2)
        invariant Partly(fine[..], at0, src, w, k, last, w0, h0, x, y)
        invariant fine[..at0] == old(fine[..at0]) && fine[at0 + h0 * w0..] == old(fine[at0 + h0 * w0..])
      {
        FillCell(coarse, at1, fine, at0, w0, h0, x, y, src, w, k, last);
      }
      NextRow(fine[..], at0, src, w, k, last, w0, h0, y);
    }
  }

  // ---------------------------------------------------------------- all levels

  /** Level `k` is filled from the next one. */
  predicate FromNext(w: nat, k: nat) {
    k == 0 || Built(w, k)
  }

  /** Every level that is filled from the next has even sides, or no rows. */
  ghost predicate Halvable(w: nat, h: nat) {
    forall k: nat :: FromNext(w, k) ==> Halves(Shr(w, k), Shr(h, k))
  }

  /** Every read of a parent stays inside the level it is meant for exactly when that is so. */
  lemma HalvableIff(w: nat, h: nat)
    requires w > 0
    ensures (forall k: nat :: FromNext(w, k) ==> ParentsInside(Shr(w, k), Shr(h, k))) <==> Halvable(w, h)
  {
    forall k: nat | FromNext(w, k)
      ensures ParentsInside(Shr(w, k), Shr(h, k)) <==> Halves(Shr(w, k), Shr(h, k))
    {
      ParentsInsideIff(Shr(w, k), Shr(h, k));
    }
  }

  /** An image of 640 by 480 without a finite depth in the block of 32 by 32 in its lower left corner: the cell of that
      block is missing from the level of 20 by 15, which is filled from the one of 10 by 7, the last in the array, and
      its parent is looked for behind the end. */
  lemma ReadsBehindTheEnd(src: seq<Sample>)
    requires |src| == 480 * 640 && AllPositive(src)
    requires forall x: nat, y: nat :: x < 32 && 448 <= y < 480 ==> !At(src, 640, x, y).Finite?
    ensures FromNext(640, 5) && Shr(640, 5) == 20 && Shr(480, 5) == 15 && !Built(640, 6)
    ensures Own(src, 640, 5, 0, 14).Missing?
    ensures Shr(640, 6) == 10 && Shr(480, 6) == 7 && ParentIndex(20, 0, 14) == 70 == LevelSize(640, 480, 6)
    ensures !ParentsInside(20, 15) && !Halvable(640, 480)
  {
    assert Shr(640, 1) == 320 && Shr(640, 2) == 160 && Shr(640, 3) == 80 && Shr(640, 4) == 40;
    assert Shr(480, 1) == 240 && Shr(480, 2) == 120 && Shr(480, 3) == 60 && Shr(480, 4) == 30;
    ParentsInsideIff(20, 15);
    if Lod(src, 640, 5, 0, 14).Finite? {
      var i, j, m, n := LodBetween(src, 640, 5, 0, 14);
      InBlock(i, j);
    }
  }

  lemma InBlock(i: nat, j: nat)
    requires Below(5, 0, 14, i, j)
    ensures i < 32 && 448 <= j < 480
  {
    ShrFive(i);
    ShrFive(j);
  }

  lemma ShrFive(x: nat)
    ensures Shr(x, 5) == x / 32
  {
    assert Shr(x, 1) == x / 2 && Shr(x, 2) == x / 4 && Shr(x, 3) == x / 8 && Shr(x, 4) == x / 16;
  }

  lemma {:induction false} LodIsOwn(a: seq<Sample>, src: seq<Sample>, w: nat, h: nat, k: nat)
    requires AllPositive(src) && k >= 1 && HasLod(a, src, w, h, k)
    ensures LevelOwn(a, Offset(w, h, k), src, w, k, Shr(w, k), Shr(h, k))
  {
    forall x: nat, y: nat | x < Shr(w, k) && y < Shr(h, k)
      ensures CellIs(a, Offset(w, h, k), Shr(w, k), x, y, Own(src, w, k, x, y))
    {
      assert LodAt(a, src, w, h, k, x, y);
    }
  }

  lemma {:induction false} OwnStill(a: seq<Sample>, b: seq<Sample>, src: seq<Sample>, w: nat, h: nat, k: nat, end: nat)
    requires AllPositive(src) && Offset(w, h, k) + LevelSize(w, h, k) <= end <= |a| == |b| && a[..end] == b[..end]
    requires LevelOwn(a, Offset(w, h, k), src, w, k, Shr(w, k), Shr(h, k))
    ensures LevelOwn(b, Offset(w, h, k), src, w, k, Shr(w, k), Shr(h, k))
  {
    forall x: nat, y: nat | x < Shr(w, k) && y < Shr(h, k)
      ensures CellIs(b, Offset(w, h, k), Shr(w, k), x, y, Own(src, w, k, x, y))
    {
      assert CellIs(a, Offset(w, h, k), Shr(w, k), x, y, Own(src, w, k, x, y));
      IndexFits(x, y, Shr(w, k), Shr(h, k));
      var at := Offset(w, h, k) + y * Shr(w, k) + x;
      assert a[at] == a[..end][at] && b[at] == b[..end][at];
    }
  }

  lemma ZerosFill(a: seq<Sample>, at: nat, src: seq<Sample>, w: nat, last: nat, lw: nat, lh: nat)
    requires AllPositive(src) && at + lh * lw <= |a| && forall i :: at <= i < |a| ==> a[i] == Finite(0.0)
    ensures LevelFilled(a, at, src, w, last, last, lw, lh)
  {
    forall x: nat, y: nat | x < lw && y < lh ensures CellIs(a, at, lw, x, y, Filled(src, w, last, last, x, y)) {
      IndexFits(x, y, lw, lh);
    }
  }

  lemma DepthsAreOwn(src: seq<Sample>, w: nat, h: nat)
    requires AllPositive(src) && |src| == h * w
    ensures LevelOwn(src, 0, src, w, 0, w, h)
  {
    forall x: nat, y: nat | x < w && y < h ensures CellIs(src, 0, w, x, y, Own(src, w, 0, x, y)) {
      IndexFits(x, y, w, h);
    }
  }

  lemma OffsetNext(w: nat, h: nat, k: nat)
    requires k >= 1
    ensures Offset(w, h, k + 1) == Offset(w, h, k) + Shr(h, k) * Shr(w, k)
  {
  }

  /** Sizes of the levels: those that are built, and one more. */
  method LodSizes(width: nat, height: nat) returns (levels: nat, offsets: seq<nat>, sizes: seq<(nat, nat)>, size: nat)
    ensures !(levels >= 1 && Built(width, levels)) && forall k: nat :: 1 <= k < levels ==> Built(width, k)
    ensures levels == 0 <==> width < MIN_WIDTH
    ensures |offsets| == levels + 1 && size == Offset(width, height, levels + 1)
    ensures forall i :: 0 <= i <= levels ==> offsets[i] == Offset(width, height, i + 1)
    ensures |sizes| == levels && forall i :: 0 <= i < levels ==> sizes[i] == (Shr(width, i + 1), Shr(height, i + 1))
  {
    var dw, dh := width, height;
    levels, offsets, sizes, size := 0, [0], [], 0;
    assert Shr(width, 0) == width && Shr(height, 0) == height;
    while dw >= MIN_WIDTH
      invariant dw == Shr(width, levels) && dh == Shr(height, levels) && (levels == 0 ==> dw == width)
      invariant levels > 0 ==> width >= MIN_WIDTH
      invariant |offsets| == levels + 1 && size == Offset(width, height, levels + 1)
      invariant forall i :: 0 <= i <= levels ==> offsets[i] == Offset(width, height, i + 1)
      invariant |sizes| == levels && forall i :: 0 <= i < levels ==> sizes[i] == (Shr(width, i + 1), Shr(height, i + 1))
      invariant forall k: nat :: 1 <= k < levels ==> Built(width, k)
    {
      assert levels >= 1 ==> Built(width, levels);
      OffsetNext(width, height, levels + 1);
      dw, dh := dw / 2, dh / 2;
      levels := levels + 1;
      size := size + dh * dw;
      offsets, sizes := offsets + [size], sizes + [(dw, dh)];
    }
  }

  /** The levels from `k` on are filled, those below are as built. */
  ghost predicate FilledFrom(a: seq<Sample>, src: seq<Sample>, w: nat, h: nat, k: nat, last: nat)
    requires AllPositive(src)
  {
    && 1 <= k <= last && Offset(w, h, last + 1) <= |a|
    && LevelFilled(a, Offset(w, h, k), src, w, k, last, Shr(w, k), Shr(h, k))
    && forall m: nat :: 1 <= m < k ==> LevelOwn(a, Offset(w, h, m), src, w, m, Shr(w, m), Shr(h, m))
  }

  lemma FilledStep(a: seq<Sample>, b: seq<Sample>, src: seq<Sample>, w: nat, h: nat, k: nat, last: nat)
    requires AllPositive(src) && FilledFrom(a, src, w, h, k + 1, last) && k >= 1 && |b| == |a|
    requires LevelFilled(b, Offset(w, h, k), src, w, k, last, Shr(w, k), Shr(h, k))
    requires Offset(w, h, k) <= |a| && b[..Offset(w, h, k)] == a[..Offset(w, h, k)]
    ensures FilledFrom(b, src, w, h, k, last)
  {
    forall m: nat | 1 <= m < k ensures LevelOwn(b, Offset(w, h, m), src, w, m, Shr(w, m), Shr(h, m)) {
      OffsetsGrow(w, h, m, k);
      OwnStill(a, b, src, w, h, m, Offset(w, h, k));
    }
  }

  /** Builds the pyramid in front of a level of zeros. */
  method PrepareLods(data: array<Sample>, lods: array<Sample>, width: nat, height: nat, ghost levels: nat)
    requires data.Length == height * width && width > 0 && data != lods && AllPositive(data[..])
    requires levels >= 1 && !Built(width, levels) && forall k: nat :: 1 <= k < levels ==> Built(width, k)
    requires lods.Length == Offset(width, height, levels + 1) && forall i :: 0 <= i < lods.Length ==> lods[i] == Finite(0.0)
    modifies lods
    ensures FilledFrom(lods[..], data[..], width, height, levels, levels)
  {
    ghost var zeros, src := lods[..], data[..];
    BuiltIsBelow(width, height, levels);
    ghost var last := DepthBuildLods(data, lods, width, height);
    SameLast(width, last, levels);
    assert data[..] == src;
    ghost var at := Offset(width, height, levels);
    forall i | at <= i < lods.Length ensures lods[..][i] == Finite(0.0) {
      assert lods[..][at..][i - at] == zeros[at..][i - at] == zeros[i];
    }
    ZerosFill(lods[..], at, src, width, levels, Shr(width, levels), Shr(height, levels));
    forall m: nat | 1 <= m < levels ensures LevelOwn(lods[..], Offset(width, height, m), src, width, m, Shr(width, m), Shr(height, m)) {
      assert Built(width, m) && HasLod(lods[..], src, width, height, m);
      LodIsOwn(lods[..], src, width, height, m);
    }
  }

  /** Where a level and the next one are, and how big. */
  lemma LevelFacts(w: nat, h: nat, k: nat, last: nat)
    requires 1 <= k < last && Halvable(w, h) && Built(w, k)
    ensures Offset(w, h, k + 1) == Offset(w, h, k) + Shr(h, k) * Shr(w, k) <= Offset(w, h, last + 1)
    ensures Halves(Shr(w, k), Shr(h, k)) && Shr(w, k + 1) == Shr(w, k) / 2 && Shr(h, k + 1) == Shr(h, k) / 2
  {
    OffsetsUpTo(w, h, k + 1, last + 1);
  }

  /** Fills one level of the pyramid from the next. */
  method FillLevel(lods: array<Sample>, at1: nat, at0: nat, w0: nat, h0: nat, ghost src: seq<Sample>,
                   ghost width: nat, ghost height: nat, ghost k: nat, ghost last: nat)
    requires AllPositive(src) && 1 <= k < last && FilledFrom(lods[..], src, width, height, k + 1, last)
    requires w0 == Shr(width, k) && h0 == Shr(height, k) && Halves(w0, h0)
    requires Shr(width, k + 1) == w0 / 2 && Shr(height, k + 1) == h0 / 2
    requires at0 == Offset(width, height, k) && at1 == Offset(width, height, k + 1) == at0 + h0 * w0 <= lods.Length
    modifies lods
    ensures FilledFrom(lods[..], src, width, height, k, last)
  {
    ghost var before := lods[..];
    DepthFillEmpty(lods, at1, lods, at0, w0, h0, src, width, k, last);
    FilledStep(before, lods[..], src, width, height, k, last);
  }

  /** Fills every missing depth of an image from the pyramid built of it. */
  method FillHoles(data: array<Sample>, width: nat, height: nat) returns (ghost last: nat)
    requires width >= MIN_WIDTH && data.Length == height * width && AllPositive(data[..]) && Halvable(width, height)
    modifies data
    ensures last >= 1 && !Built(width, last) && AllPositive(old(data[..]))
    ensures LevelFilled(data[..], 0, old(data[..]), width, 0, last, width, height)
    ensures forall i :: 0 <= i < data.Length ==> !data[i].Missing? && (data[i].Finite? <==> !old(data[i]).Infinite?)
  {
    hide LevelFilled;
    ghost var src := data[..];
    var levels, offsets, sizes, size := LodSizes(width, height);
    last := levels;
    var lods := new Sample[size](i => Finite(0.0));
    PrepareLods(data, lods, width, height, levels);
    var k := levels;
    while k > 1
      invariant 1 <= k <= levels && data[..] == src && FilledFrom(lods[..], src, width, height, k, levels)
    {
      k := k - 1;
      assert Built(width, k);
      LevelFacts(width, height, k, levels);
      FillLevel(lods, offsets[k], offsets[k - 1], sizes[k - 1].0, sizes[k - 1].1, src, width, height, k, levels);
    }
    DepthsAreOwn(src, width, height);
    ShrOne(width);
    ShrOne(height);
    DepthFillEmpty(lods, offsets[0], data, 0, width, height, src, width, 0, levels);
    forall i | 0 <= i < data.Length ensures !data[..][i].Missing? && (data[..][i].Finite? <==> !src[i].Infinite?) {
      FilledIsFinite(src, data[..], width, height, levels, i);
    }
  }

  lemma FilledIsFinite(src: seq<Sample>, a: seq<Sample>, w: nat, h: nat, last: nat, i: nat)
    requires AllPositive(src) && last >= 1 && w > 0 && |src| == |a| == h * w && i < |a|
    requires LevelFilled(a, 0, src, w, 0, last, w, h)
    ensures !a[i].Missing? && (a[i].Finite? <==> !src[i].Infinite?)
  {
    var x, y := i % w, i / w;
    assert i == w * y + x && w * y == y * w;
    RowBefore(y, h, w, i);
    assert CellIs(a, 0, w, x, y, Filled(src, w, 0, last, x, y));
    FilledFinite(src, w, 0, last, x, y);
  }

  lemma RowBefore(y: nat, h: nat, w: nat, i: nat)
    requires y * w <= i < h * w
    ensures y < h
  {
    if y >= h {
      MulLess(h, y, w);
    }
  }

  lemma OffsetsUpTo(w: nat, h: nat, m: nat, k: nat)
    requires 1 <= m <= k
    ensures Offset(w, h, m) <= Offset(w, h, k)
  {
    if m < k {
      OffsetsGrow(w, h, m, k);
    }
  }

  /** Levels that are built lie before the last. */
  lemma BuiltIsBelow(w: nat, h: nat, levels: nat)
    requires levels >= 1 && !Built(w, levels)
    ensures forall k: nat :: Built(w, k) ==> k < levels && Offset(w, h, k + 1) <= Offset(w, h, levels + 1)
  {
    forall k: nat | Built(w, k) ensures k < levels && Offset(w, h, k + 1) <= Offset(w, h, levels + 1) {
      if k >= levels {
        ShrShr(w, levels, k - levels);
        ShrShrinks(Shr(w, levels), k - levels);
      }
      OffsetsUpTo(w, h, k + 1, levels + 1);
    }
  }

  lemma SameLast(w: nat, a: nat, b: nat)
    requires a >= 1 && b >= 1 && !Built(w, a) && !Built(w, b)
    requires (forall k: nat :: 1 <= k < a ==> Built(w, k)) && forall k: nat :: 1 <= k < b ==> Built(w, k)
    ensures a == b
  {
  }
}
