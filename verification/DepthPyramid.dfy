/** The pyramid of depths: each level averages the inverses of two by two cells of the level before, the levels stand
    one after the other in one array, and missing samples are filled from the nearest level that has one. */
module DepthPyramid {
  import opened Modular
  import opened DepthSamples

  const MIN_WIDTH := 16

  /** Whatever is not finite becomes missing. */
  function Invert(s: Sample): (r: Sample)
    requires Positive(s)
    ensures Positive(r) && !r.Infinite? && (r.Finite? <==> s.Finite?)
  {
    if !s.Finite? then Missing
    else
      InverseIsPositive(s.value);
      Finite(1.0 / s.value)
  }

  lemma InverseIsPositive(x: real)
    requires x > 0.0
    ensures 1.0 / x > 0.0 && (1.0 / x) * x == 1.0
  {
    var y := 1.0 / x;
    assert y * x == 1.0;
    if y <= 0.0 {
      NotPositive(y, x);
    }
  }

  lemma NotPositive(y: real, x: real)
    requires y <= 0.0 && x > 0.0
    ensures y * x <= 0.0
  {
  }

  /** Inverting turns the order around, and undoes itself. */
  lemma InverseOrder(a: real, b: real)
    requires 0.0 < a <= b
    ensures 0.0 < 1.0 / b <= 1.0 / a && 1.0 / (1.0 / a) == a
  {
    InverseIsPositive(a);
    InverseIsPositive(b);
    var p, q := 1.0 / a, 1.0 / b;
    if p < q {
      Grows(p, q, a);
      GrowsWeakly(a, b, q);
    }
    InverseIsPositive(p);
    SameFactor(1.0 / p, a, p);
  }

  lemma Grows(p: real, q: real, a: real)
    requires p < q && a > 0.0
    ensures p * a < q * a
  {
  }

  lemma GrowsWeakly(a: real, b: real, q: real)
    requires a <= b && q > 0.0
    ensures q * a <= q * b
  {
  }

  lemma SameFactor(x: real, y: real, p: real)
    requires p > 0.0 && x * p == p * y
    ensures x == y
  {
    if x < y {
      Grows(x, y, p);
    } else if y < x {
      Grows(y, x, p);
    }
  }

  // ---------------------------------------------------------------- cells

  function CountOf(s: Sample): nat {
    if s.Finite? then 1 else 0
  }

  function ValueOf(s: Sample): real {
    if s.Finite? then s.value else 0.0
  }

  /** The average of the samples that are there; the inverses it is taken of are never infinite. */
  function Average(a: Sample, b: Sample, c: Sample, d: Sample): Sample {
    var t := CountOf(a) + CountOf(b) + CountOf(c) + CountOf(d);
    if t == 0 then Missing else Finite((ValueOf(a) + ValueOf(b) + ValueOf(c) + ValueOf(d)) / t as real)
  }

  lemma Extremes(a: Sample, b: Sample, c: Sample, d: Sample) returns (low: Sample, high: Sample)
    requires a.Finite? || b.Finite? || c.Finite? || d.Finite?
    ensures low in {a, b, c, d} && high in {a, b, c, d} && low.Finite? && high.Finite?
    ensures forall s :: s in {a, b, c, d} && s.Finite? ==> low.value <= s.value <= high.value
  {
    low := Least(Least(a, b), Least(c, d));
    high := Greatest(Greatest(a, b), Greatest(c, d));
  }

  lemma AverageBetween(a: Sample, b: Sample, c: Sample, d: Sample) returns (low: Sample, high: Sample)
    requires Average(a, b, c, d).Finite?
    ensures low in {a, b, c, d} && high in {a, b, c, d} && low.Finite? && high.Finite?
    ensures low.value <= Average(a, b, c, d).value <= high.value
  {
    low, high := Extremes(a, b, c, d);
    var t := CountOf(a) + CountOf(b) + CountOf(c) + CountOf(d);
    SumBetween(a, b, c, d, low.value, high.value);
    QuotientBetween(ValueOf(a) + ValueOf(b) + ValueOf(c) + ValueOf(d), t, low.value, high.value);
  }

  lemma SumBetween(a: Sample, b: Sample, c: Sample, d: Sample, low: real, high: real)
    requires forall s :: s in {a, b, c, d} && s.Finite? ==> low <= s.value <= high
    ensures var t := CountOf(a) + CountOf(b) + CountOf(c) + CountOf(d);
            low * t as real <= ValueOf(a) + ValueOf(b) + ValueOf(c) + ValueOf(d) <= high * t as real
  {
    PartBetween(a, low, high);
    PartBetween(b, low, high);
    PartBetween(c, low, high);
    PartBetween(d, low, high);
    Distribute(low, CountOf(a), CountOf(b), CountOf(c), CountOf(d));
    Distribute(high, CountOf(a), CountOf(b), CountOf(c), CountOf(d));
  }

  lemma Distribute(x: real, p: nat, q: nat, r: nat, s: nat)
    ensures x * (p + q + r + s) as real == x * p as real + x * q as real + x * r as real + x * s as real
  {
    assert (p + q + r + s) as real == p as real + q as real + r as real + s as real;
  }

  lemma PartBetween(s: Sample, low: real, high: real)
    requires s.Finite? ==> low <= s.value <= high
    ensures low * CountOf(s) as real <= ValueOf(s) <= high * CountOf(s) as real
  {
  }

  lemma QuotientBetween(sum: real, t: nat, low: real, high: real)
    requires 1 <= t <= 4 && low * t as real <= sum <= high * t as real
    ensures low <= sum / t as real <= high
  {
    assert t in {1, 2, 3, 4};
  }

  function Least(a: Sample, b: Sample): Sample {
    if !a.Finite? then b else if !b.Finite? || a.value <= b.value then a else b
  }

  function Greatest(a: Sample, b: Sample): Sample {
    if !a.Finite? then b else if !b.Finite? || a.value >= b.value then a else b
  }

  /** The cell at column `x` and row `y` of level `k` above the samples `src`. */
  function Cell(src: seq<Sample>, w: nat, k: nat, x: nat, y: nat): Sample
    decreases k, src
  {
    if k == 0 then At(src, w, x, y)
    else Average(Cell(src, w, k - 1, 2 * x, 2 * y), Cell(src, w, k - 1, 2 * x + 1, 2 * y),
                 Cell(src, w, k - 1, 2 * x, 2 * y + 1), Cell(src, w, k - 1, 2 * x + 1, 2 * y + 1))
  }

  /** The sample at `i` and `j` belongs to the block below the cell. */
  predicate Below(k: nat, x: nat, y: nat, i: nat, j: nat) {
    Shr(i, k) == x && Shr(j, k) == y
  }

  /** A cell is empty exactly when all samples of its block are; otherwise it lies between two of them. */
  lemma {:induction false} CellEmpty(src: seq<Sample>, w: nat, k: nat, x: nat, y: nat, i: nat, j: nat)
    requires Below(k, x, y, i, j) && At(src, w, i, j).Finite?
    ensures Cell(src, w, k, x, y).Finite?
    decreases k
  {
    if k > 0 {
      CellEmpty(src, w, k - 1, Shr(i, k - 1), Shr(j, k - 1), i, j);
    }
  }

  lemma {:induction false} CellBetween(src: seq<Sample>, w: nat, k: nat, x: nat, y: nat)
    returns (i: nat, j: nat, m: nat, n: nat)
    requires Cell(src, w, k, x, y).Finite?
    ensures Below(k, x, y, i, j) && Below(k, x, y, m, n)
    ensures At(src, w, i, j).Finite? && At(src, w, m, n).Finite?
    ensures At(src, w, i, j).value <= Cell(src, w, k, x, y).value <= At(src, w, m, n).value
    decreases k
  {
    hide Average;
    if k == 0 {
      i, j, m, n := x, y, x, y;
    } else {
      var a, b := Cell(src, w, k - 1, 2 * x, 2 * y), Cell(src, w, k - 1, 2 * x + 1, 2 * y);
      var c, d := Cell(src, w, k - 1, 2 * x, 2 * y + 1), Cell(src, w, k - 1, 2 * x + 1, 2 * y + 1);
      var low, high := AverageBetween(a, b, c, d);
      var lx, ly := Corner(a, b, c, d, low, x, y);
      var hx, hy := Corner(a, b, c, d, high, x, y);
      var p, q;
      i, j, p, q := CellBetween(src, w, k - 1, lx, ly);
      p, q, m, n := CellBetween(src, w, k - 1, hx, hy);
    }
  }

  /** Which of four cells it is. */
  lemma Corner(a: Sample, b: Sample, c: Sample, d: Sample, s: Sample, x: nat, y: nat) returns (sx: nat, sy: nat)
    requires s in {a, b, c, d}
    ensures sx / 2 == x && sy / 2 == y
    ensures s == if sy == 2 * y then (if sx == 2 * x then a else b) else if sx == 2 * x then c else d
  {
    if s == a {
      sx, sy := 2 * x, 2 * y;
    } else if s == b {
      sx, sy := 2 * x + 1, 2 * y;
    } else if s == c {
      sx, sy := 2 * x, 2 * y + 1;
    } else {
      sx, sy := 2 * x + 1, 2 * y + 1;
    }
  }

  // ---------------------------------------------------------------- levels of depths

  ghost predicate AllPositive(src: seq<Sample>) {
    forall i :: 0 <= i < |src| ==> Positive(src[i])
  }

  function Inverses(src: seq<Sample>): (r: seq<Sample>)
    requires AllPositive(src)
    ensures |r| == |src| && AllPositive(r) && forall i :: 0 <= i < |src| ==> r[i] == Invert(src[i])
  {
    seq(|src|, i requires 0 <= i < |src| => Invert(src[i]))
  }

  lemma CellPositive(src: seq<Sample>, w: nat, k: nat, x: nat, y: nat)
    requires AllPositive(src)
    ensures Positive(Cell(src, w, k, x, y))
    decreases k
  {
    if Cell(src, w, k, x, y).Finite? {
      var i, j, m, n := CellBetween(src, w, k, x, y);
    }
  }

  /** What the finished pyramid of the depths `src` holds at level `k`. */
  function Lod(src: seq<Sample>, w: nat, k: nat, x: nat, y: nat): Sample
    requires AllPositive(src)
  {
    CellPositive(Inverses(src), w, k, x, y);
    Invert(Cell(Inverses(src), w, k, x, y))
  }

  /** A cell of the pyramid is empty when no sample of its block is there. */
  lemma LodEmpty(src: seq<Sample>, w: nat, k: nat, x: nat, y: nat, i: nat, j: nat)
    requires AllPositive(src) && Below(k, x, y, i, j) && At(src, w, i, j).Finite?
    ensures Lod(src, w, k, x, y).Finite?
  {
    CellEmpty(Inverses(src), w, k, x, y, i, j);
  }

  /** Otherwise it lies between two samples of its block. */
  lemma LodBetween(src: seq<Sample>, w: nat, k: nat, x: nat, y: nat)
    returns (i: nat, j: nat, m: nat, n: nat)
    requires AllPositive(src) && Lod(src, w, k, x, y).Finite?
    ensures Below(k, x, y, i, j) && Below(k, x, y, m, n)
    ensures At(src, w, i, j).Finite? && At(src, w, m, n).Finite?
    ensures At(src, w, i, j).value <= Lod(src, w, k, x, y).value <= At(src, w, m, n).value
  {
    var inv := Inverses(src);
    m, n, i, j := CellBetween(inv, w, k, x, y);
    var low, high, c := At(src, w, i, j).value, At(src, w, m, n).value, Cell(inv, w, k, x, y).value;
    CellPositive(inv, w, k, x, y);
    assert At(inv, w, i, j) == Invert(At(src, w, i, j)) && At(inv, w, m, n) == Invert(At(src, w, m, n));
    InverseOrder(low, low);
    InverseOrder(high, high);
    InverseOrder(c, 1.0 / low);
    InverseOrder(1.0 / high, c);
  }

  // ---------------------------------------------------------------- building the levels

  /** How many cells level `k` has, and where it starts when the levels from 1 on stand one after the other. */
  function LevelSize(w: nat, h: nat, k: nat): nat {
    Shr(h, k) * Shr(w, k)
  }

  function Offset(w: nat, h: nat, k: nat): nat {
    if k <= 1 then 0 else Offset(w, h, k - 1) + LevelSize(w, h, k - 1)
  }

  /** The cells of one level, or the first `n` of them, at `at`. */
  ghost predicate Holds(a: seq<Sample>, at: nat, src: seq<Sample>, w: nat, k: nat, lw: nat, n: nat)
    requires n > 0 ==> lw > 0
  {
    at + n <= |a| && forall j :: 0 <= j < n ==> a[at + j] == Cell(src, w, k, j % lw, j / lw)
  }

  lemma HoldsFits(a: seq<Sample>, at: nat, src: seq<Sample>, w: nat, k: nat, lw: nat, n: nat)
    requires (n > 0 ==> lw > 0) && Holds(a, at, src, w, k, lw, n)
    ensures at + n <= |a|
  {
  }

  lemma HoldsAt(a: seq<Sample>, at: nat, src: seq<Sample>, w: nat, k: nat, lw: nat, lh: nat, x: nat, y: nat)
    requires x < lw && y < lh && Holds(a, at, src, w, k, lw, lh * lw)
    ensures Index(at, lw, x, y) < |a| && a[Index(at, lw, x, y)] == Cell(src, w, k, x, y)
  {
    IndexFits(x, y, lw, lh);
    ModOffset(lw, x, y);
    assert (x + lw * y) == y * lw + x;
  }

  /** The four cells below the one at `x` and `y`. */
  function Four(a: seq<Sample>, from: nat, sw: nat, x: nat, y: nat): (r: Sample)
    requires Index(from, sw, 2 * x + 1, 2 * y) < |a| && Index(from, sw, 2 * x + 1, 2 * y + 1) < |a|
    requires Index(from, sw, 2 * x, 2 * y) < |a| && Index(from, sw, 2 * x, 2 * y + 1) < |a|
  {
    Average(a[Index(from, sw, 2 * x, 2 * y)], a[Index(from, sw, 2 * x + 1, 2 * y)],
            a[Index(from, sw, 2 * x, 2 * y + 1)], a[Index(from, sw, 2 * x + 1, 2 * y + 1)])
  }

  /** They make that cell. */
  lemma NextCell(a: seq<Sample>, from: nat, src: seq<Sample>, w: nat, k: nat, sw: nat, sh: nat, x: nat, y: nat)
    requires 2 * x + 1 < sw && 2 * y + 1 < sh && Holds(a, from, src, w, k, sw, sh * sw)
    ensures Index(from, sw, 2 * x + 1, 2 * y) < |a| && Index(from, sw, 2 * x + 1, 2 * y + 1) < |a|
    ensures Index(from, sw, 2 * x, 2 * y) < |a| && Index(from, sw, 2 * x, 2 * y + 1) < |a|
    ensures Cell(src, w, k + 1, x, y) == Four(a, from, sw, x, y)
  {
    hide Holds;
    HoldsAt(a, from, src, w, k, sw, sh, 2 * x, 2 * y);
    HoldsAt(a, from, src, w, k, sw, sh, 2 * x + 1, 2 * y);
    HoldsAt(a, from, src, w, k, sw, sh, 2 * x, 2 * y + 1);
    HoldsAt(a, from, src, w, k, sw, sh, 2 * x + 1, 2 * y + 1);
  }

  lemma OneMore(b: seq<Sample>, c: seq<Sample>, at: nat, src: seq<Sample>, w: nat, k: nat, lw: nat, x: nat, y: nat)
    requires x < lw && Holds(b, at, src, w, k, lw, y * lw + x) && Index(at, lw, x, y) < |b|
    requires c == b[Index(at, lw, x, y) := Cell(src, w, k, x, y)]
    ensures Holds(c, at, src, w, k, lw, y * lw + x + 1)
  {
    ModOffset(lw, x, y);
    assert x + lw * y == y * lw + x;
  }

  lemma HoldsStill(a: seq<Sample>, b: seq<Sample>, at: nat, src: seq<Sample>, w: nat, k: nat, lw: nat, n: nat)
    requires (n > 0 ==> lw > 0) && Holds(a, at, src, w, k, lw, n) && at + n <= |b| && a[..at + n] == b[..at + n]
    ensures Holds(b, at, src, w, k, lw, n)
  {
    forall j | 0 <= j < n ensures b[at + j] == Cell(src, w, k, j % lw, j / lw) {
      assert b[..at + n][at + j] == a[..at + n][at + j];
    }
  }

  lemma SlicesStay(b: seq<Sample>, c: seq<Sample>, at: nat, value: Sample, from: nat, to: nat)
    requires from <= at < to <= |b| && c == b[at := value]
    ensures c[..from] == b[..from] && c[to..] == b[to..]
  {
  }

  method PutCell(a: array<Sample>, from: nat, sw: nat, ghost sh: nat, b: array<Sample>, to: nat, dw: nat, ghost dh: nat,
                 x: nat, y: nat, ghost src: seq<Sample>, ghost w: nat, ghost k: nat)
    requires dw == sw / 2 && dh == sh / 2 && x < dw && y < dh && Holds(a[..], from, src, w, k, sw, sh * sw)
    requires to + dh * dw <= b.Length && (a == b ==> from + sh * sw <= to)
    requires Holds(b[..], to, src, w, k + 1, dw, y * dw + x)
    modifies b
    ensures b[..to] == old(b[..to]) && b[to + dh * dw..] == old(b[to + dh * dw..])
    ensures Holds(a[..], from, src, w, k, sw, sh * sw) && Holds(b[..], to, src, w, k + 1, dw, y * dw + x + 1)
  {
    ghost var b0, a0 := b[..], a[..];
    NextCell(a0, from, src, w, k, sw, sh, x, y);
    IndexInside(to, dw, dh, x, y);
    HoldsFits(a0, from, src, w, k, sw, sh * sw);
    hide Holds, Index, Average, Cell;
    var at, value := Index(to, dw, x, y), Four(a[..], from, sw, x, y);
    b[at] := value;
    SlicesStay(b0, b[..], at, value, to, to + dh * dw);
    OneMore(b0, b[..], to, src, w, k + 1, dw, x, y);
    if a == b {
      SlicesStay(b0, b[..], at, value, from + sh * sw, to + dh * dw);
    }
    HoldsStill(a0, a[..], from, src, w, k, sw, sh * sw);
  }

  /** Averages one level into the next, `dw` by `dh` cells from `to` on; the level before stands at `from`, in the same
      array or another, and is left alone. */
  method BuildLevel(a: array<Sample>, from: nat, sw: nat, ghost sh: nat, b: array<Sample>, to: nat, dw: nat, dh: nat,
                    ghost src: seq<Sample>, ghost w: nat, ghost k: nat)
    requires dw == sw / 2 && dh == sh / 2 && Holds(a[..], from, src, w, k, sw, sh * sw)
    requires to + dh * dw <= b.Length && (a == b ==> from + sh * sw <= to)
    modifies b
    ensures b[..to] == old(b[..to]) && b[to + dh * dw..] == old(b[to + dh * dw..])
    ensures Holds(b[..], to, src, w, k + 1, dw, dh * dw)
  {
    for y := 0 to dh
      invariant b[..to] == old(b[..to]) && b[to + dh * dw..] == old(b[to + dh * dw..])
      invariant Holds(a[..], from, src, w, k, sw, sh * sw)
      invariant Holds(b[..], to, src, w, k + 1, dw, y * dw)
    {
      IndexBound(y, dh, dw);
      for x := 0 to dw
        invariant b[..to] == old(b[..to]) && b[to + dh * dw..] == old(b[to + dh * dw..])
        invariant Holds(a[..], from, src, w, k, sw, sh * sw)
        invariant Holds(b[..], to, src, w, k + 1, dw, y * dw + x)
      {
        PutCell(a, from, sw, sh, b, to, dw, dh, x, y, src, w, k);
      }
    }
  }

  lemma IndexBound(y: nat, h: nat, w: nat)
    requires y < h
    ensures (y + 1) * w == y * w + w <= h * w
  {
    MulLess(y + 1, h, w);
  }

  /** Level `m` of the averages, where it belongs. */
  ghost predicate HasLevel(a: seq<Sample>, src: seq<Sample>, w: nat, h: nat, m: nat) {
    LevelSize(w, h, m) == 0 || (Shr(w, m) > 0 && Holds(a, Offset(w, h, m), src, w, m, Shr(w, m), LevelSize(w, h, m)))
  }

  /** Levels are built while they are wide enough. */
  predicate Built(w: nat, k: nat) {
    k >= 1 && Shr(w, k) >= MIN_WIDTH
  }

  lemma {:induction false} OffsetsGrow(w: nat, h: nat, m: nat, k: nat)
    requires 1 <= m < k
    ensures Offset(w, h, m) + LevelSize(w, h, m) <= Offset(w, h, k)
    decreases k
  {
    if m < k - 1 {
      OffsetsGrow(w, h, m, k - 1);
    }
  }

  lemma HasLevelStill(a: seq<Sample>, b: seq<Sample>, src: seq<Sample>, w: nat, h: nat, m: nat, end: nat)
    requires HasLevel(a, src, w, h, m) && Offset(w, h, m) + LevelSize(w, h, m) <= end <= |a| == |b| && a[..end] == b[..end]
    ensures HasLevel(b, src, w, h, m)
  {
    if LevelSize(w, h, m) != 0 {
      var n := Offset(w, h, m) + LevelSize(w, h, m);
      assert a[..n] == a[..end][..n] && b[..n] == b[..end][..n];
      HoldsStill(a, b, Offset(w, h, m), src, w, m, Shr(w, m), LevelSize(w, h, m));
    }
  }

  /** The levels before inversion, up to the one before `k`, and where the next one goes. */
  ghost predicate Levels(a: seq<Sample>, src: seq<Sample>, w: nat, h: nat, k: nat) {
    k >= 1 && Offset(w, h, k) <= |a| && forall m: nat :: 1 <= m < k ==> HasLevel(a, src, w, h, m)
  }

  lemma {:induction false} LevelsGrow(a: seq<Sample>, b: seq<Sample>, src: seq<Sample>, w: nat, h: nat, k: nat)
    requires Levels(a, src, w, h, k) && |b| == |a| && b[..Offset(w, h, k)] == a[..Offset(w, h, k)]
    requires Shr(w, k) > 0 && Holds(b, Offset(w, h, k), src, w, k, Shr(w, k), LevelSize(w, h, k))
    ensures Levels(b, src, w, h, k + 1)
  {
    forall m: nat | 1 <= m < k + 1 ensures HasLevel(b, src, w, h, m) {
      if m < k {
        OffsetsGrow(w, h, m, k);
        HasLevelStill(a, b, src, w, h, m, Offset(w, h, k));
      }
    }
  }

  lemma SourceHolds(src: seq<Sample>, w: nat, h: nat)
    requires |src| == h * w && w > 0
    ensures Holds(src, 0, src, w, 0, w, h * w)
  {
    forall j | 0 <= j < h * w ensures src[0 + j] == Cell(src, w, 0, j % w, j / w) {
      assert j == w * (j / w) + j % w;
      assert (j / w) * w == w * (j / w);
    }
  }

  method InvertAll(a: array<Sample>, b: array<Sample>, n: nat)
    requires a != b && a.Length == b.Length == n && AllPositive(a[..])
    modifies b
    ensures b[..] == Inverses(a[..])
  {
    for i := 0 to n
      invariant forall j :: 0 <= j < i ==> b[j] == Invert(a[j])
    {
      b[i] := Invert(a[i]);
    }
  }

  method InvertFirst(a: array<Sample>, n: nat)
    requires n <= a.Length && AllPositive(a[..n])
    modifies a
    ensures forall j :: 0 <= j < n ==> a[j] == Invert(old(a[j]))
    ensures a[n..] == old(a[n..])
  {
    for i := 0 to n
      invariant forall j :: 0 <= j < i ==> a[j] == Invert(old(a[j]))
      invariant forall j :: i <= j < a.Length ==> a[j] == old(a[j])
    {
      assert a[i] == old(a[i]) == old(a[..n])[i];
      a[i] := Invert(a[i]);
    }
  }

  lemma {:induction false} CellsPositive(a: seq<Sample>, src: seq<Sample>, w: nat, h: nat, k: nat)
    requires Levels(a, src, w, h, k) && AllPositive(src)
    ensures AllPositive(a[..Offset(w, h, k)])
    decreases k
  {
    hide Cell;
    if k > 1 {
      CellsPositive(a, src, w, h, k - 1);
      assert HasLevel(a, src, w, h, k - 1);
      forall i | 0 <= i < Offset(w, h, k) ensures Positive(a[..Offset(w, h, k)][i]) {
        var at := Offset(w, h, k - 1);
        if i >= at {
          var j, lw := i - at, Shr(w, k - 1);
          assert a[at + j] == Cell(src, w, k - 1, j % lw, j / lw);
          CellPositive(src, w, k - 1, j % lw, j / lw);
        } else {
          assert a[..at][i] == a[i];
        }
      }
    }
  }

  /** Level `k` of the finished pyramid. */
  ghost predicate HasLod(a: seq<Sample>, src: seq<Sample>, w: nat, h: nat, k: nat)
    requires AllPositive(src)
  {
    && Offset(w, h, k) + LevelSize(w, h, k) <= |a|
    && forall x: nat, y: nat :: x < Shr(w, k) && y < Shr(h, k) ==> LodAt(a, src, w, h, k, x, y)
  }

  ghost predicate LodAt(a: seq<Sample>, src: seq<Sample>, w: nat, h: nat, k: nat, x: nat, y: nat)
    requires AllPositive(src)
  {
    var at := Offset(w, h, k) + y * Shr(w, k) + x;
    at < |a| && a[at] == Lod(src, w, k, x, y)
  }

  lemma {:induction false} InvertedLevel(a: seq<Sample>, b: seq<Sample>, src: seq<Sample>, w: nat, h: nat, m: nat, end: nat)
    requires AllPositive(src) && HasLevel(a, Inverses(src), w, h, m) && |a| == |b| && Shr(w, m) > 0
    requires Offset(w, h, m) + LevelSize(w, h, m) <= end <= |a| && AllPositive(a[..end])
    requires forall j :: 0 <= j < end ==> Positive(a[j]) && b[j] == Invert(a[j])
    ensures HasLod(b, src, w, h, m)
  {
    var lw, lh, at := Shr(w, m), Shr(h, m), Offset(w, h, m);
    forall x: nat, y: nat | x < lw && y < lh ensures LodAt(b, src, w, h, m, x, y) {
      IndexFits(x, y, lw, lh);
      HoldsAt(a, at, Inverses(src), w, m, lw, lh, x, y);
    }
  }

  /** One more level, behind those there are. */
  method NextLevel(dsrc: array<Sample>, from: nat, dsw: nat, ghost sh: nat, outpts: array<Sample>, dptr: nat, dw: nat, dh: nat,
                   ghost src: seq<Sample>, ghost w: nat, ghost h: nat, ghost k: nat)
    requires k >= 1 && dw == Shr(w, k) == dsw / 2 && dh == Shr(h, k) == sh / 2 && dw > 0 && dptr == Offset(w, h, k)
    requires Holds(dsrc[..], from, src, w, k - 1, dsw, sh * dsw) && (dsrc == outpts ==> from + sh * dsw <= dptr)
    requires Levels(outpts[..], src, w, h, k) && dptr + dh * dw <= outpts.Length
    modifies outpts
    ensures Levels(outpts[..], src, w, h, k + 1) && Holds(outpts[..], dptr, src, w, k, dw, dh * dw)
    ensures outpts[dptr + dh * dw..] == old(outpts[dptr + dh * dw..])
  {
    ghost var before := outpts[..];
    BuildLevel(dsrc, from, dsw, sh, outpts, dptr, dw, dh, src, w, k - 1);
    LevelsGrow(before, outpts[..], src, w, h, k);
  }

  lemma TailStays(a: seq<Sample>, b: seq<Sample>, c: seq<Sample>, m: nat, n: nat)
    requires m <= n <= |a| == |b| == |c| && a[m..] == b[m..] && b[n..] == c[n..]
    ensures a[n..] == c[n..]
  {
    assert a[n..] == a[m..][n - m..] && b[n..] == b[m..][n - m..];
  }

  /** Averages level after level into one array, while they are wide enough. What comes after stays as it was. */
  method BuildAverages(dinv: array<Sample>, outpts: array<Sample>, width: nat, height: nat) returns (dptr: nat, ghost last: nat)
    requires dinv.Length == height * width && width > 0 && dinv != outpts
    requires forall k: nat :: Built(width, k) ==> Offset(width, height, k + 1) <= outpts.Length
    modifies outpts
    ensures last >= 1 && !Built(width, last) && forall m: nat :: 1 <= m < last ==> Built(width, m)
    ensures Levels(outpts[..], dinv[..], width, height, last) && dptr == Offset(width, height, last)
    ensures outpts[dptr..] == old(outpts[..])[dptr..]
  {
    ghost var src, start := dinv[..], outpts[..];
    SourceHolds(src, width, height);
    var dsrc, from: nat, dsw: nat, dw: nat, dh: nat := dinv, 0, width, width / 2, height / 2;
    ghost var k: nat, sh: nat := 1, height;
    ShrOne(width);
    ShrOne(height);
    dptr := 0;
    while dw >= MIN_WIDTH
      invariant k >= 1 && dw == Shr(width, k) == dsw / 2 && dh == Shr(height, k) == sh / 2
      invariant dptr == Offset(width, height, k) <= outpts.Length
      invariant (dsw > 0 || sh * dsw == 0) && Holds(dsrc[..], from, src, width, k - 1, dsw, sh * dsw)
      invariant dinv[..] == src && (dsrc == dinv || (dsrc == outpts && from + sh * dsw <= dptr))
      invariant forall m: nat :: 1 <= m < k ==> Built(width, m)
      invariant Levels(outpts[..], src, width, height, k)
      invariant start[dptr..] == outpts[..][dptr..]
    {
      assert Built(width, k);
      ghost var before := outpts[..];
      NextLevel(dsrc, from, dsw, sh, outpts, dptr, dw, dh, src, width, height, k);
      TailStays(start, before, outpts[..], dptr, dptr + dh * dw);
      dsrc, from, dptr := outpts, dptr, dptr + dh * dw;
      sh := dh;
      dw, dsw, dh := dw / 2, dw, dh / 2;
      k := k + 1;
    }
    last := k;
  }

  /** Builds all levels, one after the other, and inverts them at the end. What comes after them stays as it was. */
  method DepthBuildLods(dbuf: array<Sample>, outpts: array<Sample>, width: nat, height: nat) returns (ghost last: nat)
    requires dbuf.Length == height * width && width > 0 && dbuf != outpts && AllPositive(dbuf[..])
    requires forall k: nat :: Built(width, k) ==> Offset(width, height, k + 1) <= outpts.Length
    modifies outpts
    ensures last >= 1 && !Built(width, last)
    ensures forall m: nat :: 1 <= m < last ==> Built(width, m) && HasLod(outpts[..], dbuf[..], width, height, m)
    ensures Offset(width, height, last) <= outpts.Length
    ensures outpts[Offset(width, height, last)..] == old(outpts[..])[Offset(width, height, last)..]
  {
    var dinv := new Sample[dbuf.Length](i => Missing);
    InvertAll(dbuf, dinv, dbuf.Length);
    var dptr;
    dptr, last := BuildAverages(dinv, outpts, width, height);
    ghost var averages, src := outpts[..], dinv[..];
    CellsPositive(averages, src, width, height, last);
    InvertFirst(outpts, dptr);
    forall m: nat | 1 <= m < last ensures HasLod(outpts[..], dbuf[..], width, height, m) {
      assert Built(width, m) && HasLevel(averages, src, width, height, m);
      OffsetsGrow(width, height, m, last);
      assert forall j :: 0 <= j < dptr ==> averages[..dptr][j] == averages[j];
      InvertedLevel(averages, outpts[..], dbuf[..], width, height, m, dptr);
    }
  }
}
