/** What the cells of the pyramid are: harmonic means of the samples below them. */
module DepthMeans {
  import opened Modular
  import opened DepthSamples
  import opened DepthPyramid

  /** The inverse of a depth that is there; a missing one adds nothing. */
  function Share(s: Sample): real
    requires Positive(s)
  {
    if s.Finite? then 1.0 / s.value else 0.0
  }

  function Present(s: Sample): nat {
    if s.Finite? then 1 else 0
  }

  lemma LodPositive(src: seq<Sample>, w: nat, k: nat, x: nat, y: nat)
    requires AllPositive(src)
    ensures Positive(Lod(src, w, k, x, y))
  {
    CellPositive(Inverses(src), w, k, x, y);
  }

  /** A cell before inversion is the inverse of the finished one. */
  lemma CellIsShare(src: seq<Sample>, w: nat, k: nat, x: nat, y: nat)
    requires AllPositive(src)
    ensures Positive(Lod(src, w, k, x, y))
    ensures var c := Cell(Inverses(src), w, k, x, y);
            !c.Infinite? && Lod(src, w, k, x, y).Finite? == c.Finite? && ValueOf(c) == Share(Lod(src, w, k, x, y))
  {
    var c := Cell(Inverses(src), w, k, x, y);
    CellPositive(Inverses(src), w, k, x, y);
    if c.Finite? {
      InverseOrder(c.value, c.value);
    }
    CellNotInfinite(src, w, k, x, y);
  }

  lemma CellNotInfinite(src: seq<Sample>, w: nat, k: nat, x: nat, y: nat)
    requires AllPositive(src)
    ensures !Cell(Inverses(src), w, k, x, y).Infinite?
  {
    if k == 0 && y * w + x < |src| {
      assert Inverses(src)[y * w + x] == Invert(src[y * w + x]);
    }
  }

  lemma Quotient(t: real, v: real)
    requires v > 0.0
    ensures t / v == t * (1.0 / v)
  {
    InverseIsPositive(v);
    var a, b := t / v, t * (1.0 / v);
    assert a * v == t;
    assert b * v == t * ((1.0 / v) * v);
    SameProduct(a, b, v);
  }

  lemma SameProduct(a: real, b: real, u: real)
    requires u > 0.0 && a * u == b * u
    ensures a == b
  {
    if a < b {
      Grows(a, b, u);
    } else if b < a {
      Grows(b, a, u);
    }
  }

  /** The level below the first is made of the depths themselves. */
  lemma LowestLod(src: seq<Sample>, w: nat, x: nat, y: nat)
    requires AllPositive(src)
    ensures Positive(At(src, w, x, y)) && Positive(Lod(src, w, 0, x, y))
    ensures Share(Lod(src, w, 0, x, y)) == Share(At(src, w, x, y))
    ensures At(src, w, x, y).Finite? ==> Lod(src, w, 0, x, y) == At(src, w, x, y)
    ensures !At(src, w, x, y).Finite? ==> Lod(src, w, 0, x, y) == Missing
  {
    CellIsShare(src, w, 0, x, y);
    assert At(Inverses(src), w, x, y) == (if y * w + x < |src| then Invert(src[y * w + x]) else Missing);
    if At(src, w, x, y).Finite? {
      InverseOrder(At(src, w, x, y).value, At(src, w, x, y).value);
    }
  }

  /** `t` times `v` is `sum`. */
  predicate Balances(t: nat, v: real, sum: real) {
    t as real * v == sum
  }

  lemma TimesQuotient(sum: real, t: nat)
    requires 1 <= t <= 4
    ensures Balances(t, sum / t as real, sum)
  {
    assert t in {1, 2, 3, 4};
  }

  lemma AverageBalances(a: Sample, b: Sample, c: Sample, d: Sample, t: nat, sum: real)
    requires t == CountOf(a) + CountOf(b) + CountOf(c) + CountOf(d)
    requires sum == ValueOf(a) + ValueOf(b) + ValueOf(c) + ValueOf(d)
    ensures var m := Average(a, b, c, d); if t == 0 then m == Missing else m.Finite? && Balances(t, m.value, sum)
  {
    hide Balances;
    if t > 0 {
      TimesQuotient(sum, t);
    }
  }

  lemma CellBalances(src: seq<Sample>, w: nat, k: nat, x: nat, y: nat, t: nat, sum: real)
    requires t == CountOf(Cell(src, w, k, 2 * x, 2 * y)) + CountOf(Cell(src, w, k, 2 * x + 1, 2 * y))
                  + CountOf(Cell(src, w, k, 2 * x, 2 * y + 1)) + CountOf(Cell(src, w, k, 2 * x + 1, 2 * y + 1))
    requires sum == ValueOf(Cell(src, w, k, 2 * x, 2 * y)) + ValueOf(Cell(src, w, k, 2 * x + 1, 2 * y))
                    + ValueOf(Cell(src, w, k, 2 * x, 2 * y + 1)) + ValueOf(Cell(src, w, k, 2 * x + 1, 2 * y + 1))
    ensures var m := Cell(src, w, k + 1, x, y); if t == 0 then m == Missing else m.Finite? && Balances(t, m.value, sum)
  {
    hide Balances, Average, CountOf, ValueOf;
    AverageBalances(Cell(src, w, k, 2 * x, 2 * y), Cell(src, w, k, 2 * x + 1, 2 * y),
                    Cell(src, w, k, 2 * x, 2 * y + 1), Cell(src, w, k, 2 * x + 1, 2 * y + 1), t, sum);
  }

  lemma BalancedQuotient(t: nat, s: Sample, sum: real)
    requires s.Finite? && Positive(s) && Balances(t, Share(s), sum)
    ensures t as real / s.value == sum
  {
    Quotient(t as real, s.value);
  }

  lemma LodIsThere(src: seq<Sample>, w: nat, k: nat, x: nat, y: nat)
    requires AllPositive(src)
    ensures Positive(Lod(src, w, k, x, y)) && !Lod(src, w, k, x, y).Infinite?
  {
    CellPositive(Inverses(src), w, k, x, y);
  }

  /** The number of cells that are there among four, and the sum of their inverses. */
  ghost predicate FourBelow(src: seq<Sample>, w: nat, k: nat, x: nat, y: nat, t: nat, sum: real)
    requires AllPositive(src)
  {
    LodPositive(src, w, k, 2 * x, 2 * y);
    LodPositive(src, w, k, 2 * x + 1, 2 * y);
    LodPositive(src, w, k, 2 * x, 2 * y + 1);
    LodPositive(src, w, k, 2 * x + 1, 2 * y + 1);
    var a, b := Lod(src, w, k, 2 * x, 2 * y), Lod(src, w, k, 2 * x + 1, 2 * y);
    var c, d := Lod(src, w, k, 2 * x, 2 * y + 1), Lod(src, w, k, 2 * x + 1, 2 * y + 1);
    t == Present(a) + Present(b) + Present(c) + Present(d) && sum == Share(a) + Share(b) + Share(c) + Share(d)
  }

  lemma FourCells(src: seq<Sample>, w: nat, k: nat, x: nat, y: nat, t: nat, sum: real)
    requires AllPositive(src) && FourBelow(src, w, k, x, y, t, sum)
    ensures var inv := Inverses(src);
            && t == CountOf(Cell(inv, w, k, 2 * x, 2 * y)) + CountOf(Cell(inv, w, k, 2 * x + 1, 2 * y))
                    + CountOf(Cell(inv, w, k, 2 * x, 2 * y + 1)) + CountOf(Cell(inv, w, k, 2 * x + 1, 2 * y + 1))
            && sum == ValueOf(Cell(inv, w, k, 2 * x, 2 * y)) + ValueOf(Cell(inv, w, k, 2 * x + 1, 2 * y))
                      + ValueOf(Cell(inv, w, k, 2 * x, 2 * y + 1)) + ValueOf(Cell(inv, w, k, 2 * x + 1, 2 * y + 1))
  {
    hide Cell, Lod, Share, ValueOf;
    CellIsShare(src, w, k, 2 * x, 2 * y);
    CellIsShare(src, w, k, 2 * x + 1, 2 * y);
    CellIsShare(src, w, k, 2 * x, 2 * y + 1);
    CellIsShare(src, w, k, 2 * x + 1, 2 * y + 1);
  }

  /** A cell is the harmonic mean of those of the four cells below it that are there, and missing when none is. */
  lemma LodIsMean(src: seq<Sample>, w: nat, k: nat, x: nat, y: nat, t: nat, sum: real)
    requires AllPositive(src) && FourBelow(src, w, k, x, y, t, sum)
    ensures var up := Lod(src, w, k + 1, x, y);
            Positive(up) && if t == 0 then up == Missing else up.Finite? && t as real / up.value == sum
  {
    FourCells(src, w, k, x, y, t, sum);
    hide FourBelow, Cell, Lod, Balances, Share, CountOf, ValueOf;
    CellIsShare(src, w, k + 1, x, y);
    LodIsThere(src, w, k + 1, x, y);
    CellBalances(Inverses(src), w, k, x, y, t, sum);
    var up := Lod(src, w, k + 1, x, y);
    if up.Finite? {
      CellShare(src, w, k + 1, x, y);
      BalancedQuotient(t, up, sum);
    }
  }

  lemma CellShare(src: seq<Sample>, w: nat, k: nat, x: nat, y: nat)
    requires AllPositive(src) && Lod(src, w, k, x, y).Finite?
    ensures Positive(Lod(src, w, k, x, y)) && Cell(Inverses(src), w, k, x, y) == Finite(Share(Lod(src, w, k, x, y)))
  {
    hide Cell, Lod, Share;
    CellIsShare(src, w, k, x, y);
  }

  // ---------------------------------------------------------------- whole blocks

  /** How many samples a cell is wide. */
  function Side(k: nat): nat {
    if k == 0 then 1 else 2 * Side(k - 1)
  }

  /** The sum of the inverses of `n` samples from column `x` on. */
  function RowShares(src: seq<Sample>, w: nat, x: nat, y: nat, n: nat): real
    requires AllPositive(src)
  {
    if n == 0 then 0.0 else RowShares(src, w, x, y, n - 1) + Share(At(src, w, x + n - 1, y))
  }

  /** The same for `m` rows from row `y` on. */
  function BlockShares(src: seq<Sample>, w: nat, x: nat, y: nat, n: nat, m: nat): real
    requires AllPositive(src)
    decreases m
  {
    if m == 0 then 0.0 else BlockShares(src, w, x, y, n, m - 1) + RowShares(src, w, x, y + m - 1, n)
  }

  lemma {:induction false} RowInTwo(src: seq<Sample>, w: nat, x: nat, y: nat, a: nat, b: nat)
    requires AllPositive(src)
    ensures RowShares(src, w, x, y, a + b) == RowShares(src, w, x, y, a) + RowShares(src, w, x + a, y, b)
    decreases b
  {
    if b > 0 {
      RowInTwo(src, w, x, y, a, b - 1);
      assert x + (a + b) - 1 == (x + a) + b - 1;
    }
  }

  lemma {:induction false} RowsInTwo(src: seq<Sample>, w: nat, x: nat, y: nat, n: nat, a: nat, b: nat)
    requires AllPositive(src)
    ensures BlockShares(src, w, x, y, n, a + b) == BlockShares(src, w, x, y, n, a) + BlockShares(src, w, x, y + a, n, b)
    decreases b
  {
    if b > 0 {
      RowsInTwo(src, w, x, y, n, a, b - 1);
      assert y + (a + b) - 1 == (y + a) + b - 1;
    }
  }

  lemma {:induction false} ColumnsInTwo(src: seq<Sample>, w: nat, x: nat, y: nat, a: nat, b: nat, m: nat)
    requires AllPositive(src)
    ensures BlockShares(src, w, x, y, a + b, m) == BlockShares(src, w, x, y, a, m) + BlockShares(src, w, x + a, y, b, m)
    decreases m
  {
    if m > 0 {
      ColumnsInTwo(src, w, x, y, a, b, m - 1);
      RowInTwo(src, w, x, y + m - 1, a, b);
    }
  }

  lemma BlockInFour(src: seq<Sample>, w: nat, x: nat, y: nat, n: nat)
    requires AllPositive(src)
    ensures BlockShares(src, w, x, y, 2 * n, 2 * n)
            == BlockShares(src, w, x, y, n, n) + BlockShares(src, w, x + n, y, n, n)
               + BlockShares(src, w, x, y + n, n, n) + BlockShares(src, w, x + n, y + n, n, n)
  {
    RowsInTwo(src, w, x, y, 2 * n, n, n);
    ColumnsInTwo(src, w, x, y, n, n, n);
    ColumnsInTwo(src, w, x, y + n, n, n, n);
    assert n + n == 2 * n;
  }

  /** All samples of the block are there. */
  ghost predicate Full(src: seq<Sample>, w: nat, x: nat, y: nat, n: nat) {
    forall i: nat, j: nat :: x <= i < x + n && y <= j < y + n ==> At(src, w, i, j).Finite?
  }

  /** The block below a cell is the square of that many samples each way. */
  lemma {:induction false} BelowIff(k: nat, x: nat, y: nat, i: nat, j: nat)
    ensures Below(k, x, y, i, j) <==> Side(k) * x <= i < Side(k) * x + Side(k) && Side(k) * y <= j < Side(k) * y + Side(k)
  {
    ShrIff(k, x, i);
    ShrIff(k, y, j);
  }

  lemma TwoSides(n: nat, x: nat)
    ensures n * (2 * x) == 2 * n * x && n * (2 * x + 1) == 2 * n * x + n
  {
  }

  lemma {:induction false} ShrIff(k: nat, x: nat, i: nat)
    ensures Shr(i, k) == x <==> Side(k) * x <= i < Side(k) * x + Side(k)
  {
    if k > 0 {
      var n := Side(k - 1);
      ShrIff(k - 1, 2 * x, i);
      ShrIff(k - 1, 2 * x + 1, i);
      TwoSides(n, x);
      hide Side;
      assert Shr(i, k) == Shr(i, k - 1) / 2;
    }
  }

  /** The block below a cell, and the sum of the inverses of its samples. */
  ghost predicate FullBelow(src: seq<Sample>, w: nat, k: nat, x: nat, y: nat) {
    Full(src, w, Side(k) * x, Side(k) * y, Side(k))
  }

  function SharesBelow(src: seq<Sample>, w: nat, k: nat, x: nat, y: nat): real
    requires AllPositive(src)
  {
    BlockShares(src, w, Side(k) * x, Side(k) * y, Side(k), Side(k))
  }

  lemma Corner(n: nat, x: nat)
    ensures n * (2 * x) == 2 * n * x && n * (2 * x + 1) == 2 * n * x + n
  {
    assert n * (2 * x + 1) == n * (2 * x) + n;
  }

  lemma FullInFour(src: seq<Sample>, w: nat, k: nat, x: nat, y: nat)
    requires FullBelow(src, w, k + 1, x, y)
    ensures FullBelow(src, w, k, 2 * x, 2 * y) && FullBelow(src, w, k, 2 * x + 1, 2 * y)
    ensures FullBelow(src, w, k, 2 * x, 2 * y + 1) && FullBelow(src, w, k, 2 * x + 1, 2 * y + 1)
  {
    Corner(Side(k), x);
    Corner(Side(k), y);
  }

  lemma SharesInFour(src: seq<Sample>, w: nat, k: nat, x: nat, y: nat)
    requires AllPositive(src)
    ensures SharesBelow(src, w, k + 1, x, y)
            == SharesBelow(src, w, k, 2 * x, 2 * y) + SharesBelow(src, w, k, 2 * x + 1, 2 * y)
               + SharesBelow(src, w, k, 2 * x, 2 * y + 1) + SharesBelow(src, w, k, 2 * x + 1, 2 * y + 1)
  {
    hide BlockShares;
    Corner(Side(k), x);
    Corner(Side(k), y);
    BlockInFour(src, w, Side(k + 1) * x, Side(k + 1) * y, Side(k));
  }

  /** `s` is the harmonic mean of `q` samples whose inverses add up to `sum`. */
  predicate IsMean(q: nat, s: Sample, sum: real) {
    s.Finite? && s.value > 0.0 && q as real / s.value == sum
  }

  /** The mean of the means of four equal parts is the mean of all. */
  lemma MeanOfMeans(q: nat, a: Sample, b: Sample, c: Sample, d: Sample, sa: real, sb: real, sc: real, sd: real, up: Sample)
    requires IsMean(q, a, sa) && IsMean(q, b, sb) && IsMean(q, c, sc) && IsMean(q, d, sd)
    requires IsMean(4, up, Share(a) + Share(b) + Share(c) + Share(d))
    ensures IsMean(4 * q, up, sa + sb + sc + sd)
  {
    Quotient(q as real, a.value);
    Quotient(q as real, b.value);
    Quotient(q as real, c.value);
    Quotient(q as real, d.value);
    Quotient(4.0, up.value);
    Quotient((4 * q) as real, up.value);
    Spread(q as real, Share(a), Share(b), Share(c), Share(d));
    Regroup(q, Share(up), Share(a) + Share(b) + Share(c) + Share(d));
  }

  lemma Regroup(q: nat, x: real, sum: real)
    requires 4.0 * x == sum
    ensures (4 * q) as real * x == q as real * sum
  {
    assert (4 * q) as real == 4.0 * q as real;
  }

  lemma Spread(q: real, a: real, b: real, c: real, d: real)
    ensures q * (a + b + c + d) == q * a + q * b + q * c + q * d
  {
  }

  lemma SideSquare(k: nat)
    ensures Side(k + 1) * Side(k + 1) == 4 * (Side(k) * Side(k))
  {
  }

  /** Over a block without missing samples a cell of any level is the harmonic mean of all of them. */
  lemma {:induction false} LodOfFullBlock(src: seq<Sample>, w: nat, k: nat, x: nat, y: nat)
    requires AllPositive(src) && FullBelow(src, w, k, x, y)
    ensures IsMean(Side(k) * Side(k), Lod(src, w, k, x, y), SharesBelow(src, w, k, x, y))
    decreases k
  {
    if k == 0 {
      LowestMean(src, w, x, y);
    } else {
      hide IsMean, Lod, FullBelow, SharesBelow, Side;
      var j := k - 1;
      FullInFour(src, w, j, x, y);
      LodOfFullBlock(src, w, j, 2 * x, 2 * y);
      LodOfFullBlock(src, w, j, 2 * x + 1, 2 * y);
      LodOfFullBlock(src, w, j, 2 * x, 2 * y + 1);
      LodOfFullBlock(src, w, j, 2 * x + 1, 2 * y + 1);
      SharesInFour(src, w, j, x, y);
      SideSquare(j);
      NextMean(src, w, j, x, y);
    }
  }

  lemma LowestMean(src: seq<Sample>, w: nat, x: nat, y: nat)
    requires AllPositive(src) && FullBelow(src, w, 0, x, y)
    ensures IsMean(Side(0) * Side(0), Lod(src, w, 0, x, y), SharesBelow(src, w, 0, x, y))
  {
    assert Side(0) == 1 && 1 * x == x && 1 * y == y;
    LowestLod(src, w, x, y);
    hide Lod;
    assert At(src, w, x, y).Finite?;
    assert RowShares(src, w, x, y, 0) == 0.0 && BlockShares(src, w, x, y, 1, 0) == 0.0;
  }

  lemma FourMean(src: seq<Sample>, w: nat, k: nat, x: nat, y: nat)
    requires AllPositive(src)
    requires Lod(src, w, k, 2 * x, 2 * y).Finite? && Lod(src, w, k, 2 * x + 1, 2 * y).Finite?
    requires Lod(src, w, k, 2 * x, 2 * y + 1).Finite? && Lod(src, w, k, 2 * x + 1, 2 * y + 1).Finite?
    ensures Positive(Lod(src, w, k, 2 * x, 2 * y)) && Positive(Lod(src, w, k, 2 * x + 1, 2 * y))
    ensures Positive(Lod(src, w, k, 2 * x, 2 * y + 1)) && Positive(Lod(src, w, k, 2 * x + 1, 2 * y + 1))
    ensures IsMean(4, Lod(src, w, k + 1, x, y),
                   Share(Lod(src, w, k, 2 * x, 2 * y)) + Share(Lod(src, w, k, 2 * x + 1, 2 * y))
                   + Share(Lod(src, w, k, 2 * x, 2 * y + 1)) + Share(Lod(src, w, k, 2 * x + 1, 2 * y + 1)))
  {
    LodPositive(src, w, k, 2 * x, 2 * y);
    LodPositive(src, w, k, 2 * x + 1, 2 * y);
    LodPositive(src, w, k, 2 * x, 2 * y + 1);
    LodPositive(src, w, k, 2 * x + 1, 2 * y + 1);
    hide Lod, Share;
    var sum := Share(Lod(src, w, k, 2 * x, 2 * y)) + Share(Lod(src, w, k, 2 * x + 1, 2 * y))
               + Share(Lod(src, w, k, 2 * x, 2 * y + 1)) + Share(Lod(src, w, k, 2 * x + 1, 2 * y + 1));
    LodIsMean(src, w, k, x, y, 4, sum);
  }

  lemma NextMean(src: seq<Sample>, w: nat, k: nat, x: nat, y: nat)
    requires AllPositive(src)
    requires var q := Side(k) * Side(k);
             && IsMean(q, Lod(src, w, k, 2 * x, 2 * y), SharesBelow(src, w, k, 2 * x, 2 * y))
             && IsMean(q, Lod(src, w, k, 2 * x + 1, 2 * y), SharesBelow(src, w, k, 2 * x + 1, 2 * y))
             && IsMean(q, Lod(src, w, k, 2 * x, 2 * y + 1), SharesBelow(src, w, k, 2 * x, 2 * y + 1))
             && IsMean(q, Lod(src, w, k, 2 * x + 1, 2 * y + 1), SharesBelow(src, w, k, 2 * x + 1, 2 * y + 1))
    ensures IsMean(4 * (Side(k) * Side(k)), Lod(src, w, k + 1, x, y),
                   SharesBelow(src, w, k, 2 * x, 2 * y) + SharesBelow(src, w, k, 2 * x + 1, 2 * y)
                   + SharesBelow(src, w, k, 2 * x, 2 * y + 1) + SharesBelow(src, w, k, 2 * x + 1, 2 * y + 1))
  {
    hide Lod, SharesBelow, Side;
    var a, b := Lod(src, w, k, 2 * x, 2 * y), Lod(src, w, k, 2 * x + 1, 2 * y);
    var c, d := Lod(src, w, k, 2 * x, 2 * y + 1), Lod(src, w, k, 2 * x + 1, 2 * y + 1);
    assert a.Finite? && b.Finite? && c.Finite? && d.Finite?;
    assert Positive(a) && Positive(b) && Positive(c) && Positive(d);
    hide IsMean;
    FourMean(src, w, k, x, y);
    MeanOfMeans(Side(k) * Side(k), a, b, c, d,
                SharesBelow(src, w, k, 2 * x, 2 * y), SharesBelow(src, w, k, 2 * x + 1, 2 * y),
                SharesBelow(src, w, k, 2 * x, 2 * y + 1), SharesBelow(src, w, k, 2 * x + 1, 2 * y + 1), Lod(src, w, k + 1, x, y));
  }
}
