/** The numbers of a depth image. */
module DepthSamples {
  import opened Modular

  /** Not a number, infinite, or finite. */
  datatype Sample = Missing | Infinite | Finite(value: real)

  predicate Positive(s: Sample) {
    s.Finite? ==> s.value > 0.0
  }

  /** The sample at column `x` and row `y`; nothing beyond the end. */
  function At(src: seq<Sample>, w: nat, x: nat, y: nat): Sample {
    if y * w + x < |src| then src[y * w + x] else Missing
  }

  lemma IndexFits(x: nat, y: nat, w: nat, h: nat)
    requires x < w && y < h
    ensures y * w + x < h * w
  {
    MulLess(y + 1, h, w);
    assert (y + 1) * w == y * w + w;
  }

  /** The place of a cell in an array where a level of width `w` starts at `from`. */
  function Index(from: nat, w: nat, x: nat, y: nat): nat {
    from + y * w + x
  }

  lemma IndexInside(from: nat, w: nat, h: nat, x: nat, y: nat)
    requires x < w && y < h
    ensures from <= Index(from, w, x, y) < from + h * w
  {
    IndexFits(x, y, w, h);
  }

  lemma {:induction false} MulLess(a: nat, b: nat, w: nat)
    requires a <= b
    ensures a * w <= b * w
  {
    if a < b {
      MulLess(a, b - 1, w);
      assert b * w == (b - 1) * w + w;
    }
  }

  lemma OneIndex(lw: nat, i: nat, j: nat, x: nat, y: nat)
    requires i < lw && x < lw && j * lw + i == y * lw + x
    ensures i == x && j == y
  {
    ModOffset(lw, i, j);
    ModOffset(lw, x, y);
    assert i + lw * j == j * lw + i && x + lw * y == y * lw + x;
  }
}
