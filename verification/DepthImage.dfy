/** A whole depth image into three planes of bytes and back: missing depths are filled first, then every block is
    quantised. */
module DepthImage {
  import opened DepthSamples
  import opened DepthPyramid
  import opened DepthHoles
  import opened DepthCodec

  lemma ScaleGrows(a: real, b: real, maxDepth: real)
    requires 0.0 <= a <= b && maxDepth > 0.0
    ensures 0.0 <= Scale(Finite(a), maxDepth).value <= Scale(Finite(b), maxDepth).value
  {
    var factor := STEPS / maxDepth;
    assert factor > 0.0;
    assert a * factor >= 0.0;
    assert (b - a) * factor >= 0.0;
    assert b * factor == a * factor + (b - a) * factor;
  }

  /** Filling keeps the depths in range. */
  lemma FilledInRange(src: seq<Sample>, w: nat, last: nat, maxDepth: real, x: nat, y: nat)
    requires maxDepth > 0.0 && AllPositive(src) && AllInRange(src, maxDepth)
    ensures InRange(Scale(Filled(src, w, 0, last, x, y), maxDepth))
  {
    var f := Filled(src, w, 0, last, x, y);
    if f == Finite(0.0) {
    } else if f.Finite? {
      var i, j, m, n := FilledBetween(src, w, 0, last, x, y);
      ScaleGrows(0.0, At(src, w, i, j).value, maxDepth);
      ScaleGrows(At(src, w, i, j).value, f.value, maxDepth);
      ScaleGrows(f.value, At(src, w, m, n).value, maxDepth);
    }
  }

  lemma AllFilledInRange(src: seq<Sample>, a: seq<Sample>, w: nat, h: nat, last: nat, maxDepth: real)
    requires maxDepth > 0.0 && AllPositive(src) && AllInRange(src, maxDepth) && w > 0 && |src| == |a| == h * w
    requires LevelFilled(a, 0, src, w, 0, last, w, h)
    ensures AllInRange(a, maxDepth)
  {
    forall i | 0 <= i < |a| ensures InRange(Scale(a[i], maxDepth)) {
      var x, y := i % w, i / w;
      assert i == w * y + x && w * y == y * w;
      RowBefore(y, h, w, i);
      assert CellIs(a, 0, w, x, y, Filled(src, w, 0, last, x, y));
      FilledInRange(src, w, last, maxDepth, x, y);
    }
  }

  /** The encoder: fills the missing depths of `data` in place and packs all of them. */
  method ConvertDepthToYUV(data: array<Sample>, width: nat, height: nat, maxDepth: real, y: Plane, u: Plane, v: Plane)
    returns (ghost last: nat)
    requires width >= MIN_WIDTH && data.Length == height * width && Halvable(width, height)
    requires maxDepth > 0.0 && AllPositive(data[..]) && AllInRange(data[..], maxDepth) && Planes(width, height, y, u, v)
    modifies data, y, u, v
    ensures AllPositive(old(data[..])) && last >= 1 && LevelFilled(data[..], 0, old(data[..]), width, 0, last, width, height)
    ensures forall r: nat, c: nat :: r < u.Length0 && c < u.Length1 ==>
              EncodedAt(DepthsOf(data[..], width, r, c), maxDepth, y, u, v, r, c)
  {
    ghost var src := data[..];
    last := FillHoles(data, width, height);
    AllFilledInRange(src, data[..], width, height, last, maxDepth);
    EncodePlanes(data, width, height, maxDepth, y, u, v);
  }

  /** The block that a pixel belongs to, and which of its four samples it is. */
  lemma PixelOf(src: seq<Sample>, w: nat, x: nat, y: nat)
    ensures At(src, w, x, y) == DepthsOf(src, w, y / 2, x / 2)[2 * (y % 2) + x % 2]
  {
    assert x == 2 * (x / 2) + x % 2 && y == 2 * (y / 2) + y % 2;
  }

  /** An image that is encoded and decoded: a pixel comes back missing exactly when it was infinite; a missing one comes
      back as some depth, and a finite one to less than one step. */
  lemma ImageComesBack(src: seq<Sample>, filled: seq<Sample>, back: seq<Sample>, last: nat, w: nat, h: nat,
                       maxDepth: real, yp: Plane, up: Plane, vp: Plane, x: nat, y: nat)
    requires AllPositive(src) && last >= 1 && LevelFilled(filled, 0, src, w, 0, last, w, h) && maxDepth > 0.0
    requires Planes(w, h, yp, up, vp) && x < w && y < h
    requires EncodedAt(DepthsOf(filled, w, y / 2, x / 2), maxDepth, yp, up, vp, y / 2, x / 2)
    requires DecodedAt(DepthsOf(back, w, y / 2, x / 2), maxDepth, yp, up, vp, y / 2, x / 2)
    ensures !At(back, w, x, y).Infinite? && (At(back, w, x, y).Finite? <==> !At(src, w, x, y).Infinite?)
    ensures At(src, w, x, y).Finite? ==>
              -(maxDepth / STEPS) < At(back, w, x, y).value - At(src, w, x, y).value < maxDepth / STEPS
  {
    PixelOf(filled, w, x, y);
    PixelOf(back, w, x, y);
    BlockComesBack(DepthsOf(filled, w, y / 2, x / 2), maxDepth, yp, up, vp, DepthsOf(back, w, y / 2, x / 2),
                   y / 2, x / 2, 2 * (y % 2) + x % 2);
    assert CellIs(filled, 0, w, x, y, Filled(src, w, 0, last, x, y));
    FilledFinite(src, w, 0, last, x, y);
  }
}
