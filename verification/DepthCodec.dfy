/** Depth samples in three planes of bytes. A block of two by two samples keeps the whole part of each scaled sample and
    the average fraction of two groups: the samples with the first whole part, and the others. Samples that are not
    finite are empty: the encoder does not tell them apart, and the decoder makes them all missing. */
module DepthCodec {
  import opened DepthSamples

  type Byte = x: int | 0 <= x < 256

  const EMPTY: Byte := 255
  const STEPS: real := 254.0
  const PARTS: real := 255.0

  /** The whole part of a sample scaled to 254 steps, which must be less than 255. */
  predicate InRange(s: Sample) {
    s.Finite? ==> 0.0 <= s.value < PARTS
  }

  function Whole(s: Sample): Byte
    requires InRange(s)
  {
    if !s.Finite? then EMPTY else s.value.Floor
  }

  function Fraction(s: Sample): (r: real)
    ensures 0.0 <= r < 1.0
  {
    if !s.Finite? then 0.0 else s.value - s.value.Floor as real
  }

  datatype Group = Neither | U | V

  /** The first whole part among the first `n`, or -1. */
  function FirstOf(ys: seq<Byte>, n: nat): int
    requires n <= |ys|
  {
    if n == 0 then -1
    else if FirstOf(ys, n - 1) >= 0 then FirstOf(ys, n - 1)
    else if ys[n - 1] == EMPTY then -1 else ys[n - 1]
  }

  /** The group of the `i`-th sample, as both sides find it. */
  function GroupOf(ys: seq<Byte>, i: nat): Group
    requires i < |ys|
  {
    if ys[i] == EMPTY then Neither
    else if FirstOf(ys, i) < 0 || FirstOf(ys, i) == ys[i] then U else V
  }

  function Count(ys: seq<Byte>, g: Group, n: nat): nat
    requires n <= |ys|
  {
    if n == 0 then 0 else Count(ys, g, n - 1) + if GroupOf(ys, n - 1) == g then 1 else 0
  }

  function Sum(ys: seq<Byte>, fs: seq<real>, g: Group, n: nat): real
    requires n <= |ys| && n <= |fs|
  {
    if n == 0 then 0.0 else Sum(ys, fs, g, n - 1) + if GroupOf(ys, n - 1) == g then fs[n - 1] else 0.0
  }

  /** The average fraction of a group in 255 parts. */
  function Mean(sum: real, count: nat): int {
    if count == 0 then 0 else (sum / count as real * PARTS).Floor
  }

  datatype Block = Block(ys: seq<Byte>, u: Byte, v: Byte)

  predicate IsBlock(s: seq<Sample>) {
    |s| == 4 && forall i :: 0 <= i < 4 ==> InRange(s[i])
  }

  function Wholes(s: seq<Sample>): (ys: seq<Byte>)
    requires forall i :: 0 <= i < |s| ==> InRange(s[i])
    ensures |ys| == |s| && forall i :: 0 <= i < |s| ==> ys[i] == Whole(s[i])
  {
    seq(|s|, i requires 0 <= i < |s| => Whole(s[i]))
  }

  function Fractions(s: seq<Sample>): (fs: seq<real>)
    ensures |fs| == |s| && forall i :: 0 <= i < |s| ==> fs[i] == Fraction(s[i])
  {
    seq(|s|, i requires 0 <= i < |s| => Fraction(s[i]))
  }

  function MeanOf(s: seq<Sample>, g: Group): (r: Byte)
    requires IsBlock(s)
  {
    MeanIsByte(Wholes(s), Fractions(s), g, 4);
    Mean(Sum(Wholes(s), Fractions(s), g, 4), Count(Wholes(s), g, 4))
  }

  function Encode(s: seq<Sample>): Block
    requires IsBlock(s)
  {
    Block(Wholes(s), MeanOf(s, U), MeanOf(s, V))
  }

  function DecodeOne(b: Block, i: nat): Sample
    requires i < |b.ys|
  {
    match GroupOf(b.ys, i)
    case Neither => Missing
    case U => Finite(b.ys[i] as real + b.u as real / PARTS)
    case V => Finite(b.ys[i] as real + b.v as real / PARTS)
  }

  function Decode(b: Block): (s: seq<Sample>)
    ensures |s| == |b.ys|
  {
    seq(|b.ys|, i requires 0 <= i < |b.ys| => DecodeOne(b, i))
  }

  // ---------------------------------------------------------------- averages

  lemma {:induction false} SumBounds(ys: seq<Byte>, fs: seq<real>, g: Group, n: nat)
    requires n <= |ys| && n <= |fs| && forall i :: 0 <= i < n ==> 0.0 <= fs[i] < 1.0
    ensures 0.0 <= Sum(ys, fs, g, n) && Count(ys, g, n) <= n
    ensures Count(ys, g, n) == 0 ==> Sum(ys, fs, g, n) == 0.0
    ensures Count(ys, g, n) > 0 ==> Sum(ys, fs, g, n) < Count(ys, g, n) as real
  {
    if n > 0 {
      SumBounds(ys, fs, g, n - 1);
    }
  }

  lemma Quotient(a: real, n: real)
    requires 0.0 <= a < n
    ensures 0.0 <= a / n < 1.0
  {
    var q := a / n;
    assert q * n == a;
    if q < 0.0 {
      NegativeProduct(q, n);
    } else if q >= 1.0 {
      ProductAtLeast(q, n);
    }
  }

  lemma NegativeProduct(q: real, n: real)
    requires q < 0.0 && 0.0 < n
    ensures q * n < 0.0
  {
  }

  lemma ProductAtLeast(q: real, n: real)
    requires q >= 1.0 && 0.0 < n
    ensures q * n >= n
  {
  }

  lemma MeanIsByte(ys: seq<Byte>, fs: seq<real>, g: Group, n: nat)
    requires n <= |ys| && n <= |fs| && forall i :: 0 <= i < n ==> 0.0 <= fs[i] < 1.0
    ensures 0 <= Mean(Sum(ys, fs, g, n), Count(ys, g, n)) < 255
  {
    SumBounds(ys, fs, g, n);
    if Count(ys, g, n) > 0 {
      Quotient(Sum(ys, fs, g, n), Count(ys, g, n) as real);
    }
  }

  /** The mean is the true average of the group, to less than one part. */
  lemma MeanNear(sum: real, count: nat)
    requires count > 0 && 0.0 <= sum < count as real
    ensures var m := Mean(sum, count); 0 <= m < 255 && m as real / PARTS <= sum / count as real < (m + 1) as real / PARTS
  {
    Quotient(sum, count as real);
  }

  /** Of equal fractions, themselves in 255 parts, the mean is what they are. */
  lemma MeanOfEqual(sum: real, count: nat, c: real, parts: Byte)
    requires count > 0 && sum == count as real * c && c * PARTS == parts as real
    ensures Mean(sum, count) == parts
  {
    DivideBack(sum, count as real, c);
  }

  lemma DivideBack(sum: real, n: real, c: real)
    requires n > 0.0 && sum == n * c
    ensures sum / n == c
  {
    var q := sum / n;
    assert q * n == sum;
    assert c * n == sum;
    assert (q - c) * n == q * n - c * n;
    ZeroFactor(q - c, n);
  }

  lemma ZeroFactor(a: real, n: real)
    requires n > 0.0 && a * n == 0.0
    ensures a == 0.0
  {
  }

  lemma {:induction false} SumOfEqual(ys: seq<Byte>, fs: seq<real>, g: Group, n: nat, c: real)
    requires n <= |ys| && n <= |fs| && forall i :: 0 <= i < n && GroupOf(ys, i) == g ==> fs[i] == c
    ensures Sum(ys, fs, g, n) == Count(ys, g, n) as real * c
  {
    if n > 0 {
      SumOfEqual(ys, fs, g, n - 1, c);
      var k := Count(ys, g, n - 1) as real;
      assert (k + 1.0) * c == k * c + c;
    }
  }

  lemma {:induction false} Counted(ys: seq<Byte>, g: Group, n: nat, i: nat)
    requires i < n <= |ys| && GroupOf(ys, i) == g
    ensures Count(ys, g, n) > 0
  {
    if i < n - 1 {
      Counted(ys, g, n - 1, i);
    }
  }

  // ---------------------------------------------------------------- what a block keeps

  /** What is not finite comes back missing, and any other sample is off by less than one step; alone in its group, it
      is off by less than one part of a step. */
  lemma BlockError(s: seq<Sample>, i: nat)
    requires IsBlock(s) && i < 4
    ensures var d := Decode(Encode(s))[i];
            && !d.Infinite? && (d.Finite? <==> s[i].Finite?)
            && (s[i].Finite? ==> -1.0 < d.value - s[i].value < 1.0)
            && (s[i].Finite? && Count(Wholes(s), GroupOf(Wholes(s), i), 4) == 1 ==>
                  0.0 <= s[i].value - d.value < 1.0 / PARTS)
  {
    var ys, fs := Wholes(s), Fractions(s);
    var g := GroupOf(ys, i);
    if g != Neither {
      GroupMean(ys, fs, g, i);
      MeanIsByte(ys, fs, g, 4);
    }
  }

  lemma {:induction false} GroupMean(ys: seq<Byte>, fs: seq<real>, g: Group, i: nat)
    requires |ys| == |fs| == 4 && i < 4 && GroupOf(ys, i) == g && forall k :: 0 <= k < 4 ==> 0.0 <= fs[k] < 1.0
    ensures Count(ys, g, 4) == 1 ==>
              var m := Mean(Sum(ys, fs, g, 4), Count(ys, g, 4)); 0.0 <= fs[i] - m as real / PARTS < 1.0 / PARTS
  {
    SumBounds(ys, fs, g, 4);
    Counted(ys, g, 4, i);
    MeanNear(Sum(ys, fs, g, 4), Count(ys, g, 4));
    if Count(ys, g, 4) == 1 {
      OnlyOne(ys, fs, g, 4, i);
    }
  }

  lemma {:induction false} OnlyOne(ys: seq<Byte>, fs: seq<real>, g: Group, n: nat, i: nat)
    requires i < n <= |ys| && n <= |fs| && GroupOf(ys, i) == g && Count(ys, g, n) == 1
    ensures Sum(ys, fs, g, n) == fs[i]
  {
    if i < n - 1 {
      Counted(ys, g, n - 1, i);
      OnlyOne(ys, fs, g, n - 1, i);
    } else {
      NoneCounted(ys, fs, g, n - 1);
    }
  }

  lemma {:induction false} NoneCounted(ys: seq<Byte>, fs: seq<real>, g: Group, n: nat)
    requires n <= |ys| && n <= |fs| && Count(ys, g, n) == 0
    ensures Sum(ys, fs, g, n) == 0.0
  {
    if n > 0 {
      NoneCounted(ys, fs, g, n - 1);
    }
  }

  lemma DecodedOne(s: seq<Sample>, i: nat)
    requires IsBlock(s) && i < 4
    ensures var b, d := Encode(s), Decode(Encode(s))[i];
            && InRange(d) && Whole(d) == b.ys[i]
            && (GroupOf(b.ys, i) == U ==> Fraction(d) == b.u as real / PARTS)
            && (GroupOf(b.ys, i) == V ==> Fraction(d) == b.v as real / PARTS)
  {
    MeanIsByte(Wholes(s), Fractions(s), U, 4);
    MeanIsByte(Wholes(s), Fractions(s), V, 4);
  }

  /** Encoding what has been decoded gives the same block again. */
  lemma EncodeIsStable(s: seq<Sample>)
    requires IsBlock(s)
    ensures IsBlock(Decode(Encode(s))) && Encode(Decode(Encode(s))) == Encode(s)
  {
    var b := Encode(s);
    var d := Decode(b);
    forall i | 0 <= i < 4 ensures InRange(d[i]) && Whole(d[i]) == b.ys[i] {
      DecodedOne(s, i);
    }
    assert Wholes(d) == b.ys;
    StableMean(s, U);
    StableMean(s, V);
  }

  lemma StableMean(s: seq<Sample>, g: Group)
    requires IsBlock(s) && g != Neither && IsBlock(Decode(Encode(s))) && Wholes(Decode(Encode(s))) == Encode(s).ys
    ensures MeanOf(Decode(Encode(s)), g) == MeanOf(s, g)
  {
    var ys, d, parts := Wholes(s), Decode(Encode(s)), MeanOf(s, g);
    forall i | 0 <= i < 4 && GroupOf(ys, i) == g ensures Fractions(d)[i] == parts as real / PARTS {
      DecodedOne(s, i);
    }
    EqualMean(ys, Fractions(s), Fractions(d), g, parts);
  }

  /** Fractions replaced by the mean of their group have the same mean. */
  lemma {:induction false} EqualMean(ys: seq<Byte>, fs: seq<real>, ds: seq<real>, g: Group, parts: Byte)
    requires |ys| == |fs| == |ds| == 4 && parts == Mean(Sum(ys, fs, g, 4), Count(ys, g, 4))
    requires forall i :: 0 <= i < 4 && GroupOf(ys, i) == g ==> ds[i] == parts as real / PARTS
    ensures Mean(Sum(ys, ds, g, 4), Count(ys, g, 4)) == parts
  {
    SumOfEqual(ys, ds, g, 4, parts as real / PARTS);
    if Count(ys, g, 4) > 0 {
      MeanOfEqual(Sum(ys, ds, g, 4), Count(ys, g, 4), parts as real / PARTS, parts);
    }
  }

  // ---------------------------------------------------------------- what a group keeps

  /** The sample has the whole part of the first finite sample of its block. */
  ghost predicate LikeFirst(s: seq<Sample>, i: nat)
    requires i < |s|
  {
    s[i].Finite? && exists f: nat ::
      f <= i && s[f].Finite? && s[f].value.Floor == s[i].value.Floor && forall j: nat :: j < f ==> !s[j].Finite?
  }

  /** The finite samples of a block in two: those like the first, and the others. */
  ghost predicate Among(s: seq<Sample>, first: bool, i: nat)
    requires i < |s|
  {
    s[i].Finite? && (LikeFirst(s, i) <==> first)
  }

  lemma {:induction false} FirstIff(s: seq<Sample>, n: nat)
    requires n <= |s| && forall i :: 0 <= i < |s| ==> InRange(s[i])
    ensures var first := FirstOf(Wholes(s), n);
            if first < 0 then forall j: nat :: j < n ==> !s[j].Finite?
            else exists f: nat :: f < n && s[f].Finite? && s[f].value.Floor == first && forall j: nat :: j < f ==> !s[j].Finite?
  {
    if n > 0 {
      FirstIff(s, n - 1);
      if FirstOf(Wholes(s), n - 1) < 0 && s[n - 1].Finite? {
        assert s[n - 1].value.Floor == FirstOf(Wholes(s), n);
      }
    }
  }

  /** The groups are these two. */
  lemma GroupIff(s: seq<Sample>, i: nat)
    requires i < |s| && forall i :: 0 <= i < |s| ==> InRange(s[i])
    ensures GroupOf(Wholes(s), i) == if Among(s, true, i) then U else if Among(s, false, i) then V else Neither
  {
    FirstIff(s, i);
    var first := FirstOf(Wholes(s), i);
    if s[i].Finite? && first >= 0 {
      var f: nat :| f < i && s[f].Finite? && s[f].value.Floor == first && forall j: nat :: j < f ==> !s[j].Finite?;
      assert forall k: nat :: k <= i && s[k].Finite? && (forall j: nat :: j < k ==> !s[j].Finite?) ==> k == f;
    }
  }

  ghost function Share(s: seq<Sample>, d: seq<Sample>, first: bool, i: nat): real
    requires i < |s| == |d|
  {
    if Among(s, first, i) && d[i].Finite? then d[i].value else 0.0
  }

  /** The sum of what stands in `d` for the samples of one of the two groups of `s`. */
  ghost function Shares(s: seq<Sample>, d: seq<Sample>, first: bool): real
    requires |s| == |d| == 4
  {
    Share(s, d, first, 0) + Share(s, d, first, 1) + Share(s, d, first, 2) + Share(s, d, first, 3)
  }

  /** Those of the group among the first `n`. */
  ghost function Members(s: seq<Sample>, first: bool, n: nat): set<int>
    requires n <= |s|
  {
    set i | 0 <= i < n && Among(s, first, i)
  }

  lemma MembersNext(s: seq<Sample>, first: bool, n: nat)
    requires n < |s|
    ensures |Members(s, first, n + 1)| == |Members(s, first, n)| + if Among(s, first, n) then 1 else 0
  {
    hide Among;
    if Among(s, first, n) {
      assert Members(s, first, n + 1) == Members(s, first, n) + {n};
    } else {
      assert Members(s, first, n + 1) == Members(s, first, n);
    }
  }

  lemma {:induction false} MembersCount(s: seq<Sample>, first: bool, n: nat)
    requires n <= |s| && forall i :: 0 <= i < |s| ==> InRange(s[i])
    ensures |Members(s, first, n)| == Count(Wholes(s), if first then U else V, n)
  {
    hide Among, GroupOf;
    if n > 0 {
      MembersCount(s, first, n - 1);
      MembersNext(s, first, n - 1);
      GroupIff(s, n - 1);
      hide Members;
      OneGroup(s, n - 1);
    } else {
      assert Members(s, first, 0) == {};
    }
  }

  lemma OneGroup(s: seq<Sample>, i: nat)
    requires i < |s|
    ensures !(Among(s, true, i) && Among(s, false, i))
  {
  }

  function If(b: bool, x: real): real {
    if b then x else 0.0
  }

  function MeanPart(s: seq<Sample>, g: Group): real
    requires IsBlock(s)
  {
    MeanOf(s, g) as real / PARTS
  }

  /** What a sample of the group loses. */
  lemma ShareLoss(s: seq<Sample>, first: bool, i: nat)
    requires IsBlock(s) && i < 4
    ensures var g := if first then U else V; var b := GroupOf(Wholes(s), i) == g;
            && Share(s, s, first, i) - Share(s, Decode(Encode(s)), first, i)
               == If(b, Fractions(s)[i]) - If(b, MeanPart(s, g))
            && (!b ==> Share(s, s, first, i) == 0.0 && Share(s, Decode(Encode(s)), first, i) == 0.0)
  {
    GroupIff(s, i);
    hide Among;
  }

  lemma SumOfFour(ys: seq<Byte>, fs: seq<real>, g: Group, c: real)
    requires |ys| == |fs| == 4
    ensures Sum(ys, fs, g, 4) == If(GroupOf(ys, 0) == g, fs[0]) + If(GroupOf(ys, 1) == g, fs[1])
                                 + If(GroupOf(ys, 2) == g, fs[2]) + If(GroupOf(ys, 3) == g, fs[3])
    ensures Product(Count(ys, g, 4) as real, c) == If(GroupOf(ys, 0) == g, c) + If(GroupOf(ys, 1) == g, c)
                                           + If(GroupOf(ys, 2) == g, c) + If(GroupOf(ys, 3) == g, c)
    ensures Count(ys, g, 4) == 0 ==> forall i :: 0 <= i < 4 ==> GroupOf(ys, i) != g
  {
    hide GroupOf;
    SumOneMore(ys, fs, g, c, 0);
    SumOneMore(ys, fs, g, c, 1);
    SumOneMore(ys, fs, g, c, 2);
    SumOneMore(ys, fs, g, c, 3);
  }

  lemma SumOneMore(ys: seq<Byte>, fs: seq<real>, g: Group, c: real, n: nat)
    requires n < |ys| && n < |fs|
    ensures Sum(ys, fs, g, n + 1) == Sum(ys, fs, g, n) + If(GroupOf(ys, n) == g, fs[n])
    ensures Product(Count(ys, g, n + 1) as real, c) == Product(Count(ys, g, n) as real, c) + If(GroupOf(ys, n) == g, c)
    ensures Count(ys, g, n + 1) == Count(ys, g, n) + if GroupOf(ys, n) == g then 1 else 0
    ensures n == 0 ==> Count(ys, g, n) == 0 && Sum(ys, fs, g, n) == 0.0
  {
    hide GroupOf;
    var k := Count(ys, g, n) as real;
    assert (k + 1.0) * c == k * c + c;
  }

  /** The fractions of a group without its mean for each of them. */
  function Lost(s: seq<Sample>, g: Group): real
    requires IsBlock(s)
  {
    Sum(Wholes(s), Fractions(s), g, 4) - Product(Count(Wholes(s), g, 4) as real, MeanPart(s, g))
  }

  lemma GroupLoss(s: seq<Sample>, first: bool)
    requires IsBlock(s)
    ensures var g := if first then U else V;
            && Shares(s, s, first) - Shares(s, Decode(Encode(s)), first) == Lost(s, g)
            && (Count(Wholes(s), g, 4) == 0 ==> Shares(s, s, first) == 0.0)
  {
    hide Share, Sum, Count, GroupOf, MeanPart, Product, If, Encode, Decode, Wholes, Fractions;
    var g := if first then U else V;
    ShareLoss(s, first, 0);
    ShareLoss(s, first, 1);
    ShareLoss(s, first, 2);
    ShareLoss(s, first, 3);
    SumOfFour(Wholes(s), Fractions(s), g, MeanPart(s, g));
  }

  lemma LostLittle(s: seq<Sample>, g: Group)
    requires IsBlock(s)
    ensures var n := Count(Wholes(s), g, 4); if n == 0 then Lost(s, g) == 0.0 else 0.0 <= Lost(s, g) < n as real / PARTS
  {
    var ys, fs, n := Wholes(s), Fractions(s), Count(Wholes(s), g, 4);
    SumBounds(ys, fs, g, 4);
    var sum, m := Sum(ys, fs, g, 4), MeanOf(s, g);
    assert m == Mean(sum, n);
    hide Sum, Count, MeanOf, Wholes, Fractions, IsBlock;
    if n > 0 {
      MeanNear(sum, n);
      hide Mean;
      MeanLoss(sum, n, m);
    }
  }

  /** A block keeps the sum of each of its two groups: what they lose together is less than one part of a step for each
      sample. */
  lemma GroupKept(s: seq<Sample>, first: bool)
    requires IsBlock(s)
    ensures var n := |Members(s, first, 4)|;
            if n == 0 then Shares(s, s, first) == Shares(s, Decode(Encode(s)), first) == 0.0
            else 0.0 <= Shares(s, s, first) - Shares(s, Decode(Encode(s)), first) < n as real / PARTS
  {
    hide Shares, Members, Lost, Count, Encode, Decode, Wholes;
    MembersCount(s, first, 4);
    GroupLoss(s, first);
    LostLittle(s, if first then U else V);
  }

  lemma MeanLoss(sum: real, n: nat, m: Byte)
    requires n > 0 && m as real / PARTS <= sum / n as real < (m + 1) as real / PARTS
    ensures 0.0 <= sum - n as real * (m as real / PARTS) < n as real / PARTS
  {
    var q, c, e := sum / n as real, m as real / PARTS, 1.0 / PARTS;
    assert q * n as real == sum;
    assert (m + 1) as real / PARTS == c + e;
    assert (q - c) * n as real == sum - n as real * c;
    FactorBounds(q - c, e, n as real);
  }

  lemma FactorBounds(a: real, e: real, n: real)
    requires 0.0 <= a < e && n > 0.0
    ensures 0.0 <= a * n < e * n
  {
  }

  // ---------------------------------------------------------------- depths

  function Times(z: Sample, factor: real): Sample {
    if z.Finite? then Finite(Product(z.value, factor)) else z
  }

  function Product(a: real, b: real): real {
    a * b
  }

  function Scale(z: Sample, maxDepth: real): Sample
    requires maxDepth > 0.0
  {
    Times(z, STEPS / maxDepth)
  }

  function Unscale(s: Sample, maxDepth: real): Sample
    requires maxDepth > 0.0
  {
    Times(s, maxDepth / STEPS)
  }

  lemma StepsOver(m: real)
    requires m > 0.0
    ensures Product(STEPS / m, m / STEPS) == 1.0 && Product(m / STEPS, STEPS / m) == 1.0 && m / STEPS > 0.0
  {
    var q := STEPS / m;
    assert q * m == STEPS;
    assert q * (m / STEPS) == q * m / STEPS;
  }

  lemma TimesBack(z: Sample, a: real, b: real)
    requires Product(a, b) == 1.0
    ensures Times(Times(z, a), b) == z
  {
    if z.Finite? {
      ProductBack(z.value, a, b);
    }
  }

  lemma ProductBack(x: real, a: real, b: real)
    requires Product(a, b) == 1.0
    ensures Product(Product(x, a), b) == x
  {
    assert x * a * b == x * (a * b);
  }

  /** Scaling and unscaling undo each other. */
  lemma ScaleUnscale(s: Sample, maxDepth: real)
    requires maxDepth > 0.0
    ensures Scale(Unscale(s, maxDepth), maxDepth) == s && Unscale(Scale(s, maxDepth), maxDepth) == s
  {
    StepsOver(maxDepth);
    TimesBack(s, STEPS / maxDepth, maxDepth / STEPS);
    TimesBack(s, maxDepth / STEPS, STEPS / maxDepth);
  }

  lemma Less(a: real, b: real, m: real)
    requires a < b && m > 0.0
    ensures Product(a, m) < Product(b, m)
  {
  }

  lemma Spread(a: real, b: real, m: real)
    ensures Product(a + b, m) == Product(a, m) + Product(b, m)
  {
  }

  /** A bound on the error of a scaled sample is one on the depth. */
  lemma ErrorTimes(t: real, d: real, bound: real, m: real)
    requires m > 0.0 && d - t < bound
    ensures Product(d, m) - Product(t, m) < Product(bound, m)
  {
    Less(d, t + bound, m);
    Spread(t, bound, m);
  }

  /** The depths of a block, scaled. */
  function Scaled(zs: seq<Sample>, maxDepth: real): (s: seq<Sample>)
    requires maxDepth > 0.0
    ensures |s| == |zs| && forall i :: 0 <= i < |s| ==> s[i] == Scale(zs[i], maxDepth)
  {
    seq(|zs|, i requires 0 <= i < |zs| => Scale(zs[i], maxDepth))
  }

  /** A depth comes back to less than one step, and to less than one part of a step when it is alone in its group. */
  lemma DepthError(zs: seq<Sample>, maxDepth: real, i: nat)
    requires maxDepth > 0.0 && IsBlock(Scaled(zs, maxDepth)) && i < 4
    ensures var s := Scaled(zs, maxDepth);
            var z := Unscale(Decode(Encode(s))[i], maxDepth);
            && !z.Infinite? && (z.Finite? <==> zs[i].Finite?)
            && (z.Finite? ==> -(maxDepth / STEPS) < z.value - zs[i].value < maxDepth / STEPS)
            && (z.Finite? && Count(Wholes(s), GroupOf(Wholes(s), i), 4) == 1 ==>
                  0.0 <= zs[i].value - z.value < maxDepth / STEPS / PARTS)
  {
    var s := Scaled(zs, maxDepth);
    BlockError(s, i);
    if zs[i].Finite? {
      StepsOver(maxDepth);
      ScaleUnscale(zs[i], maxDepth);
      TimesError(s[i], Decode(Encode(s))[i], maxDepth / STEPS, Count(Wholes(s), GroupOf(Wholes(s), i), 4) == 1);
    }
  }

  lemma TimesError(t: Sample, d: Sample, m: real, alone: bool)
    requires t.Finite? && d.Finite? && m > 0.0
    requires -1.0 < d.value - t.value < 1.0 && (alone ==> 0.0 <= t.value - d.value < 1.0 / PARTS)
    ensures -m < Times(d, m).value - Times(t, m).value < m
    ensures alone ==> 0.0 <= Times(t, m).value - Times(d, m).value < m / PARTS
  {
    ErrorTimes(t.value, d.value, 1.0, m);
    ErrorTimes(d.value, t.value, 1.0, m);
    ProductOfConstants(m);
    if alone {
      ErrorTimes(d.value, t.value, 1.0 / PARTS, m);
      if d.value < t.value {
        Less(d.value, t.value, m);
      }
    }
  }

  lemma ProductOfConstants(m: real)
    ensures Product(1.0, m) == m && Product(1.0 / PARTS, m) == m / PARTS
  {
  }

  // ---------------------------------------------------------------- blocks and planes

  method EncodeSamples(s: seq<Sample>) returns (b: Block)
    requires IsBlock(s)
    ensures b == Encode(s)
  {
    var ys: seq<Byte> := [];
    var first: int, uSum: real, uCount: nat, vSum: real, vCount: nat := -1, 0.0, 0, 0.0, 0;
    ghost var all, fs := Wholes(s), Fractions(s);
    for idx := 0 to 4
      invariant ys == all[..idx] && first == FirstOf(all, idx)
      invariant uSum == Sum(all, fs, U, idx) && uCount == Count(all, U, idx)
      invariant vSum == Sum(all, fs, V, idx) && vCount == Count(all, V, idx)
    {
      var y: Byte := EMPTY;
      if s[idx].Finite? {
        var rem := s[idx].value - s[idx].value.Floor as real;
        y := s[idx].value.Floor;
        if first < 0 || first == y {
          uSum, uCount, first := uSum + rem, uCount + 1, y;
        } else {
          vSum, vCount := vSum + rem, vCount + 1;
        }
      }
      ys := ys + [y];
    }
    MeanIsByte(all, fs, U, 4);
    MeanIsByte(all, fs, V, 4);
    assert all[..4] == all;
    b := Block(ys, Mean(uSum, uCount), Mean(vSum, vCount));
  }

  method DecodeSamples(b: Block) returns (s: seq<Sample>)
    requires |b.ys| == 4
    ensures s == Decode(b)
  {
    s := [];
    var first: int := -1;
    for idx := 0 to 4
      invariant s == Decode(b)[..idx] && first == FirstOf(b.ys, idx)
    {
      var y := b.ys[idx];
      assert Decode(b)[..idx + 1] == Decode(b)[..idx] + [DecodeOne(b, idx)];
      if y == EMPTY {
        s := s + [Missing];
      } else {
        var rem;
        if first < 0 || first == y {
          rem, first := b.u as real / PARTS, y;
        } else {
          rem := b.v as real / PARTS;
        }
        s := s + [Finite(y as real + rem)];
      }
    }
    assert Decode(b)[..4] == Decode(b);
  }

  type Plane = array2<Byte>

  /** The planes of an image of even sides `w` and `h`. */
  ghost predicate Planes(w: nat, h: nat, y: Plane, u: Plane, v: Plane) {
    && w % 2 == 0 && h % 2 == 0
    && y.Length0 == h && y.Length1 == w
    && u.Length0 == v.Length0 == h / 2 && u.Length1 == v.Length1 == w / 2
    && y != u && y != v && u != v
  }

  /** The depths of the block in column `c` and row `r` of blocks. */
  function DepthsOf(src: seq<Sample>, w: nat, r: nat, c: nat): (zs: seq<Sample>)
    ensures |zs| == 4
  {
    [At(src, w, 2 * c, 2 * r), At(src, w, 2 * c + 1, 2 * r), At(src, w, 2 * c, 2 * r + 1), At(src, w, 2 * c + 1, 2 * r + 1)]
  }

  function BlockOf(y: Plane, u: Plane, v: Plane, r: nat, c: nat): (b: Block)
    requires 2 * r + 1 < y.Length0 && 2 * c + 1 < y.Length1 && r < u.Length0 && c < u.Length1 && r < v.Length0 && c < v.Length1
    reads y, u, v
    ensures |b.ys| == 4
  {
    Block([y[2 * r, 2 * c], y[2 * r, 2 * c + 1], y[2 * r + 1, 2 * c], y[2 * r + 1, 2 * c + 1]], u[r, c], v[r, c])
  }

  method PutBlock(y: Plane, u: Plane, v: Plane, r: nat, c: nat, b: Block, ghost w: nat, ghost h: nat)
    requires Planes(w, h, y, u, v) && r < u.Length0 && c < u.Length1 && |b.ys| == 4
    modifies y, u, v
    ensures BlockOf(y, u, v, r, c) == b
    ensures forall i: nat, j: nat :: i < u.Length0 && j < u.Length1 && (i != r || j != c) ==>
              BlockOf(y, u, v, i, j) == old(BlockOf(y, u, v, i, j))
  {
    y[2 * r, 2 * c], y[2 * r, 2 * c + 1] := b.ys[0], b.ys[1];
    y[2 * r + 1, 2 * c], y[2 * r + 1, 2 * c + 1] := b.ys[2], b.ys[3];
    u[r, c] := b.u;
    v[r, c] := b.v;
    assert BlockOf(y, u, v, r, c).ys == b.ys;
  }

  lemma AtUpdated(src: seq<Sample>, w: nat, h: nat, x: nat, y: nat, z: Sample, i: nat, j: nat)
    requires |src| == h * w && x < w && y < h && i < w && j < h
    ensures y * w + x < |src| && At(src[y * w + x := z], w, i, j) == if i == x && j == y then z else At(src, w, i, j)
  {
    IndexFits(x, y, w, h);
    IndexFits(i, j, w, h);
    if j * w + i == y * w + x {
      OneIndex(w, i, j, x, y);
    }
  }

  method PutDepth(data: array<Sample>, w: nat, h: nat, x: nat, y: nat, z: Sample)
    requires data.Length == h * w && x < w && y < h
    modifies data
    ensures forall i: nat, j: nat :: i < w && j < h ==>
              At(data[..], w, i, j) == if i == x && j == y then z else At(old(data[..]), w, i, j)
  {
    IndexFits(x, y, w, h);
    ghost var src := data[..];
    data[y * w + x] := z;
    forall i: nat, j: nat | i < w && j < h
      ensures At(data[..], w, i, j) == if i == x && j == y then z else At(src, w, i, j)
    {
      AtUpdated(src, w, h, x, y, z, i, j);
    }
  }

  method PutDepths(data: array<Sample>, w: nat, h: nat, r: nat, c: nat, zs: seq<Sample>)
    requires data.Length == h * w && 2 * r + 1 < h && 2 * c + 1 < w && |zs| == 4
    modifies data
    ensures DepthsOf(data[..], w, r, c) == zs
    ensures forall i: nat, j: nat :: 2 * i + 1 < h && 2 * j + 1 < w && (i != r || j != c) ==>
              DepthsOf(data[..], w, i, j) == DepthsOf(old(data[..]), w, i, j)
  {
    PutDepth(data, w, h, 2 * c, 2 * r, zs[0]);
    PutDepth(data, w, h, 2 * c + 1, 2 * r, zs[1]);
    PutDepth(data, w, h, 2 * c, 2 * r + 1, zs[2]);
    PutDepth(data, w, h, 2 * c + 1, 2 * r + 1, zs[3]);
  }

  /** The planes hold the encoded depths `zs` of a block. */
  ghost predicate EncodedAt(zs: seq<Sample>, maxDepth: real, y: Plane, u: Plane, v: Plane, r: nat, c: nat)
    requires maxDepth > 0.0 && r < u.Length0 && c < u.Length1 && r < v.Length0 && c < v.Length1
    requires 2 * r + 1 < y.Length0 && 2 * c + 1 < y.Length1
    reads y, u, v
  {
    IsBlock(Scaled(zs, maxDepth)) && BlockOf(y, u, v, r, c) == Encode(Scaled(zs, maxDepth))
  }

  ghost predicate AllInRange(src: seq<Sample>, maxDepth: real)
    requires maxDepth > 0.0
  {
    forall i :: 0 <= i < |src| ==> InRange(Scale(src[i], maxDepth))
  }

  /** The quantising loops of the encoder: every block of the planes is the encoded block of depths. */
  method EncodePlanes(data: array<Sample>, w: nat, h: nat, maxDepth: real, y: Plane, u: Plane, v: Plane)
    requires Planes(w, h, y, u, v) && data.Length == h * w && maxDepth > 0.0 && AllInRange(data[..], maxDepth)
    modifies y, u, v
    ensures forall r: nat, c: nat :: r < u.Length0 && c < u.Length1 ==> EncodedAt(DepthsOf(data[..], w, r, c), maxDepth, y, u, v, r, c)
  {
    for r := 0 to u.Length0
      invariant forall i: nat, j: nat :: i < r && j < u.Length1 ==> EncodedAt(DepthsOf(data[..], w, i, j), maxDepth, y, u, v, i, j)
    {
      for c := 0 to u.Length1
        invariant forall i: nat, j: nat :: (i < r && j < u.Length1) || (i == r && j < c) ==>
          EncodedAt(DepthsOf(data[..], w, i, j), maxDepth, y, u, v, i, j)
      {
        var b := EncodeSamples(Scaled(DepthsOf(data[..], w, r, c), maxDepth));
        label before:
        PutBlock(y, u, v, r, c, b, w, h);
        forall i: nat, j: nat | (i < r && j < u.Length1) || (i == r && j <= c)
          ensures EncodedAt(DepthsOf(data[..], w, i, j), maxDepth, y, u, v, i, j)
        {
          assert i != r || j != c ==> old@before(EncodedAt(DepthsOf(data[..], w, i, j), maxDepth, y, u, v, i, j));
        }
      }
    }
  }

  /** The depths `zs` of a block are what the planes decode to. */
  ghost predicate DecodedAt(zs: seq<Sample>, maxDepth: real, y: Plane, u: Plane, v: Plane, r: nat, c: nat)
    requires |zs| == 4 && maxDepth > 0.0 && r < u.Length0 && c < u.Length1 && r < v.Length0 && c < v.Length1
    requires 2 * r + 1 < y.Length0 && 2 * c + 1 < y.Length1
    reads y, u, v
  {
    forall k: nat :: k < 4 ==> zs[k] == Unscale(Decode(BlockOf(y, u, v, r, c))[k], maxDepth)
  }

  /** The decoder: every block of depths is the decoded block of the planes. */
  method DecodePlanes(y: Plane, u: Plane, v: Plane, w: nat, h: nat, maxDepth: real, data: array<Sample>)
    requires Planes(w, h, y, u, v) && data.Length == h * w && maxDepth > 0.0
    modifies data
    ensures forall r: nat, c: nat :: r < u.Length0 && c < u.Length1 ==> DecodedAt(DepthsOf(data[..], w, r, c), maxDepth, y, u, v, r, c)
  {
    for r := 0 to u.Length0
      invariant forall i: nat, j: nat :: i < r && j < u.Length1 ==> DecodedAt(DepthsOf(data[..], w, i, j), maxDepth, y, u, v, i, j)
    {
      for c := 0 to u.Length1
        invariant forall i: nat, j: nat :: (i < r && j < u.Length1) || (i == r && j < c) ==>
          DecodedAt(DepthsOf(data[..], w, i, j), maxDepth, y, u, v, i, j)
      {
        var s := DecodeSamples(BlockOf(y, u, v, r, c));
        PutDepths(data, w, h, r, c, [Unscale(s[0], maxDepth), Unscale(s[1], maxDepth), Unscale(s[2], maxDepth), Unscale(s[3], maxDepth)]);
      }
    }
  }

  /** The planes that a block of depths was decoded from are also what it encodes to; and it is near the depths that
      the planes were made of. */
  lemma BlockComesBack(zs: seq<Sample>, maxDepth: real, y: Plane, u: Plane, v: Plane, back: seq<Sample>,
                       r: nat, c: nat, k: nat)
    requires |zs| == |back| == 4 && maxDepth > 0.0 && r < u.Length0 && c < u.Length1 && r < v.Length0 && c < v.Length1
    requires 2 * r + 1 < y.Length0 && 2 * c + 1 < y.Length1 && k < 4
    requires EncodedAt(zs, maxDepth, y, u, v, r, c) && DecodedAt(back, maxDepth, y, u, v, r, c)
    ensures EncodedAt(back, maxDepth, y, u, v, r, c)
    ensures !back[k].Infinite? && (back[k].Finite? <==> zs[k].Finite?)
    ensures zs[k].Finite? ==> -(maxDepth / STEPS) < back[k].value - zs[k].value < maxDepth / STEPS
  {
    var s := Scaled(zs, maxDepth);
    var d := Decode(Encode(s));
    forall i | 0 <= i < 4 ensures Scale(back[i], maxDepth) == d[i] {
      ScaleUnscale(d[i], maxDepth);
    }
    assert Scaled(back, maxDepth) == d;
    EncodeIsStable(s);
    DepthError(zs, maxDepth, k);
  }
}
