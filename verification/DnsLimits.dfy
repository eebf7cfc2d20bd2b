/** The limits of readers and writer, said without their loops: sixteen pointers, sixty-four labels, sixteen candidates. */
module DnsLimits {
  import opened Lists
  import opened DnsNames
  import opened DnsWriter

  // ---------------------------------------------------------------- pointers

  /** The two upper bits of the byte at `p` are set, and the other fourteen lead to `q`. */
  predicate LeadsTo(buf: seq<byte>, p: nat, q: nat) {
    && p + 2 <= |buf| && 0xC0 <= buf[p]
    && q == (buf[p] as int - 0xC0) * 256 + buf[p + 1] as int
  }

  /** A path of pointers that ends at a byte that is not one. */
  ghost predicate Path(buf: seq<byte>, path: seq<nat>) {
    && path != [] && (forall i :: 0 <= i < |path| ==> path[i] < |buf|)
    && (forall i :: 0 <= i < |path| - 1 ==> LeadsTo(buf, path[i], path[i + 1]))
    && buf[path[|path| - 1]] < 0xC0
  }

  /** `s` is the substring to which a path of at most `most` pointers leads. */
  ghost predicate Reaches(buf: seq<byte>, offset: nat, most: nat, ref: bool, s: Substring) {
    exists path :: Path(buf, path) && path[0] == offset && |path| <= most + 1 && Stands(buf, path, ref, s)
  }

  ghost predicate Stands(buf: seq<byte>, path: seq<nat>, ref: bool, s: Substring)
    requires Path(buf, path)
  {
    var last := path[|path| - 1];
    last + 1 + buf[last] <= |buf| && s == At(last + 1, buf[last], ref || |path| > 1)
  }

  lemma {:induction false} HopIff(buf: seq<byte>, offset: nat, hops: nat, s: Substring)
    requires offset < |buf| && hops <= 16
    ensures Hop(buf, offset, hops) == s && s.At? <==> Reaches(buf, offset, 16 - hops, hops > 0, s)
    decreases 16 - hops
  {
    if buf[offset] < 0xC0 {
      StopIff(buf, offset, hops, s);
    } else {
      if Hop(buf, offset, hops) == s && s.At? {
        HopReaches(buf, offset, hops, s);
      }
      if Reaches(buf, offset, 16 - hops, hops > 0, s) {
        ReachesHop(buf, offset, hops, s);
      }
    }
  }

  lemma StopIff(buf: seq<byte>, offset: nat, hops: nat, s: Substring)
    requires offset < |buf| && hops <= 16 && buf[offset] < 0xC0
    ensures Hop(buf, offset, hops) == s && s.At? <==> Reaches(buf, offset, 16 - hops, hops > 0, s)
  {
    if Hop(buf, offset, hops) == s && s.At? {
      assert Path(buf, [offset]) && Stands(buf, [offset], hops > 0, s);
    }
    if Reaches(buf, offset, 16 - hops, hops > 0, s) {
      var path :| Path(buf, path) && path[0] == offset && |path| <= 17 - hops && Stands(buf, path, hops > 0, s);
      assert |path| > 1 ==> LeadsTo(buf, path[0], path[1]);
    }
  }

  lemma HopReaches(buf: seq<byte>, offset: nat, hops: nat, s: Substring)
    requires offset < |buf| && hops <= 16 && 0xC0 <= buf[offset]
    requires Hop(buf, offset, hops) == s && s.At?
    ensures Reaches(buf, offset, 16 - hops, hops > 0, s)
    decreases 16 - hops, 0
  {
    var next := PointerAt(buf, offset);
    HopIff(buf, next, hops + 1, s);
    var path :| Path(buf, path) && path[0] == next && |path| <= 16 - hops && Stands(buf, path, true, s);
    var longer := [offset] + path;
    assert LeadsTo(buf, longer[0], longer[1]);
    forall i | 0 <= i < |longer| - 1 ensures LeadsTo(buf, longer[i], longer[i + 1]) {
      assert i > 0 ==> longer[i] == path[i - 1] && longer[i + 1] == path[i];
    }
    assert Path(buf, longer) && Stands(buf, longer, hops > 0, s);
  }

  lemma ReachesHop(buf: seq<byte>, offset: nat, hops: nat, s: Substring)
    requires offset < |buf| && hops <= 16 && 0xC0 <= buf[offset]
    requires Reaches(buf, offset, 16 - hops, hops > 0, s)
    ensures Hop(buf, offset, hops) == s && s.At?
    decreases 16 - hops, 0
  {
    var path :| Path(buf, path) && path[0] == offset && |path| <= 17 - hops && Stands(buf, path, hops > 0, s);
    assert |path| > 1;
    PathRest(buf, path);
    hide Path, LeadsTo, Hop;
    assert Stands(buf, path[1..], true, s);
    HopIff(buf, path[1], hops + 1, s);
    HopOn(buf, offset, path[1], hops);
  }

  lemma PathRest(buf: seq<byte>, path: seq<nat>)
    requires |path| > 1 && Path(buf, path)
    ensures Path(buf, path[1..]) && LeadsTo(buf, path[0], path[1])
  {
    hide LeadsTo;
    var rest := path[1..];
    forall i | 0 <= i < |rest| - 1 ensures LeadsTo(buf, rest[i], rest[i + 1]) {
      assert rest[i] == path[i + 1] && rest[i + 1] == path[i + 2];
    }
    assert LeadsTo(buf, path[0], path[1]);
  }

  lemma HopOn(buf: seq<byte>, offset: nat, next: nat, hops: nat)
    requires offset < |buf| && next < |buf| && hops < 16 && LeadsTo(buf, offset, next)
    ensures Hop(buf, offset, hops) == Hop(buf, next, hops + 1)
  {
  }

  /** The substring step gives exactly what a path of at most sixteen pointers leads to, in any bytes; where there is a
      zero it is the end of the name. */
  lemma SubstringIff(buf: seq<byte>, offset: nat, s: Substring)
    ensures NextSub(buf, offset) == s && s.At? <==>
              offset < |buf| && if buf[offset] == 0 then s == At(offset, 0, false) else Reaches(buf, offset, 16, false, s)
  {
    if offset < |buf| && buf[offset] != 0 {
      HopIff(buf, offset, 0, s);
    }
  }

  // ---------------------------------------------------------------- labels

  /** Where the search for substring `i` starts: behind the one before. */
  function StartOf(offset: nat, subs: seq<Substring>, i: nat): nat
    requires i < |subs| && forall j :: 0 <= j < |subs| ==> subs[j].At?
  {
    if i == 0 then offset else subs[i - 1].offset + subs[i - 1].length
  }

  /** Substrings one behind the other, of which only the last is empty. */
  ghost predicate Chain(buf: seq<byte>, offset: nat, subs: seq<Substring>) {
    && subs != [] && (forall i :: 0 <= i < |subs| ==> subs[i].At?)
    && (forall i :: 0 <= i < |subs| ==> NextSub(buf, StartOf(offset, subs, i)) == subs[i])
    && (forall i :: 0 <= i < |subs| ==> (subs[i].length == 0 <==> i == |subs| - 1))
  }

  /** The name ends behind the first pointer on the way, or else behind its zero. */
  function EndOf(offset: nat, subs: seq<Substring>): nat
    requires subs != [] && forall i :: 0 <= i < |subs| ==> subs[i].At?
    decreases |subs|
  {
    if subs[0].ref then offset + 2
    else if |subs| == 1 then subs[0].offset + 1
    else EndOf(subs[0].offset + subs[0].length, subs[1..])
  }

  predicate Cut(buf: seq<byte>, s: Substring, l: Label) {
    s.At? && s.offset + s.length <= |buf| && l == buf[s.offset..s.offset + s.length]
  }

  ghost predicate AllCut(buf: seq<byte>, subs: seq<Substring>, labels: seq<Label>) {
    |labels| + 1 == |subs| && forall i :: 0 <= i < |labels| ==> Cut(buf, subs[i], labels[i])
  }

  ghost predicate Spells(buf: seq<byte>, offset: nat, subs: seq<Substring>, labels: seq<Label>, end: nat) {
    Chain(buf, offset, subs) && end == EndOf(offset, subs) && AllCut(buf, subs, labels)
  }

  lemma ChainRest(buf: seq<byte>, offset: nat, subs: seq<Substring>)
    requires |subs| > 1 && Chain(buf, offset, subs)
    ensures Chain(buf, subs[0].offset + subs[0].length, subs[1..])
  {
    hide NextSub;
    var rest := subs[1..];
    forall i | 0 <= i < |rest| ensures NextSub(buf, StartOf(StartOf(offset, subs, 1), rest, i)) == rest[i] {
      assert NextSub(buf, StartOf(offset, subs, i + 1)) == subs[i + 1];
    }
  }

  lemma ChainMore(buf: seq<byte>, offset: nat, s: Substring, rest: seq<Substring>)
    requires s.At? && s.length > 0 && NextSub(buf, offset) == s && Chain(buf, s.offset + s.length, rest)
    ensures Chain(buf, offset, [s] + rest)
  {
    hide NextSub;
    var subs := [s] + rest;
    forall i | 0 <= i < |subs| ensures NextSub(buf, StartOf(offset, subs, i)) == subs[i] {
      if i > 0 {
        assert NextSub(buf, StartOf(s.offset + s.length, rest, i - 1)) == rest[i - 1];
        assert StartOf(offset, subs, i) == StartOf(s.offset + s.length, rest, i - 1);
      }
    }
  }

  /** A name can be read exactly when at most sixty-four labels and then a zero follow one another, and these are its
      labels, in full, up to its end. */
  lemma {:induction false} NameIff(buf: seq<byte>, offset: nat, count: nat, labels: seq<Label>, end: nat)
    requires count <= 65
    ensures Read(buf, offset, count) == Name(labels, end) <==>
              exists subs :: Spells(buf, offset, subs, labels, end) && |subs| + count <= 65
    decreases 65 - count
  {
    if Read(buf, offset, count) == Name(labels, end) {
      ReadSpells(buf, offset, count, labels, end);
    }
    if subs :| Spells(buf, offset, subs, labels, end) && |subs| + count <= 65 {
      SpellsRead(buf, offset, count, subs, labels, end);
    }
  }

  lemma {:induction false} ReadSpells(buf: seq<byte>, offset: nat, count: nat, labels: seq<Label>, end: nat)
    requires count <= 65 && Read(buf, offset, count) == Name(labels, end)
    ensures exists subs :: Spells(buf, offset, subs, labels, end) && |subs| + count <= 65
    decreases 65 - count
  {
    hide NextSub, Spells;
    SubBounds(buf, offset);
    var s := NextSub(buf, offset);
    if s.length == 0 {
      SpellsNothing(buf, offset, s);
      assert labels == [] && |[s]| == 1;
    } else {
      var rest := Read(buf, s.offset + s.length, count + 1);
      assert rest.Name?;
      ReadSpells(buf, s.offset + s.length, count + 1, rest.labels, rest.end);
      var subs :| Spells(buf, s.offset + s.length, subs, rest.labels, rest.end) && |subs| + count + 1 <= 65;
      SpellsMore(buf, offset, s, subs, rest.labels, rest.end);
      assert |[s] + subs| == |subs| + 1;
    }
  }

  lemma SpellsNothing(buf: seq<byte>, offset: nat, s: Substring)
    requires s.At? && s.length == 0 && NextSub(buf, offset) == s
    ensures Spells(buf, offset, [s], [], if s.ref then offset + 2 else s.offset + 1)
  {
    hide NextSub;
  }

  lemma SpellsMore(buf: seq<byte>, offset: nat, s: Substring, rest: seq<Substring>, labels: seq<Label>, end: nat)
    requires s.At? && s.length > 0 && NextSub(buf, offset) == s && s.offset + s.length <= |buf|
    requires Spells(buf, s.offset + s.length, rest, labels, end)
    ensures Spells(buf, offset, [s] + rest, [buf[s.offset..s.offset + s.length]] + labels, if s.ref then offset + 2 else end)
  {
    ChainMore(buf, offset, s, rest);
    CutMore(buf, s, rest, labels);
    hide NextSub, AllCut, Chain;
    assert ([s] + rest)[1..] == rest;
  }

  lemma CutMore(buf: seq<byte>, s: Substring, rest: seq<Substring>, labels: seq<Label>)
    requires s.At? && s.offset + s.length <= |buf| && AllCut(buf, rest, labels)
    ensures AllCut(buf, [s] + rest, [buf[s.offset..s.offset + s.length]] + labels)
  {
    var subs, named := [s] + rest, [buf[s.offset..s.offset + s.length]] + labels;
    hide Cut;
    forall i | 0 <= i < |named| ensures Cut(buf, subs[i], named[i]) {
      if i == 0 {
        CutIs(buf, s);
      } else {
        assert Cut(buf, rest[i - 1], labels[i - 1]);
      }
    }
  }

  lemma CutIs(buf: seq<byte>, s: Substring)
    requires s.At? && s.offset + s.length <= |buf|
    ensures Cut(buf, s, buf[s.offset..s.offset + s.length])
  {
  }

  lemma CutRest(buf: seq<byte>, subs: seq<Substring>, labels: seq<Label>)
    requires |subs| > 1 && AllCut(buf, subs, labels)
    ensures AllCut(buf, subs[1..], labels[1..])
  {
    hide Cut;
    forall i | 0 <= i < |labels| - 1 ensures Cut(buf, subs[1..][i], labels[1..][i]) {
      assert Cut(buf, subs[i + 1], labels[i + 1]);
    }
  }

  lemma {:induction false} SpellsRead(buf: seq<byte>, offset: nat, count: nat, subs: seq<Substring>, labels: seq<Label>, end: nat)
    requires Spells(buf, offset, subs, labels, end) && |subs| + count <= 65
    ensures Read(buf, offset, count) == Name(labels, end)
    decreases |subs|
  {
    hide NextSub, Read, Chain, AllCut, EndOf;
    SpellsFirst(buf, offset, subs, labels, end);
    var s := subs[0];
    if |subs| > 1 {
      SpellsRest(buf, offset, subs, labels);
      hide Spells;
      var rest := EndOf(s.offset + s.length, subs[1..]);
      SpellsRead(buf, s.offset + s.length, count + 1, subs[1..], labels[1..], rest);
      ReadMore(buf, offset, count, s, labels[1..], rest);
    } else {
      ReadNothing(buf, offset, count, s);
    }
  }

  lemma SpellsFirst(buf: seq<byte>, offset: nat, subs: seq<Substring>, labels: seq<Label>, end: nat)
    requires Spells(buf, offset, subs, labels, end)
    ensures subs != [] && (forall i :: 0 <= i < |subs| ==> subs[i].At?) && NextSub(buf, offset) == subs[0]
    ensures |subs| == 1 ==> labels == [] && subs[0].length == 0 && end == if subs[0].ref then offset + 2 else subs[0].offset + 1
    ensures |subs| > 1 ==> end == if subs[0].ref then offset + 2 else EndOf(subs[0].offset + subs[0].length, subs[1..])
  {
    hide NextSub;
    assert NextSub(buf, StartOf(offset, subs, 0)) == subs[0];
  }

  lemma ReadNothing(buf: seq<byte>, offset: nat, count: nat, s: Substring)
    requires count < 65 && s.At? && s.length == 0 && NextSub(buf, offset) == s
    ensures Read(buf, offset, count) == Name([], if s.ref then offset + 2 else s.offset + 1)
  {
    hide NextSub;
  }

  lemma SpellsRest(buf: seq<byte>, offset: nat, subs: seq<Substring>, labels: seq<Label>)
    requires |subs| > 1 && Chain(buf, offset, subs) && AllCut(buf, subs, labels)
    ensures var s := subs[0]; var next := s.offset + s.length;
            && s.length > 0 && next <= |buf| && labels == [buf[s.offset..next]] + labels[1..]
            && Spells(buf, next, subs[1..], labels[1..], EndOf(next, subs[1..]))
  {
    hide NextSub;
    ChainRest(buf, offset, subs);
    CutRest(buf, subs, labels);
    assert Cut(buf, subs[0], labels[0]);
  }

  lemma ReadMore(buf: seq<byte>, offset: nat, count: nat, s: Substring, labels: seq<Label>, end: nat)
    requires count < 65 && s.At? && s.length > 0 && NextSub(buf, offset) == s && s.offset + s.length <= |buf|
    requires Read(buf, s.offset + s.length, count + 1) == Name(labels, end)
    ensures Read(buf, offset, count)
            == Name([buf[s.offset..s.offset + s.length]] + labels, if s.ref then offset + 2 else end)
  {
    hide NextSub;
  }

  // ---------------------------------------------------------------- candidates

  /** The table after these offsets have been added to an empty one. */
  function AddAll(xs: seq<nat>): (t: Table)
    ensures Sized(t) && t.Slots?
  {
    if xs == [] then Slots(seq(TABLE_SIZE, i => 0), 0, 0) else Add(AddAll(xs[..|xs| - 1]), xs[|xs| - 1])
  }

  /** One of the last sixteen of `n` offsets. */
  predicate Recent(n: nat, i: int) {
    0 <= i < n && n - 16 <= i
  }

  function Slot(i: nat): (j: nat)
    ensures j < 16
  {
    i % 16
  }

  lemma SlotsDiffer(n: nat, i: nat)
    requires i < n < i + 16
    ensures Slot(i) != Slot(n)
  {
  }

  lemma SlotNext(n: nat)
    ensures Slot(n + 1) == if Slot(n) + 1 < 16 then Slot(n) + 1 else 0
  {
  }

  ghost predicate Latest(t: Table, xs: seq<nat>)
    requires Sized(t) && t.Slots?
  {
    && t.count == (if |xs| < 16 then |xs| else 16) && t.next == Slot(|xs|)
    && forall i :: Recent(|xs|, i) ==> t.offset[Slot(i)] == xs[i]
  }

  lemma {:induction false} RingHolds(xs: seq<nat>)
    ensures Latest(AddAll(xs), xs)
  {
    if xs == [] {
      assert Slot(0) == 0;
    } else {
      var rest := xs[..|xs| - 1];
      RingHolds(rest);
      AddLatest(AddAll(rest), rest, xs[|rest|]);
      assert rest + [xs[|rest|]] == xs;
    }
  }

  lemma AddLatest(t: Table, xs: seq<nat>, x: nat)
    requires Sized(t) && t.Slots? && Latest(t, xs)
    ensures Latest(Add(t, x), xs + [x])
  {
    var r, ys := Add(t, x), xs + [x];
    SlotNext(|xs|);
    hide Slot;
    forall i | Recent(|ys|, i) ensures r.offset[Slot(i)] == ys[i] {
      if i < |xs| {
        SlotsDiffer(|xs|, i);
        assert Recent(|xs|, i);
      }
    }
  }

  /** The offset that stands at `j` of a table to which `n` have been added. */
  lemma LatestAt(n: nat, j: nat) returns (i: nat)
    requires j < n && j < 16
    ensures Recent(n, i) && Slot(i) == j
  {
    i := if n < 16 then j else n - 1 - (n - 1 - j) % 16;
  }

  /** The candidates are exactly the sixteen offsets added last, and all of them before that. */
  lemma HoldsLatest(xs: seq<nat>, c: nat)
    ensures c in Candidates(AddAll(xs)) <==> exists i :: Recent(|xs|, i) && xs[i] == c
  {
    RingHolds(xs);
    hide AddAll, Slot;
    var t := AddAll(xs);
    if c in Candidates(t) {
      var j: nat :| j < t.count && t.offset[j] == c;
      var i := LatestAt(|xs|, j);
      assert xs[i] == c;
    }
    if i :| Recent(|xs|, i) && xs[i] == c {
      SlotInside(|xs|, i);
      assert Candidates(t)[Slot(i)] == c;
    }
  }

  lemma SlotInside(n: nat, i: nat)
    requires Recent(n, i)
    ensures n < 16 ==> Slot(i) < n
  {
  }
}
