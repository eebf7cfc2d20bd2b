/** Names written with compression read back, for as long as nobody overwrites them. */
module DnsRoundTrip {
  import opened Lists
  import opened DnsNames
  import opened DnsWriter

  const MAX_LABEL := 63
  const MAX_BUFFER := 16384

  predicate Fits(word: Label) {
    1 <= |word| <= MAX_LABEL
  }

  predicate AllFit(labels: seq<Label>) {
    forall i :: 0 <= i < |labels| ==> Fits(labels[i])
  }

  /** A label in full stands at `o`, on bytes of `own`. */
  predicate WordAt(buf: seq<byte>, own: set<nat>, o: nat, word: Label) {
    && Fits(word) && o + 1 + |word| <= |buf|
    && buf[o] == |word| && buf[o + 1..o + 1 + |word|] == word
    && forall i: nat :: o <= i < o + 1 + |word| ==> i in own
  }

  /** A pointer at `o`, on bytes of `own`, to an earlier label in full. */
  predicate PointsBack(buf: seq<byte>, own: set<nat>, o: nat, target: nat) {
    && o + 2 <= |buf| && IsRef(buf[o]) && o in own && o + 1 in own
    && PointerAt(buf, o) == target && target < o && 0 < buf[target] <= MAX_LABEL
  }

  /** The name `labels` stands at `o` on bytes of `own`: labels in full, then a zero or a pointer to where the rest
      of the name stands. */
  ghost predicate Holds(buf: seq<byte>, own: set<nat>, o: nat, labels: seq<Label>)
    decreases |labels|, o
  {
    o < |buf|
    && if buf[o] == 0 then o in own && labels == []
       else if IsRef(buf[o]) then
         exists target: nat :: PointsBack(buf, own, o, target) && Holds(buf, own, target, labels)
       else labels != [] && WordAt(buf, own, o, labels[0]) && Holds(buf, own, o + 1 + |labels[0]|, labels[1..])
  }

  /** Where the bytes of the name itself end. */
  function EndOf(buf: seq<byte>, o: nat, labels: seq<Label>): nat
    decreases |labels|
  {
    if |buf| <= o || buf[o] == 0 then o + 1
    else if IsRef(buf[o]) then o + 2
    else if labels == [] then o + 1
    else EndOf(buf, o + 1 + |labels[0]|, labels[1..])
  }

  lemma WordElsewhere(a: seq<byte>, b: seq<byte>, own: set<nat>, wider: set<nat>, o: nat, word: Label)
    requires WordAt(a, own, o, word) && own <= wider
    requires forall i :: i in own ==> i < |b| && (i < |a| ==> a[i] == b[i])
    ensures WordAt(b, wider, o, word)
  {
    assert o in own && o + |word| in own;
    assert a[o..o + 1 + |word|] == b[o..o + 1 + |word|];
    assert b[o + 1..o + 1 + |word|] == b[o..o + 1 + |word|][1..];
  }

  /** Bytes outside `own` may change, and so may the buffer's length. */
  lemma {:induction false} HoldsElsewhere(a: seq<byte>, b: seq<byte>, own: set<nat>, wider: set<nat>, o: nat, labels: seq<Label>)
    requires Holds(a, own, o, labels) && own <= wider
    requires forall i :: i in own ==> i < |b| && (i < |a| ==> a[i] == b[i])
    ensures Holds(b, wider, o, labels) && EndOf(b, o, labels) == EndOf(a, o, labels)
    decreases |labels|, o
  {
    if a[o] == 0 {
    } else if IsRef(a[o]) {
      var target: nat :| PointsBack(a, own, o, target) && Holds(a, own, target, labels);
      HoldsElsewhere(a, b, own, wider, target, labels);
      assert PointsBack(b, wider, o, target);
    } else {
      WordElsewhere(a, b, own, wider, o, labels[0]);
      HoldsElsewhere(a, b, own, wider, o + 1 + |labels[0]|, labels[1..]);
    }
  }

  // ---------------------------------------------------------------- reading such a name

  lemma WordNext(buf: seq<byte>, own: set<nat>, o: nat, word: Label)
    requires WordAt(buf, own, o, word)
    ensures NextSub(buf, o) == At(o + 1, |word|, false)
  {
  }

  lemma PointerNext(buf: seq<byte>, own: set<nat>, o: nat, target: nat)
    requires PointsBack(buf, own, o, target)
    ensures var s := NextSub(buf, target);
            s.At? ==> s.length > 0 && !s.ref && NextSub(buf, o) == At(s.offset, s.length, true)
    ensures NextSub(buf, o).Invalid? <==> NextSub(buf, target).Invalid?
  {
    assert Hop(buf, o, 0) == Hop(buf, target, 1);
  }

  /** A name that stands in the buffer is what the readers see, as long as it has at most 64 labels. */
  lemma {:induction false} HoldsRead(buf: seq<byte>, own: set<nat>, o: nat, labels: seq<Label>, count: nat)
    requires Holds(buf, own, o, labels) && count <= MAX_SUBSTRINGS + 1
    ensures Read(buf, o, count)
            == if count + |labels| <= MAX_SUBSTRINGS then Name(labels, EndOf(buf, o, labels)) else Failed
    decreases |labels|, o
  {
    if buf[o] == 0 {
    } else if IsRef(buf[o]) {
      var target: nat :| PointsBack(buf, own, o, target) && Holds(buf, own, target, labels);
      HoldsRead(buf, own, target, labels, count);
      PointerNext(buf, own, o, target);
      PointerRead(buf, o, target, count);
    } else {
      WordNext(buf, own, o, labels[0]);
      if count <= MAX_SUBSTRINGS {
        HoldsRead(buf, own, o + 1 + |labels[0]|, labels[1..], count + 1);
        assert labels == [labels[0]] + labels[1..];
      }
    }
  }

  lemma PointerRead(buf: seq<byte>, o: nat, target: nat, count: nat)
    requires count <= MAX_SUBSTRINGS + 1
    requires var s := NextSub(buf, target); s.At? && s.length > 0 && NextSub(buf, o) == At(s.offset, s.length, true)
    ensures var r := Read(buf, target, count);
            Read(buf, o, count) == if r.Failed? then Failed else Name(r.labels, o + 2)
  {
  }

  /** What the table search accepts: it asks for the first labels of a stored name only. */
  lemma {:induction false} HoldsMatch(buf: seq<byte>, own: set<nat>, o: nat, labels: seq<Label>, wanted: seq<Label>)
    requires Holds(buf, own, o, labels)
    ensures Match(buf, o, wanted) <==> wanted <= labels
    decreases |labels|, o
  {
    if wanted == [] {
    } else if buf[o] == 0 {
    } else if IsRef(buf[o]) {
      var target: nat :| PointsBack(buf, own, o, target) && Holds(buf, own, target, labels);
      HoldsMatch(buf, own, target, labels, wanted);
      PointerMatch(buf, own, o, target, wanted);
    } else {
      WordMatch(buf, own, o, labels[0], wanted);
      HoldsMatch(buf, own, o + 1 + |labels[0]|, labels[1..], wanted[1..]);
      PrefixCons(wanted, labels);
    }
  }

  lemma WordMatch(buf: seq<byte>, own: set<nat>, o: nat, word: Label, wanted: seq<Label>)
    requires WordAt(buf, own, o, word) && wanted != []
    ensures Match(buf, o, wanted) <==> wanted[0] == word && Match(buf, o + 1 + |word|, wanted[1..])
  {
    WordNext(buf, own, o, word);
  }

  lemma PointerMatch(buf: seq<byte>, own: set<nat>, o: nat, target: nat, wanted: seq<Label>)
    requires PointsBack(buf, own, o, target)
    ensures Match(buf, o, wanted) <==> Match(buf, target, wanted)
  {
    PointerNext(buf, own, o, target);
  }

  lemma PrefixCons(xs: seq<Label>, ys: seq<Label>)
    requires xs != [] && ys != []
    ensures xs <= ys <==> xs[0] == ys[0] && xs[1..] <= ys[1..]
  {
    if xs[0] == ys[0] && xs[1..] <= ys[1..] {
      forall i | 0 <= i < |xs| ensures xs[i] == ys[i] {
        if i > 0 {
          assert xs[1..][i - 1] == ys[1..][i - 1];
        }
      }
    }
  }

  // ---------------------------------------------------------------- a name under construction

  /** The labels `words` stand in full from `o` up to `pos`. */
  ghost predicate Chain(buf: seq<byte>, own: set<nat>, o: nat, words: seq<Label>, pos: nat)
    decreases |words|
  {
    if words == [] then o == pos else WordAt(buf, own, o, words[0]) && Chain(buf, own, o + 1 + |words[0]|, words[1..], pos)
  }

  lemma {:induction false} ChainElsewhere(a: seq<byte>, b: seq<byte>, own: set<nat>, wider: set<nat>, o: nat, words: seq<Label>, pos: nat)
    requires Chain(a, own, o, words, pos) && own <= wider
    requires forall i :: i in own ==> i < |b| && (i < |a| ==> a[i] == b[i])
    ensures Chain(b, wider, o, words, pos)
    decreases |words|
  {
    if words != [] {
      WordElsewhere(a, b, own, wider, o, words[0]);
      ChainElsewhere(a, b, own, wider, o + 1 + |words[0]|, words[1..], pos);
    }
  }

  lemma {:induction false} ChainSnoc(buf: seq<byte>, own: set<nat>, o: nat, words: seq<Label>, pos: nat, word: Label)
    requires Chain(buf, own, o, words, pos) && WordAt(buf, own, pos, word)
    ensures Chain(buf, own, o, words + [word], pos + 1 + |word|)
    decreases |words|
  {
    if words == [] {
      assert [word][1..] == [];
    } else {
      ChainSnoc(buf, own, o + 1 + |words[0]|, words[1..], pos, word);
      assert (words + [word])[1..] == words[1..] + [word];
    }
  }

  lemma {:induction false} ChainHolds(buf: seq<byte>, own: set<nat>, o: nat, words: seq<Label>, pos: nat, labels: seq<Label>)
    requires Chain(buf, own, o, words, pos) && Holds(buf, own, pos, labels)
    ensures Holds(buf, own, o, words + labels)
    decreases |words|
  {
    if words == [] {
      assert words + labels == labels;
    } else {
      ChainHolds(buf, own, o + 1 + |words[0]|, words[1..], pos, labels);
      assert (words + labels)[1..] == words[1..] + labels;
    }
  }

  /** A search that starts in the unfinished name can succeed only within it when zeros follow. */
  lemma {:induction false} ChainMatch(buf: seq<byte>, own: set<nat>, o: nat, words: seq<Label>, pos: nat, wanted: seq<Label>)
    requires Chain(buf, own, o, words, pos) && (pos < |buf| ==> buf[pos] == 0)
    requires Match(buf, o, wanted)
    ensures wanted <= words
    decreases |words|
  {
    if words != [] && wanted != [] {
      WordMatch(buf, own, o, words[0], wanted);
      ChainMatch(buf, own, o + 1 + |words[0]|, words[1..], pos, wanted[1..]);
      PrefixCons(wanted, words);
    }
  }

  // ---------------------------------------------------------------- the writer's run

  /** The buffer written up to `pos`, with what a proof knows of it: the bytes that belong to names, the names that
      stand at the labels written in full, and for the unfinished name the labels from each of them up to `pos`. */
  datatype Draft = Draft(buf: seq<byte>, pos: nat, table: Table, own: set<nat>,
                         stored: map<nat, seq<Label>>, partial: map<nat, seq<Label>>)

  ghost predicate StoredAt(d: Draft, o: nat, labels: seq<Label>) {
    o < |d.buf| && 0 < d.buf[o] <= MAX_LABEL && o in d.own && Holds(d.buf, d.own, o, labels)
  }

  ghost predicate PartialAt(d: Draft, o: nat, words: seq<Label>) {
    words != [] && Chain(d.buf, d.own, o, words, d.pos)
  }

  ghost predicate Frame(d: Draft) {
    d.pos <= |d.buf| <= MAX_BUFFER && Sized(d.table) && forall i :: i in d.own ==> i < d.pos
  }

  ghost predicate Listed(d: Draft) {
    Sized(d.table) && forall c :: c in Candidates(d.table) ==> c in d.stored || c in d.partial
  }

  ghost predicate Good(d: Draft) {
    && Frame(d) && Listed(d) && d.stored.Keys !! d.partial.Keys
    && (forall o :: o in d.stored ==> StoredAt(d, o, d.stored[o]))
    && (forall o :: o in d.partial ==> PartialAt(d, o, d.partial[o]))
  }

  function Span(from: nat, end: nat): (s: set<nat>)
    ensures forall i :: i in s <==> from <= i < end
    decreases end
  {
    if end <= from then {} else Span(from, end - 1) + {end - 1}
  }

  ghost function Settle(d: Draft, rest: seq<Label>): map<nat, seq<Label>> {
    map o | o in d.stored.Keys + d.partial.Keys :: if o in d.partial then d.partial[o] + rest else d.stored[o]
  }

  ghost function PutWord(d: Draft, word: Label): Draft
    requires Frame(d) && d.pos + |word| + 1 <= |d.buf|
  {
    Draft(Overlay(d.buf, d.pos, Literal(word)), d.pos + |word| + 1, Add(d.table, d.pos),
          d.own + Span(d.pos, d.pos + |word| + 1), d.stored,
          map o | o in d.partial.Keys + {d.pos} :: if o == d.pos then [word] else d.partial[o] + [word])
  }

  ghost function PutRef(d: Draft, r: nat): Draft
    requires Frame(d) && d.pos + 2 <= |d.buf| && r in d.stored
  {
    Draft(Overlay(d.buf, d.pos, Pointer(r)), d.pos + 2, d.table, d.own + Span(d.pos, d.pos + 2),
          Settle(d, d.stored[r]), map[])
  }

  /** A pointer into the unfinished name itself, which then never ends. */
  ghost function PutLoop(d: Draft, r: nat): Draft
    requires Frame(d) && d.pos + 2 <= |d.buf|
  {
    Draft(Overlay(d.buf, d.pos, Pointer(r)), d.pos + 2, d.table, d.own + Span(d.pos, d.pos + 2), d.stored, map[])
  }

  ghost function PutZero(d: Draft): Draft
    requires Frame(d) && d.pos + 1 <= |d.buf|
  {
    Draft(Overlay(d.buf, d.pos, [0]), d.pos + 1, d.table, d.own + Span(d.pos, d.pos + 1), Settle(d, []), map[])
  }

  /** What was written stays, and the new bytes are the ones between the two positions. */
  ghost predicate Extends(d: Draft, e: Draft) {
    && |e.buf| == |d.buf| && d.pos <= e.pos <= |d.buf|
    && d.own <= e.own && e.own <= d.own + Span(d.pos, e.pos)
    && (forall i :: 0 <= i < |d.buf| && !(d.pos <= i < e.pos) ==> e.buf[i] == d.buf[i])
    && (forall o :: o in d.stored ==> o in e.stored && e.stored[o] == d.stored[o])
  }

  lemma StoredStays(d: Draft, e: Draft, o: nat, labels: seq<Label>)
    requires Frame(d) && Extends(d, e) && StoredAt(d, o, labels)
    ensures StoredAt(e, o, labels)
  {
    HoldsElsewhere(d.buf, e.buf, d.own, e.own, o, labels);
  }

  lemma PartialGrows(d: Draft, e: Draft, o: nat, words: seq<Label>, word: Label)
    requires Frame(d) && Extends(d, e) && PartialAt(d, o, words)
    requires WordAt(e.buf, e.own, d.pos, word) && e.pos == d.pos + 1 + |word|
    ensures PartialAt(e, o, words + [word])
  {
    ChainElsewhere(d.buf, e.buf, d.own, e.own, o, words, d.pos);
    ChainSnoc(e.buf, e.own, o, words, d.pos, word);
  }

  lemma PartialSettles(d: Draft, e: Draft, o: nat, words: seq<Label>, rest: seq<Label>)
    requires Frame(d) && Extends(d, e) && PartialAt(d, o, words)
    requires Holds(e.buf, e.own, d.pos, rest)
    ensures StoredAt(e, o, words + rest)
  {
    ChainElsewhere(d.buf, e.buf, d.own, e.own, o, words, d.pos);
    ChainHolds(e.buf, e.own, o, words, d.pos, rest);
    assert WordAt(e.buf, e.own, o, words[0]);
    assert o in e.own;
  }

  lemma WordPlaced(d: Draft, word: Label)
    requires Frame(d) && Fits(word) && d.pos + |word| + 1 <= |d.buf|
    ensures var e := PutWord(d, word);
            WordAt(e.buf, e.own, d.pos, word) && Frame(e)
            && |e.buf| == |d.buf| && d.own <= e.own && e.own <= d.own + Span(d.pos, e.pos)
            && (forall i :: 0 <= i < |d.buf| && !(d.pos <= i < e.pos) ==> e.buf[i] == d.buf[i])
  {
    var e := PutWord(d, word);
    assert e.buf[d.pos + 1..d.pos + 1 + |word|] == word;
  }

  lemma WordKeeps(d: Draft, word: Label)
    requires Good(d) && Fits(word) && d.pos + |word| + 1 <= |d.buf|
    ensures Good(PutWord(d, word)) && Extends(d, PutWord(d, word))
  {
    var e := PutWord(d, word);
    WordPlaced(d, word);
    AddCandidates(d.table, d.pos);
    forall o | o in d.stored ensures o < d.pos {
      assert StoredAt(d, o, d.stored[o]);
    }
    forall o | o in e.stored ensures StoredAt(e, o, e.stored[o]) {
      StoredStays(d, e, o, d.stored[o]);
    }
    forall o | o in e.partial ensures PartialAt(e, o, e.partial[o]) {
      if o == d.pos {
        assert [word][1..] == [];
      } else {
        PartialGrows(d, e, o, d.partial[o], word);
      }
    }
  }

  lemma SettleKeeps(d: Draft, e: Draft, rest: seq<Label>)
    requires Good(d) && Frame(e) && Extends(d, e) && e.table == d.table && e.stored == Settle(d, rest) && e.partial == map[]
    requires Holds(e.buf, e.own, d.pos, rest)
    ensures Good(e)
  {
    forall o | o in e.stored ensures StoredAt(e, o, e.stored[o]) {
      if o in d.partial {
        PartialSettles(d, e, o, d.partial[o], rest);
      } else {
        StoredStays(d, e, o, d.stored[o]);
      }
    }
  }

  lemma PointerReads(r: nat)
    requires r < MAX_BUFFER
    ensures IsRef(Pointer(r)[0])
    ensures (Pointer(r)[0] as int * 256 + Pointer(r)[1] as int) % 16384 == r
  {
    assert r == r / 256 * 256 + r % 256;
  }

  lemma RefPlaced(d: Draft, r: nat, e: Draft)
    requires Frame(d) && d.pos + 2 <= |d.buf| && r < d.pos && 0 < d.buf[r] <= MAX_LABEL
    requires e.buf == Overlay(d.buf, d.pos, Pointer(r)) && e.pos == d.pos + 2 && e.table == d.table
    requires e.own == d.own + Span(d.pos, d.pos + 2)
    requires forall o :: o in d.stored ==> o in e.stored && e.stored[o] == d.stored[o]
    ensures Frame(e) && PointsBack(e.buf, e.own, d.pos, r) && Extends(d, e)
  {
    PointerReads(r);
    assert e.buf[d.pos] == Pointer(r)[0] && e.buf[d.pos + 1] == Pointer(r)[1];
  }

  lemma PointerHolds(buf: seq<byte>, own: set<nat>, o: nat, target: nat, labels: seq<Label>)
    requires PointsBack(buf, own, o, target) && Holds(buf, own, target, labels)
    ensures Holds(buf, own, o, labels) && EndOf(buf, o, labels) == o + 2
  {
  }

  lemma RefHolds(d: Draft, e: Draft, r: nat, labels: seq<Label>)
    requires Frame(d) && Extends(d, e) && StoredAt(d, r, labels) && PointsBack(e.buf, e.own, d.pos, r)
    ensures Holds(e.buf, e.own, d.pos, labels) && EndOf(e.buf, d.pos, labels) == d.pos + 2
  {
    StoredStays(d, e, r, labels);
    PointerHolds(e.buf, e.own, d.pos, r, labels);
  }

  lemma RefKeeps(d: Draft, r: nat)
    requires Good(d) && r in d.stored && d.pos + 2 <= |d.buf|
    ensures var e := PutRef(d, r);
            Good(e) && Extends(d, e) && Holds(e.buf, e.own, d.pos, d.stored[r])
            && EndOf(e.buf, d.pos, d.stored[r]) == e.pos && PointsBack(e.buf, e.own, d.pos, r)
  {
    assert StoredAt(d, r, d.stored[r]);
    RefPlaced(d, r, PutRef(d, r));
    RefHolds(d, PutRef(d, r), r, d.stored[r]);
    SettleKeeps(d, PutRef(d, r), d.stored[r]);
  }

  lemma ZeroKeeps(d: Draft)
    requires Good(d) && d.pos + 1 <= |d.buf|
    ensures var e := PutZero(d);
            Good(e) && Extends(d, e) && Holds(e.buf, e.own, d.pos, []) && EndOf(e.buf, d.pos, []) == e.pos
  {
    var e := PutZero(d);
    assert e.buf[d.pos] == 0 && d.pos in e.own;
    SettleKeeps(d, e, []);
  }

  // ---------------------------------------------------------------- one name

  ghost predicate ZerosFrom(buf: seq<byte>, pos: nat) {
    forall i :: pos <= i < |buf| ==> buf[i] == 0
  }

  /** The last label does not occur before. */
  predicate LastIsNew(labels: seq<Label>) {
    labels != [] ==> labels[|labels| - 1] !in labels[..|labels| - 1]
  }

  /** A search for the rest of a name cannot end up in the part of it that has been written: either no label occurs
      twice, or the last one does not and only zeros follow. */
  ghost predicate Clear(d: Draft, labels: seq<Label>) {
    || labels == []
    || (NoDup(labels) && forall o :: o in d.partial ==> d.partial[o] != [] && d.partial[o][0] !in labels)
    || (ZerosFrom(d.buf, d.pos) && LastIsNew(labels)
        && forall o :: o in d.partial ==> labels[|labels| - 1] !in d.partial[o])
  }

  lemma ClearStep(d: Draft, labels: seq<Label>)
    requires Frame(d) && labels != [] && Fits(labels[0]) && d.pos + |labels[0]| + 1 <= |d.buf|
    requires Clear(d, labels)
    ensures Clear(PutWord(d, labels[0]), labels[1..])
  {
    var e, more := PutWord(d, labels[0]), labels[1..];
    if more != [] {
      assert more[|more| - 1] == labels[|labels| - 1];
      assert labels[0] == labels[..|labels| - 1][0];
      if NoDup(labels) && forall o :: o in d.partial ==> d.partial[o] != [] && d.partial[o][0] !in labels {
        assert NoDup(more) && labels[0] !in more;
      } else {
        assert ZerosFrom(e.buf, e.pos);
        assert more[..|more| - 1] == labels[..|labels| - 1][1..];
      }
    }
  }

  /** So the search finds names that are complete. */
  lemma FoundIsStored(d: Draft, labels: seq<Label>)
    requires Good(d) && labels != [] && Clear(d, labels)
    ensures var r := FindRef(d.buf, Candidates(d.table), 0, labels);
            r.Some? ==> r.value in d.stored && labels <= d.stored[r.value] && r.value < d.pos
  {
    var r := FindRef(d.buf, Candidates(d.table), 0, labels);
    if r.Some? {
      FoundRef(d.buf, Candidates(d.table), 0, labels);
      if r.value in d.stored {
        assert StoredAt(d, r.value, d.stored[r.value]);
        HoldsMatch(d.buf, d.own, r.value, d.stored[r.value], labels);
      } else {
        NoMatchInside(d, r.value, labels);
      }
    }
  }

  lemma NoMatchInside(d: Draft, o: nat, labels: seq<Label>)
    requires Good(d) && labels != [] && Clear(d, labels) && o in d.partial
    ensures !Match(d.buf, o, labels)
  {
    var words := d.partial[o];
    assert PartialAt(d, o, words);
    if Match(d.buf, o, labels) {
      WordMatch(d.buf, d.own, o, words[0], labels);
      assert words[0] in labels;
      ChainMatch(d.buf, d.own, o, words, d.pos, labels);
    }
  }

  /** What the search finds is a complete name that starts with the labels, or the unfinished name itself. */
  lemma FoundIsKnown(d: Draft, labels: seq<Label>)
    requires Good(d) && labels != []
    ensures var r := FindRef(d.buf, Candidates(d.table), 0, labels);
            r.Some? ==> r.value in d.partial || (r.value in d.stored && labels <= d.stored[r.value] && r.value < d.pos)
  {
    var r := FindRef(d.buf, Candidates(d.table), 0, labels);
    if r.Some? {
      FoundRef(d.buf, Candidates(d.table), 0, labels);
      if r.value in d.stored {
        assert StoredAt(d, r.value, d.stored[r.value]);
        HoldsMatch(d.buf, d.own, r.value, d.stored[r.value], labels);
      }
    }
  }

  /** A name written to the end: the run behind it, and the labels that now stand at its start unless it ends in a
      pointer into itself. */
  datatype Outcome = Short | Looped(draft: Draft) | Written(draft: Draft, labels: seq<Label>)

  ghost function Prepend(word: Label, w: Outcome): Outcome {
    match w
    case Written(e, rest) => Written(e, [word] + rest)
    case _ => w
  }

  ghost function Write(d: Draft, labels: seq<Label>): Outcome
    requires Frame(d)
    decreases |labels|
  {
    if labels == [] then
      if d.pos == |d.buf| then Short else Written(PutZero(d), [])
    else match FindRef(d.buf, Candidates(d.table), 0, labels)
      case Some(r) =>
        if |d.buf| < d.pos + 2 then Short
        else if r in d.stored then Written(PutRef(d, r), d.stored[r])
        else Looped(PutLoop(d, r))
      case None =>
        if |d.buf| - d.pos <= |labels[0]| + 1 then Short
        else Prepend(labels[0], Write(PutWord(d, labels[0]), labels[1..]))
  }

  ghost predicate Follows(m: Made, w: Outcome) {
    if m.end.Some? then !w.Short? && m == Made(w.draft.buf, w.draft.table, Some(w.draft.pos)) else w.Short?
  }

  lemma WriteWord(d: Draft, labels: seq<Label>)
    requires Frame(d) && labels != [] && FindRef(d.buf, Candidates(d.table), 0, labels).None?
    requires |d.buf| - d.pos > |labels[0]| + 1
    ensures Write(d, labels) == Prepend(labels[0], Write(PutWord(d, labels[0]), labels[1..]))
  {
  }

  lemma FollowsEnd(d: Draft, labels: seq<Label>)
    requires Frame(d)
    requires labels == [] || FindRef(d.buf, Candidates(d.table), 0, labels).Some?
             || |d.buf| - d.pos <= |labels[0]| + 1
    ensures Follows(Make(d.buf, d.pos, labels, d.table), Write(d, labels))
  {
  }

  lemma MakeWord(d: Draft, labels: seq<Label>)
    requires Frame(d) && labels != [] && FindRef(d.buf, Candidates(d.table), 0, labels).None?
    requires |d.buf| - d.pos > |labels[0]| + 1
    ensures var e := PutWord(d, labels[0]);
            Make(d.buf, d.pos, labels, d.table) == Make(e.buf, e.pos, labels[1..], e.table)
  {
    var e := PutWord(d, labels[0]);
    MakeLiteral(d.buf, d.pos, labels, d.table, e.buf, e.pos, labels[1..], e.table);
  }

  /** `Write` follows the writer step by step. */
  lemma {:induction false} WriteIsMake(d: Draft, labels: seq<Label>)
    requires Good(d) && AllFit(labels)
    ensures Follows(Make(d.buf, d.pos, labels, d.table), Write(d, labels))
    decreases |labels|
  {
    if labels != [] && FindRef(d.buf, Candidates(d.table), 0, labels).None? && |d.buf| - d.pos > |labels[0]| + 1 {
      WordKeeps(d, labels[0]);
      WriteIsMake(PutWord(d, labels[0]), labels[1..]);
      MakeWord(d, labels);
      WriteWord(d, labels);
    } else {
      FollowsEnd(d, labels);
    }
  }

  lemma ExtendsTwice(d: Draft, e: Draft, f: Draft)
    requires Extends(d, e) && Extends(e, f)
    ensures Extends(d, f)
  {
  }

  lemma HoldsCons(buf: seq<byte>, own: set<nat>, o: nat, word: Label, rest: seq<Label>)
    requires WordAt(buf, own, o, word) && Holds(buf, own, o + 1 + |word|, rest)
    ensures Holds(buf, own, o, [word] + rest) && EndOf(buf, o, [word] + rest) == EndOf(buf, o + 1 + |word|, rest)
  {
    assert ([word] + rest)[1..] == rest;
  }

  lemma WordThenRest(e: Draft, f: Draft, o: nat, word: Label, rest: seq<Label>)
    requires Frame(e) && WordAt(e.buf, e.own, o, word) && e.pos == o + 1 + |word|
    requires Extends(e, f) && Holds(f.buf, f.own, e.pos, rest) && EndOf(f.buf, e.pos, rest) == f.pos
    ensures Holds(f.buf, f.own, o, [word] + rest) && EndOf(f.buf, o, [word] + rest) == f.pos
  {
    WordElsewhere(e.buf, f.buf, e.own, f.own, o, word);
    HoldsCons(f.buf, f.own, o, word, rest);
  }

  /** A written name stands where it was written: the labels asked for, continued by the name they were found in;
      and everything written earlier still stands. */
  ghost predicate Stands(d: Draft, e: Draft, wanted: seq<Label>, labels: seq<Label>) {
    && Good(e) && e.partial == map[] && Extends(d, e) && wanted <= labels
    && Holds(e.buf, e.own, d.pos, labels) && EndOf(e.buf, d.pos, labels) == e.pos
  }

  lemma StandsFromWord(d: Draft, word: Label, more: seq<Label>, f: Draft, rest: seq<Label>)
    requires Good(d) && Fits(word) && d.pos + |word| + 1 <= |d.buf|
    requires Stands(PutWord(d, word), f, more, rest)
    ensures Stands(d, f, [word] + more, [word] + rest)
  {
    WordKeeps(d, word);
    ExtendsTwice(d, PutWord(d, word), f);
    WordPlaced(d, word);
    WordThenRest(PutWord(d, word), f, d.pos, word, rest);
    PrefixCons([word] + more, [word] + rest);
  }

  lemma RefStands(d: Draft, r: nat, labels: seq<Label>)
    requires Good(d) && r in d.stored && d.pos + 2 <= |d.buf| && labels <= d.stored[r]
    ensures Stands(d, PutRef(d, r), labels, d.stored[r])
  {
    RefKeeps(d, r);
  }

  lemma ZeroStands(d: Draft)
    requires Good(d) && d.pos + 1 <= |d.buf|
    ensures Stands(d, PutZero(d), [], [])
  {
    ZeroKeeps(d);
  }

  /** One label written in full, and the rest after it. */
  lemma WordStands(d: Draft, labels: seq<Label>)
    requires Good(d) && AllFit(labels) && labels != [] && |d.buf| - d.pos > |labels[0]| + 1
    requires FindRef(d.buf, Candidates(d.table), 0, labels).None?
    requires var w := Write(PutWord(d, labels[0]), labels[1..]);
             w.Written? ==> Stands(PutWord(d, labels[0]), w.draft, labels[1..], w.labels)
    ensures var w := Write(d, labels); w.Written? ==> Stands(d, w.draft, labels, w.labels)
  {
    var w := Write(PutWord(d, labels[0]), labels[1..]);
    WriteWord(d, labels);
    hide Write, Stands, PutWord, FindRef;
    if w.Written? {
      StandsFromWord(d, labels[0], labels[1..], w.draft, w.labels);
      assert labels == [labels[0]] + labels[1..];
    }
  }

  lemma {:induction false} WriteKeeps(d: Draft, labels: seq<Label>)
    requires Good(d) && AllFit(labels)
    ensures var w := Write(d, labels); w.Written? ==> Stands(d, w.draft, labels, w.labels)
    decreases |labels|
  {
    hide Stands, Extends, Holds, StoredAt, PartialAt;
    if labels == [] {
      if d.pos < |d.buf| {
        ZeroStands(d);
      }
    } else {
      FoundIsKnown(d, labels);
      var r := FindRef(d.buf, Candidates(d.table), 0, labels);
      if r.Some? {
        if r.value in d.stored && d.pos + 2 <= |d.buf| {
          RefStands(d, r.value, labels);
        }
      } else if |d.buf| - d.pos > |labels[0]| + 1 {
        WordKeeps(d, labels[0]);
        WriteKeeps(PutWord(d, labels[0]), labels[1..]);
        WordStands(d, labels);
      }
    }
  }

  // ---------------------------------------------------------------- a name that never ends

  /** From `o`, the labels `words` in full lead to a pointer at `pos`, which leads back to it through `round`. */
  ghost predicate LoopAt(buf: seq<byte>, own: set<nat>, o: nat, words: seq<Label>, pos: nat, r: nat, round: seq<Label>) {
    Chain(buf, own, o, words, pos) && PointsBack(buf, own, pos, r) && round != [] && Chain(buf, own, r, round, pos)
  }

  ghost predicate Loops(buf: seq<byte>, own: set<nat>, o: nat) {
    exists words, pos, r, round :: LoopAt(buf, own, o, words, pos, r, round)
  }

  /** Such a name cannot be read. */
  lemma {:induction false} LoopFails(buf: seq<byte>, own: set<nat>, o: nat, words: seq<Label>, pos: nat, r: nat,
                                     round: seq<Label>, count: nat)
    requires LoopAt(buf, own, o, words, pos, r, round) && count <= MAX_SUBSTRINGS + 1
    ensures Read(buf, o, count).Failed?
    decreases MAX_SUBSTRINGS + 1 - count, words == []
  {
    if count <= MAX_SUBSTRINGS {
      if words == [] {
        LoopFails(buf, own, r, round, pos, r, round, count);
        WordNext(buf, own, r, round[0]);
        PointerNext(buf, own, pos, r);
        PointerRead(buf, pos, r, count);
      } else {
        WordNext(buf, own, o, words[0]);
        LoopFails(buf, own, o + 1 + |words[0]|, words[1..], pos, r, round, count + 1);
      }
    }
  }

  lemma LoopElsewhere(a: seq<byte>, b: seq<byte>, own: set<nat>, wider: set<nat>, o: nat)
    requires Loops(a, own, o) && own <= wider
    requires forall i :: i in own ==> i < |b| && (i < |a| ==> a[i] == b[i])
    ensures Loops(b, wider, o)
  {
    var words, pos, r, round :| LoopAt(a, own, o, words, pos, r, round);
    ChainElsewhere(a, b, own, wider, o, words, pos);
    ChainElsewhere(a, b, own, wider, r, round, pos);
    WordElsewhere(a, b, own, wider, r, round[0]);
    assert LoopAt(b, wider, o, words, pos, r, round);
  }

  /** The unfinished name starts at `start`. */
  ghost predicate Since(d: Draft, start: nat) {
    && (forall o :: o in d.stored ==> o < start)
    && (forall o :: o in d.partial ==> start <= o)
    && (if d.partial == map[] then start == d.pos else start in d.partial)
  }

  lemma SinceWord(d: Draft, word: Label, start: nat)
    requires Good(d) && Since(d, start) && d.pos + |word| + 1 <= |d.buf|
    ensures Since(PutWord(d, word), start)
  {
    forall o | o in d.partial ensures o <= d.pos {
      ChainAhead(d.buf, d.own, o, d.partial[o], d.pos);
    }
  }

  lemma {:induction false} ChainAhead(buf: seq<byte>, own: set<nat>, o: nat, words: seq<Label>, pos: nat)
    requires Chain(buf, own, o, words, pos)
    ensures o <= pos
    decreases |words|
  {
    if words != [] {
      ChainAhead(buf, own, o + 1 + |words[0]|, words[1..], pos);
    }
  }

  lemma LoopPut(d: Draft, r: nat, start: nat)
    requires Good(d) && Since(d, start) && r in d.partial && d.pos + 2 <= |d.buf|
    ensures var e := PutLoop(d, r); Extends(d, e) && Frame(e) && Loops(e.buf, e.own, start)
  {
    var e, words, round := PutLoop(d, r), d.partial[start], d.partial[r];
    assert PartialAt(d, start, words) && PartialAt(d, r, round);
    assert WordAt(d.buf, d.own, r, round[0]) && r in d.own;
    RefPlaced(d, r, e);
    hide Good, Since;
    ChainElsewhere(d.buf, e.buf, d.own, e.own, start, words, d.pos);
    ChainElsewhere(d.buf, e.buf, d.own, e.own, r, round, d.pos);
    assert LoopAt(e.buf, e.own, start, words, d.pos, r, round);
  }

  /** A name that is ended by a pointer into itself never ends; what was written earlier stays. */
  lemma {:induction false} WriteLoops(d: Draft, labels: seq<Label>, start: nat)
    requires Good(d) && AllFit(labels) && Since(d, start)
    ensures var w := Write(d, labels);
            w.Looped? ==> Extends(d, w.draft) && Frame(w.draft) && Loops(w.draft.buf, w.draft.own, start)
    decreases |labels|
  {
    if labels != [] {
      FoundIsKnown(d, labels);
      var r := FindRef(d.buf, Candidates(d.table), 0, labels);
      if r.Some? && r.value !in d.stored && d.pos + 2 <= |d.buf| {
        LoopPut(d, r.value, start);
      } else if r.None? && |d.buf| - d.pos > |labels[0]| + 1 {
        WordKeeps(d, labels[0]);
        SinceWord(d, labels[0], start);
        WriteWord(d, labels);
        WriteLoops(PutWord(d, labels[0]), labels[1..], start);
        var w := Write(PutWord(d, labels[0]), labels[1..]);
        if w.Looped? {
          ExtendsTwice(d, PutWord(d, labels[0]), w.draft);
        }
      }
    }
  }
}
