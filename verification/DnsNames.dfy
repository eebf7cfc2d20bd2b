/** Reading domain names out of a DNS message (section 4.1.4 of RFC 1035): the substring step with its jump limit,
    and the three readers built on it, which skip a name, extract its text, or compare two names. */
module DnsNames {

  type byte = x: int | 0 <= x < 256
  type Label = seq<byte>

  /** The pair returned by the substring step; a length of 0 ends the name. */
  datatype Substring = Invalid | At(offset: nat, length: nat, ref: bool)

  const MAX_SUBSTRINGS := 64
  const MAX_HOPS := 16
  const DOT: byte := 46

  /** `(val & 0xC0) == 0xC0` */
  predicate IsRef(b: byte) {
    192 <= b
  }

  /** The 14 low bits of the two bytes at `offset`. */
  function PointerAt(buf: seq<byte>, offset: nat): nat
    requires offset + 2 <= |buf|
  {
    (buf[offset] as int * 256 + buf[offset + 1] as int) % 16384
  }

  function NextSub(buf: seq<byte>, offset: nat): Substring {
    if |buf| <= offset then Invalid
    else if buf[offset] == 0 then At(offset, 0, false)
    else Hop(buf, offset, 0)
  }

  /** Follows pointers from `offset`; `hops` of them have been followed already. */
  function Hop(buf: seq<byte>, offset: nat, hops: nat): Substring
    requires offset < |buf| && hops <= MAX_HOPS
    decreases MAX_HOPS - hops, offset
  {
    if !IsRef(buf[offset]) then
      if |buf| < offset + 1 + buf[offset] then Invalid else At(offset + 1, buf[offset], hops > 0)
    else if |buf| < offset + 2 then Invalid
    else
      var next := PointerAt(buf, offset);
      if |buf| <= next || hops == MAX_HOPS then Invalid else Hop(buf, next, hops + 1)
  }

  method NextSubstring(buf: seq<byte>, start: nat) returns (s: Substring)
    ensures s == NextSub(buf, start)
  {
    if |buf| <= start {
      return Invalid;
    }
    if buf[start] == 0 {
      return At(start, 0, false);
    }
    var offset: nat, hops: nat, ref := start, 0, false;
    while IsRef(buf[offset])
      invariant offset < |buf| && hops <= MAX_HOPS && ref == (hops > 0)
      invariant Hop(buf, offset, hops) == NextSub(buf, start)
      decreases MAX_HOPS - hops, offset
    {
      if |buf| < offset + 2 {
        return Invalid;
      }
      offset := PointerAt(buf, offset);
      if |buf| <= offset {
        return Invalid;
      }
      ref := true;
      hops := hops + 1;
      if hops > MAX_HOPS {
        return Invalid;
      }
    }
    var length := buf[offset];
    offset := offset + 1;
    if |buf| < offset + length {
      return Invalid;
    }
    s := At(offset, length, ref);
  }

  lemma {:induction false} HopBounds(buf: seq<byte>, offset: nat, hops: nat)
    requires offset < |buf| && hops <= MAX_HOPS
    ensures var s := Hop(buf, offset, hops); s.At? ==> s.offset + s.length <= |buf| && 0 < s.offset && s.length < 192
    decreases MAX_HOPS - hops, offset
  {
    if IsRef(buf[offset]) && offset + 2 <= |buf| && PointerAt(buf, offset) < |buf| && hops < MAX_HOPS {
      HopBounds(buf, PointerAt(buf, offset), hops + 1);
    }
  }

  /** A valid substring lies inside the buffer. */
  lemma SubBounds(buf: seq<byte>, offset: nat)
    ensures var s := NextSub(buf, offset);
            s.At? ==> s.offset + s.length <= |buf|
  {
    if offset < |buf| && buf[offset] != 0 {
      HopBounds(buf, offset, 0);
    }
  }

  // ---------------------------------------------------------------- what a name is

  datatype Reading = Failed | Name(labels: seq<Label>, end: nat)

  /** The name at `offset` when `count` substrings have been read before: its labels, and where reading goes on
      after its first pointer or its terminating zero. */
  function Read(buf: seq<byte>, offset: nat, count: nat): Reading
    requires count <= MAX_SUBSTRINGS + 1
    decreases MAX_SUBSTRINGS + 1 - count, offset
  {
    SubBounds(buf, offset);
    var s := NextSub(buf, offset);
    if s.Invalid? || count > MAX_SUBSTRINGS then Failed
    else if s.length == 0 then Name([], if s.ref then offset + 2 else s.offset + 1)
    else
      var rest := Read(buf, s.offset + s.length, count + 1);
      if rest.Failed? then Failed
      else Name([buf[s.offset..s.offset + s.length]] + rest.labels, if s.ref then offset + 2 else rest.end)
  }

  /** Every label followed by a dot. */
  function Text(labels: seq<Label>): seq<byte> {
    if labels == [] then [] else labels[0] + [DOT] + Text(labels[1..])
  }

  // ---------------------------------------------------------------- skipping

  datatype Skipped = Stuck | To(end: nat)

  function SkipFrom(buf: seq<byte>, offset: nat, count: nat): Skipped
    requires count <= MAX_SUBSTRINGS + 1
    decreases MAX_SUBSTRINGS + 1 - count, offset
  {
    var s := NextSub(buf, offset);
    if s.Invalid? || count > MAX_SUBSTRINGS then Stuck
    else if s.ref then To(offset + 2)
    else if s.length == 0 then To(s.offset + 1)
    else SkipFrom(buf, s.offset + s.length, count + 1)
  }

  method StringSkip(buf: seq<byte>, offset: nat) returns (ok: bool, end: nat)
    ensures ok <==> SkipFrom(buf, offset, 0).To?
    ensures end == if ok then SkipFrom(buf, offset, 0).end else offset
  {
    var cur: nat, count: nat := offset, 0;
    while true
      invariant count <= MAX_SUBSTRINGS + 1
      invariant SkipFrom(buf, cur, count) == SkipFrom(buf, offset, 0)
      decreases MAX_SUBSTRINGS + 1 - count, offset
    {
      var s := NextSubstring(buf, cur);
      if s.Invalid? || count > MAX_SUBSTRINGS {
        return false, offset;
      }
      count := count + 1;
      if s.ref {
        return true, cur + 2;
      }
      cur := s.offset + s.length;
      if s.length == 0 {
        break;
      }
    }
    return true, cur + 1;
  }

  /** Whenever a name can be extracted it can be skipped, to the same end. */
  lemma {:induction false} ReadImpliesSkip(buf: seq<byte>, offset: nat, count: nat)
    requires count <= MAX_SUBSTRINGS + 1
    ensures Read(buf, offset, count).Name? ==> SkipFrom(buf, offset, count) == To(Read(buf, offset, count).end)
    decreases MAX_SUBSTRINGS + 1 - count, offset
  {
    var s := NextSub(buf, offset);
    if s.At? && count <= MAX_SUBSTRINGS && s.length > 0 {
      ReadImpliesSkip(buf, s.offset + s.length, count + 1);
    }
  }

  /** A name ends inside the buffer, after its start. */
  lemma {:induction false} ReadEnd(buf: seq<byte>, offset: nat, count: nat)
    requires count <= MAX_SUBSTRINGS + 1
    ensures var r := Read(buf, offset, count);
            r.Name? ==> offset < r.end <= |buf| && count + |r.labels| <= MAX_SUBSTRINGS
    decreases MAX_SUBSTRINGS + 1 - count, offset
  {
    SubBounds(buf, offset);
    RefRoom(buf, offset);
    var s := NextSub(buf, offset);
    if s.At? && count <= MAX_SUBSTRINGS && s.length > 0 {
      ReadEnd(buf, s.offset + s.length, count + 1);
    }
  }

  /** A substring read through a pointer starts with the pointer's two bytes; otherwise it starts here. */
  lemma RefRoom(buf: seq<byte>, offset: nat)
    ensures var s := NextSub(buf, offset);
            s.At? ==> if s.ref then offset + 2 <= |buf| && IsRef(buf[offset])
                      else if s.length == 0 && s.offset == offset then offset < |buf|
                      else s.offset == offset + 1
  {
    if offset < |buf| && buf[offset] != 0 && !IsRef(buf[offset]) {
      assert NextSub(buf, offset) == Hop(buf, offset, 0);
    } else if offset < |buf| && buf[offset] != 0 && offset + 2 <= |buf| && PointerAt(buf, offset) < |buf| {
      HopRef(buf, PointerAt(buf, offset), 1);
    }
  }

  lemma {:induction false} HopRef(buf: seq<byte>, offset: nat, hops: nat)
    requires offset < |buf| && 0 < hops <= MAX_HOPS
    ensures var s := Hop(buf, offset, hops); s.At? ==> s.ref
    decreases MAX_HOPS - hops, offset
  {
    if IsRef(buf[offset]) && offset + 2 <= |buf| && PointerAt(buf, offset) < |buf| && hops < MAX_HOPS {
      HopRef(buf, PointerAt(buf, offset), hops + 1);
    }
  }

  // ---------------------------------------------------------------- extracting

  /** Copies as much of `xs` as fits between `at` and `capacity`. */
  method CopyIn(str: array<byte>, at: nat, capacity: nat, xs: seq<byte>) returns (next: nat)
    requires at <= capacity <= str.Length
    modifies str
    ensures next == if at + |xs| <= capacity then at + |xs| else capacity
    ensures str[..] == old(str[..at]) + xs[..next - at] + old(str[next..])
  {
    next := at;
    while next < capacity && next - at < |xs|
      invariant at <= next <= capacity && next - at <= |xs|
      invariant str[..] == old(str[..at]) + xs[..next - at] + old(str[next..])
    {
      str[next] := xs[next - at];
      next := next + 1;
    }
  }

  function Cut(xs: seq<byte>, n: nat): seq<byte> {
    if |xs| <= n then xs else xs[..n]
  }

  lemma CutConcat(xs: seq<byte>, ys: seq<byte>, n: nat)
    ensures Cut(Cut(xs, n) + ys, n) == Cut(xs + ys, n)
  {
  }

  /** One label and its dot, as far as they fit. */
  method AppendLabel(str: array<byte>, at: nat, capacity: nat, word: Label, ghost before: seq<byte>)
    returns (next: nat)
    requires at <= capacity <= str.Length
    requires str[..at] == Cut(before, capacity)
    modifies str
    ensures at <= next <= capacity && str[capacity..] == old(str[capacity..])
    ensures str[..next] == Cut(before + word + [DOT], capacity)
  {
    var mid := CopyIn(str, at, capacity, word);
    assert str[..mid] == Cut(Cut(before, capacity) + word, capacity);
    CutConcat(before, word, capacity);
    next := CopyIn(str, mid, capacity, [DOT]);
    assert str[..next] == Cut(Cut(before + word, capacity) + [DOT], capacity);
    CutConcat(before + word, [DOT], capacity);
  }

  /** Writes the labels of the name, each followed by a dot, into the first `capacity` bytes of `str`, as far as
      they fit. */
  method StringExtract(buf: seq<byte>, offset: nat, str: array<byte>, capacity: nat)
    returns (ok: bool, end: nat, length: nat)
    requires capacity <= str.Length
    modifies str
    ensures ok <==> Read(buf, offset, 0).Name?
    ensures ok ==> end == Read(buf, offset, 0).end && length <= capacity
                   && str[..length] == Cut(Text(Read(buf, offset, 0).labels), capacity)
    ensures !ok ==> end == offset && length == 0
    ensures str[capacity..] == old(str[capacity..])
  {
    hide NextSub;
    var cur: nat, count: nat, dst: nat := offset, 0, 0;
    var ended: bool, first: nat := false, 0;
    ghost var done: seq<Label> := [];
    ghost var whole := Read(buf, offset, 0);
    while true
      invariant count <= MAX_SUBSTRINGS + 1 && dst <= capacity
      invariant str[capacity..] == old(str[capacity..])
      invariant str[..dst] == Cut(Text(done), capacity)
      invariant Continues(whole, done, Read(buf, cur, count), ended, first)
      decreases MAX_SUBSTRINGS + 1 - count
    {
      SubBounds(buf, cur);
      var s := NextSubstring(buf, cur);
      if s.Invalid? || count > MAX_SUBSTRINGS {
        return false, offset, 0;
      }
      ContinuesStep(buf, whole, done, cur, count, ended, first);
      count := count + 1;
      if s.ref && !ended {
        ended, first := true, cur + 2;
      }
      if s.length > 0 {
        ghost var word := buf[s.offset..s.offset + s.length];
        dst := AppendLabel(str, dst, capacity, buf[s.offset..s.offset + s.length], Text(done));
        TextSnoc(done, word);
        done := done + [word];
      }
      cur := s.offset + s.length;
      if s.length == 0 {
        break;
      }
    }
    end := if ended then first else cur + 1;
    return true, end, dst;
  }

  /** `done` labels have been read from the name `whole`; the rest of it is what `rest` says, and its end is fixed
      once a pointer has been met. */
  ghost predicate Continues(whole: Reading, done: seq<Label>, rest: Reading, ended: bool, first: nat) {
    && (whole.Name? <==> rest.Name?)
    && (whole.Name? ==> whole.labels == done + rest.labels && whole.end == if ended then first else rest.end)
  }

  /** Reading one more substring. */
  lemma ContinuesStep(buf: seq<byte>, whole: Reading, done: seq<Label>, cur: nat, count: nat, ended: bool, first: nat)
    requires count <= MAX_SUBSTRINGS && NextSub(buf, cur).At?
    requires Continues(whole, done, Read(buf, cur, count), ended, first)
    ensures var s := NextSub(buf, cur);
            var nowEnded, nowFirst := ended || s.ref, if s.ref && !ended then cur + 2 else first;
            s.offset + s.length <= |buf|
            && if s.length == 0
               then whole == Name(done, if nowEnded then nowFirst else s.offset + 1)
               else Continues(whole, done + [buf[s.offset..s.offset + s.length]],
                              Read(buf, s.offset + s.length, count + 1), nowEnded, nowFirst)
  {
    SubBounds(buf, cur);
    var s := NextSub(buf, cur);
    if s.length > 0 {
      var word := buf[s.offset..s.offset + s.length];
      var rest := Read(buf, s.offset + s.length, count + 1);
      if rest.Name? {
        assert done + ([word] + rest.labels) == done + [word] + rest.labels;
      }
    }
  }

  lemma {:induction false} TextSnoc(labels: seq<Label>, word: Label)
    ensures Text(labels + [word]) == Text(labels) + word + [DOT]
  {
    if labels == [] {
      assert [word][1..] == [];
    } else {
      TextSnoc(labels[1..], word);
      assert (labels + [word])[1..] == labels[1..] + [word];
    }
  }

  // ---------------------------------------------------------------- comparing

  /** An ASCII letter in lower case, any other byte as it is. */
  function Fold(b: byte): byte {
    if 65 <= b <= 90 then b + 32 else b
  }

  /** What strncasecmp finds equal over the length of `a`: it stops at the first NUL. */
  predicate SameText(a: Label, b: Label)
    requires |a| == |b|
  {
    a == [] || (Fold(a[0]) == Fold(b[0]) && (a[0] == 0 || SameText(a[1..], b[1..])))
  }

  predicate SameLabel(a: Label, b: Label) {
    |a| == |b| && SameText(a, b)
  }

  ghost predicate SameName(a: Reading, b: Reading) {
    a.Name? && b.Name? && SameLabels(a.labels, b.labels)
  }

  ghost predicate SameLabels(a: seq<Label>, b: seq<Label>) {
    |a| == |b| && forall i :: 0 <= i < |a| ==> SameLabel(a[i], b[i])
  }

  /** Two names are found equal exactly when both can be read and their labels agree pairwise; the offsets then move
      to where reading either name ends, and otherwise stay. */
  method StringEqual(lhs: seq<byte>, lhsOffset: nat, rhs: seq<byte>, rhsOffset: nat)
    returns (equal: bool, lhsEnd: nat, rhsEnd: nat)
    ensures equal <==> SameName(Read(lhs, lhsOffset, 0), Read(rhs, rhsOffset, 0))
    ensures if equal then lhsEnd == Read(lhs, lhsOffset, 0).end && rhsEnd == Read(rhs, rhsOffset, 0).end
            else lhsEnd == lhsOffset && rhsEnd == rhsOffset
  {
    hide SameLabels, NextSub, SameText;
    var l: nat, r: nat, count: nat := lhsOffset, rhsOffset, 0;
    var lEnded: bool, lFirst: nat, rEnded: bool, rFirst: nat := false, 0, false, 0;
    ghost var lWhole, rWhole := Read(lhs, lhsOffset, 0), Read(rhs, rhsOffset, 0);
    while true
      invariant count <= MAX_SUBSTRINGS + 1
      invariant SameName(lWhole, rWhole) <==> SameName(Read(lhs, l, count), Read(rhs, r, count))
      invariant EndsAt(lWhole, Read(lhs, l, count), lEnded, lFirst)
      invariant EndsAt(rWhole, Read(rhs, r, count), rEnded, rFirst)
      decreases MAX_SUBSTRINGS + 1 - count
    {
      var s := NextSubstring(lhs, l);
      var t := NextSubstring(rhs, r);
      if s.Invalid? || t.Invalid? || count > MAX_SUBSTRINGS {
        return false, lhsOffset, rhsOffset;
      }
      SameNameStep(lhs, l, rhs, r, count);
      if s.length != t.length
         || !SameText(lhs[s.offset..s.offset + s.length], rhs[t.offset..t.offset + t.length]) {
        return false, lhsOffset, rhsOffset;
      }
      EndsStep(lhs, lWhole, l, count, lEnded, lFirst);
      EndsStep(rhs, rWhole, r, count, rEnded, rFirst);
      count := count + 1;
      if s.ref && !lEnded {
        lEnded, lFirst := true, l + 2;
      }
      if t.ref && !rEnded {
        rEnded, rFirst := true, r + 2;
      }
      l, r := s.offset + s.length, t.offset + t.length;
      if s.length == 0 {
        break;
      }
    }
    return true, if lEnded then lFirst else l + 1, if rEnded then rFirst else r + 1;
  }

  /** The end of `whole` is the end of what is left of it, unless a pointer has already fixed it. */
  ghost predicate EndsAt(whole: Reading, rest: Reading, ended: bool, first: nat) {
    (whole.Name? <==> rest.Name?) && (whole.Name? ==> whole.end == if ended then first else rest.end)
  }

  lemma EndsStep(buf: seq<byte>, whole: Reading, cur: nat, count: nat, ended: bool, first: nat)
    requires count <= MAX_SUBSTRINGS && NextSub(buf, cur).At?
    requires EndsAt(whole, Read(buf, cur, count), ended, first)
    ensures var s := NextSub(buf, cur);
            var nowEnded, nowFirst := ended || s.ref, if s.ref && !ended then cur + 2 else first;
            if s.length == 0 then whole.Name? && whole.end == if nowEnded then nowFirst else s.offset + 1
            else EndsAt(whole, Read(buf, s.offset + s.length, count + 1), nowEnded, nowFirst)
  {
  }

  /** Two names agree when their first substrings do and so does what follows. */
  lemma SameNameStep(lhs: seq<byte>, l: nat, rhs: seq<byte>, r: nat, count: nat)
    requires count <= MAX_SUBSTRINGS && NextSub(lhs, l).At? && NextSub(rhs, r).At?
    ensures var s, t := NextSub(lhs, l), NextSub(rhs, r);
            s.offset + s.length <= |lhs| && t.offset + t.length <= |rhs|
            && (SameName(Read(lhs, l, count), Read(rhs, r, count))
                <==> s.length == t.length
                     && SameText(lhs[s.offset..s.offset + s.length], rhs[t.offset..t.offset + t.length])
                     && (s.length == 0 || SameName(Read(lhs, s.offset + s.length, count + 1),
                                                   Read(rhs, t.offset + t.length, count + 1))))
  {
    SubBounds(lhs, l);
    SubBounds(rhs, r);
    var s, t := NextSub(lhs, l), NextSub(rhs, r);
    if s.length > 0 && t.length > 0 {
      var a, b := lhs[s.offset..s.offset + s.length], rhs[t.offset..t.offset + t.length];
      var p, q := Read(lhs, s.offset + s.length, count + 1), Read(rhs, t.offset + t.length, count + 1);
      if p.Name? && q.Name? {
        SameLabelsCons(a, p.labels, b, q.labels);
      }
    }
  }

  lemma SameLabelsCons(a: Label, more: seq<Label>, b: Label, bs: seq<Label>)
    ensures SameLabels([a] + more, [b] + bs) <==> SameLabel(a, b) && SameLabels(more, bs)
  {
    var xs, ys := [a] + more, [b] + bs;
    assert xs[0] == a && ys[0] == b && more == xs[1..] && bs == ys[1..];
    if SameLabels(xs, ys) {
      assert SameLabel(xs[0], ys[0]);
    }
  }

  /** The same byte, or the same letter in upper and lower case. */
  predicate SameLetter(x: byte, y: byte) {
    x == y || (65 <= x <= 90 && y == x + 32) || (65 <= y <= 90 && x == y + 32)
  }

  /** Without a NUL inside them, labels match exactly when they are the same but for ASCII case. */
  lemma {:induction false} SameLabelIff(a: Label, b: Label)
    requires 0 !in a
    ensures SameLabel(a, b) <==> |a| == |b| && forall i :: 0 <= i < |a| ==> SameLetter(a[i], b[i])
  {
    if |a| == |b| && a != [] {
      assert a[0] != 0;
      SameLabelIff(a[1..], b[1..]);
      if SameLabel(a, b) {
        forall i | 0 <= i < |a| ensures SameLetter(a[i], b[i]) {
          assert i > 0 ==> a[i] == a[1..][i - 1] && b[i] == b[1..][i - 1];
        }
      }
    }
  }
}
