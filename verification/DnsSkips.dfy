/** A written name can be skipped to its end, whether it reads back or not: its pointer leads to a label in full. */
module DnsSkips {
  import opened Lists
  import opened DnsNames
  import opened DnsWriter
  import opened DnsRoundTrip
  import opened DnsCompose

  /** A label in full starts at `o`; its ends are bytes of `own`. */
  predicate Starts(buf: seq<byte>, own: set<nat>, o: nat) {
    o < |buf| && 0 < buf[o] <= MAX_LABEL && o in own && o + buf[o] < |buf| && o + buf[o] in own
  }

  /** From `o` to `end` stand up to `count` labels in full, then a zero or a pointer to a label in full. */
  predicate Passes(buf: seq<byte>, own: set<nat>, o: nat, count: nat, end: nat)
    decreases count
  {
    o < |buf|
    && if buf[o] == 0 then end == o + 1
       else if IsRef(buf[o]) then o + 2 <= |buf| && end == o + 2 && Starts(buf, own, PointerAt(buf, o))
       else Starts(buf, own, o) && count > 0 && Passes(buf, own, o + 1 + buf[o], count - 1, end)
  }

  /** Such a name is skipped, also when the buffer ends where it does. */
  lemma {:induction false} PassesSkips(buf: seq<byte>, own: set<nat>, o: nat, count: nat, end: nat, size: nat, done: nat)
    requires Passes(buf, own, o, count, end) && done + count <= MAX_SUBSTRINGS && end <= size <= |buf|
    requires forall i :: i in own ==> i < size
    ensures SkipFrom(buf[..size], o, done) == To(end) && o < end
    decreases count
  {
    var b := buf[..size];
    if buf[o] == 0 {
    } else if IsRef(buf[o]) {
      assert PointerAt(b, o) == PointerAt(buf, o);
      assert Hop(b, o, 0) == Hop(b, PointerAt(b, o), 1);
    } else {
      PassesSkips(buf, own, o + 1 + buf[o], count - 1, end, size, done + 1);
      assert NextSub(b, o) == At(o + 1, buf[o], false);
    }
  }

  /** What the table offers are labels in full. */
  predicate Offers(buf: seq<byte>, own: set<nat>, table: Table) {
    Sized(table) && forall c :: c in Candidates(table) ==> Starts(buf, own, c)
  }

  lemma OffersElsewhere(a: seq<byte>, b: seq<byte>, own: set<nat>, wider: set<nat>, table: Table)
    requires Offers(a, own, table) && own <= wider && |a| == |b|
    requires forall i :: i in own && i < |a| ==> a[i] == b[i]
    ensures Offers(b, wider, table)
  {
  }

  /** The next label is written in full, and offered. */
  lemma OffersWord(buf: seq<byte>, pos: nat, word: Label, table: Table, own: set<nat>)
    requires Offers(buf, own, table) && Fits(word) && pos + |word| + 1 <= |buf| && forall i :: i in own ==> i < pos
    ensures var b, end := Overlay(buf, pos, Literal(word)), pos + |word| + 1;
            Offers(b, own + Span(pos, end), Add(table, pos)) && Starts(b, own + Span(pos, end), pos) && b[pos] == |word|
  {
    AddCandidates(table, pos);
  }

  lemma {:induction false} SpanJoins(own: set<nat>, a: nat, b: nat, c: nat)
    requires a <= b <= c
    ensures own + Span(a, b) + Span(b, c) == own + Span(a, c)
  {
  }

  lemma PointerLeads(buf: seq<byte>, pos: nat, r: nat)
    requires pos + 2 <= |buf| && r < MAX_BUFFER
    ensures var b := Overlay(buf, pos, Pointer(r)); IsRef(b[pos]) && PointerAt(b, pos) == r
  {
  }

  /** A label in front of what can be skipped; its bytes stay. */
  lemma PassesWord(a: seq<byte>, b: seq<byte>, own: set<nat>, wider: set<nat>, pos: nat, next: nat, count: nat, end: nat)
    requires Starts(a, own, pos) && next == pos + 1 + a[pos] && own <= wider && |a| == |b| && a[..next] == b[..next]
    requires Passes(b, wider, next, count, end)
    ensures Passes(b, wider, pos, count + 1, end)
  {
    assert a[pos] == a[..next][pos] == b[..next][pos] == b[pos];
  }

  /** The end of a name: a zero, or a pointer to what the table offers. */
  lemma MakeEnds(buf: seq<byte>, pos: nat, labels: seq<Label>, table: Table, own: set<nat>, count: nat)
    requires pos <= |buf| <= MAX_BUFFER && Offers(buf, own, table) && forall i :: i in own ==> i < pos
    requires labels == [] || FindRef(buf, Candidates(table), 0, labels).Some?
    requires Make(buf, pos, labels, table).end.Some?
    ensures var m := Make(buf, pos, labels, table);
            var all := own + Span(pos, m.end.value);
            Offers(m.buf, all, m.table) && Passes(m.buf, all, pos, count, m.end.value)
  {
    var m := Make(buf, pos, labels, table);
    OffersElsewhere(buf, m.buf, own, own + Span(pos, m.end.value), table);
    if labels != [] {
      FoundRef(buf, Candidates(table), 0, labels);
      PointerLeads(buf, pos, FindRef(buf, Candidates(table), 0, labels).value);
    }
  }

  /** Whatever the table offers, and whatever the buffer held. */
  lemma {:induction false} MakePasses(buf: seq<byte>, pos: nat, labels: seq<Label>, table: Table, own: set<nat>, count: nat)
    requires pos <= |buf| <= MAX_BUFFER && Sized(table) && AllFit(labels) && |labels| <= count
    requires Offers(buf, own, table) && forall i :: i in own ==> i < pos
    requires Make(buf, pos, labels, table).end.Some?
    ensures var m := Make(buf, pos, labels, table);
            var all := own + Span(pos, m.end.value);
            Offers(m.buf, all, m.table) && Passes(m.buf, all, pos, count, m.end.value)
    decreases |labels|
  {
    hide Offers, Passes, Starts, FindRef, Add, Literal, Candidates;
    if labels == [] || FindRef(buf, Candidates(table), 0, labels).Some? {
      MakeEnds(buf, pos, labels, table, own, count);
    } else {
      var b, next := Overlay(buf, pos, Literal(labels[0])), pos + |labels[0]| + 1;
      var m := Make(buf, pos, labels, table);
      OffersWord(buf, pos, labels[0], table, own);
      MakePasses(b, next, labels[1..], Add(table, pos), own + Span(pos, next), count - 1);
      MakeGoesOn(b, next, labels[1..], Add(table, pos));
      SpanJoins(own, pos, next, m.end.value);
      PassesWord(b, m.buf, own + Span(pos, next), own + Span(pos, m.end.value), pos, next, count - 1, m.end.value);
    }
  }
}
