/** Messages composed of names and other bytes: which names read back, and that none is broken by what is written
    after it. */
module DnsCompose {
  import opened Lists
  import opened DnsNames
  import opened DnsWriter
  import opened DnsRoundTrip

  // ---------------------------------------------------------------- one name, exactly

  /** What the search settles on, if anything, was written before the name itself, which starts at `start`, and is a
      name with no more labels than were asked for. The search looks at neither. */
  ghost predicate TargetEnds(buf: seq<byte>, start: nat, pos: nat, labels: seq<Label>, table: Table)
    requires pos <= |buf| && Sized(table)
    decreases |labels|
  {
    labels == []
    || match FindRef(buf, Candidates(table), 0, labels)
       case Some(r) => r < start && Read(buf, r, 0).Name? && |Read(buf, r, 0).labels| == |labels|
       case None =>
         |buf| - pos <= |labels[0]| + 1
         || TargetEnds(Overlay(buf, pos, Literal(labels[0])), start, pos + |labels[0]| + 1, labels[1..], Add(table, pos))
  }

  lemma {:induction false} TargetEndsWord(d: Draft, start: nat, labels: seq<Label>)
    requires WordNeeded(d, labels)
    ensures var e := PutWord(d, labels[0]);
            TargetEnds(d.buf, start, d.pos, labels, d.table) <==> TargetEnds(e.buf, start, e.pos, labels[1..], e.table)
  {
    hide Read, FindRef;
  }

  lemma TargetEndsRef(d: Draft, start: nat, labels: seq<Label>, r: nat)
    requires Good(d) && Since(d, start) && labels != [] && |labels| <= MAX_SUBSTRINGS
    requires r in d.stored ==> labels <= d.stored[r]
    requires r in d.stored || r in d.partial
    requires FindRef(d.buf, Candidates(d.table), 0, labels) == Some(r)
    ensures TargetEnds(d.buf, start, d.pos, labels, d.table) <==> r in d.stored && d.stored[r] == labels
  {
    if r in d.stored {
      assert StoredAt(d, r, d.stored[r]);
      HoldsRead(d.buf, d.own, r, d.stored[r], 0);
    }
  }

  /** A search without success writes the next label in full. */
  ghost predicate WordNeeded(d: Draft, labels: seq<Label>) {
    && Frame(d) && labels != [] && |d.buf| - d.pos > |labels[0]| + 1
    && FindRef(d.buf, Candidates(d.table), 0, labels).None?
  }

  ghost predicate Exact(w: Outcome, labels: seq<Label>, ends: bool) {
    !w.Short? ==> (w.Written? && w.labels == labels <==> ends)
  }

  lemma ExactEnd(d: Draft, start: nat, labels: seq<Label>)
    requires Good(d) && Since(d, start) && |labels| <= MAX_SUBSTRINGS && !WordNeeded(d, labels)
    ensures Exact(Write(d, labels), labels, TargetEnds(d.buf, start, d.pos, labels, d.table))
  {
    if labels != [] {
      FoundIsKnown(d, labels);
      var r := FindRef(d.buf, Candidates(d.table), 0, labels);
      if r.Some? {
        TargetEndsRef(d, start, labels, r.value);
      }
    }
  }

  lemma ExactWord(rest: Outcome, word: Label, more: seq<Label>, ends: bool)
    requires Exact(rest, more, ends)
    ensures Exact(Prepend(word, rest), [word] + more, ends)
  {
    if rest.Written? && [word] + rest.labels == [word] + more {
      assert rest.labels == ([word] + rest.labels)[1..] == more;
    }
  }

  /** The written name is the one asked for exactly when the search settled on a name that ends with it. */
  lemma {:induction false} WriteExact(d: Draft, start: nat, labels: seq<Label>)
    requires Good(d) && AllFit(labels) && Since(d, start) && |labels| <= MAX_SUBSTRINGS
    ensures Exact(Write(d, labels), labels, TargetEnds(d.buf, start, d.pos, labels, d.table))
    decreases |labels|
  {
    hide Good, Exact, Read, Since;
    if WordNeeded(d, labels) {
      var e := PutWord(d, labels[0]);
      WordKeeps(d, labels[0]);
      SinceWord(d, labels[0], start);
      WriteExact(e, start, labels[1..]);
      TargetEndsWord(d, start, labels);
      WriteWord(d, labels);
      ExactWord(Write(e, labels[1..]), labels[0], labels[1..], TargetEnds(e.buf, start, e.pos, labels[1..], e.table));
      assert labels == [labels[0]] + labels[1..];
    } else {
      ExactEnd(d, start, labels);
    }
  }

  /** Between two names nothing is unfinished. */
  ghost predicate AtRest(d: Draft) {
    Good(d) && d.partial == map[]
  }

  /** At most 64 labels of 1 to 63 bytes. */
  predicate Proper(labels: seq<Label>) {
    AllFit(labels) && |labels| <= MAX_SUBSTRINGS
  }

  lemma RestIsSince(d: Draft)
    requires AtRest(d)
    ensures Since(d, d.pos)
  {
    forall o | o in d.stored ensures o < d.pos {
      assert StoredAt(d, o, d.stored[o]);
    }
  }

  /** Reading back what has just been written gives the name exactly when the search settled on a name that ends with
      it; in any case the read name starts with the one written, if it can be read at all. */
  lemma NameReadsBack(d: Draft, labels: seq<Label>, size: nat)
    requires AtRest(d) && Proper(labels)
    requires Make(d.buf, d.pos, labels, d.table).end.Some?
    requires Make(d.buf, d.pos, labels, d.table).end.value <= size <= |d.buf|
    ensures var m := Make(d.buf, d.pos, labels, d.table);
            size <= |m.buf|
            && var got := Read(m.buf[..size], d.pos, 0);
               && (got == Name(labels, m.end.value) <==> TargetEnds(d.buf, d.pos, d.pos, labels, d.table))
               && (got.Name? ==> labels <= got.labels && got.end == m.end.value)
  {
    RestIsSince(d);
    WriteIsMake(d, labels);
    WriteKeeps(d, labels);
    WriteLoops(d, labels, d.pos);
    WriteExact(d, d.pos, labels);
    var w := Write(d, labels);
    if w.Looped? {
      LoopReads(w.draft.buf, w.draft.own, d.pos, w.draft.buf[..size]);
    } else {
      PrefixReads(w.draft, d.pos, w.labels, size);
    }
  }

  lemma LoopReads(buf: seq<byte>, own: set<nat>, o: nat, other: seq<byte>)
    requires Loops(buf, own, o) && forall i :: i in own ==> i < |other| && (i < |buf| ==> buf[i] == other[i])
    ensures Read(other, o, 0).Failed?
  {
    LoopElsewhere(buf, other, own, own, o);
    var words, pos, r, round :| LoopAt(other, own, o, words, pos, r, round);
    LoopFails(other, own, o, words, pos, r, round, 0);
  }

  lemma PrefixReads(d: Draft, o: nat, labels: seq<Label>, size: nat)
    requires Frame(d) && d.pos <= size <= |d.buf| && Holds(d.buf, d.own, o, labels)
    ensures Read(d.buf[..size], o, 0)
            == if |labels| <= MAX_SUBSTRINGS then Name(labels, EndOf(d.buf, o, labels)) else Failed
  {
    HoldsElsewhere(d.buf, d.buf[..size], d.own, d.own, o, labels);
    HoldsRead(d.buf[..size], d.own, o, labels, 0);
  }

  // ---------------------------------------------------------------- names that end alike

  /** Only the last label is one of `lasts`, as with names that all end in "local". */
  predicate EndsIn(labels: seq<Label>, lasts: set<Label>) {
    labels == []
    || (labels[|labels| - 1] in lasts && forall i :: 0 <= i < |labels| - 1 ==> labels[i] !in lasts)
  }

  ghost predicate AllEndIn(d: Draft, rest: seq<Label>, lasts: set<Label>) {
    && (forall o :: o in d.stored ==> EndsIn(d.stored[o], lasts))
    && (forall o :: o in d.partial ==> EndsIn(d.partial[o] + rest, lasts))
  }

  /** No such name continues another. */
  lemma EndsInPrefix(labels: seq<Label>, longer: seq<Label>, lasts: set<Label>)
    requires EndsIn(labels, lasts) && EndsIn(longer, lasts) && labels != [] && labels <= longer
    ensures labels == longer
  {
    assert longer[|labels| - 1] in lasts;
  }

  ghost predicate Ends(w: Outcome, labels: seq<Label>, lasts: set<Label>) {
    !w.Short? ==> w.Written? && w.labels == labels && AllEndIn(w.draft, [], lasts)
  }

  lemma EndsWord(d: Draft, labels: seq<Label>, lasts: set<Label>)
    requires WordNeeded(d, labels) && EndsIn(labels, lasts) && AllEndIn(d, labels, lasts)
    ensures AllEndIn(PutWord(d, labels[0]), labels[1..], lasts) && EndsIn(labels[1..], lasts)
  {
    var e := PutWord(d, labels[0]);
    forall o | o in e.partial ensures EndsIn(e.partial[o] + labels[1..], lasts) {
      if o == d.pos {
        assert e.partial[o] + labels[1..] == labels;
      } else {
        assert e.partial[o] + labels[1..] == d.partial[o] + labels;
      }
    }
  }

  lemma EndsSettled(d: Draft, labels: seq<Label>, lasts: set<Label>)
    requires Frame(d) && Good(d) && EndsIn(labels, lasts) && AllEndIn(d, labels, lasts) && !WordNeeded(d, labels)
    requires Clear(d, labels)
    ensures Ends(Write(d, labels), labels, lasts)
  {
    if labels != [] {
      FoundIsStored(d, labels);
      var r := FindRef(d.buf, Candidates(d.table), 0, labels);
      if r.Some? {
        EndsInPrefix(labels, d.stored[r.value], lasts);
      }
    }
  }

  lemma {:induction false} WriteEnds(d: Draft, labels: seq<Label>, lasts: set<Label>)
    requires Good(d) && AllFit(labels) && Clear(d, labels) && EndsIn(labels, lasts) && AllEndIn(d, labels, lasts)
    ensures Ends(Write(d, labels), labels, lasts)
    decreases |labels|
  {
    hide Clear, Listed, FindRef;
    if WordNeeded(d, labels) {
      WordKeeps(d, labels[0]);
      ClearStep(d, labels);
      EndsWord(d, labels, lasts);
      WriteEnds(PutWord(d, labels[0]), labels[1..], lasts);
      WriteWord(d, labels);
      assert labels == [labels[0]] + labels[1..];
    } else {
      EndsSettled(d, labels, lasts);
    }
  }

  // ---------------------------------------------------------------- whole messages

  /** What composing a message does to its buffer: write a name, append other bytes, or fill in a byte left open
      before, such as those of a record's length. */
  datatype Edit = MakeName(labels: seq<Label>) | Append(bytes: seq<byte>) | Patch(at: nat, value: byte)

  datatype Entry = Entry(start: nat, labels: seq<Label>, end: nat)

  datatype Message = Message(buf: seq<byte>, pos: nat, table: Table, own: set<nat>, names: seq<Entry>)

  predicate Sane(m: Message) {
    m.pos <= |m.buf| && Sized(m.table)
  }

  /** `None` when the buffer is too small, which ends the composition, or a patch would hit a name. */
  function Apply(m: Message, e: Edit): (n: Option<Message>)
    requires Sane(m)
    ensures n.Some? ==> Sane(n.value)
  {
    match e
    case MakeName(labels) =>
      MakeGoesOn(m.buf, m.pos, labels, m.table);
      var r := Make(m.buf, m.pos, labels, m.table);
      if r.end.None? then None
      else Some(Message(r.buf, r.end.value, r.table, m.own + Span(m.pos, r.end.value),
                        m.names + [Entry(m.pos, labels, r.end.value)]))
    case Append(bytes) =>
      if |m.buf| - m.pos < |bytes| then None
      else Some(m.(buf := Overlay(m.buf, m.pos, bytes), pos := m.pos + |bytes|))
    case Patch(at, value) =>
      if at < m.pos && at !in m.own then Some(m.(buf := m.buf[at := value])) else None
  }

  /** A written name leaves the bytes before it alone and ends in the buffer. */
  lemma {:induction false} MakeGoesOn(buf: seq<byte>, pos: nat, labels: seq<Label>, table: Table)
    requires pos <= |buf| && Sized(table)
    ensures var r := Make(buf, pos, labels, table);
            |r.buf| == |buf| && r.buf[..pos] == buf[..pos] && Sized(r.table) && (r.end.Some? ==> pos < r.end.value <= |buf|)
    decreases |labels|
  {
    hide FindRef, Add;
    if labels != [] && FindRef(buf, Candidates(table), 0, labels).None? && |buf| - pos > |labels[0]| + 1 {
      var b, p := Overlay(buf, pos, Literal(labels[0])), pos + |labels[0]| + 1;
      MakeGoesOn(b, p, labels[1..], Add(table, pos));
      var r := Make(b, p, labels[1..], Add(table, pos));
      assert r.buf[..pos] == r.buf[..p][..pos];
    }
  }

  function Compose(m: Message, edits: seq<Edit>): Option<Message>
    requires Sane(m)
    decreases |edits|
  {
    if edits == [] then Some(m)
    else
      var r := Apply(m, edits[0]);
      if r.None? then None else Compose(r.value, edits[1..])
  }

  /** A draft behind a message: every name recorded stands, and may be pointed into. */
  ghost predicate Carries(d: Draft, m: Message) {
    && AtRest(d) && d.buf == m.buf && d.pos == m.pos && d.table == m.table && d.own <= m.own
    && forall n :: n in m.names ==> NameStands(d, n)
  }

  ghost predicate NameStands(d: Draft, n: Entry) {
    && n.start < n.end <= d.pos && |n.labels| <= MAX_SUBSTRINGS
    && Holds(d.buf, d.own, n.start, n.labels) && EndOf(d.buf, n.start, n.labels) == n.end
  }

  /** The search for the next name settles on one that ends with it. */
  ghost predicate Settles(m: Message, labels: seq<Label>)
    requires Sane(m)
  {
    TargetEnds(m.buf, m.pos, m.pos, labels, m.table)
  }

  lemma NameWritten(d: Draft, m: Message, labels: seq<Label>)
    requires Sane(m) && Carries(d, m) && Proper(labels)
    ensures var r, w := Apply(m, MakeName(labels)), Write(d, labels);
            && Exact(w, labels, Settles(m, labels)) && (r.None? <==> w.Short?)
            && (r.Some? ==> r.value.buf == w.draft.buf && r.value.pos == w.draft.pos && r.value.table == w.draft.table
                            && r.value.own == m.own + Span(m.pos, w.draft.pos)
                            && r.value.names == m.names + [Entry(m.pos, labels, w.draft.pos)] && Extends(d, w.draft))
    ensures var w := Write(d, labels);
            && (w.Written? ==> Stands(d, w.draft, labels, w.labels))
            && (w.Looped? ==> Frame(w.draft) && Loops(w.draft.buf, w.draft.own, d.pos))
  {
    RestIsSince(d);
    WriteIsMake(d, labels);
    WriteKeeps(d, labels);
    WriteLoops(d, labels, d.pos);
    WriteExact(d, d.pos, labels);
  }

  lemma NameCarries(d: Draft, m: Message, labels: seq<Label>) returns (e: Draft)
    requires Sane(m) && Carries(d, m) && Proper(labels) && (Apply(m, MakeName(labels)).Some? ==> Settles(m, labels))
    ensures var r := Apply(m, MakeName(labels));
            r.Some? ==> !Write(d, labels).Short? && e == Write(d, labels).draft && Carries(e, r.value)
  {
    e := d;
    NameWritten(d, m, labels);
    var r := Apply(m, MakeName(labels));
    if r.Some? {
      e := Write(d, labels).draft;
      forall n | n in r.value.names ensures NameStands(e, n) {
        if n in m.names {
          assert NameStands(d, n);
          HoldsElsewhere(d.buf, e.buf, d.own, e.own, n.start, n.labels);
        } else {
          assert n == Entry(m.pos, labels, e.pos);
        }
      }
    }
  }

  /** Bytes that belong to no name do not matter. */
  lemma OtherCarries(d: Draft, m: Message, edit: Edit) returns (e: Draft)
    requires Sane(m) && Carries(d, m) && !edit.MakeName?
    ensures var r := Apply(m, edit);
            r.Some? ==> Carries(e, r.value) && e.stored == d.stored && e.partial == d.partial
  {
    e := d;
    var r := Apply(m, edit);
    if r.Some? {
      e := d.(buf := r.value.buf, pos := r.value.pos);
      forall o | o in e.stored ensures StoredAt(e, o, e.stored[o]) {
        assert StoredAt(d, o, d.stored[o]);
        HoldsElsewhere(d.buf, e.buf, d.own, e.own, o, d.stored[o]);
      }
      forall n | n in r.value.names ensures NameStands(e, n) {
        assert NameStands(d, n);
        HoldsElsewhere(d.buf, e.buf, d.own, e.own, n.start, n.labels);
      }
    }
  }

  // ---------------------------------------------------------------- exactly when all names read back

  /** Along a composition every search settles on a name that ends with what was asked for. */
  ghost predicate AllSettle(m: Message, edits: seq<Edit>)
    requires Sane(m)
    decreases |edits|
  {
    edits == []
    || var r := Apply(m, edits[0]);
       r.Some? ==> (edits[0].MakeName? ==> Settles(m, edits[0].labels)) && AllSettle(r.value, edits[1..])
  }

  ghost predicate AllProper(edits: seq<Edit>) {
    forall i :: 0 <= i < |edits| && edits[i].MakeName? ==> Proper(edits[i].labels)
  }

  lemma EditCarries(d: Draft, m: Message, edit: Edit) returns (e: Draft)
    requires Sane(m) && Carries(d, m)
    requires edit.MakeName? ==> Proper(edit.labels) && (Apply(m, edit).Some? ==> Settles(m, edit.labels))
    ensures Apply(m, edit).Some? ==> Carries(e, Apply(m, edit).value)
  {
    if edit.MakeName? {
      e := NameCarries(d, m, edit.labels);
    } else {
      e := OtherCarries(d, m, edit);
    }
  }

  lemma {:induction false} ComposeCarries(d: Draft, m: Message, edits: seq<Edit>) returns (e: Draft)
    requires Sane(m) && Carries(d, m) && AllProper(edits) && AllSettle(m, edits)
    ensures var r := Compose(m, edits); r.Some? ==> Carries(e, r.value)
    decreases |edits|
  {
    e := d;
    if edits != [] {
      e := EditCarries(d, m, edits[0]);
      var r := Apply(m, edits[0]);
      if r.Some? {
        e := ComposeCarries(e, r.value, edits[1..]);
      }
    }
  }

  /** What stands at `o` will never be read as `labels`: it has no end, or is another name. */
  ghost predicate Lost(buf: seq<byte>, own: set<nat>, o: nat, labels: seq<Label>) {
    Loops(buf, own, o) || exists other :: other != labels && Holds(buf, own, o, other)
  }

  lemma LostReads(buf: seq<byte>, own: set<nat>, o: nat, labels: seq<Label>, later: seq<byte>, end: nat)
    requires Lost(buf, own, o, labels) && forall i :: i in own ==> i < |later| && (i < |buf| ==> buf[i] == later[i])
    ensures Read(later, o, 0) != Name(labels, end)
  {
    if Loops(buf, own, o) {
      LoopReads(buf, own, o, later);
    } else {
      var other :| other != labels && Holds(buf, own, o, other);
      HoldsElsewhere(buf, later, own, own, o, other);
      HoldsRead(later, own, o, other, 0);
    }
  }

  /** A name whose search did not settle is lost as soon as it is written. */
  lemma NameLost(d: Draft, m: Message, labels: seq<Label>) returns (own: set<nat>)
    requires Sane(m) && Carries(d, m) && Proper(labels) && !Settles(m, labels) && Apply(m, MakeName(labels)).Some?
    ensures var r := Apply(m, MakeName(labels)).value;
            && Entry(m.pos, labels, r.pos) in r.names && Lost(r.buf, own, m.pos, labels)
            && own <= r.own && forall i :: i in own ==> i < r.pos
  {
    NameWritten(d, m, labels);
    own := Write(d, labels).draft.own;
  }

  /** Later edits leave the bytes of names alone. */
  lemma EditSpares(m: Message, edit: Edit, own: set<nat>)
    requires Sane(m) && own <= m.own && forall i :: i in own ==> i < m.pos
    ensures var r := Apply(m, edit);
            r.Some? ==> Spares(m, r.value, own)
  {
    if edit.MakeName? {
      MakeGoesOn(m.buf, m.pos, edit.labels, m.table);
      assert forall i :: i in own ==> m.buf[i] == m.buf[..m.pos][i];
    }
  }

  ghost predicate Spares(m: Message, n: Message, own: set<nat>) {
    && |n.buf| == |m.buf| && m.pos <= n.pos && own <= n.own
    && (forall i :: i in own ==> i < |m.buf| && n.buf[i] == m.buf[i])
    && (forall e :: e in m.names ==> e in n.names)
  }

  lemma {:induction false} ComposeSpares(m: Message, edits: seq<Edit>, own: set<nat>)
    requires Sane(m) && own <= m.own && forall i :: i in own ==> i < m.pos
    ensures var r := Compose(m, edits); r.Some? ==> Spares(m, r.value, own)
    decreases |edits|
  {
    if edits != [] {
      EditSpares(m, edits[0], own);
      var r := Apply(m, edits[0]);
      if r.Some? {
        ComposeSpares(r.value, edits[1..], own);
      }
    }
  }

  lemma {:induction false} ComposeLoses(d: Draft, m: Message, edits: seq<Edit>, size: nat) returns (n: Entry)
    requires Sane(m) && Carries(d, m) && AllProper(edits) && !AllSettle(m, edits)
    requires Compose(m, edits).Some? && Compose(m, edits).value.pos <= size <= |Compose(m, edits).value.buf|
    ensures var done := Compose(m, edits).value;
            n in done.names && Read(done.buf[..size], n.start, 0) != Name(n.labels, n.end)
    decreases |edits|
  {
    var r, done := Apply(m, edits[0]).value, Compose(m, edits).value;
    if edits[0].MakeName? && !Settles(m, edits[0].labels) {
      n := Entry(m.pos, edits[0].labels, r.pos);
      var own := NameLost(d, m, edits[0].labels);
      ComposeSpares(r, edits[1..], own);
      LostReads(r.buf, own, m.pos, n.labels, done.buf[..size], r.pos);
    } else {
      var e := EditCarries(d, m, edits[0]);
      n := ComposeLoses(e, r, edits[1..], size);
    }
  }

  /** A message before its first name: anything may stand in the buffer. */
  predicate Fresh(m: Message) {
    Sane(m) && |m.buf| <= MAX_BUFFER && m.own == {} && m.names == [] && (m.table.Slots? ==> m.table.count == 0)
  }

  /** The names written into a message, repeated labels or not, all read back from the finished message, each with its
      labels and with its end where the writer went on, exactly when every search settled on a name that ends with
      what was asked for. */
  lemma AllNamesReadBackIff(m: Message, edits: seq<Edit>, size: nat)
    requires Fresh(m) && AllProper(edits)
    requires Compose(m, edits).Some? && Compose(m, edits).value.pos <= size <= |Compose(m, edits).value.buf|
    ensures var done := Compose(m, edits).value;
            (forall n :: n in done.names ==> Read(done.buf[..size], n.start, 0) == Name(n.labels, n.end))
            <==> AllSettle(m, edits)
  {
    var d := Draft(m.buf, m.pos, m.table, {}, map[], map[]);
    var done := Compose(m, edits).value;
    if AllSettle(m, edits) {
      var e := ComposeCarries(d, m, edits);
      forall n | n in done.names ensures Read(done.buf[..size], n.start, 0) == Name(n.labels, n.end) {
        PrefixReads(e, n.start, n.labels, size);
      }
    } else {
      var n := ComposeLoses(d, m, edits, size);
    }
  }

  // ---------------------------------------------------------------- a discipline under which they do

  ghost predicate Backs(d: Draft, m: Message, lasts: set<Label>) {
    Carries(d, m) && AllEndIn(d, [], lasts)
  }

  /** A search for the rest of the name cannot end up in its own beginning, because no label is repeated or because
      only zeros follow and the last label is not. */
  ghost predicate NotInItself(buf: seq<byte>, pos: nat, labels: seq<Label>) {
    NoDup(labels) || (ZerosFrom(buf, pos) && LastIsNew(labels))
  }

  /** What is asked of an edit, when the bytes ahead are known to be zero or not. */
  ghost predicate Admissible(e: Edit, zeros: bool, lasts: set<Label>) {
    e.MakeName? ==> Proper(e.labels) && EndsIn(e.labels, lasts) && (NoDup(e.labels) || (zeros && LastIsNew(e.labels)))
  }

  ghost predicate ZerosKept(m: Message, n: Message) {
    ZerosFrom(m.buf, m.pos) ==> ZerosFrom(n.buf, n.pos)
  }

  lemma NameSettles(d: Draft, m: Message, labels: seq<Label>, lasts: set<Label>)
    requires Sane(m) && Backs(d, m, lasts) && Proper(labels) && NotInItself(m.buf, m.pos, labels) && EndsIn(labels, lasts)
    ensures Apply(m, MakeName(labels)).Some? ==> Settles(m, labels) && Ends(Write(d, labels), labels, lasts)
  {
    assert Clear(d, labels);
    NameWritten(d, m, labels);
    assert AllEndIn(d, labels, lasts);
    WriteEnds(d, labels, lasts);
  }

  lemma NameKeeps(d: Draft, m: Message, labels: seq<Label>, lasts: set<Label>) returns (e: Draft)
    requires Sane(m) && Backs(d, m, lasts) && Proper(labels) && NotInItself(m.buf, m.pos, labels) && EndsIn(labels, lasts)
    ensures var r := Apply(m, MakeName(labels)); r.Some? ==> Settles(m, labels) && Backs(e, r.value, lasts) && ZerosKept(m, r.value)
  {
    NameSettles(d, m, labels, lasts);
    NameWritten(d, m, labels);
    e := NameCarries(d, m, labels);
  }

  lemma OtherKeeps(d: Draft, m: Message, edit: Edit, lasts: set<Label>) returns (e: Draft)
    requires Sane(m) && Backs(d, m, lasts) && !edit.MakeName?
    ensures var r := Apply(m, edit); r.Some? ==> Backs(e, r.value, lasts) && ZerosKept(m, r.value)
  {
    e := OtherCarries(d, m, edit);
  }

  lemma {:induction false} ComposeSettles(d: Draft, m: Message, edits: seq<Edit>, zeros: bool, lasts: set<Label>)
    requires Sane(m) && Backs(d, m, lasts) && (zeros ==> ZerosFrom(m.buf, m.pos))
    requires forall i :: 0 <= i < |edits| ==> Admissible(edits[i], zeros, lasts)
    ensures AllSettle(m, edits)
    decreases |edits|
  {
    if edits != [] {
      var e;
      var first := edits[0];
      assert Admissible(first, zeros, lasts);
      if first.MakeName? {
        e := NameKeeps(d, m, first.labels, lasts);
      } else {
        e := OtherKeeps(d, m, first, lasts);
      }
      var r := Apply(m, first);
      if r.Some? {
        ComposeSettles(e, r.value, edits[1..], zeros, lasts);
      }
    }
  }

  /** Every name written into a message reads back from the finished message, whatever was written after it and
      however often the table of candidates has wrapped around, when no label is last in one name and not last in
      another. */
  lemma AllNamesReadBack(m: Message, edits: seq<Edit>, lasts: set<Label>, size: nat)
    requires Fresh(m)
    requires forall i :: 0 <= i < |edits| ==> Admissible(edits[i], ZerosFrom(m.buf, m.pos), lasts)
    requires Compose(m, edits).Some? && Compose(m, edits).value.pos <= size <= |Compose(m, edits).value.buf|
    ensures var done := Compose(m, edits).value;
            forall n :: n in done.names ==> Read(done.buf[..size], n.start, 0) == Name(n.labels, n.end)
  {
    ComposeSettles(Draft(m.buf, m.pos, m.table, {}, map[], map[]), m, edits, ZerosFrom(m.buf, m.pos), lasts);
    assert AllProper(edits) by {
      assert forall i :: 0 <= i < |edits| ==> Admissible(edits[i], ZerosFrom(m.buf, m.pos), lasts);
    }
    AllNamesReadBackIff(m, edits, size);
  }

  /** The names recorded are the ones asked for, in order. */
  function Asked(edits: seq<Edit>): seq<seq<Label>> {
    if edits == [] then []
    else (if edits[0].MakeName? then [edits[0].labels] else []) + Asked(edits[1..])
  }

  function LabelsOf(names: seq<Entry>): seq<seq<Label>> {
    seq(|names|, i requires 0 <= i < |names| => names[i].labels)
  }

  lemma {:induction false} NamesAreAsked(m: Message, edits: seq<Edit>)
    requires Sane(m) && Compose(m, edits).Some?
    ensures LabelsOf(Compose(m, edits).value.names) == LabelsOf(m.names) + Asked(edits)
    decreases |edits|
  {
    if edits != [] {
      var r := Apply(m, edits[0]).value;
      NamesAreAsked(r, edits[1..]);
      assert LabelsOf(r.names) == LabelsOf(m.names) + if edits[0].MakeName? then [edits[0].labels] else [];
    }
  }

  // ---------------------------------------------------------------- a name lost

  /** The bytes that labels take when written in full. */
  function Size(labels: seq<Label>): nat {
    if labels == [] then 0 else |labels[0]| + 1 + Size(labels[1..])
  }

  /** `d` has stored no name, and has room for one more in its buffer and its table. */
  ghost predicate Alone(d: Draft, labels: seq<Label>) {
    && Good(d) && AllFit(labels) && Clear(d, labels) && d.stored == map[]
    && d.pos + Size(labels) < |d.buf| && d.table.Slots? && d.table.count + |labels| <= TABLE_SIZE
  }

  ghost predicate Kept(partial: map<nat, seq<Label>>, rest: seq<Label>, stored: map<nat, seq<Label>>) {
    forall o :: o in partial ==> o in stored && stored[o] == partial[o] + rest
  }

  /** `w` wrote all labels in full and stored them, behind the candidates there were. */
  ghost predicate InFull(d: Draft, labels: seq<Label>, w: Outcome) {
    && w.Written? && w.labels == labels && w.draft.pos == d.pos + Size(labels) + 1
    && Sized(d.table) && Sized(w.draft.table) && Candidates(d.table) <= Candidates(w.draft.table)
    && Kept(d.partial, labels, w.draft.stored)
    && (labels != [] ==> |Candidates(d.table)| < |Candidates(w.draft.table)|
                         && Candidates(w.draft.table)[|Candidates(d.table)|] == d.pos
                         && d.pos in w.draft.stored && w.draft.stored[d.pos] == labels)
  }

  lemma KeptWord(before: map<nat, seq<Label>>, after: map<nat, seq<Label>>, pos: nat,
                 labels: seq<Label>, stored: map<nat, seq<Label>>)
    requires labels != [] && pos !in before && pos in after && after[pos] == [labels[0]]
    requires forall o :: o in before ==> o in after && after[o] == before[o] + [labels[0]]
    requires Kept(after, labels[1..], stored)
    ensures Kept(before, labels, stored) && pos in stored && stored[pos] == labels
  {
    assert [labels[0]] + labels[1..] == labels;
    forall o | o in before ensures o in stored && stored[o] == before[o] + labels {
      assert o in after && stored[o] == after[o] + labels[1..];
      assert before[o] + [labels[0]] + labels[1..] == before[o] + ([labels[0]] + labels[1..]);
    }
  }

  lemma AloneWord(d: Draft, labels: seq<Label>)
    requires Alone(d, labels) && labels != []
    ensures WordNeeded(d, labels) && Alone(PutWord(d, labels[0]), labels[1..])
  {
    FoundIsStored(d, labels);
    WordKeeps(d, labels[0]);
    ClearStep(d, labels);
  }

  lemma InFullWord(d: Draft, labels: seq<Label>, rest: Outcome)
    requires WordNeeded(d, labels) && d.pos !in d.partial && d.table.Slots? && d.table.count < TABLE_SIZE
    requires InFull(PutWord(d, labels[0]), labels[1..], rest)
    ensures InFull(d, labels, Written(rest.draft, labels))
  {
    AddCandidates(d.table, d.pos);
    KeptWord(d.partial, PutWord(d, labels[0]).partial, d.pos, labels, rest.draft.stored);
  }

  lemma NotPartial(d: Draft)
    requires Good(d)
    ensures d.pos !in d.partial
  {
    forall o | o in d.partial ensures o < d.pos {
      assert PartialAt(d, o, d.partial[o]);
      assert WordAt(d.buf, d.own, o, d.partial[o][0]);
      assert o in d.own;
    }
  }

  lemma {:induction false} WriteAlone(d: Draft, labels: seq<Label>)
    requires Alone(d, labels)
    ensures InFull(d, labels, Write(d, labels))
    decreases |labels|
  {
    if labels != [] {
      AloneWord(d, labels);
      NotPartial(d);
      WriteAlone(PutWord(d, labels[0]), labels[1..]);
      InFullWord(d, labels, Write(PutWord(d, labels[0]), labels[1..]));
      WriteWord(d, labels);
      assert [labels[0]] + labels[1..] == labels;
    }
  }

  function NewTable(): Table {
    Slots(seq(TABLE_SIZE, i => 0), 0, 0)
  }

  lemma PointsToFirst(d: Draft, labels: seq<Label>, k: nat)
    requires AtRest(d) && 0 < k < |labels| <= TABLE_SIZE && AllFit(labels) && NoDup(labels) && d.pos + 2 <= |d.buf|
    requires 0 in d.stored && d.stored[0] == labels && Candidates(d.table) != [] && Candidates(d.table)[0] == 0
    ensures ReadsLonger(Made(d.buf, d.table, Some(d.pos)), labels, k)
  {
    assert StoredAt(d, 0, d.stored[0]);
    HoldsMatch(d.buf, d.own, 0, labels, labels[..k]);
    assert FindRef(d.buf, Candidates(d.table), 0, labels[..k]) == Some(0);
    RefKeeps(d, 0);
    PrefixReads(PutRef(d, 0), d.pos, labels, d.pos + 2);
  }

  /** After `first`, a name of only the first `k` labels is written as a pointer and reads back with all of them. */
  ghost predicate ReadsLonger(first: Made, labels: seq<Label>, k: nat)
    requires k <= |labels|
  {
    && Sized(first.table) && first.end.Some? && first.end.value <= |first.buf|
    && var end, second := first.end.value, Make(first.buf, first.end.value, labels[..k], first.table);
       && second.end == Some(end + 2) && end + 2 <= |second.buf| == |first.buf|
       && Read(second.buf[..end + 2], end, 0) == Name(labels, end + 2)
  }

  /** A name that is the beginning of the one written before it is lost: it reads back as the longer one. */
  lemma ShorterNameLost(buf: seq<byte>, labels: seq<Label>, k: nat)
    requires 0 < k < |labels| <= TABLE_SIZE && AllFit(labels) && NoDup(labels)
    requires Size(labels) + 3 <= |buf| <= MAX_BUFFER
    ensures var first := Make(buf, 0, labels, NewTable());
            |first.buf| == |buf| && first.end == Some(Size(labels) + 1) && ReadsLonger(first, labels, k)
  {
    var d := Draft(buf, 0, NewTable(), {}, map[], map[]);
    WriteAlone(d, labels);
    WriteIsMake(d, labels);
    WriteKeeps(d, labels);
    LostAfter(d, Write(d, labels), Make(buf, 0, labels, NewTable()), labels, k);
  }

  lemma {:induction false} LostAfter(d: Draft, w: Outcome, first: Made, labels: seq<Label>, k: nat)
    requires 0 < k < |labels| <= TABLE_SIZE && AllFit(labels) && NoDup(labels)
    requires d.pos == 0 && Sized(d.table) && Candidates(d.table) == [] && Size(labels) + 3 <= |d.buf|
    requires InFull(d, labels, w) && Stands(d, w.draft, labels, labels) && Follows(first, w)
    ensures |first.buf| == |d.buf| && first.end == Some(Size(labels) + 1) && ReadsLonger(first, labels, k)
  {
    PointsToFirst(w.draft, labels, k);
  }

  /** "a.b.c" and then "a.b", in any buffer of nine bytes. */
  lemma ShorterNameLostExample(buf: seq<byte>)
    requires |buf| == 9
    ensures var first := Make(buf, 0, [[97], [98], [99]], NewTable());
            first.end == Some(7) && ReadsLonger(first, [[97], [98], [99]], 2)
  {
    var labels: seq<Label> := [[97], [98], [99]];
    assert Size(labels) == 6;
    ShorterNameLost(buf, labels, 2);
  }

  // ---------------------------------------------------------------- a name shared

  /** What is stored for the names that start inside `labels`. */
  ghost predicate OnlyEndings(d: Draft, labels: seq<Label>, stored: map<nat, seq<Label>>) {
    forall o :: o in stored && o !in d.partial ==> exists j: nat :: j < |labels| && stored[o] == labels[j..]
  }

  /** The search may start at the label `k`, from which the rest is stored. */
  ghost predicate OffersEnding(d: Draft, labels: seq<Label>, k: nat)
    requires k < |labels| && Sized(d.table)
  {
    exists o :: o in Candidates(d.table) && o in d.stored && d.stored[o] == labels[k..]
  }

  lemma {:induction false} EndingsStored(d: Draft, labels: seq<Label>, k: nat)
    requires Alone(d, labels) && k < |labels|
    ensures var w := Write(d, labels); w.Written? && Sized(w.draft.table) && OffersEnding(w.draft, labels, k)
    decreases |labels|
  {
    WriteAlone(d, labels);
    if k == 0 {
      FirstEnding(d, labels, Write(d, labels));
    } else {
      AloneWord(d, labels);
      WriteWord(d, labels);
      EndingsStored(PutWord(d, labels[0]), labels[1..], k - 1);
      assert labels[1..][k - 1..] == labels[k..];
    }
  }

  lemma FirstEnding(d: Draft, labels: seq<Label>, w: Outcome)
    requires labels != [] && InFull(d, labels, w)
    ensures OffersEnding(w.draft, labels, 0)
  {
    assert labels[0..] == labels;
    assert Candidates(w.draft.table)[|Candidates(d.table)|] == d.pos;
  }

  lemma {:induction false} EndingsOnly(d: Draft, labels: seq<Label>)
    requires Alone(d, labels)
    ensures var w := Write(d, labels); w.Written? && OnlyEndings(d, labels, w.draft.stored)
    decreases |labels|
  {
    WriteAlone(d, labels);
    if labels != [] {
      AloneWord(d, labels);
      WriteWord(d, labels);
      EndingsOnly(PutWord(d, labels[0]), labels[1..]);
      EndingsMore(d, labels, Write(d, labels));
    }
  }

  lemma EndingsMore(d: Draft, labels: seq<Label>, w: Outcome)
    requires Frame(d) && labels != [] && d.pos + |labels[0]| + 1 <= |d.buf| && InFull(d, labels, w)
    requires OnlyEndings(PutWord(d, labels[0]), labels[1..], w.draft.stored)
    ensures OnlyEndings(d, labels, w.draft.stored)
  {
    var stored := w.draft.stored;
    forall o | o in stored && o !in d.partial ensures exists j: nat :: j < |labels| && stored[o] == labels[j..] {
      if o == d.pos {
        assert stored[o] == labels[0..];
      } else {
        var j: nat :| j < |labels| - 1 && stored[o] == labels[1..][j..];
        assert labels[1..][j..] == labels[j + 1..];
      }
    }
  }

  /** Of the endings of a name without repeated labels only one starts with a given one. */
  lemma EndingIsOne(labels: seq<Label>, j: nat, k: nat)
    requires NoDup(labels) && j < |labels| && k < |labels| && labels[k..] <= labels[j..]
    ensures j == k
  {
    assert labels[k..][0] == labels[j..][0];
  }

  lemma OfferedEnding(d: Draft, rest: seq<Label>, o: nat)
    requires Good(d) && rest != [] && AllFit(rest) && o in Candidates(d.table) && o in d.stored && d.stored[o] == rest
    ensures FindRef(d.buf, Candidates(d.table), 0, rest).Some?
  {
    assert StoredAt(d, o, d.stored[o]);
    HoldsMatch(d.buf, d.own, o, rest, rest);
    if FindRef(d.buf, Candidates(d.table), 0, rest).None? {
      NoneMatches(d.buf, Candidates(d.table), 0, rest);
    }
  }

  lemma EndingFound(d: Draft, labels: seq<Label>, k: nat)
    requires AtRest(d) && k < |labels| && AllFit(labels) && NoDup(labels)
    requires OffersEnding(d, labels, k) && OnlyEndings(d, labels, d.stored)
    ensures var r := FindRef(d.buf, Candidates(d.table), 0, labels[k..]);
            r.Some? && r.value in d.stored && d.stored[r.value] == labels[k..]
  {
    hide FindRef, AllFit;
    var rest := labels[k..];
    var o :| o in Candidates(d.table) && o in d.stored && d.stored[o] == rest;
    EndingFits(labels, k);
    OfferedEnding(d, rest, o);
    FoundIsKnown(d, rest);
    var r := FindRef(d.buf, Candidates(d.table), 0, rest).value;
    var j: nat :| j < |labels| && d.stored[r] == labels[j..];
    EndingIsOne(labels, j, k);
  }

  lemma EndingFits(labels: seq<Label>, k: nat)
    requires AllFit(labels) && k < |labels|
    ensures AllFit(labels[k..])
  {
  }

  lemma MakeRef(buf: seq<byte>, pos: nat, labels: seq<Label>, t: Table, r: nat)
    requires Sized(t) && labels != [] && FindRef(buf, Candidates(t), 0, labels) == Some(r) && pos + 2 <= |buf|
    ensures Make(buf, pos, labels, t) == Made(Overlay(buf, pos, Pointer(r)), t, Some(pos + 2))
  {
  }

  lemma RefReads(d: Draft, r: nat, labels: seq<Label>)
    requires AtRest(d) && r in d.stored && d.stored[r] == labels && |labels| <= MAX_SUBSTRINGS && d.pos + 2 <= |d.buf|
    ensures var buf := Overlay(d.buf, d.pos, Pointer(r));
            |buf| == |d.buf| && Read(buf[..d.pos + 2], d.pos, 0) == Name(labels, d.pos + 2)
  {
    RefKeeps(d, r);
    PrefixReads(PutRef(d, r), d.pos, labels, d.pos + 2);
  }

  lemma PointsToEnding(d: Draft, labels: seq<Label>, k: nat)
    requires AtRest(d) && k < |labels| <= MAX_SUBSTRINGS && AllFit(labels) && NoDup(labels) && d.pos + 2 <= |d.buf|
    requires OffersEnding(d, labels, k) && OnlyEndings(d, labels, d.stored)
    ensures ReadsEnding(Made(d.buf, d.table, Some(d.pos)), labels, k)
  {
    EndingFound(d, labels, k);
    hide FindRef, OnlyEndings, OffersEnding, AllFit, NoDup, Make, Read;
    var r := FindRef(d.buf, Candidates(d.table), 0, labels[k..]).value;
    MakeRef(d.buf, d.pos, labels[k..], d.table, r);
    RefReads(d, r, labels[k..]);
  }

  /** After `first`, the ending of its name from label `k` on is written as a pointer and reads back. */
  ghost predicate ReadsEnding(first: Made, labels: seq<Label>, k: nat)
    requires k <= |labels|
  {
    && Sized(first.table) && first.end.Some? && first.end.value <= |first.buf|
    && var end, second := first.end.value, Make(first.buf, first.end.value, labels[k..], first.table);
       && second.end == Some(end + 2) && end + 2 <= |second.buf| == |first.buf|
       && Read(second.buf[..end + 2], end, 0) == Name(labels[k..], end + 2)
  }

  /** A name with which the one before it ends, as a whole or in part, takes two bytes and reads back. */
  lemma EndingIsShared(buf: seq<byte>, labels: seq<Label>, k: nat)
    requires k < |labels| <= TABLE_SIZE && AllFit(labels) && NoDup(labels)
    requires Size(labels) + 3 <= |buf| <= MAX_BUFFER
    ensures var first := Make(buf, 0, labels, NewTable());
            |first.buf| == |buf| && first.end == Some(Size(labels) + 1) && ReadsEnding(first, labels, k)
  {
    var d := Draft(buf, 0, NewTable(), {}, map[], map[]);
    WriteAlone(d, labels);
    EndingsStored(d, labels, k);
    EndingsOnly(d, labels);
    WriteIsMake(d, labels);
    WriteKeeps(d, labels);
    SharedAfter(d, Write(d, labels), Make(buf, 0, labels, NewTable()), labels, k);
  }

  lemma SharedAfter(d: Draft, w: Outcome, first: Made, labels: seq<Label>, k: nat)
    requires k < |labels| <= TABLE_SIZE && AllFit(labels) && NoDup(labels)
    requires d.pos == 0 && d.partial == map[] && Size(labels) + 3 <= |d.buf|
    requires InFull(d, labels, w) && OffersEnding(w.draft, labels, k) && OnlyEndings(d, labels, w.draft.stored)
    requires Stands(d, w.draft, labels, labels) && Follows(first, w)
    ensures |first.buf| == |d.buf| && first.end == Some(Size(labels) + 1) && ReadsEnding(first, labels, k)
  {
    hide OffersEnding, ReadsEnding, AllFit, Good, Holds;
    assert AtRest(w.draft) && OnlyEndings(w.draft, labels, w.draft.stored);
    PointsToEnding(w.draft, labels, k);
  }

  // ---------------------------------------------------------------- a first name, exactly

  /** The search may start at `o`, where the label `word` of the unfinished name stands. */
  ghost predicate Offered(d: Draft, o: nat, word: Label)
    requires Sized(d.table)
  {
    o in d.partial && d.partial[o] != [] && d.partial[o][0] == word && o in Candidates(d.table)
  }

  ghost predicate SomeOffered(d: Draft, word: Label)
    requires Sized(d.table)
  {
    exists o :: Offered(d, o, word)
  }

  /** The last label occurs before, in what is still to be written or in what has been. */
  ghost predicate Repeats(d: Draft, labels: seq<Label>)
    requires Sized(d.table)
  {
    labels != [] && (!LastIsNew(labels) || SomeOffered(d, labels[|labels| - 1]))
  }

  lemma RepeatsStep(d: Draft, labels: seq<Label>)
    requires Good(d) && WordNeeded(d, labels) && |labels| > 1 && Repeats(d, labels)
    requires d.table.Slots? && d.table.count < TABLE_SIZE
    ensures Repeats(PutWord(d, labels[0]), labels[1..])
  {
    hide Good, FindRef, Candidates, Literal;
    var e, last := PutWord(d, labels[0]), labels[|labels| - 1];
    AddCandidates(d.table, d.pos);
    NotPartial(d);
    if o :| Offered(d, o, last) {
      assert Offered(e, o, last);
    } else if labels[0] == last {
      assert Offered(e, d.pos, last);
    } else {
      assert labels[..|labels| - 1] == [labels[0]] + labels[1..][..|labels| - 2];
    }
  }

  lemma {:induction false} NoneMatches(buf: seq<byte>, candidates: seq<nat>, i: nat, labels: seq<Label>)
    requires FindRef(buf, candidates, i, labels).None?
    ensures forall k :: i <= k < |candidates| && candidates[k] < |buf| ==> !Match(buf, candidates[k], labels)
    decreases |candidates| - i
  {
    if i < |candidates| {
      NoneMatches(buf, candidates, i + 1, labels);
    }
  }

  lemma OfferedIsFound(d: Draft, o: nat, word: Label)
    requires Good(d) && Offered(d, o, word)
    ensures FindRef(d.buf, Candidates(d.table), 0, [word]).Some?
  {
    assert PartialAt(d, o, d.partial[o]);
    WordMatch(d.buf, d.own, o, word, [word]);
    if FindRef(d.buf, Candidates(d.table), 0, [word]).None? {
      NoneMatches(d.buf, Candidates(d.table), 0, [word]);
    }
  }

  /** Nothing is stored, and there is room for the labels in the buffer and the table. */
  ghost predicate First(d: Draft, labels: seq<Label>) {
    && Good(d) && AllFit(labels) && d.stored == map[]
    && d.pos + Size(labels) < |d.buf| && d.table.Slots? && d.table.count + |labels| <= TABLE_SIZE
  }

  /** A first name whose last label is repeated is ended by a pointer into itself. */
  lemma {:induction false} RepeatedLoops(d: Draft, labels: seq<Label>)
    requires First(d, labels) && Repeats(d, labels)
    ensures Write(d, labels).Looped?
    decreases |labels|
  {
    FoundIsKnown(d, labels);
    if FindRef(d.buf, Candidates(d.table), 0, labels).None? {
      if |labels| == 1 {
        assert labels == [labels[0]];
        var o :| Offered(d, o, labels[0]);
        OfferedIsFound(d, o, labels[0]);
      } else {
        RepeatsStep(d, labels);
        WordKeeps(d, labels[0]);
        WriteWord(d, labels);
        RepeatedLoops(PutWord(d, labels[0]), labels[1..]);
      }
    }
  }

  /** The first name of a message, wherever it starts, if it has room and at most sixteen labels: it has no end when
      its last label is repeated, and before zeros it reads back exactly when that is not so. */
  lemma {:induction false} FirstNameReadsBackIff(buf: seq<byte>, pos: nat, labels: seq<Label>, size: nat)
    requires AllFit(labels) && |labels| <= TABLE_SIZE && pos + Size(labels) < |buf| <= MAX_BUFFER
    ensures var m := Make(buf, pos, labels, NewTable());
            && m.end.Some? && m.end.value <= |m.buf| == |buf|
            && (m.end.value <= size <= |buf| ==>
                  && (!LastIsNew(labels) ==> Read(m.buf[..size], pos, 0).Failed?)
                  && (ZerosFrom(buf, pos) ==>
                        (Read(m.buf[..size], pos, 0) == Name(labels, m.end.value) <==> LastIsNew(labels))))
  {
    var d := Draft(buf, pos, NewTable(), {}, map[], map[]);
    var m, w := Make(buf, pos, labels, NewTable()), Write(d, labels);
    RestIsSince(d);
    WriteIsMake(d, labels);
    MakeGoesOn(buf, pos, labels, NewTable());
    HasRoom(d, labels);
    if m.end.value <= size <= |buf| {
      if !LastIsNew(labels) {
        RepeatedLoops(d, labels);
        WriteLoops(d, labels, pos);
        LoopReads(w.draft.buf, w.draft.own, pos, m.buf[..size]);
      } else if ZerosFrom(buf, pos) {
        WriteAlone(d, labels);
        WriteKeeps(d, labels);
        PrefixReads(w.draft, pos, labels, size);
      }
    }
  }

  lemma {:induction false} HasRoom(d: Draft, labels: seq<Label>)
    requires Good(d) && AllFit(labels) && d.pos + Size(labels) < |d.buf|
    ensures !Write(d, labels).Short?
    decreases |labels|
  {
    if labels != [] {
      assert Fits(labels[0]);
      if FindRef(d.buf, Candidates(d.table), 0, labels).None? {
        WordKeeps(d, labels[0]);
        WriteWord(d, labels);
        HasRoom(PutWord(d, labels[0]), labels[1..]);
      }
    }
  }

  /** "a.a" in any buffer of ten bytes: a label, and a pointer to it. */
  lemma {:induction false} RepeatedLabelLostExample(buf: seq<byte>)
    requires |buf| == 10
    ensures var m := Make(buf, 0, [[97], [97]], NewTable());
            m.end == Some(4) && |m.buf| == 10 && m.buf[..4] == [1, 97, 192, 0] && Read(m.buf[..4], 0, 0).Failed?
  {
    hide Read, Repeats;
    var labels: seq<Label> := [[97], [97]];
    assert Size(labels) == 4;
    var d := Draft(buf, 0, NewTable(), {}, map[], map[]);
    var e := PutWord(d, [97]);
    assert WordNeeded(d, labels);
    WordKeeps(d, [97]);
    MakeWord(d, labels);
    assert Candidates(e.table) == [0] by {
      AddCandidates(d.table, 0);
    }
    assert Offered(e, 0, [97]);
    OfferedIsFound(e, 0, [97]);
    FoundRef(e.buf, [0], 0, [[97]]);
    assert labels[1..] == [[97]];
    FirstNameReadsBackIff(buf, 0, labels, 4);
  }

  // ---------------------------------------------------------------- names as text

  lemma {:induction false} FirstDotIs(text: seq<byte>, offset: nat, dot: nat)
    requires offset <= dot <= |text| && (dot < |text| ==> text[dot] == DOT)
    requires forall i :: offset <= i < dot ==> text[i] != DOT
    ensures FirstDot(text, offset) == if dot < |text| then Some(dot) else None
    decreases |text| - offset
  {
    if offset < dot {
      FirstDotIs(text, offset + 1, dot);
    }
  }

  /** A label, up to a dot or the end of the text. */
  lemma SplitWord(before: nat, word: Label, text: seq<byte>)
    requires word != [] && DOT !in word && before + |word| <= |text| && text[before..before + |word|] == word
    requires before + |word| < |text| ==> text[before + |word|] == DOT
    ensures Split(text, before) == [word] + Split(text, before + |word| + 1)
  {
    var end := before + |word|;
    forall i | before <= i < end ensures text[i] != DOT {
      assert text[i] == word[i - before];
    }
    FirstDotIs(text, before, end);
  }

  /** From `at` on stand `labels`, each followed by a dot, but for the very last dot. */
  predicate Spelled(text: seq<byte>, at: nat, labels: seq<Label>) {
    if |text| < at then labels == []
    else text[at..] == Text(labels) || (labels != [] && text[at..] == Text(labels)[..|Text(labels)| - 1])
  }

  lemma SpelledWord(text: seq<byte>, at: nat, labels: seq<Label>)
    requires labels != [] && Spelled(text, at, labels)
    ensures var end := at + |labels[0]|;
            && end <= |text| && text[at..end] == labels[0] && (end < |text| ==> text[end] == DOT)
            && Spelled(text, end + 1, labels[1..])
  {
    var word, tail := labels[0], Text(labels[1..]);
    var rest, all := text[at..], word + [DOT] + tail;
    assert Text(labels) == all;
    var end := at + |word|;
    assert rest[..|word|] == word;
    if end < |text| {
      assert rest[|word|] == DOT && rest[|word| + 1..] == text[end + 1..];
      if rest != all {
        assert rest[|word| + 1..] == tail[..|tail| - 1];
      }
    }
  }

  /** Such a text splits into them. */
  lemma {:induction false} SplitText(text: seq<byte>, at: nat, labels: seq<Label>)
    requires forall i :: 0 <= i < |labels| ==> labels[i] != [] && DOT !in labels[i]
    requires Spelled(text, at, labels)
    ensures Split(text, at) == labels
    decreases |labels|
  {
    hide Split, Spelled;
    if labels == [] {
      SplitNothing(text, at);
    } else {
      var end := at + |labels[0]|;
      SpelledWord(text, at, labels);
      SplitWord(at, labels[0], text);
      SplitText(text, end + 1, labels[1..]);
      assert labels == [labels[0]] + labels[1..];
    }
  }

  lemma SplitNothing(text: seq<byte>, at: nat)
    requires Spelled(text, at, [])
    ensures Split(text, at) == []
  {
  }

  /** Writing the text that extraction returns, with or without its final dot, writes the same labels. */
  lemma {:induction false} TextIsName(labels: seq<Label>)
    requires labels != [] && forall i :: 0 <= i < |labels| ==> labels[i] != [] && DOT !in labels[i]
    ensures Text(labels) != [] && Stripped(Text(labels)) == Text(labels)[..|Text(labels)| - 1]
    ensures Split(Stripped(Text(labels)), 0) == labels && Split(Text(labels), 0) == labels
    ensures var bare := Stripped(Text(labels)); bare != [] && Stripped(bare) == bare
  {
    var last := labels[|labels| - 1];
    assert last[|last| - 1] != DOT;
    TextSnoc(labels[..|labels| - 1], last);
    assert labels[..|labels| - 1] + [labels[|labels| - 1]] == labels;
    var text := Text(labels);
    assert text[0..] == text && text[..|text| - 1][0..] == text[..|text| - 1];
    SplitText(text, 0, labels);
    SplitText(text[..|text| - 1], 0, labels);
  }
}
