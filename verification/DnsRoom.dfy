/** The room that names, records and answers take, and that an answer is refused only when there is less. */
module DnsRoom {
  import opened Lists
  import opened DnsNames
  import opened DnsWriter
  import opened DnsCompose
  import opened DnsMessage
  import opened DnsEdits

  // ---------------------------------------------------------------- one name

  /** Labels in full, each with its length byte. */
  function LabelsSize(labels: seq<Label>): nat {
    if labels == [] then 0 else |labels[0]| + 1 + LabelsSize(labels[1..])
  }

  /** A place in a buffer, and the table that goes with it. */
  datatype Spot = Spot(buf: seq<byte>, pos: nat, table: Table)

  predicate Sound(s: Spot) {
    s.pos <= |s.buf| && Sized(s.table)
  }

  function Word(s: Spot, word: Label): (t: Spot)
    requires Sound(s) && |word| + 1 <= |s.buf| - s.pos
    ensures Sound(t)
  {
    Spot(Overlay(s.buf, s.pos, Literal(word)), s.pos + |word| + 1, Add(s.table, s.pos))
  }

  /** The first `k` labels written in full, or those for which there is room. */
  function InFull(s: Spot, labels: seq<Label>, k: nat): (t: Spot)
    requires Sound(s)
    ensures Sound(t)
    decreases k
  {
    if k == 0 || labels == [] || |s.buf| - s.pos < |labels[0]| + 1 then s
    else InFull(Word(s, labels[0]), labels[1..], k - 1)
  }

  predicate Found(s: Spot, labels: seq<Label>)
    requires Sound(s)
  {
    FindRef(s.buf, Candidates(s.table), 0, labels).Some?
  }

  /** The search fails for what is left of the name after each of the first `k` labels, and then succeeds, unless the
      name is complete. */
  ghost predicate EndsAfter(s: Spot, labels: seq<Label>, k: nat)
    requires Sound(s)
  {
    && k <= |labels|
    && (forall i: nat :: i < k ==> !Found(InFull(s, labels, i), labels[i..]))
    && (k < |labels| ==> Found(InFull(s, labels, k), labels[k..]))
  }

  /** Then a pointer follows, or a zero. */
  function Needed(labels: seq<Label>, k: nat): nat
    requires k <= |labels|
  {
    LabelsSize(labels[..k]) + if k < |labels| then 2 else 1
  }

  ghost predicate NameFits(s: Spot, labels: seq<Label>)
    requires Sound(s)
  {
    exists k: nat :: k <= |labels| && EndsAfter(s, labels, k) && s.pos + Needed(labels, k) <= |s.buf|
  }

  lemma WordFirst(labels: seq<Label>, k: nat)
    requires 0 < k <= |labels|
    ensures Needed(labels, k) == |labels[0]| + 1 + Needed(labels[1..], k - 1)
  {
    assert labels[..k][1..] == labels[1..][..k - 1];
  }

  lemma EndsLater(s: Spot, labels: seq<Label>, k: nat)
    requires Sound(s) && labels != [] && !Found(s, labels) && |labels[0]| + 1 <= |s.buf| - s.pos
    requires 0 < k <= |labels|
    ensures EndsAfter(s, labels, k) <==> EndsAfter(Word(s, labels[0]), labels[1..], k - 1)
  {
    var t, more := Word(s, labels[0]), labels[1..];
    forall i: nat | 0 < i <= k ensures InFull(s, labels, i) == InFull(t, more, i - 1) && labels[i..] == more[i - 1..] {}
    assert InFull(s, labels, 0) == s && labels[0..] == labels;
    if EndsAfter(s, labels, k) {
      forall i: nat | i < k - 1 ensures !Found(InFull(t, more, i), more[i..]) {
        assert !Found(InFull(s, labels, i + 1), labels[i + 1..]);
      }
    }
  }

  lemma {:induction false} FitsMakes(s: Spot, labels: seq<Label>, k: nat)
    requires Sound(s) && k <= |labels| && EndsAfter(s, labels, k) && s.pos + Needed(labels, k) <= |s.buf|
    ensures Make(s.buf, s.pos, labels, s.table).end == Some(s.pos + Needed(labels, k))
    decreases |labels|
  {
    assert InFull(s, labels, 0) == s && labels[0..] == labels;
    if k > 0 {
      assert !Found(InFull(s, labels, 0), labels[0..]);
      WordFirst(labels, k);
      EndsLater(s, labels, k);
      FitsMakes(Word(s, labels[0]), labels[1..], k - 1);
    }
  }

  lemma {:induction false} MakeFits(s: Spot, labels: seq<Label>) returns (k: nat)
    requires Sound(s) && Make(s.buf, s.pos, labels, s.table).end.Some?
    ensures k <= |labels| && EndsAfter(s, labels, k)
    ensures Make(s.buf, s.pos, labels, s.table).end.value == s.pos + Needed(labels, k) <= |s.buf|
    decreases |labels|
  {
    assert InFull(s, labels, 0) == s && labels[0..] == labels;
    if labels == [] || Found(s, labels) {
      k := 0;
    } else {
      var t := Word(s, labels[0]);
      k := MakeFits(t, labels[1..]);
      k := k + 1;
      WordFirst(labels, k);
      EndsLater(s, labels, k);
    }
  }

  /** A name fits exactly when there is room for its labels up to the first place where the rest of it is found, and
      for the pointer, or for all labels and the zero when nothing is found. */
  lemma MakeFitsIff(s: Spot, labels: seq<Label>)
    requires Sound(s)
    ensures Make(s.buf, s.pos, labels, s.table).end.Some? <==> NameFits(s, labels)
  {
    if Make(s.buf, s.pos, labels, s.table).end.Some? {
      var k := MakeFits(s, labels);
    }
    if k: nat :| k <= |labels| && EndsAfter(s, labels, k) && s.pos + Needed(labels, k) <= |s.buf| {
      FitsMakes(s, labels, k);
    }
  }

  /** Without compression a name takes its labels and a zero, with it at least a pointer. */
  lemma {:induction false} MakeSize(s: Spot, labels: seq<Label>)
    requires Sound(s)
    ensures var end := Make(s.buf, s.pos, labels, s.table).end;
            && (s.pos + LabelsSize(labels) + 1 <= |s.buf| ==> end.Some?)
            && (end.Some? ==> s.pos + (if labels == [] then 1 else 2) <= end.value <= s.pos + LabelsSize(labels) + 1)
    decreases |labels|
  {
    if labels != [] && !Found(s, labels) && |labels[0]| + 1 < |s.buf| - s.pos {
      MakeSize(Word(s, labels[0]), labels[1..]);
    }
  }

  // ---------------------------------------------------------------- parts

  /** Patches need no room. */
  ghost predicate Room(m: Message, e: Edit)
    requires Sane(m)
  {
    match e
    case MakeName(labels) => NameFits(Spot(m.buf, m.pos, m.table), labels)
    case Append(bytes) => m.pos + |bytes| <= |m.buf|
    case Patch(_, _) => true
  }

  function Most(e: Edit): nat {
    match e
    case MakeName(labels) => LabelsSize(labels) + 1
    case Append(bytes) => |bytes|
    case Patch(_, _) => 0
  }

  function Fewest(e: Edit): nat {
    match e
    case MakeName(labels) => if labels == [] then 1 else 2
    case Append(bytes) => |bytes|
    case Patch(_, _) => 0
  }

  lemma ApplyIff(m: Message, e: Edit)
    requires Sane(m) && !e.Patch?
    ensures Apply(m, e).Some? <==> Room(m, e)
  {
    if e.MakeName? {
      MakeGoesOn(m.buf, m.pos, e.labels, m.table);
      MakeFitsIff(Spot(m.buf, m.pos, m.table), e.labels);
    }
  }

  lemma ApplySize(m: Message, e: Edit)
    requires Sane(m)
    ensures !e.Patch? && m.pos + Most(e) <= |m.buf| ==> Apply(m, e).Some?
    ensures Apply(m, e).Some? ==> m.pos + Fewest(e) <= Apply(m, e).value.pos <= m.pos + Most(e)
    ensures Apply(m, e).Some? ==> |Apply(m, e).value.buf| == |m.buf|
  {
    if e.MakeName? {
      MakeGoesOn(m.buf, m.pos, e.labels, m.table);
      MakeSize(Spot(m.buf, m.pos, m.table), e.labels);
    }
  }

  /** The edits that write something. */
  function Parts(edits: seq<Edit>): seq<Edit> {
    if edits == [] then [] else (if edits[0].Patch? then [] else [edits[0]]) + Parts(edits[1..])
  }

  function AtMost(parts: seq<Edit>): nat {
    if parts == [] then 0 else Most(parts[0]) + AtMost(parts[1..])
  }

  function AtLeast(parts: seq<Edit>): nat {
    if parts == [] then 0 else Fewest(parts[0]) + AtLeast(parts[1..])
  }

  lemma {:induction false} PartsJoin(es: seq<Edit>, fs: seq<Edit>)
    ensures Parts(es + fs) == Parts(es) + Parts(fs)
  {
    if es == [] {
      assert es + fs == fs;
    } else {
      PartsJoin(es[1..], fs);
      PartsFirst(es[0], es[1..], fs);
      assert [es[0]] + es[1..] == es;
    }
  }

  lemma PartsFirst(e: Edit, es: seq<Edit>, fs: seq<Edit>)
    requires Parts(es + fs) == Parts(es) + Parts(fs)
    ensures Parts([e] + es + fs) == Parts([e] + es) + Parts(fs)
  {
    var first := if e.Patch? then [] else [e];
    PartsMore(e, es);
    PartsMore(e, es + fs);
    hide Parts;
    assert [e] + es + fs == [e] + (es + fs);
    assert first + (Parts(es) + Parts(fs)) == first + Parts(es) + Parts(fs);
  }

  lemma PartsMore(e: Edit, es: seq<Edit>)
    ensures Parts([e] + es) == (if e.Patch? then [] else [e]) + Parts(es)
  {
    assert ([e] + es)[1..] == es;
  }

  lemma {:induction false} SizesConcat(es: seq<Edit>, fs: seq<Edit>)
    ensures AtMost(es + fs) == AtMost(es) + AtMost(fs) && AtLeast(es + fs) == AtLeast(es) + AtLeast(fs)
  {
    hide Most, Fewest;
    var gs := es + fs;
    if es == [] {
      assert gs == fs;
    } else {
      SizesConcat(es[1..], fs);
      assert gs[0] == es[0] && gs[1..] == es[1..] + fs;
      assert AtMost(gs) == Most(es[0]) + AtMost(gs[1..]);
      assert AtLeast(gs) == Fewest(es[0]) + AtLeast(gs[1..]);
    }
  }

  lemma PartsConcat(es: seq<Edit>, fs: seq<Edit>)
    ensures Parts(es + fs) == Parts(es) + Parts(fs)
    ensures AtMost(es + fs) == AtMost(es) + AtMost(fs) && AtLeast(es + fs) == AtLeast(es) + AtLeast(fs)
  {
    PartsJoin(es, fs);
    SizesConcat(es, fs);
  }

  lemma {:induction false} ComposeSize(m: Message, edits: seq<Edit>)
    requires Sane(m) && Compose(m, edits).Some?
    ensures var n := Compose(m, edits).value;
            Sane(n) && |n.buf| == |m.buf| && m.pos + AtLeast(Parts(edits)) <= n.pos <= m.pos + AtMost(Parts(edits))
    decreases |edits|
  {
    if edits != [] {
      ApplySize(m, edits[0]);
      ComposeSize(Apply(m, edits[0]).value, edits[1..]);
      PartsConcat(if edits[0].Patch? then [] else [edits[0]], Parts(edits[1..]));
    }
  }

  // ---------------------------------------------------------------- writing parts until one does not fit

  /** The parts have been written. */
  ghost predicate Complete(m: Message, parts: seq<Edit>, n: Message)
    requires Sane(m)
  {
    exists edits :: Compose(m, edits) == Some(n) && Parts(edits) == parts
  }

  /** Those before one of them have been written, and for this one there is no room. */
  ghost predicate Overruns(m: Message, parts: seq<Edit>)
    requires Sane(m)
  {
    exists edits, e :: EndsAt(m, edits, e) && Parts(edits) + [e] <= parts
  }

  ghost predicate EndsAt(m: Message, edits: seq<Edit>, e: Edit)
    requires Sane(m)
  {
    Compose(m, edits).Some? && Sane(Compose(m, edits).value) && !e.Patch? && !Room(Compose(m, edits).value, e)
  }

  ghost predicate Writes(m: Message, parts: seq<Edit>, r: Option<Message>)
    requires Sane(m)
  {
    if r.Some? then Sane(r.value) && Complete(m, parts, r.value) else Overruns(m, parts)
  }

  lemma WritesNothing(m: Message)
    requires Sane(m)
    ensures Writes(m, [], Some(m))
  {
    assert Compose(m, []) == Some(m) && Parts([]) == [];
  }

  lemma WritesOne(m: Message, e: Edit)
    requires Sane(m) && !e.Patch?
    ensures Writes(m, [e], Apply(m, e))
  {
    ApplyIff(m, e);
    ComposeOne(m, e);
    assert Compose(m, []) == Some(m) && Parts([]) == [] && [] + [e] <= [e] && Parts([e]) == [e];
    if Apply(m, e).None? {
      assert EndsAt(m, [], e) && Parts([]) + [e] <= [e];
    }
  }

  lemma WritesThen(m: Message, parts: seq<Edit>, n: Message, more: seq<Edit>, r: Option<Message>)
    requires Sane(m) && Writes(m, parts, Some(n)) && Writes(n, more, r)
    ensures Writes(m, parts + more, r)
  {
    var edits :| Compose(m, edits) == Some(n) && Parts(edits) == parts;
    if r.Some? {
      var rest :| Compose(n, rest) == Some(r.value) && Parts(rest) == more;
      ComposeConcat(m, edits, rest);
      PartsConcat(edits, rest);
    } else {
      var rest, e :| EndsAt(n, rest, e) && Parts(rest) + [e] <= more;
      ComposeConcat(m, edits, rest);
      PartsConcat(edits, rest);
      assert EndsAt(m, edits + rest, e);
      assert Parts(edits + rest) + [e] == parts + (Parts(rest) + [e]);
      assert parts + (Parts(rest) + [e]) <= parts + more;
    }
  }

  lemma WritesStop(m: Message, parts: seq<Edit>, more: seq<Edit>)
    requires Sane(m) && Writes(m, parts, None)
    ensures Writes(m, parts + more, None)
  {
    var edits, e :| EndsAt(m, edits, e) && Parts(edits) + [e] <= parts;
    assert Parts(edits) + [e] <= parts + more;
  }

  /** Patches in between do not matter. */
  lemma WritesPatched(m: Message, parts: seq<Edit>, n: Message, patches: seq<Edit>, p: Message)
    requires Sane(m) && Writes(m, parts, Some(n)) && Compose(n, patches) == Some(p) && Sane(p) && Parts(patches) == []
    ensures Writes(m, parts, Some(p))
  {
    var edits :| Compose(m, edits) == Some(n) && Parts(edits) == parts;
    ComposeConcat(m, edits, patches);
    PartsConcat(edits, patches);
  }

  /** Nothing overruns when there is room for all parts in full; what is complete took no more, and no less than the
      parts take when names are compressed. */
  lemma WritesWithin(m: Message, parts: seq<Edit>, r: Option<Message>)
    requires Sane(m) && Writes(m, parts, r)
    ensures m.pos + AtMost(parts) <= |m.buf| ==> r.Some?
    ensures r.Some? ==> m.pos + AtLeast(parts) <= r.value.pos <= m.pos + AtMost(parts) && r.value.pos <= |m.buf|
  {
    if r.Some? {
      var edits :| Compose(m, edits) == Some(r.value) && Parts(edits) == parts;
      ComposeSize(m, edits);
    } else {
      var edits, e :| EndsAt(m, edits, e) && Parts(edits) + [e] <= parts;
      var n := Compose(m, edits).value;
      ComposeSize(m, edits);
      ApplyIff(n, e);
      ApplySize(n, e);
      var done := Parts(edits) + [e];
      PartsConcat(Parts(edits), [e]);
      PartsConcat(done, parts[|done|..]);
      assert parts == done + parts[|done|..];
      assert AtMost([e]) == Most(e);
    }
  }

  // ---------------------------------------------------------------- the parts of an answer

  function RecordParts(r: Record, rclass: U16, ttl: U32): seq<Edit>
    requires Shaped(r)
  {
    if r.data.Txt? then [] else HeaderEdits(r.name, TypeOf(r.data), rclass, ttl) + DataEdits(r.data)
  }

  function RecordsParts(rs: seq<Record>, rclass: U16, ttl: U32): seq<Edit>
    requires forall r <- rs :: Shaped(r)
  {
    if rs == [] then [] else RecordParts(rs[0], rclass, ttl) + RecordsParts(rs[1..], rclass, ttl)
  }

  function TxtParts(rs: seq<Record>, rclass: U16, ttl: U32): seq<Edit>
    requires forall r <- rs :: Shaped(r)
  {
    FirstTxtIs(rs);
    match FirstTxt(rs)
    case None => []
    case Some(first) =>
      assert Shaped(first);
      HeaderEdits(first.name, TYPE_TXT, rclass, ttl) + StringsEdits(rs)
  }

  function SectionParts(rs: seq<Record>, rclass: U16, ttl: U32): seq<Edit>
    requires forall r <- rs :: Shaped(r)
  {
    RecordsParts(rs, rclass, ttl) + TxtParts(rs, rclass, ttl)
  }

  function BodyParts(a: Answer): seq<Edit>
    requires WellShaped(a)
  {
    RecordParts(a.answer, a.rclass, a.ttl) + SectionParts(a.authority, a.rclass, a.ttl) + SectionParts(a.additional, a.rclass, a.ttl)
  }

  function QuestionParts(a: Answer): seq<Edit>
    requires WellShaped(a)
  {
    if a.question.None? then []
    else [MakeName(LabelsOfText(a.question.value.1)), Append(Be16(a.question.value.0) + Be16(FLAGGED_IN))]
  }

  /** All that an answer has to write behind its header. */
  function AnswerParts(a: Answer): seq<Edit>
    requires WellShaped(a)
  {
    QuestionParts(a) + BodyParts(a)
  }

  /** A TXT string that is longer than the writer allows. */
  predicate TooLong(r: Record) {
    r.data.Txt? && |r.data.key| + |r.data.value| + 1 > MAX_STRING
  }

  predicate SomeTooLong(rs: seq<Record>) {
    exists r <- rs :: TooLong(r)
  }

  lemma WritesTwo(m: Message, e: Edit, f: Edit, r: Option<Message>)
    requires Sane(m) && !e.Patch? && !f.Patch?
    requires r == match Apply(m, e) case None => None case Some(n) => Apply(n, f)
    ensures Writes(m, [e, f], r)
  {
    hide Compose, Apply;
    WritesOne(m, e);
    assert [e, f] == [e] + [f];
    match Apply(m, e)
    case None => WritesStop(m, [e], [f]);
    case Some(n) =>
      WritesOne(n, f);
      WritesThen(m, [e], n, [f], r);
  }

  lemma HeaderWrites(m: Message, name: seq<byte>, rtype: U16, rclass: U16, ttl: U32)
    requires Sane(m) && name != []
    ensures Writes(m, HeaderEdits(name, rtype, rclass, ttl), AddHeader(m, name, rtype, rclass, ttl))
  {
    WritesTwo(m, MakeName(LabelsOfText(name)), Append(Fixed(rtype, rclass, ttl, 0)), AddHeader(m, name, rtype, rclass, ttl));
  }

  lemma DataWrites(m: Message, data: Data)
    requires Sane(m) && (data.Ptr? ==> data.target != []) && (data.Srv? ==> data.host != [])
    ensures Writes(m, DataEdits(data), AddData(m, data))
  {
    match data
    case Ptr(target) => WritesOne(m, MakeName(LabelsOfText(target)));
    case Srv(priority, weight, port, host) =>
      WritesTwo(m, Append(Be16(priority) + Be16(weight) + Be16(port)), MakeName(LabelsOfText(host)), AddData(m, data));
    case A(address) => WritesOne(m, Append(address));
    case Aaaa(address) => WritesOne(m, Append(address));
    case _ => WritesNothing(m);
  }

  /** The length of a record lies in front of its data, where no name is. */
  ghost predicate LengthOpen(m: Message, start: nat) {
    Sane(m) && 2 <= start <= m.pos && start - 2 !in m.own && start - 1 !in m.own
  }

  lemma LengthWrites(m: Message, parts: seq<Edit>, d: Message, start: nat)
    requires Sane(m) && Writes(m, parts, Some(d)) && LengthOpen(d, start)
    ensures SetLength(d, start).Some? && Writes(m, parts, SetLength(d, start))
  {
    hide Compose, Writes;
    var length := (d.pos - start) % 65536;
    var low, high := Patch(start - 1, length % 256), Patch(start - 2, length / 256);
    ComposeTwo(d, high, low);
    assert Parts([high, low]) == Parts([low]) == [] by {
      assert [high, low][1..] == [low];
    }
    WritesPatched(m, parts, d, [high, low], SetLength(d, start).value);
  }

  lemma RecordWrites(m: Message, r: Record, rclass: U16, ttl: U32)
    requires Sane(m) && Shaped(r) && Behind(m)
    ensures Writes(m, RecordParts(r, rclass, ttl), AddRecord(m, r, rclass, ttl))
    ensures var n := AddRecord(m, r, rclass, ttl); n.Some? ==> Behind(n.value)
  {
    hide Compose, Writes, AddHeader, AddData, HeaderEdits, DataEdits, SetLength;
    if r.data.Txt? {
      WritesNothing(m);
      return;
    }
    var header, data := HeaderEdits(r.name, TypeOf(r.data), rclass, ttl), DataEdits(r.data);
    HeaderGoesOn(m, r.name, TypeOf(r.data), rclass, ttl);
    HeaderWrites(m, r.name, TypeOf(r.data), rclass, ttl);
    match AddHeader(m, r.name, TypeOf(r.data), rclass, ttl)
    case None => WritesStop(m, header, data);
    case Some(h) =>
      HeaderOwns(m, r.name, TypeOf(r.data), rclass, ttl);
      DataGoesOn(h, r.data);
      DataWrites(h, r.data);
      WritesThen(m, header, h, data, AddData(h, r.data));
      match AddData(h, r.data)
      case None =>
      case Some(d) =>
        DataOwns(h, r.data);
        LengthWrites(m, header + data, d, h.pos);
        LengthOwns(d, h.pos);
  }

  lemma LengthOwns(m: Message, start: nat)
    requires Sane(m) && 2 <= start <= m.pos && SetLength(m, start).Some?
    ensures SetLength(m, start).value.own == m.own && SetLength(m, start).value.pos == m.pos
  {
  }

  lemma {:induction false} RecordsWrite(m: Message, rs: seq<Record>, rclass: U16, ttl: U32)
    requires Sane(m) && Behind(m) && forall r <- rs :: Shaped(r)
    ensures Writes(m, RecordsParts(rs, rclass, ttl), AddRecords(m, rs, rclass, ttl))
    ensures var n := AddRecords(m, rs, rclass, ttl); n.Some? ==> Behind(n.value)
    decreases |rs|
  {
    hide Compose, Writes, AddRecord, RecordParts;
    if rs == [] {
      WritesNothing(m);
    } else {
      RecordWrites(m, rs[0], rclass, ttl);
      match AddRecord(m, rs[0], rclass, ttl)
      case None => WritesStop(m, RecordParts(rs[0], rclass, ttl), RecordsParts(rs[1..], rclass, ttl));
      case Some(n) =>
        RecordsWrite(n, rs[1..], rclass, ttl);
        WritesThen(m, RecordParts(rs[0], rclass, ttl), n, RecordsParts(rs[1..], rclass, ttl), AddRecords(n, rs[1..], rclass, ttl));
    }
  }

  lemma TextSize(key: seq<byte>, value: seq<byte>)
    ensures |KeyValue(key, value)| == |key| + |value| + 1
  {
  }

  lemma {:induction false} StringsWrite(m: Message, rs: seq<Record>)
    requires Sane(m) && !SomeTooLong(rs)
    ensures Writes(m, StringsEdits(rs), AddStrings(m, rs))
    ensures var n := AddStrings(m, rs); n.Some? ==> n.value.own == m.own
    decreases |rs|
  {
    hide Compose, Writes, Counted, KeyValue;
    if rs == [] {
      WritesNothing(m);
    } else {
      assert !SomeTooLong(rs[1..]);
      assert !TooLong(rs[0]);
      if !rs[0].data.Txt? {
        StringsWrite(m, rs[1..]);
        assert StringsEdits(rs) == StringsEdits(rs[1..]);
      } else {
        var text := KeyValue(rs[0].data.key, rs[0].data.value);
        TextSize(rs[0].data.key, rs[0].data.value);
        var e := Append(Counted(text));
        WritesOne(m, e);
        match Apply(m, e)
        case None => WritesStop(m, [e], StringsEdits(rs[1..]));
        case Some(n) =>
          StringsWrite(n, rs[1..]);
          WritesThen(m, [e], n, StringsEdits(rs[1..]), AddStrings(n, rs[1..]));
      }
    }
  }

  lemma TxtWritesAs(m: Message, name: seq<byte>, rs: seq<Record>, rclass: U16, ttl: U32)
    requires Sane(m) && Behind(m) && name != [] && !SomeTooLong(rs)
    ensures Writes(m, HeaderEdits(name, TYPE_TXT, rclass, ttl) + StringsEdits(rs), AddTxtAs(m, name, rs, rclass, ttl))
    ensures var n := AddTxtAs(m, name, rs, rclass, ttl); n.Some? ==> Behind(n.value)
  {
    hide Compose, Writes, AddHeader, AddStrings, HeaderEdits, StringsEdits, SetLength;
    var header, strings := HeaderEdits(name, TYPE_TXT, rclass, ttl), StringsEdits(rs);
    HeaderGoesOn(m, name, TYPE_TXT, rclass, ttl);
    HeaderWrites(m, name, TYPE_TXT, rclass, ttl);
    match AddHeader(m, name, TYPE_TXT, rclass, ttl)
    case None => WritesStop(m, header, strings);
    case Some(h) =>
      HeaderOwns(m, name, TYPE_TXT, rclass, ttl);
      StringsWrite(h, rs);
      WritesThen(m, header, h, strings, AddStrings(h, rs));
      match AddStrings(h, rs)
      case None =>
      case Some(d) =>
        LengthWrites(m, header + strings, d, h.pos);
        LengthOwns(d, h.pos);
  }

  lemma TxtWrites(m: Message, rs: seq<Record>, rclass: U16, ttl: U32)
    requires Sane(m) && Behind(m) && (forall r <- rs :: Shaped(r)) && !SomeTooLong(rs)
    ensures Writes(m, TxtParts(rs, rclass, ttl), AddTxt(m, rs, rclass, ttl))
    ensures var n := AddTxt(m, rs, rclass, ttl); n.Some? ==> Behind(n.value)
  {
    FirstTxtIs(rs);
    match FirstTxt(rs)
    case None => WritesNothing(m);
    case Some(first) =>
      assert Shaped(first);
      TxtWritesAs(m, first.name, rs, rclass, ttl);
  }

  lemma SectionWrites(m: Message, rs: seq<Record>, rclass: U16, ttl: U32)
    requires Sane(m) && Behind(m) && (forall r <- rs :: Shaped(r)) && !SomeTooLong(rs)
    ensures Writes(m, SectionParts(rs, rclass, ttl), AddSection(m, rs, rclass, ttl))
    ensures var n := AddSection(m, rs, rclass, ttl); n.Some? ==> Behind(n.value)
  {
    hide Compose, Writes, AddRecords, AddTxt, RecordsParts, TxtParts;
    RecordsWrite(m, rs, rclass, ttl);
    match AddRecords(m, rs, rclass, ttl)
    case None => WritesStop(m, RecordsParts(rs, rclass, ttl), TxtParts(rs, rclass, ttl));
    case Some(n) =>
      TxtWrites(n, rs, rclass, ttl);
      WritesThen(m, RecordsParts(rs, rclass, ttl), n, TxtParts(rs, rclass, ttl), AddTxt(n, rs, rclass, ttl));
  }

  predicate Brief(a: Answer) {
    !SomeTooLong(a.authority) && !SomeTooLong(a.additional)
  }

  lemma BodyWrites(q: Message, a: Answer)
    requires Sane(q) && Behind(q) && WellShaped(a) && Brief(a)
    ensures Writes(q, BodyParts(a), Body(q, a))
  {
    hide Compose, Writes, AddRecord, AddSection, RecordParts, SectionParts, SomeTooLong;
    var first := RecordParts(a.answer, a.rclass, a.ttl);
    var second, third := SectionParts(a.authority, a.rclass, a.ttl), SectionParts(a.additional, a.rclass, a.ttl);
    RecordWrites(q, a.answer, a.rclass, a.ttl);
    match AddRecord(q, a.answer, a.rclass, a.ttl)
    case None =>
      WritesStop(q, first, second);
      WritesStop(q, first + second, third);
    case Some(r) =>
      SectionWrites(r, a.authority, a.rclass, a.ttl);
      WritesThen(q, first, r, second, AddSection(r, a.authority, a.rclass, a.ttl));
      match AddSection(r, a.authority, a.rclass, a.ttl)
      case None => WritesStop(q, first + second, third);
      case Some(s) =>
        SectionWrites(s, a.additional, a.rclass, a.ttl);
        WritesThen(q, first + second, s, third, AddSection(s, a.additional, a.rclass, a.ttl));
  }

  /** An answer is written part by part, and refused only at a part for which there is no room where it would go. */
  lemma CompileWrites(buf: seq<byte>, a: Answer)
    requires WellShaped(a) && Brief(a) && MIN_CAPACITY <= |buf|
    ensures Writes(HeaderMessage(buf, a), AnswerParts(a), Compile(buf, a))
  {
    hide Compose, Writes, Body, BodyParts, Brief;
    var h := HeaderMessage(buf, a);
    if a.question.None? {
      BodyWrites(h, a);
      assert AnswerParts(a) == BodyParts(a);
    } else {
      var (rtype, name) := a.question.value;
      var q := AddQuestion(h, rtype, name);
      WritesTwo(h, MakeName(LabelsOfText(name)), Append(Be16(rtype) + Be16(FLAGGED_IN)), q);
      match q
      case None => WritesStop(h, QuestionParts(a), BodyParts(a));
      case Some(m) =>
        NameOwns(h, name);
        BodyWrites(m, a);
        WritesThen(h, QuestionParts(a), m, BodyParts(a), Body(m, a));
    }
  }

  // ---------------------------------------------------------------- sizes

  /** A name written in full has one byte more than its text, which is the length of the first label, and a zero; one
      that is a pointer has two. A final dot does not count, nor does a second one; the root is a zero only. */
  function NameSize(name: seq<byte>, packed: bool): nat
    requires name != []
  {
    var text := Stripped(name);
    if text == [] then 1 else if packed then 2 else |text| + if text[|text| - 1] == DOT then 1 else 2
  }

  function DataSize(data: Data, packed: bool): nat
    requires (data.Ptr? ==> data.target != []) && (data.Srv? ==> data.host != [])
  {
    match data
    case Ptr(target) => NameSize(target, packed)
    case Srv(_, _, _, host) => 6 + NameSize(host, packed)
    case A(_) => 4
    case Aaaa(_) => 16
    case _ => 0
  }

  /** Name, type, class, time to live and length, and the data. */
  function RecordSize(r: Record, packed: bool): nat
    requires Shaped(r)
  {
    NameSize(r.name, packed) + 10 + DataSize(r.data, packed)
  }

  /** The records that are not TXT records, and the strings of those that are, each with a length byte. */
  function RecordSizes(rs: seq<Record>, packed: bool): nat
    requires forall r <- rs :: Shaped(r)
  {
    if rs == [] then 0
    else (if rs[0].data.Txt? then |rs[0].data.key| + |rs[0].data.value| + 2 else RecordSize(rs[0], packed))
         + RecordSizes(rs[1..], packed)
  }

  /** The strings share a record under the first of their names. */
  function SectionSize(rs: seq<Record>, packed: bool): nat
    requires forall r <- rs :: Shaped(r)
  {
    FirstTxtIs(rs);
    RecordSizes(rs, packed)
    + match FirstTxt(rs) case None => 0 case Some(first) => assert Shaped(first); NameSize(first.name, packed) + 10
  }

  /** The bytes of an answer when all names are written in full, or when all are pointers. */
  function AnswerSize(a: Answer, packed: bool): nat
    requires WellShaped(a)
  {
    HEADER_SIZE + (if a.question.Some? then NameSize(a.question.value.1, packed) + 4 else 0)
    + (if a.answer.data.Txt? then 0 else RecordSize(a.answer, packed))
    + SectionSize(a.authority, packed) + SectionSize(a.additional, packed)
  }

  lemma {:induction false} SplitSize(text: seq<byte>, offset: nat)
    ensures LabelsSize(Split(text, offset))
            == if |text| <= offset then 0 else |text| - offset + if text[|text| - 1] == DOT then 0 else 1
    decreases |text| - offset
  {
    if offset < |text| {
      var end := LabelEnd(text, offset);
      SplitSize(text, end + 1);
      LabelStops(text, offset);
      assert ([text[offset..end]] + Split(text, end + 1))[1..] == Split(text, end + 1);
    }
  }

  lemma {:induction false} LabelStops(text: seq<byte>, offset: nat)
    requires offset < |text|
    ensures var end := LabelEnd(text, offset);
            if end < |text| then text[end] == DOT else text[|text| - 1] != DOT
    decreases |text| - offset
  {
    if text[offset] != DOT && offset + 1 < |text| {
      LabelStops(text, offset + 1);
    }
  }

  /** The two bounds of a list of parts. */
  function Bound(parts: seq<Edit>, packed: bool): nat {
    if packed then AtLeast(parts) else AtMost(parts)
  }

  lemma BoundOne(e: Edit, packed: bool)
    ensures Bound([e], packed) == if packed then Fewest(e) else Most(e)
  {
    assert AtMost([e][1..]) == AtLeast([e][1..]) == 0;
  }

  lemma NameBound(name: seq<byte>, packed: bool)
    requires name != []
    ensures Bound([MakeName(LabelsOfText(name))], packed) == NameSize(name, packed)
  {
    SplitSize(Stripped(name), 0);
    BoundOne(MakeName(LabelsOfText(name)), packed);
  }

  lemma BytesBound(bytes: seq<byte>, packed: bool)
    ensures Bound([Append(bytes)], packed) == |bytes|
  {
    BoundOne(Append(bytes), packed);
  }

  lemma BoundTwo(e: Edit, f: Edit, packed: bool)
    ensures Bound([e, f], packed) == Bound([e], packed) + Bound([f], packed)
  {
    PartsConcat([e], [f]);
    assert [e] + [f] == [e, f];
  }

  lemma HeaderBound(name: seq<byte>, rtype: U16, rclass: U16, ttl: U32, packed: bool)
    requires name != []
    ensures Bound(HeaderEdits(name, rtype, rclass, ttl), packed) == NameSize(name, packed) + 10
  {
    BoundTwo(MakeName(LabelsOfText(name)), Append(Fixed(rtype, rclass, ttl, 0)), packed);
    NameBound(name, packed);
    BytesBound(Fixed(rtype, rclass, ttl, 0), packed);
  }

  lemma DataBound(r: Record, packed: bool)
    requires Shaped(r)
    ensures Bound(DataEdits(r.data), packed) == DataSize(r.data, packed)
  {
    match r.data
    case Ptr(target) => NameBound(target, packed);
    case Srv(priority, weight, port, host) =>
      BoundTwo(Append(Be16(priority) + Be16(weight) + Be16(port)), MakeName(LabelsOfText(host)), packed);
      BytesBound(Be16(priority) + Be16(weight) + Be16(port), packed);
      NameBound(host, packed);
    case A(address) => BytesBound(address, packed);
    case Aaaa(address) => BytesBound(address, packed);
    case _ =>
  }

  lemma RecordBound(r: Record, rclass: U16, ttl: U32, packed: bool)
    requires Shaped(r)
    ensures Bound(RecordParts(r, rclass, ttl), packed) == if r.data.Txt? then 0 else RecordSize(r, packed)
  {
    if !r.data.Txt? {
      HeaderBound(r.name, TypeOf(r.data), rclass, ttl, packed);
      DataBound(r, packed);
      PartsConcat(HeaderEdits(r.name, TypeOf(r.data), rclass, ttl), DataEdits(r.data));
    }
  }

  lemma StringBound(r: Record, packed: bool)
    requires r.data.Txt?
    ensures Bound([Append(Counted(KeyValue(r.data.key, r.data.value)))], packed) == |r.data.key| + |r.data.value| + 2
  {
    BytesBound(Counted(KeyValue(r.data.key, r.data.value)), packed);
  }

  lemma {:induction false} RecordsBound(rs: seq<Record>, rclass: U16, ttl: U32, packed: bool)
    requires forall r <- rs :: Shaped(r)
    ensures Bound(RecordsParts(rs, rclass, ttl), packed) + Bound(StringsEdits(rs), packed) == RecordSizes(rs, packed)
  {
    hide RecordParts, RecordSize, Counted, KeyValue, Shaped;
    if rs != [] {
      RecordsBound(rs[1..], rclass, ttl, packed);
      RecordBound(rs[0], rclass, ttl, packed);
      PartsConcat(RecordParts(rs[0], rclass, ttl), RecordsParts(rs[1..], rclass, ttl));
      if rs[0].data.Txt? {
        StringBound(rs[0], packed);
        PartsConcat([Append(Counted(KeyValue(rs[0].data.key, rs[0].data.value)))], StringsEdits(rs[1..]));
      } else {
        assert StringsEdits(rs) == StringsEdits(rs[1..]);
      }
    }
  }

  lemma {:induction false} NoStrings(rs: seq<Record>)
    requires FirstTxt(rs).None?
    ensures StringsEdits(rs) == []
  {
    if rs != [] {
      NoStrings(rs[1..]);
    }
  }

  lemma SectionBound(rs: seq<Record>, rclass: U16, ttl: U32, packed: bool)
    requires forall r <- rs :: Shaped(r)
    ensures Bound(SectionParts(rs, rclass, ttl), packed) == SectionSize(rs, packed)
  {
    hide RecordSize, RecordParts, HeaderEdits;
    RecordsBound(rs, rclass, ttl, packed);
    PartsConcat(RecordsParts(rs, rclass, ttl), TxtParts(rs, rclass, ttl));
    FirstTxtIs(rs);
    match FirstTxt(rs)
    case None => NoStrings(rs);
    case Some(first) =>
      assert Shaped(first);
      HeaderBound(first.name, TYPE_TXT, rclass, ttl, packed);
      PartsConcat(HeaderEdits(first.name, TYPE_TXT, rclass, ttl), StringsEdits(rs));
  }

  lemma QuestionBound(a: Answer, packed: bool)
    requires WellShaped(a)
    ensures Bound(QuestionParts(a), packed) == if a.question.Some? then NameSize(a.question.value.1, packed) + 4 else 0
  {
    if a.question.Some? {
      var (rtype, name) := a.question.value;
      BoundTwo(MakeName(LabelsOfText(name)), Append(Be16(rtype) + Be16(FLAGGED_IN)), packed);
      NameBound(name, packed);
      BytesBound(Be16(rtype) + Be16(FLAGGED_IN), packed);
    }
  }

  lemma AnswerBound(a: Answer, packed: bool)
    requires WellShaped(a)
    ensures HEADER_SIZE + Bound(AnswerParts(a), packed) == AnswerSize(a, packed)
  {
    hide RecordParts, RecordSize, SectionParts, SectionSize, QuestionParts, NameSize;
    var first := RecordParts(a.answer, a.rclass, a.ttl);
    var second, third := SectionParts(a.authority, a.rclass, a.ttl), SectionParts(a.additional, a.rclass, a.ttl);
    QuestionBound(a, packed);
    RecordBound(a.answer, a.rclass, a.ttl, packed);
    SectionBound(a.authority, a.rclass, a.ttl, packed);
    SectionBound(a.additional, a.rclass, a.ttl, packed);
    PartsConcat(first, second);
    PartsConcat(first + second, third);
    PartsConcat(QuestionParts(a), BodyParts(a));
  }

  // ---------------------------------------------------------------- main results

  lemma {:induction false} LongStrings(m: Message, rs: seq<Record>)
    requires Sane(m) && SomeTooLong(rs)
    ensures AddStrings(m, rs).None?
    decreases |rs|
  {
    hide Counted;
    assert rs == [rs[0]] + rs[1..];
    if !TooLong(rs[0]) {
      assert SomeTooLong(rs[1..]);
      if !rs[0].data.Txt? {
        LongStrings(m, rs[1..]);
      } else {
        var n := AddBytes(m, Counted(KeyValue(rs[0].data.key, rs[0].data.value)));
        if n.Some? {
          LongStrings(n.value, rs[1..]);
        }
      }
    }
  }

  lemma LongSection(m: Message, rs: seq<Record>, rclass: U16, ttl: U32)
    requires Sane(m) && (forall r <- rs :: Shaped(r)) && SomeTooLong(rs)
    ensures AddSection(m, rs, rclass, ttl).None?
  {
    hide AddRecords, AddHeader, AddStrings, SetLength;
    FirstTxtIs(rs);
    var n := AddRecords(m, rs, rclass, ttl);
    if n.Some? {
      var name := FirstTxt(rs).value.name;
      assert Shaped(FirstTxt(rs).value);
      HeaderGoesOn(n.value, name, TYPE_TXT, rclass, ttl);
      var h := AddHeader(n.value, name, TYPE_TXT, rclass, ttl);
      if h.Some? {
        LongStrings(h.value, rs);
      }
    }
  }

  lemma CompiledIsBrief(buf: seq<byte>, a: Answer)
    requires WellShaped(a) && Compile(buf, a).Some?
    ensures Brief(a)
  {
    hide AddRecord, AddSection, AddQuestion, SomeTooLong;
    var h := HeaderMessage(buf, a);
    var q := if a.question.None? then h else AddQuestion(h, a.question.value.0, a.question.value.1).value;
    var r := AddRecord(q, a.answer, a.rclass, a.ttl).value;
    if SomeTooLong(a.authority) {
      LongSection(r, a.authority, a.rclass, a.ttl);
    }
    var s := AddSection(r, a.authority, a.rclass, a.ttl).value;
    if SomeTooLong(a.additional) {
      LongSection(s, a.additional, a.rclass, a.ttl);
    }
  }

  /** An answer without strings that are too long is compiled whenever it would fit without compression. */
  lemma CompileFits(buf: seq<byte>, a: Answer)
    requires WellShaped(a) && Brief(a) && MIN_CAPACITY <= |buf| && AnswerSize(a, false) <= |buf|
    ensures Compile(buf, a).Some?
  {
    hide Compile, Writes;
    CompileWrites(buf, a);
    WritesWithin(HeaderMessage(buf, a), AnswerParts(a), Compile(buf, a));
    AnswerBound(a, false);
  }

  /** What has been compiled ends in the buffer, took no more than without compression, and no less than with nothing
      but pointers for names; no string was too long. */
  lemma CompiledSize(buf: seq<byte>, a: Answer)
    requires WellShaped(a) && Compile(buf, a).Some?
    ensures MIN_CAPACITY <= |buf| && Brief(a)
    ensures AnswerSize(a, true) <= Compile(buf, a).value.pos <= AnswerSize(a, false) && Compile(buf, a).value.pos <= |buf|
  {
    CompiledIsBrief(buf, a);
    CompileWrites(buf, a);
    assert MIN_CAPACITY <= |buf|;
    hide Compile, Writes;
    WritesWithin(HeaderMessage(buf, a), AnswerParts(a), Compile(buf, a));
    AnswerBound(a, false);
    AnswerBound(a, true);
  }
}
