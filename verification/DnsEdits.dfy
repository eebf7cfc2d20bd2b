/** An answer as a composition of names, other bytes and patches. */
module DnsEdits {
  import opened Lists
  import opened DnsNames
  import opened DnsCompose
  import opened DnsMessage

  function HeaderEdits(name: seq<byte>, rtype: U16, rclass: U16, ttl: U32): seq<Edit>
    requires name != []
  {
    [MakeName(LabelsOfText(name)), Append(Fixed(rtype, rclass, ttl, 0))]
  }

  function DataEdits(data: Data): seq<Edit>
    requires (data.Ptr? ==> data.target != []) && (data.Srv? ==> data.host != [])
  {
    match data
    case Ptr(target) => [MakeName(LabelsOfText(target))]
    case Srv(priority, weight, port, host) =>
      [Append(Be16(priority) + Be16(weight) + Be16(port)), MakeName(LabelsOfText(host))]
    case A(address) => [Append(address)]
    case Aaaa(address) => [Append(address)]
    case _ => []
  }

  function LengthEdits(m: Message, start: nat): seq<Edit>
    requires 2 <= start <= m.pos
  {
    var length := (m.pos - start) % 65536;
    [Patch(start - 2, length / 256), Patch(start - 1, length % 256)]
  }

  function RecordEdits(m: Message, r: Record, rclass: U16, ttl: U32): seq<Edit>
    requires Sane(m) && Shaped(r) && AddRecord(m, r, rclass, ttl).Some?
  {
    if r.data.Txt? then []
    else
      HeaderGoesOn(m, r.name, TypeOf(r.data), rclass, ttl);
      var h := AddHeader(m, r.name, TypeOf(r.data), rclass, ttl).value;
      DataGoesOn(h, r.data);
      HeaderEdits(r.name, TypeOf(r.data), rclass, ttl) + DataEdits(r.data) + LengthEdits(AddData(h, r.data).value, h.pos)
  }

  function RecordsEdits(m: Message, rs: seq<Record>, rclass: U16, ttl: U32): seq<Edit>
    requires Sane(m) && (forall r <- rs :: Shaped(r)) && AddRecords(m, rs, rclass, ttl).Some?
    decreases |rs|
  {
    if rs == [] then []
    else RecordEdits(m, rs[0], rclass, ttl) + RecordsEdits(AddRecord(m, rs[0], rclass, ttl).value, rs[1..], rclass, ttl)
  }

  function StringsEdits(rs: seq<Record>): seq<Edit> {
    if rs == [] then []
    else (if rs[0].data.Txt? then [Append(Counted(KeyValue(rs[0].data.key, rs[0].data.value)))] else []) + StringsEdits(rs[1..])
  }

  function TxtEditsAs(m: Message, name: seq<byte>, rs: seq<Record>, rclass: U16, ttl: U32): seq<Edit>
    requires Sane(m) && name != [] && AddTxtAs(m, name, rs, rclass, ttl).Some?
  {
    HeaderGoesOn(m, name, TYPE_TXT, rclass, ttl);
    var h := AddHeader(m, name, TYPE_TXT, rclass, ttl).value;
    HeaderEdits(name, TYPE_TXT, rclass, ttl) + StringsEdits(rs) + LengthEdits(AddStrings(h, rs).value, h.pos)
  }

  function TxtEdits(m: Message, rs: seq<Record>, rclass: U16, ttl: U32): seq<Edit>
    requires Sane(m) && (forall r <- rs :: Shaped(r)) && AddTxt(m, rs, rclass, ttl).Some?
  {
    FirstTxtIs(rs);
    match FirstTxt(rs)
    case None => []
    case Some(first) =>
      assert Shaped(first);
      TxtEditsAs(m, first.name, rs, rclass, ttl)
  }

  function SectionEdits(m: Message, rs: seq<Record>, rclass: U16, ttl: U32): seq<Edit>
    requires Sane(m) && (forall r <- rs :: Shaped(r)) && AddSection(m, rs, rclass, ttl).Some?
  {
    RecordsEdits(m, rs, rclass, ttl) + TxtEdits(AddRecords(m, rs, rclass, ttl).value, rs, rclass, ttl)
  }

  function BodyEdits(q: Message, a: Answer): seq<Edit>
    requires Sane(q) && WellShaped(a) && Body(q, a).Some?
  {
    var r := AddRecord(q, a.answer, a.rclass, a.ttl).value;
    RecordEdits(q, a.answer, a.rclass, a.ttl) + SectionEdits(r, a.authority, a.rclass, a.ttl)
    + SectionEdits(AddSection(r, a.authority, a.rclass, a.ttl).value, a.additional, a.rclass, a.ttl)
  }

  /** What compiling an answer does after its header. */
  function AnswerEdits(buf: seq<byte>, a: Answer): seq<Edit>
    requires WellShaped(a) && Compile(buf, a).Some?
  {
    var h := HeaderMessage(buf, a);
    if a.question.None? then BodyEdits(h, a)
    else
      var (rtype, name) := a.question.value;
      [MakeName(LabelsOfText(name)), Append(Be16(rtype) + Be16(FLAGGED_IN))] + BodyEdits(AddQuestion(h, rtype, name).value, a)
  }

  // ---------------------------------------------------------------- they compose it

  lemma {:induction false} ComposeConcat(m: Message, es: seq<Edit>, fs: seq<Edit>)
    requires Sane(m) && Compose(m, es).Some?
    ensures Sane(Compose(m, es).value) && Compose(m, es + fs) == Compose(Compose(m, es).value, fs)
    decreases |es|
  {
    if es == [] {
      assert es + fs == fs;
    } else {
      ComposeConcat(Apply(m, es[0]).value, es[1..], fs);
      assert (es + fs)[1..] == es[1..] + fs;
    }
  }

  lemma ComposeThen(m: Message, es: seq<Edit>, n: Message, fs: seq<Edit>, o: Message)
    requires Sane(m) && Sane(n) && Compose(m, es) == Some(n) && Compose(n, fs) == Some(o)
    ensures Compose(m, es + fs) == Some(o)
  {
    ComposeConcat(m, es, fs);
  }

  lemma ComposeOne(m: Message, e: Edit)
    requires Sane(m)
    ensures Compose(m, [e]) == Apply(m, e)
  {
    assert [e][1..] == [];
  }

  lemma ComposeTwo(m: Message, e: Edit, f: Edit)
    requires Sane(m) && Apply(m, e).Some?
    ensures Compose(m, [e, f]) == Apply(Apply(m, e).value, f)
  {
    assert [e, f][1..] == [f];
    ComposeOne(Apply(m, e).value, f);
  }

  lemma HeaderComposes(m: Message, name: seq<byte>, rtype: U16, rclass: U16, ttl: U32)
    requires Sane(m) && name != [] && AddHeader(m, name, rtype, rclass, ttl).Some?
    ensures Compose(m, HeaderEdits(name, rtype, rclass, ttl)) == AddHeader(m, name, rtype, rclass, ttl)
  {
    ComposeTwo(m, MakeName(LabelsOfText(name)), Append(Fixed(rtype, rclass, ttl, 0)));
  }

  lemma DataComposes(m: Message, data: Data)
    requires Sane(m) && (data.Ptr? ==> data.target != []) && (data.Srv? ==> data.host != []) && AddData(m, data).Some?
    ensures Compose(m, DataEdits(data)) == AddData(m, data)
  {
    match data
    case Ptr(target) => ComposeOne(m, MakeName(LabelsOfText(target)));
    case Srv(priority, weight, port, host) =>
      ComposeTwo(m, Append(Be16(priority) + Be16(weight) + Be16(port)), MakeName(LabelsOfText(host)));
    case A(address) => ComposeOne(m, Append(address));
    case Aaaa(address) => ComposeOne(m, Append(address));
    case _ =>
  }

  lemma LengthComposes(m: Message, start: nat)
    requires Sane(m) && 2 <= start <= m.pos && SetLength(m, start).Some?
    ensures Compose(m, LengthEdits(m, start)) == SetLength(m, start)
  {
    hide Compose;
    var length := (m.pos - start) % 65536;
    ComposeTwo(m, Patch(start - 2, length / 256), Patch(start - 1, length % 256));
  }

  lemma RecordComposes(m: Message, r: Record, rclass: U16, ttl: U32)
    requires Sane(m) && Shaped(r) && AddRecord(m, r, rclass, ttl).Some?
    ensures Compose(m, RecordEdits(m, r, rclass, ttl)) == AddRecord(m, r, rclass, ttl)
  {
    hide AddHeader, AddData, SetLength, HeaderEdits, DataEdits, LengthEdits, Compose;
    if r.data.Txt? {
      ComposeNothing(m);
    } else {
      HeaderGoesOn(m, r.name, TypeOf(r.data), rclass, ttl);
      var h := AddHeader(m, r.name, TypeOf(r.data), rclass, ttl).value;
      DataGoesOn(h, r.data);
      var d := AddData(h, r.data).value;
      HeaderComposes(m, r.name, TypeOf(r.data), rclass, ttl);
      DataComposes(h, r.data);
      LengthComposes(d, h.pos);
      ComposeThen(m, HeaderEdits(r.name, TypeOf(r.data), rclass, ttl), h, DataEdits(r.data), d);
      ComposeThen(m, HeaderEdits(r.name, TypeOf(r.data), rclass, ttl) + DataEdits(r.data), d,
                  LengthEdits(d, h.pos), SetLength(d, h.pos).value);
    }
  }

  lemma ComposeNothing(m: Message)
    requires Sane(m)
    ensures Compose(m, []) == Some(m)
  {
  }

  lemma {:induction false} RecordsCompose(m: Message, rs: seq<Record>, rclass: U16, ttl: U32)
    requires Sane(m) && (forall r <- rs :: Shaped(r)) && AddRecords(m, rs, rclass, ttl).Some?
    ensures Compose(m, RecordsEdits(m, rs, rclass, ttl)) == AddRecords(m, rs, rclass, ttl)
    decreases |rs|
  {
    hide AddRecord, RecordEdits, Compose;
    if rs == [] {
      ComposeNothing(m);
    } else {
      var n := AddRecord(m, rs[0], rclass, ttl).value;
      RecordComposes(m, rs[0], rclass, ttl);
      RecordsCompose(n, rs[1..], rclass, ttl);
      ComposeThen(m, RecordEdits(m, rs[0], rclass, ttl), n, RecordsEdits(n, rs[1..], rclass, ttl),
                  AddRecords(n, rs[1..], rclass, ttl).value);
    }
  }

  lemma {:induction false} StringsCompose(m: Message, rs: seq<Record>)
    requires Sane(m) && AddStrings(m, rs).Some?
    ensures Compose(m, StringsEdits(rs)) == AddStrings(m, rs)
    decreases |rs|
  {
    hide Compose, Counted, KeyValue;
    if rs == [] {
      ComposeNothing(m);
    } else if !rs[0].data.Txt? {
      StringsCompose(m, rs[1..]);
      assert StringsEdits(rs) == StringsEdits(rs[1..]);
    } else {
      var e := Append(Counted(KeyValue(rs[0].data.key, rs[0].data.value)));
      var n := Apply(m, e).value;
      ComposeOne(m, e);
      StringsCompose(n, rs[1..]);
      ComposeThen(m, [e], n, StringsEdits(rs[1..]), AddStrings(n, rs[1..]).value);
    }
  }

  lemma TxtComposesAs(m: Message, name: seq<byte>, rs: seq<Record>, rclass: U16, ttl: U32)
    requires Sane(m) && name != [] && AddTxtAs(m, name, rs, rclass, ttl).Some?
    ensures Compose(m, TxtEditsAs(m, name, rs, rclass, ttl)) == AddTxtAs(m, name, rs, rclass, ttl)
  {
    hide AddHeader, AddStrings, SetLength, HeaderEdits, StringsEdits, LengthEdits, Compose;
    HeaderGoesOn(m, name, TYPE_TXT, rclass, ttl);
    var h := AddHeader(m, name, TYPE_TXT, rclass, ttl).value;
    var d := AddStrings(h, rs).value;
    HeaderComposes(m, name, TYPE_TXT, rclass, ttl);
    StringsCompose(h, rs);
    LengthComposes(d, h.pos);
    ComposeThen(m, HeaderEdits(name, TYPE_TXT, rclass, ttl), h, StringsEdits(rs), d);
    ComposeThen(m, HeaderEdits(name, TYPE_TXT, rclass, ttl) + StringsEdits(rs), d,
                LengthEdits(d, h.pos), SetLength(d, h.pos).value);
  }

  lemma TxtComposes(m: Message, rs: seq<Record>, rclass: U16, ttl: U32)
    requires Sane(m) && (forall r <- rs :: Shaped(r)) && AddTxt(m, rs, rclass, ttl).Some?
    ensures Compose(m, TxtEdits(m, rs, rclass, ttl)) == AddTxt(m, rs, rclass, ttl)
  {
    FirstTxtIs(rs);
    match FirstTxt(rs)
    case None => ComposeNothing(m);
    case Some(first) =>
      assert Shaped(first);
      TxtComposesAs(m, first.name, rs, rclass, ttl);
  }

  lemma SectionComposes(m: Message, rs: seq<Record>, rclass: U16, ttl: U32)
    requires Sane(m) && (forall r <- rs :: Shaped(r)) && AddSection(m, rs, rclass, ttl).Some?
    ensures Compose(m, SectionEdits(m, rs, rclass, ttl)) == AddSection(m, rs, rclass, ttl)
  {
    var n := AddRecords(m, rs, rclass, ttl).value;
    RecordsCompose(m, rs, rclass, ttl);
    TxtComposes(n, rs, rclass, ttl);
    ComposeThen(m, RecordsEdits(m, rs, rclass, ttl), n, TxtEdits(n, rs, rclass, ttl), AddTxt(n, rs, rclass, ttl).value);
  }

  lemma BodyComposes(q: Message, a: Answer)
    requires Sane(q) && WellShaped(a) && Body(q, a).Some?
    ensures Compose(q, BodyEdits(q, a)) == Body(q, a)
  {
    hide AddRecord, AddSection, RecordEdits, SectionEdits, Compose;
    var r := AddRecord(q, a.answer, a.rclass, a.ttl).value;
    var s := AddSection(r, a.authority, a.rclass, a.ttl).value;
    var first := RecordEdits(q, a.answer, a.rclass, a.ttl);
    var second := SectionEdits(r, a.authority, a.rclass, a.ttl);
    RecordComposes(q, a.answer, a.rclass, a.ttl);
    SectionComposes(r, a.authority, a.rclass, a.ttl);
    SectionComposes(s, a.additional, a.rclass, a.ttl);
    ComposeThen(q, first, r, second, s);
    ComposeThen(q, first + second, s, SectionEdits(s, a.additional, a.rclass, a.ttl), Body(q, a).value);
  }

  /** Compiling is composing these edits. */
  lemma CompileComposes(buf: seq<byte>, a: Answer)
    requires WellShaped(a) && Compile(buf, a).Some?
    ensures Compose(HeaderMessage(buf, a), AnswerEdits(buf, a)) == Compile(buf, a)
  {
    hide Body, BodyEdits, Compose;
    var h := HeaderMessage(buf, a);
    if a.question.None? {
      BodyComposes(h, a);
    } else {
      var (rtype, name) := a.question.value;
      var q := AddQuestion(h, rtype, name).value;
      ComposeTwo(h, MakeName(LabelsOfText(name)), Append(Be16(rtype) + Be16(FLAGGED_IN)));
      BodyComposes(q, a);
      ComposeThen(h, [MakeName(LabelsOfText(name)), Append(Be16(rtype) + Be16(FLAGGED_IN))], q, BodyEdits(q, a), Body(q, a).value);
    }
  }
}
