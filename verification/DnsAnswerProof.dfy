/** The writer puts the records of an answer one after the other, and the receiver finds them there. */
module DnsAnswerProof {
  import opened Lists
  import opened DnsNames
  import opened DnsRoundTrip
  import opened DnsCompose
  import opened DnsSkips
  import opened DnsMessage
  import opened DnsRoom
  import opened DnsEdits
  import opened DnsParser
  import opened DnsAnswer

  // ---------------------------------------------------------------- messages under construction

  function Prefix(m: Message): seq<byte>
    requires Sane(m)
  {
    m.buf[..m.pos]
  }

  /** What the table offers are labels in full, and bytes of names lie behind the position. */
  ghost predicate Tidy(m: Message) {
    Sane(m) && |m.buf| <= MAX_BUFFER && Offers(m.buf, m.own, m.table) && forall i :: i in m.own ==> i < m.pos
  }

  /** What was written stays, and only new bytes are taken for names. */
  ghost predicate Grown(m: Message, n: Message) {
    && Sane(m) && Sane(n) && |n.buf| == |m.buf| && m.pos <= n.pos && n.buf[..m.pos] == m.buf[..m.pos]
    && (forall i :: i in n.own ==> i in m.own || m.pos <= i)
  }

  lemma GrownTwice(l: Message, m: Message, n: Message)
    requires Grown(l, m) && Grown(m, n)
    ensures Grown(l, n)
  {
    assert n.buf[..l.pos] == n.buf[..m.pos][..l.pos] == m.buf[..m.pos][..l.pos] == m.buf[..l.pos];
  }

  lemma PrefixGrows(m: Message, n: Message)
    requires Grown(m, n)
    ensures Prefix(m) <= Prefix(n)
  {
    assert Prefix(n)[..m.pos] == n.buf[..m.pos];
  }

  /** A name added to a message can be skipped. */
  ghost predicate NameAdded(m: Message, n: Message, labels: seq<Label>) {
    && Tidy(n) && Grown(m, n) && m.pos < n.pos && SkipFrom(Prefix(n), m.pos, 0) == To(n.pos)
    && n.names == m.names + [Entry(m.pos, labels, n.pos)]
  }

  lemma NameStep(m: Message, name: seq<byte>)
    requires Tidy(m) && name != [] && Proper(LabelsOfText(name))
    ensures var n := AddName(m, name); n.Some? ==> NameAdded(m, n.value, LabelsOfText(name))
  {
    var labels := LabelsOfText(name);
    MakeGoesOn(m.buf, m.pos, labels, m.table);
    var n := AddName(m, name);
    if n.Some? {
      MakePasses(m.buf, m.pos, labels, m.table, m.own, MAX_SUBSTRINGS);
      PassesSkips(n.value.buf, n.value.own, m.pos, MAX_SUBSTRINGS, n.value.pos, n.value.pos, 0);
    }
  }

  lemma BytesStep(m: Message, bytes: seq<byte>)
    requires Tidy(m)
    ensures var n := AddBytes(m, bytes);
            n.Some? ==> Tidy(n.value) && Grown(m, n.value) && n.value.pos == m.pos + |bytes|
                        && BytesAt(Prefix(n.value), m.pos, bytes) && n.value.own == m.own && n.value.names == m.names
  {
  }

  /** The message with the length of its last record filled in. */
  function Filled(m: Message, start: nat): (n: Message)
    requires Sane(m) && 2 <= start <= m.pos && m.pos - start < 65536
    ensures Sane(n) && n == m.(buf := n.buf) && |n.buf| == |m.buf|
  {
    m.(buf := m.buf[start - 2 := (m.pos - start) / 256][start - 1 := (m.pos - start) % 256])
  }

  lemma FilledOutside(m: Message, start: nat)
    requires Sane(m) && 2 <= start <= m.pos && m.pos - start < 65536
    ensures var n := Filled(m, start); n.buf[start..] == m.buf[start..] && n.buf[..start - 2] == m.buf[..start - 2]
  {
  }

  lemma LengthStep(m: Message, start: nat)
    requires Tidy(m) && 2 <= start <= m.pos && start - 2 !in m.own && start - 1 !in m.own
    ensures m.pos - start < 65536 && SetLength(m, start) == Some(Filled(m, start)) && Tidy(Filled(m, start))
  {
    OffersElsewhere(m.buf, Filled(m, start).buf, m.own, m.own, m.table);
  }

  // ---------------------------------------------------------------- records

  function WireDataOf(data: Data): WireData
    requires (data.Ptr? ==> data.target != []) && (data.Srv? ==> data.host != [])
  {
    match data
    case Ptr(target) => Target(LabelsOfText(target))
    case Srv(priority, weight, port, host) => Host(priority, weight, port, LabelsOfText(host))
    case A(address) => Address(address)
    case Aaaa(address) => Address(address)
    case Txt(key, value) => Strings([Pair(key, value)])
    case Other(_) => Nothing
  }

  function WireOf(r: Record, rclass: U16, ttl: U32): Wire
    requires Shaped(r)
  {
    Wire(LabelsOfText(r.name), TypeOf(r.data), rclass, ttl, WireDataOf(r.data))
  }

  predicate AllProperNames(names: seq<seq<Label>>) {
    forall i :: 0 <= i < |names| ==> Proper(names[i])
  }

  lemma ProperParts(names: seq<seq<Label>>, more: seq<seq<Label>>)
    ensures AllProperNames(names + more) <==> AllProperNames(names) && AllProperNames(more)
  {
    var all := names + more;
    if AllProperNames(all) {
      assert forall i :: 0 <= i < |names| ==> names[i] == all[i];
      assert forall i :: 0 <= i < |more| ==> more[i] == all[|names| + i];
    }
  }

  lemma BytesStay(m: Message, n: Message, at: nat, bytes: seq<byte>)
    requires Grown(m, n) && BytesAt(Prefix(m), at, bytes)
    ensures BytesAt(Prefix(n), at, bytes)
  {
    assert Prefix(n)[..m.pos] == n.buf[..m.pos] == Prefix(m);
    assert Prefix(n)[at..at + |bytes|] == Prefix(n)[..m.pos][at..at + |bytes|];
  }

  /** The data of a record, added to a message; its name is recorded. */
  ghost predicate DataAdded(m: Message, n: Message, data: WireData) {
    && Tidy(n) && Grown(m, n) && DataLies(Prefix(n), m.pos, data, n.pos)
    && n.names == m.names + DataEntries(m.pos, data, n.pos)
  }

  lemma DataStep(m: Message, data: Data)
    requires Tidy(m) && Shaped(Record([DOT], data)) && AllProperNames(DataNames(WireDataOf(data))) && !data.Txt?
    ensures var n := AddData(m, data); n.Some? ==> DataAdded(m, n.value, WireDataOf(data))
  {
    hide Offers;
    match data
    case Ptr(target) =>
      assert Proper(DataNames(WireDataOf(data))[0]);
      NameStep(m, target);
    case Srv(priority, weight, port, host) =>
      var fields := Be16(priority) + Be16(weight) + Be16(port);
      BytesStep(m, fields);
      var s := AddBytes(m, fields);
      if s.Some? {
        assert Proper(DataNames(WireDataOf(data))[0]);
        NameStep(s.value, host);
        var n := AddName(s.value, host);
        if n.Some? {
          GrownTwice(m, s.value, n.value);
          BytesStay(s.value, n.value, m.pos, fields);
        }
      }
    case A(address) => BytesStep(m, address);
    case Aaaa(address) => BytesStep(m, address);
    case Other(_) =>
  }

  /** Data stays, whatever happens to the bytes before it. */
  lemma DataStays(m: Message, n: Message, start: nat, data: WireData)
    requires Sane(m) && Sane(n) && DataLies(Prefix(m), start, data, m.pos)
    requires n.pos == m.pos && |n.buf| == |m.buf| && start <= n.pos && n.buf[start..] == m.buf[start..]
    ensures DataLies(Prefix(n), start, data, n.pos)
  {
    match data
    case Target(_) =>
    case Host(priority, weight, port, _) => SameBytes(m, n, start, Be16(priority) + Be16(weight) + Be16(port));
    case Address(bytes) => SameBytes(m, n, start, bytes);
    case Strings(pairs) => SameBytes(m, n, start, StringBytes(pairs));
    case Nothing =>
  }

  lemma SameBytes(m: Message, n: Message, start: nat, bytes: seq<byte>)
    requires Sane(m) && Sane(n) && n.pos == m.pos && |n.buf| == |m.buf| && BytesAt(Prefix(m), start, bytes)
    requires start <= n.pos && n.buf[start..] == m.buf[start..]
    ensures BytesAt(Prefix(n), start, bytes)
  {
    var end := start + |bytes|;
    assert Prefix(n)[start..end] == n.buf[start..][..|bytes|];
    assert Prefix(m)[start..end] == m.buf[start..][..|bytes|];
  }

  /** A name up to `mid` and the fixed fields, with bytes for the length that belong to no name. */
  ghost predicate HeaderIn(m: Message, start: nat, mid: nat, rtype: U16, rclass: U16, ttl: U32)
    requires Sane(m)
  {
    && mid <= m.pos && SkipFrom(m.buf[..mid], start, 0) == To(mid) && BytesAt(Prefix(m), mid, Fixed(rtype, rclass, ttl, 0))
    && mid + 8 !in m.own && mid + 9 !in m.own
  }

  ghost predicate HeaderAdded(m: Message, n: Message, labels: seq<Label>, rtype: U16, rclass: U16, ttl: U32) {
    && Tidy(n) && Grown(m, n) && m.pos + 10 < n.pos && HeaderIn(n, m.pos, n.pos - 10, rtype, rclass, ttl)
    && n.names == m.names + [Entry(m.pos, labels, n.pos - 10)]
  }

  lemma HeaderStep(m: Message, name: seq<byte>, rtype: U16, rclass: U16, ttl: U32)
    requires Tidy(m) && name != [] && Proper(LabelsOfText(name))
    ensures var n := AddHeader(m, name, rtype, rclass, ttl);
            n.Some? ==> HeaderAdded(m, n.value, LabelsOfText(name), rtype, rclass, ttl)
  {
    hide Fixed;
    NameStep(m, name);
    var q := AddName(m, name);
    if q.Some? {
      BytesStep(q.value, Fixed(rtype, rclass, ttl, 0));
      var n := AddBytes(q.value, Fixed(rtype, rclass, ttl, 0));
      if n.Some? {
        GrownTwice(m, q.value, n.value);
      }
    }
  }

  lemma HeaderStays(m: Message, n: Message, start: nat, mid: nat, rtype: U16, rclass: U16, ttl: U32)
    requires Grown(m, n) && HeaderIn(m, start, mid, rtype, rclass, ttl) && mid + 10 == m.pos
    ensures HeaderIn(n, start, mid, rtype, rclass, ttl)
  {
    BytesStay(m, n, mid, Fixed(rtype, rclass, ttl, 0));
    StartStays(m.buf, n.buf, mid, m.pos);
  }

  lemma StartStays(a: seq<byte>, b: seq<byte>, start: nat, end: nat)
    requires start <= end <= |a| && |b| == |a| && a[..end] == b[..end]
    ensures a[..start] == b[..start]
  {
    assert a[..start] == a[..end][..start] && b[..start] == b[..end][..start];
  }

  lemma FixedFilled(m: Message, mid: nat, rtype: U16, rclass: U16, ttl: U32)
    requires Sane(m) && mid + 10 <= m.pos && m.pos - mid - 10 < 65536 && BytesAt(Prefix(m), mid, Fixed(rtype, rclass, ttl, 0))
    ensures BytesAt(Prefix(Filled(m, mid + 10)), mid, Fixed(rtype, rclass, ttl, m.pos - mid - 10))
  {
    var n, length := Filled(m, mid + 10), m.pos - mid - 10;
    var head := Be16(rtype) + Be16(rclass) + Be32(ttl);
    BytesSplit(Prefix(m), mid, head, Be16(0));
    assert Prefix(n)[mid..mid + 8] == Prefix(m)[mid..mid + 8] == head;
    assert Prefix(n)[mid..mid + 10] == Prefix(n)[mid..mid + 8] + [length / 256, length % 256];
  }

  /** Filling in its length completes a record. */
  lemma RecordCompleted(m: Message, start: nat, mid: nat, w: Wire)
    requires Tidy(m) && start <= mid && mid + 10 <= m.pos && HeaderIn(m, start, mid, w.rtype, w.rclass, w.ttl)
    requires DataLies(Prefix(m), mid + 10, w.data, m.pos)
    ensures m.pos - mid - 10 < 65536
    ensures var n, p := Filled(m, mid + 10), Parsed(w.rtype, w.rclass, w.ttl, start, mid - start, mid + 10, m.pos - mid - 10);
            && SetLength(m, mid + 10) == Some(n) && Tidy(n) && n.buf[..start] == m.buf[..start]
            && Lies(Prefix(n), p) && Shows(Prefix(n), p, w)
  {
    hide Offers, SetLength, Filled, Fixed, DataLies, BytesAt;
    LengthStep(m, mid + 10);
    var n := Filled(m, mid + 10);
    FilledOutside(m, mid + 10);
    FixedFilled(m, mid, w.rtype, w.rclass, w.ttl);
    StartStays(m.buf, n.buf, start, mid + 8);
    StartStays(m.buf, n.buf, mid, mid + 8);
    assert n.buf[..mid] <= Prefix(n) by {
      assert Prefix(n)[..mid] == n.buf[..mid];
    }
    SkipLonger(n.buf[..mid], Prefix(n), start, 0);
    DataStays(m, n, mid + 10, w.data);
  }

  /** A message grown by records, which lie one after the other, and by their names. */
  ghost predicate AddsThese(m: Message, n: Message, ps: seq<Parsed>, ws: seq<Wire>) {
    && Tidy(n) && Grown(m, n) && AllLie(Prefix(n), m.pos, ps, n.pos) && AllShow(Prefix(n), ps, ws)
    && n.names == m.names + AllEntries(ps, ws)
  }

  ghost predicate Adds(m: Message, n: Message, ws: seq<Wire>) {
    exists ps :: AddsThese(m, n, ps, ws)
  }

  lemma AddsNothing(m: Message)
    requires Tidy(m)
    ensures Adds(m, m, [])
  {
    assert AddsThese(m, m, [], []);
  }

  lemma AddsOne(m: Message, n: Message, p: Parsed, w: Wire)
    requires Tidy(n) && Grown(m, n) && p.nameOffset == m.pos && Lies(Prefix(n), p) && p.offset + p.length == n.pos
    requires Shows(Prefix(n), p, w) && n.names == m.names + Entries(p, w)
    ensures Adds(m, n, [w])
  {
    hide Offers, Grown, Lies, Shows;
    assert [p][1..] == [] && [w][1..] == [];
    assert AllEntries([p], [w]) == Entries(p, w) + AllEntries([], []);
    assert AllLie(Prefix(n), n.pos, [], n.pos);
    assert AddsThese(m, n, [p], [w]);
  }

  lemma AllShowLonger(b: seq<byte>, c: seq<byte>, ps: seq<Parsed>, ws: seq<Wire>)
    requires b <= c && AllShow(b, ps, ws)
    ensures AllShow(c, ps, ws)
  {
  }

  lemma AddsBoth(l: Message, m: Message, n: Message, vs: seq<Wire>, ws: seq<Wire>)
    requires Adds(l, m, vs) && Adds(m, n, ws)
    ensures Adds(l, n, vs + ws)
  {
    hide Offers, Lies, AllLie, AllEntries, DataLies;
    var ps :| AddsThese(l, m, ps, vs);
    var qs :| AddsThese(m, n, qs, ws);
    GrownTwice(l, m, n);
    PrefixGrows(m, n);
    AllLieLonger(Prefix(m), Prefix(n), l.pos, ps, m.pos);
    AllLieConcat(Prefix(n), l.pos, ps, m.pos, qs, n.pos);
    AllShowLonger(Prefix(m), Prefix(n), ps, vs);
    AllEntriesConcat(ps, vs, qs, ws);
    assert AddsThese(l, n, ps + qs, vs + ws);
  }

  /** Header and data are there; filling in the length makes a record of them. */
  lemma FinishRecord(m: Message, h: Message, d: Message, w: Wire)
    requires HeaderAdded(m, h, w.labels, w.rtype, w.rclass, w.ttl) && DataAdded(h, d, w.data)
    ensures var n := SetLength(d, h.pos); n.Some? && Adds(m, n.value, [w])
  {
    hide Offers, Fixed, DataLies, Lies, Shows, SetLength, Adds;
    HeaderStays(h, d, m.pos, h.pos - 10, w.rtype, w.rclass, w.ttl);
    GrownTwice(m, h, d);
    RecordCompleted(d, m.pos, h.pos - 10, w);
    var p := Parsed(w.rtype, w.rclass, w.ttl, m.pos, h.pos - 10 - m.pos, h.pos, d.pos - h.pos);
    AddsOne(m, Filled(d, h.pos), p, w);
  }

  lemma RecordStep(m: Message, r: Record, rclass: U16, ttl: U32)
    requires Tidy(m) && Shaped(r) && !r.data.Txt? && AllProperNames(NamesIn([WireOf(r, rclass, ttl)]))
    ensures var n := AddRecord(m, r, rclass, ttl); n.Some? ==> Adds(m, n.value, [WireOf(r, rclass, ttl)])
  {
    hide Offers, Adds, HeaderAdded, DataAdded, AddHeader, AddData;
    RecordNames(r, rclass, ttl);
    HeaderStep(m, r.name, TypeOf(r.data), rclass, ttl);
    var h := AddHeader(m, r.name, TypeOf(r.data), rclass, ttl);
    if h.Some? {
      assert Tidy(h.value) by { HeaderIsTidy(m, h.value, LabelsOfText(r.name), TypeOf(r.data), rclass, ttl); }
      DataStep(h.value, r.data);
      var d := AddData(h.value, r.data);
      if d.Some? {
        FinishRecord(m, h.value, d.value, WireOf(r, rclass, ttl));
      }
    }
  }

  lemma HeaderIsTidy(m: Message, n: Message, labels: seq<Label>, rtype: U16, rclass: U16, ttl: U32)
    requires HeaderAdded(m, n, labels, rtype, rclass, ttl)
    ensures Tidy(n)
  {
  }

  lemma RecordNames(r: Record, rclass: U16, ttl: U32)
    requires Shaped(r) && AllProperNames(NamesIn([WireOf(r, rclass, ttl)]))
    ensures Proper(LabelsOfText(r.name)) && AllProperNames(DataNames(WireDataOf(r.data)))
  {
    var w := WireOf(r, rclass, ttl);
    assert [w][1..] == [];
    assert NamesIn([w]) == [w.labels] + DataNames(w.data);
    ProperParts([w.labels], DataNames(w.data));
    assert [w.labels][0] == w.labels;
  }

  // ---------------------------------------------------------------- sections

  function PairsOf(rs: seq<Record>): seq<Pair> {
    if rs == [] then []
    else (if rs[0].data.Txt? then [Pair(rs[0].data.key, rs[0].data.value)] else []) + PairsOf(rs[1..])
  }

  function PlainWires(rs: seq<Record>, rclass: U16, ttl: U32): seq<Wire>
    requires forall r <- rs :: Shaped(r)
  {
    if rs == [] then []
    else (if rs[0].data.Txt? then [] else [WireOf(rs[0], rclass, ttl)]) + PlainWires(rs[1..], rclass, ttl)
  }

  function TxtWires(rs: seq<Record>, rclass: U16, ttl: U32): seq<Wire>
    requires forall r <- rs :: Shaped(r)
  {
    FirstTxtIs(rs);
    match FirstTxt(rs)
    case None => []
    case Some(first) =>
      assert Shaped(first);
      [Wire(LabelsOfText(first.name), TYPE_TXT, rclass, ttl, Strings(PairsOf(rs)))]
  }

  /** What a section looks like: all but the TXT records in order, then one record with all their strings. */
  function SectionWires(rs: seq<Record>, rclass: U16, ttl: U32): seq<Wire>
    requires forall r <- rs :: Shaped(r)
  {
    PlainWires(rs, rclass, ttl) + TxtWires(rs, rclass, ttl)
  }

  lemma {:induction false} StringsStep(m: Message, rs: seq<Record>)
    requires Tidy(m)
    ensures var n := AddStrings(m, rs); n.Some? ==> DataAdded(m, n.value, Strings(PairsOf(rs)))
    decreases |rs|
  {
    hide Offers, KeyValue, Counted;
    if rs != [] && !rs[0].data.Txt? {
      StringsStep(m, rs[1..]);
      assert PairsOf(rs) == PairsOf(rs[1..]);
    } else if rs != [] {
      var pair := Pair(rs[0].data.key, rs[0].data.value);
      var text := Counted(KeyValue(pair.key, pair.value));
      BytesStep(m, text);
      var b := AddBytes(m, text);
      if b.Some? && AddStrings(b.value, rs[1..]).Some? {
        StringsStep(b.value, rs[1..]);
        StringBefore(m, b.value, AddStrings(b.value, rs[1..]).value, pair, PairsOf(rs[1..]));
        assert PairsOf(rs) == [pair] + PairsOf(rs[1..]);
      }
    }
  }

  lemma StringBefore(m: Message, b: Message, n: Message, pair: Pair, pairs: seq<Pair>)
    requires Grown(m, b) && b.names == m.names && DataAdded(b, n, Strings(pairs))
    requires var text := Counted(KeyValue(pair.key, pair.value)); b.pos == m.pos + |text| && BytesAt(Prefix(b), m.pos, text)
    ensures DataAdded(m, n, Strings([pair] + pairs))
  {
    hide Offers, KeyValue, Counted;
    GrownTwice(m, b, n);
    BytesStay(b, n, m.pos, Counted(KeyValue(pair.key, pair.value)));
    StringsCons(Prefix(n), m.pos, pair, pairs);
  }

  lemma StringsCons(b: seq<byte>, at: nat, pair: Pair, pairs: seq<Pair>)
    requires BytesAt(b, at, Counted(KeyValue(pair.key, pair.value)))
    requires BytesAt(b, at + |Counted(KeyValue(pair.key, pair.value))|, StringBytes(pairs))
    ensures BytesAt(b, at, StringBytes([pair] + pairs))
    ensures |StringBytes([pair] + pairs)| == |Counted(KeyValue(pair.key, pair.value))| + |StringBytes(pairs)|
  {
    assert ([pair] + pairs)[1..] == pairs;
    var first, rest := Counted(KeyValue(pair.key, pair.value)), StringBytes(pairs);
    assert b[at..at + |first| + |rest|] == b[at..at + |first|] + b[at + |first|..at + |first| + |rest|];
  }

  lemma {:induction false} RecordsStep(m: Message, rs: seq<Record>, rclass: U16, ttl: U32)
    requires Tidy(m) && (forall r <- rs :: Shaped(r)) && AllProperNames(NamesIn(PlainWires(rs, rclass, ttl)))
    ensures var n := AddRecords(m, rs, rclass, ttl); n.Some? ==> Adds(m, n.value, PlainWires(rs, rclass, ttl))
    decreases |rs|
  {
    hide Offers, Adds, AddRecord, AllProperNames;
    if rs == [] {
      AddsNothing(m);
    } else if rs[0].data.Txt? {
      assert PlainWires(rs, rclass, ttl) == PlainWires(rs[1..], rclass, ttl);
      SkipsTxt(m, rs[0], rclass, ttl);
      RecordsStep(m, rs[1..], rclass, ttl);
    } else {
      var w, more := WireOf(rs[0], rclass, ttl), PlainWires(rs[1..], rclass, ttl);
      NamesInConcat([w], more);
      ProperParts(NamesIn([w]), NamesIn(more));
      RecordStep(m, rs[0], rclass, ttl);
      var r := AddRecord(m, rs[0], rclass, ttl);
      if r.Some? {
        AddsTidy(m, r.value, [w]);
        RecordsStep(r.value, rs[1..], rclass, ttl);
        var n := AddRecords(r.value, rs[1..], rclass, ttl);
        if n.Some? {
          AddsBoth(m, r.value, n.value, [w], more);
        }
      }
    }
  }

  lemma SkipsTxt(m: Message, r: Record, rclass: U16, ttl: U32)
    requires Sane(m) && Shaped(r) && r.data.Txt?
    ensures AddRecord(m, r, rclass, ttl) == Some(m)
  {
  }

  lemma AddsTidy(m: Message, n: Message, ws: seq<Wire>)
    requires Adds(m, n, ws)
    ensures Tidy(n) && Grown(m, n)
  {
  }

  lemma TxtStepAs(m: Message, name: seq<byte>, rs: seq<Record>, rclass: U16, ttl: U32)
    requires Tidy(m) && name != [] && Proper(LabelsOfText(name))
    ensures var n := AddTxtAs(m, name, rs, rclass, ttl);
            n.Some? ==> Adds(m, n.value, [Wire(LabelsOfText(name), TYPE_TXT, rclass, ttl, Strings(PairsOf(rs)))])
  {
    hide Offers, Adds, HeaderAdded, DataAdded, AddHeader, AddStrings;
    HeaderStep(m, name, TYPE_TXT, rclass, ttl);
    var h := AddHeader(m, name, TYPE_TXT, rclass, ttl);
    if h.Some? {
      HeaderIsTidy(m, h.value, LabelsOfText(name), TYPE_TXT, rclass, ttl);
      StringsStep(h.value, rs);
      var d := AddStrings(h.value, rs);
      if d.Some? {
        FinishRecord(m, h.value, d.value, Wire(LabelsOfText(name), TYPE_TXT, rclass, ttl, Strings(PairsOf(rs))));
      }
    }
  }

  lemma TxtStep(m: Message, rs: seq<Record>, rclass: U16, ttl: U32)
    requires Tidy(m) && (forall r <- rs :: Shaped(r)) && AllProperNames(NamesIn(TxtWires(rs, rclass, ttl)))
    ensures var n := AddTxt(m, rs, rclass, ttl); n.Some? ==> Adds(m, n.value, TxtWires(rs, rclass, ttl))
  {
    hide Offers, Adds;
    FirstTxtIs(rs);
    if FirstTxt(rs).None? {
      AddsNothing(m);
    } else {
      var first := FirstTxt(rs).value;
      assert Shaped(first);
      assert NamesIn(TxtWires(rs, rclass, ttl))[0] == LabelsOfText(first.name);
      TxtStepAs(m, first.name, rs, rclass, ttl);
    }
  }

  /** A section is written record by record. */
  lemma SectionStep(m: Message, rs: seq<Record>, rclass: U16, ttl: U32)
    requires Tidy(m) && (forall r <- rs :: Shaped(r)) && AllProperNames(NamesIn(SectionWires(rs, rclass, ttl)))
    ensures var n := AddSection(m, rs, rclass, ttl); n.Some? ==> Adds(m, n.value, SectionWires(rs, rclass, ttl))
  {
    hide Offers, Adds, PlainWires, TxtWires, AllProperNames;
    var plain, txt := PlainWires(rs, rclass, ttl), TxtWires(rs, rclass, ttl);
    NamesInConcat(plain, txt);
    ProperParts(NamesIn(plain), NamesIn(txt));
    RecordsStep(m, rs, rclass, ttl);
    var r := AddRecords(m, rs, rclass, ttl);
    if r.Some? {
      AddsTidy(m, r.value, plain);
      TxtStep(r.value, rs, rclass, ttl);
      var n := AddTxt(r.value, rs, rclass, ttl);
      if n.Some? {
        AddsBoth(m, r.value, n.value, plain, txt);
      }
    }
  }

  // ---------------------------------------------------------------- whole answers

  lemma {:induction false} CountIs(rs: seq<Record>, rclass: U16, ttl: U32)
    requires forall r <- rs :: Shaped(r)
    ensures CountFrom(rs) == |PlainWires(rs, rclass, ttl)|
  {
    if rs != [] {
      CountIs(rs[1..], rclass, ttl);
    }
  }

  /** The count in the header is the number of records that follow exactly when sixteen bits can hold it. */
  lemma CountMatches(rs: seq<Record>, rclass: U16, ttl: U32)
    requires forall r <- rs :: Shaped(r)
    ensures RecordCount(rs) == |SectionWires(rs, rclass, ttl)| <==> |SectionWires(rs, rclass, ttl)| < 65536
  {
    SectionSize(rs, rclass, ttl);
    CountSmall(rs, |SectionWires(rs, rclass, ttl)|);
  }

  lemma CountSmall(rs: seq<Record>, n: nat)
    requires n == CountFrom(rs) + if FirstTxt(rs).Some? then 1 else 0
    ensures n < 65536 ==> RecordCount(rs) == n
  {
  }

  lemma SectionSize(rs: seq<Record>, rclass: U16, ttl: U32)
    requires forall r <- rs :: Shaped(r)
    ensures |SectionWires(rs, rclass, ttl)| == CountFrom(rs) + if FirstTxt(rs).Some? then 1 else 0
  {
    CountIs(rs, rclass, ttl);
  }

  /** The records of an answer as they are written. A TXT record is left for a section, also when it is the answer. */
  function AnswerWires(a: Answer): seq<Wire>
    requires WellShaped(a)
  {
    (if a.answer.data.Txt? then [] else [WireOf(a.answer, a.rclass, a.ttl)])
    + SectionWires(a.authority, a.rclass, a.ttl) + SectionWires(a.additional, a.rclass, a.ttl)
  }

  function QuestionNames(a: Answer): seq<seq<Label>>
    requires WellShaped(a)
  {
    if a.question.None? then [] else [LabelsOfText(a.question.value.1)]
  }

  /** The names of an answer, in the order in which they are written. */
  function AnswerNames(a: Answer): seq<seq<Label>>
    requires WellShaped(a)
  {
    QuestionNames(a) + NamesIn(AnswerWires(a))
  }

  lemma HeaderTidy(buf: seq<byte>, a: Answer)
    requires HEADER_SIZE <= |buf| <= MAX_BUFFER
    ensures var h := HeaderMessage(buf, a); Tidy(h) && Fresh(h) && BytesAt(Prefix(h), 0, HeaderBytes(a))
  {
  }

  /** The question ends where the records begin. */
  ghost predicate QuestionLies(b: seq<byte>, a: Answer, start: nat) {
    if a.question.None? then start == HEADER_SIZE
    else start >= 4 && SkipFrom(b, HEADER_SIZE, 0) == To(start - 4)
         && BytesAt(b, start - 4, Be16(a.question.value.0) + Be16(FLAGGED_IN))
  }

  function QuestionEntries(a: Answer, start: nat): seq<Entry>
    requires WellShaped(a) && HEADER_SIZE <= start
  {
    if a.question.None? then [] else [Entry(HEADER_SIZE, LabelsOfText(a.question.value.1), start - 4)]
  }

  /** The question, if there is one, has been added to the header. */
  ghost predicate Asks(h: Message, q: Message, a: Answer)
    requires WellShaped(a)
  {
    && Tidy(q) && Grown(h, q) && HEADER_SIZE <= q.pos && QuestionLies(Prefix(q), a, q.pos)
    && q.names == h.names + QuestionEntries(a, q.pos)
  }

  lemma QuestionStep(h: Message, a: Answer)
    requires Tidy(h) && h.pos == HEADER_SIZE && WellShaped(a) && AllProperNames(QuestionNames(a)) && a.question.Some?
    ensures var q := AddQuestion(h, a.question.value.0, a.question.value.1); q.Some? ==> Asks(h, q.value, a)
  {
    hide Offers;
    var (rtype, name) := a.question.value;
    assert Proper(QuestionNames(a)[0]);
    NameStep(h, name);
    var n := AddName(h, name);
    if n.Some? {
      BytesStep(n.value, Be16(rtype) + Be16(FLAGGED_IN));
      var q := AddBytes(n.value, Be16(rtype) + Be16(FLAGGED_IN));
      if q.Some? {
        GrownTwice(h, n.value, q.value);
        PrefixGrows(n.value, q.value);
        SkipLonger(Prefix(n.value), Prefix(q.value), HEADER_SIZE, 0);
      }
    }
  }

  /** The answer, unless it is a TXT record, of which nothing is written. */
  lemma AnswerStep(q: Message, a: Answer)
    requires Tidy(q) && WellShaped(a) && AllProperNames(NamesIn(AnswerWires(a)))
    ensures var n := Body(q, a); n.Some? ==> Adds(q, n.value, AnswerWires(a))
  {
    hide Offers, Adds, AddRecord, AddSection, SectionWires, AllProperNames;
    var first := if a.answer.data.Txt? then [] else [WireOf(a.answer, a.rclass, a.ttl)];
    var second, third := SectionWires(a.authority, a.rclass, a.ttl), SectionWires(a.additional, a.rclass, a.ttl);
    NamesInConcat(first + second, third);
    NamesInConcat(first, second);
    ProperParts(NamesIn(first + second), NamesIn(third));
    ProperParts(NamesIn(first), NamesIn(second));
    var r := AddRecord(q, a.answer, a.rclass, a.ttl);
    if a.answer.data.Txt? {
      SkipsTxt(q, a.answer, a.rclass, a.ttl);
      AddsNothing(q);
    } else {
      RecordStep(q, a.answer, a.rclass, a.ttl);
    }
    if r.Some? {
      AddsTidy(q, r.value, first);
      SectionStep(r.value, a.authority, a.rclass, a.ttl);
      var s := AddSection(r.value, a.authority, a.rclass, a.ttl);
      if s.Some? {
        AddsTidy(r.value, s.value, second);
        SectionStep(s.value, a.additional, a.rclass, a.ttl);
        AddsBoth(q, r.value, s.value, first, second);
        var n := AddSection(s.value, a.additional, a.rclass, a.ttl);
        if n.Some? {
          AddsBoth(q, s.value, n.value, first + second, third);
        }
      }
    }
  }

  /** An answer as it lies in a buffer, with the names that should be read there. */
  ghost predicate AnswerSplit(b: seq<byte>, a: Answer, names: seq<Entry>, start: nat, ps: seq<Parsed>)
    requires WellShaped(a)
  {
    && |b| <= MAX_BUFFER && BytesAt(b, 0, HeaderBytes(a)) && HEADER_SIZE <= start && QuestionLies(b, a, start)
    && AllLie(b, start, ps, |b|) && AllShow(b, ps, AnswerWires(a))
    && names == QuestionEntries(a, start) + AllEntries(ps, AnswerWires(a))
  }

  ghost predicate AnswerLies(b: seq<byte>, a: Answer, names: seq<Entry>)
    requires WellShaped(a)
  {
    exists start: nat, ps :: AnswerSplit(b, a, names, start, ps)
  }

  lemma QuestionLonger(b: seq<byte>, c: seq<byte>, a: Answer, start: nat)
    requires b <= c && QuestionLies(b, a, start)
    ensures QuestionLies(c, a, start)
  {
    if a.question.Some? {
      SkipLonger(b, c, HEADER_SIZE, 0);
    }
  }

  lemma AnswerParts(h: Message, q: Message, n: Message, a: Answer)
    requires WellShaped(a) && Sane(h) && h.names == [] && BytesAt(Prefix(h), 0, HeaderBytes(a)) && Asks(h, q, a)
    requires Adds(q, n, AnswerWires(a))
    ensures AnswerLies(Prefix(n), a, n.names)
  {
    hide Offers, AllShow, AllLie, AnswerWires, HeaderBytes, QuestionLies;
    var ps :| AddsThese(q, n, ps, AnswerWires(a));
    GrownTwice(h, q, n);
    PrefixGrows(q, n);
    BytesStay(h, n, 0, HeaderBytes(a));
    QuestionLonger(Prefix(q), Prefix(n), a, q.pos);
    assert AnswerSplit(Prefix(n), a, n.names, q.pos, ps);
  }

  /** A message that could be compiled holds header, question and records one after the other. Whether their names
      read back is another matter. */
  lemma CompileStands(buf: seq<byte>, a: Answer)
    requires WellShaped(a) && AllProperNames(AnswerNames(a)) && |buf| <= MAX_BUFFER
    ensures var n := Compile(buf, a); n.Some? ==> AnswerLies(Prefix(n.value), a, n.value.names)
  {
    hide Offers, Adds, Body, AnswerWires, AllProperNames;
    if Compile(buf, a).Some? {
      var h, n := HeaderMessage(buf, a), Compile(buf, a).value;
      HeaderTidy(buf, a);
      ProperParts(QuestionNames(a), NamesIn(AnswerWires(a)));
      var q := h;
      if a.question.Some? {
        QuestionStep(h, a);
        q := AddQuestion(h, a.question.value.0, a.question.value.1).value;
      }
      assert Asks(h, q, a);
      AnswerStep(q, a);
      AnswerParts(h, q, n, a);
    }
  }

  // ---------------------------------------------------------------- what is received of it

  lemma HeaderReads(b: seq<byte>, a: Answer)
    requires BytesAt(b, 0, HeaderBytes(a))
    ensures HEADER_SIZE <= |b| && U16At(b, 0) == a.queryId && U16At(b, 2) == ANSWER_FLAGS
    ensures U16At(b, 4) == (if a.question.Some? then 1 else 0) && U16At(b, 6) == 1
    ensures U16At(b, 8) == RecordCount(a.authority) && U16At(b, 10) == RecordCount(a.additional)
  {
    var h2, h3 := Be16(a.queryId) + Be16(ANSWER_FLAGS), Be16(if a.question.Some? then 1 else 0);
    var h4, h5, h6 := Be16(1), Be16(RecordCount(a.authority)), Be16(RecordCount(a.additional));
    BytesSplit(b, 0, h2 + h3 + h4 + h5, h6);
    BytesSplit(b, 0, h2 + h3 + h4, h5);
    BytesSplit(b, 0, h2 + h3, h4);
    BytesSplit(b, 0, h2, h3);
    BytesSplit(b, 0, Be16(a.queryId), Be16(ANSWER_FLAGS));
    Be16At(b, 0, a.queryId);
    Be16At(b, 2, ANSWER_FLAGS);
    Be16At(b, 4, if a.question.Some? then 1 else 0);
    Be16At(b, 6, 1);
    Be16At(b, 8, RecordCount(a.authority));
    Be16At(b, 10, RecordCount(a.additional));
  }

  /** All sections are reported as they were meant. */
  ghost predicate ReportsAnswer(b: seq<byte>, r: Received, a: Answer)
    requires WellShaped(a)
  {
    && AllReport(b, r.answers, [WireOf(a.answer, a.rclass, a.ttl)])
    && AllReport(b, r.authority, SectionWires(a.authority, a.rclass, a.ttl))
    && AllReport(b, r.additional, SectionWires(a.additional, a.rclass, a.ttl))
  }

  /** The counts in the header are those of the answer's sections. */
  ghost predicate Announces(b: seq<byte>, a: Answer)
    requires WellShaped(a)
  {
    && HEADER_SIZE <= |b| && U16At(b, 6) == 1
    && U16At(b, 8) == |SectionWires(a.authority, a.rclass, a.ttl)|
    && U16At(b, 10) == |SectionWires(a.additional, a.rclass, a.ttl)|
  }

  lemma AnswerCounted(b: seq<byte>, a: Answer, names: seq<Entry>, start: nat, ps: seq<Parsed>)
    requires WellShaped(a) && AnswerSplit(b, a, names, start, ps)
    ensures Announces(b, a)
  {
    HeaderReads(b, a);
    AllLieSize(b, start, ps, |b|);
    CountMatches(a.authority, a.rclass, a.ttl);
    CountMatches(a.additional, a.rclass, a.ttl);
  }

  lemma ParsesSome(b: seq<byte>, start: nat, ps: seq<Parsed>, end: nat, i: nat)
    requires AllLie(b, start, ps, end) && i <= |ps|
    ensures var r := ParseRecords(b, start, i); r.records == ps[..i] && AllLie(b, r.end, ps[i..], end)
  {
    ParsesRecords(b, start, ps, end, i);
  }

  /** Where there are as many records as the header says, the sections are the records in order. */
  lemma SectionsInOrder(b: seq<byte>, start: nat, ps: seq<Parsed>, i: nat, j: nat)
    requires HEADER_SIZE <= |b| && AllLie(b, start, ps, |b|) && i <= j <= |ps|
    requires U16At(b, 6) == i && U16At(b, 8) == j - i && U16At(b, 10) == |ps| - j
    ensures ReceiveSections(b, b, start) == Received(ps[..i], ps[i..j], ps[j..])
  {
    hide ParseRecords, AllLie;
    var answers := ParseRecords(b, start, i);
    ParsesSome(b, start, ps, |b|, i);
    var authority := ParseRecords(b, answers.end, j - i);
    ParsesSome(b, answers.end, ps[i..], |b|, j - i);
    assert ps[i..][..j - i] == ps[i..j] && ps[i..][j - i..] == ps[j..];
    ParsesSome(b, authority.end, ps[j..], |b|, |ps| - j);
    assert ps[j..][..|ps| - j] == ps[j..];
  }

  /** Where there are fewer, some section is not complete. */
  lemma SectionsFallShort(b: seq<byte>, start: nat, ps: seq<Parsed>)
    requires HEADER_SIZE <= |b| && AllLie(b, start, ps, |b|) && |ps| < U16At(b, 6) as nat + U16At(b, 8) as nat + U16At(b, 10) as nat
    ensures var r := ReceiveSections(b, b, start);
            |r.answers| < U16At(b, 6) as nat || |r.authority| < U16At(b, 8) as nat || |r.additional| < U16At(b, 10) as nat
  {
    hide ParseRecords, AllLie;
    var i, j := U16At(b, 6) as nat, U16At(b, 6) as nat + U16At(b, 8) as nat;
    var answers := ParseRecords(b, start, i);
    ParsesRecords(b, start, ps, |b|, i);
    if i <= |ps| {
      var authority := ParseRecords(b, answers.end, j - i);
      ParsesRecords(b, answers.end, ps[i..], |b|, j - i);
      if j <= |ps| {
        assert ps[i..][j - i..] == ps[j..];
        ParsesRecords(b, authority.end, ps[j..], |b|, U16At(b, 10));
      }
    }
  }

  lemma PlainReports(b: seq<byte>, a: Answer, start: nat, ps: seq<Parsed>)
    requires WellShaped(a) && !a.answer.data.Txt? && Announces(b, a) && AllLie(b, start, ps, |b|) && |ps| == |AnswerWires(a)|
    ensures ReportsAnswer(b, ReceiveSections(b, b, start), a) <==> AllReport(b, ps, AnswerWires(a))
  {
    hide AllReport, SectionWires;
    var first := [WireOf(a.answer, a.rclass, a.ttl)];
    var second, third := SectionWires(a.authority, a.rclass, a.ttl), SectionWires(a.additional, a.rclass, a.ttl);
    var j := 1 + |second|;
    SectionsInOrder(b, start, ps, 1, j);
    assert ps == ps[..1] + ps[1..j] + ps[j..];
    AllReportConcat(b, ps[..1] + ps[1..j], first + second, ps[j..], third);
    AllReportConcat(b, ps[..1], first, ps[1..j], second);
  }

  lemma TxtReports(b: seq<byte>, a: Answer, start: nat, ps: seq<Parsed>)
    requires WellShaped(a) && a.answer.data.Txt? && Announces(b, a) && AllLie(b, start, ps, |b|) && |ps| == |AnswerWires(a)|
    ensures !ReportsAnswer(b, ReceiveSections(b, b, start), a)
  {
    SectionsFallShort(b, start, ps);
  }

  /** The question's name reads back. */
  ghost predicate QuestionReads(b: seq<byte>, a: Answer)
    requires WellShaped(a)
  {
    a.question.Some? ==> var r := Read(b, HEADER_SIZE, 0); r.Name? && r.labels == LabelsOfText(a.question.value.1)
  }

  lemma QuestionIff(b: seq<byte>, a: Answer, start: nat)
    requires WellShaped(a) && HEADER_SIZE <= start && QuestionLies(b, a, start)
    ensures QuestionReads(b, a) <==> AllRead(b, QuestionEntries(a, start))
  {
    if a.question.Some? {
      ReadImpliesSkip(b, HEADER_SIZE, 0);
      assert AllRead(b, QuestionEntries(a, start)) ==> EntryReads(b, QuestionEntries(a, start)[0]);
    }
  }

  lemma ReceiveIs(b: seq<byte>, a: Answer, start: nat, onlyQueryId: int)
    requires BytesAt(b, 0, HeaderBytes(a)) && QuestionLies(b, a, start)
    requires onlyQueryId <= 0 || onlyQueryId == a.queryId
    ensures HEADER_SIZE <= |b| && Receive(b, onlyQueryId) == ReceiveSections(b, b, start)
  {
    HeaderReads(b, a);
    assert b[..|b|] == b;
  }

  /** A receiver takes answers to the query it waits for, or to any. */
  predicate Wanted(onlyQueryId: int, a: Answer) {
    onlyQueryId <= 0 || onlyQueryId == a.queryId
  }

  /** Answers to other queries report nothing. */
  lemma OtherIgnored(b: seq<byte>, a: Answer, onlyQueryId: int)
    requires WellShaped(a) && BytesAt(b, 0, HeaderBytes(a)) && !Wanted(onlyQueryId, a)
    ensures HEADER_SIZE <= |b| && Receive(b, onlyQueryId) == NOTHING && !ReportsAnswer(b, NOTHING, a)
  {
    HeaderReads(b, a);
  }

  /** The names that are recorded: first that of the question, then those of the records. */
  function RecordNamesOf(a: Answer, names: seq<Entry>): seq<Entry>
    requires WellShaped(a)
  {
    if |names| < |QuestionNames(a)| then [] else names[|QuestionNames(a)|..]
  }

  /** What a message that holds the answer gives its receiver. */
  lemma ReceivedIff(b: seq<byte>, a: Answer, names: seq<Entry>, onlyQueryId: int)
    requires WellShaped(a) && AnswerLies(b, a, names)
    ensures HEADER_SIZE <= |b|
    ensures ReportsAnswer(b, Receive(b, onlyQueryId), a)
            <==> Wanted(onlyQueryId, a) && !a.answer.data.Txt? && AllRead(b, RecordNamesOf(a, names))
    ensures AllRead(b, names) <==> QuestionReads(b, a) && AllRead(b, RecordNamesOf(a, names))
  {
    hide AllLie, AllShow, AllRead, AllReport, SectionWires, Receive, ReceiveSections, HeaderBytes;
    var start: nat, ps :| AnswerSplit(b, a, names, start, ps);
    AnswerCounted(b, a, names, start, ps);
    ShowSize(b, ps, AnswerWires(a));
    AllReportIff(b, ps, AnswerWires(a));
    QuestionIff(b, a, start);
    var es := AllEntries(ps, AnswerWires(a));
    AllReadConcat(b, QuestionEntries(a, start), es);
    assert RecordNamesOf(a, names) == es;
    if !Wanted(onlyQueryId, a) {
      OtherIgnored(b, a, onlyQueryId);
      return;
    }
    ReceiveIs(b, a, start, onlyQueryId);
    if a.answer.data.Txt? {
      TxtReports(b, a, start, ps);
    } else {
      PlainReports(b, a, start, ps);
    }
  }

  lemma ShowSize(b: seq<byte>, ps: seq<Parsed>, ws: seq<Wire>)
    requires AllShow(b, ps, ws)
    ensures |ps| == |ws|
  {
  }

  /** The header is that of an authoritative response to the query, with as many questions and records as follow; all
      TXT records of a section are one. */
  lemma AnswerHeader(buf: seq<byte>, a: Answer)
    requires WellShaped(a) && AllProperNames(AnswerNames(a)) && |buf| <= MAX_BUFFER && Compile(buf, a).Some?
    ensures var b := Prefix(Compile(buf, a).value);
            && Announces(b, a)
            && U16At(b, 0) == a.queryId && U16At(b, 2) == 0x8400 && U16At(b, 4) == if a.question.Some? then 1 else 0
  {
    hide Compile, AllProperNames, HeaderBytes, Announces, AllLie, AllShow, AnswerWires, NamesIn, QuestionLies;
    CompileStands(buf, a);
    var n := Compile(buf, a).value;
    var start: nat, ps :| AnswerSplit(Prefix(n), a, n.names, start, ps);
    AnswerCounted(Prefix(n), a, n.names, start, ps);
    HeaderReads(Prefix(n), a);
  }

  /** A receiver gets every record of an answer - the same types, classes and times to live, names that read back, and
      data that stands where it is told - exactly when it waits for this answer, or for any, the answer is no TXT record
      and all names of records read back from the message. */
  lemma AnswerReceivedIff(buf: seq<byte>, a: Answer, onlyQueryId: int)
    requires WellShaped(a) && AllProperNames(AnswerNames(a)) && |buf| <= MAX_BUFFER
    ensures Compile(buf, a).Some? ==>
              var n := Compile(buf, a).value;
              HEADER_SIZE <= n.pos
              && (ReportsAnswer(Prefix(n), Receive(Prefix(n), onlyQueryId), a)
                  <==> Wanted(onlyQueryId, a) && !a.answer.data.Txt? && AllRead(Prefix(n), RecordNamesOf(a, n.names)))
  {
    hide Compile, AllRead, ReportsAnswer, AnswerLies, AllProperNames, Receive, RecordNamesOf;
    CompileStands(buf, a);
    if Compile(buf, a).Some? {
      var n := Compile(buf, a).value;
      ReceivedIff(Prefix(n), a, n.names, onlyQueryId);
    }
  }

  // ---------------------------------------------------------------- exactly when an answer comes back

  lemma {:induction false} AskedHas(edits: seq<Edit>, i: nat)
    requires i < |edits| && edits[i].MakeName?
    ensures edits[i].labels in Asked(edits)
    decreases i
  {
    if i > 0 {
      AskedHas(edits[1..], i - 1);
    }
  }

  /** The edits of an answer ask for its names. */
  lemma AnswerAsks(buf: seq<byte>, a: Answer)
    requires WellShaped(a) && AllProperNames(AnswerNames(a)) && |buf| <= MAX_BUFFER && Compile(buf, a).Some?
    ensures Asked(AnswerEdits(buf, a)) == AnswerNames(a)
  {
    hide AnswerEdits, Compile, Compose, AllEntries, AllShow, AllLie, AnswerWires, NamesIn, QuestionLies, HeaderBytes;
    var n, edits := Compile(buf, a).value, AnswerEdits(buf, a);
    CompileStands(buf, a);
    CompileComposes(buf, a);
    NamesAreAsked(HeaderMessage(buf, a), edits);
    var start: nat, ps :| AnswerSplit(Prefix(n), a, n.names, start, ps);
    ShowSize(Prefix(n), ps, AnswerWires(a));
    EntryNames(ps, AnswerWires(a));
    LabelsOfConcat(QuestionEntries(a, start), AllEntries(ps, AnswerWires(a)));
    assert LabelsOf(QuestionEntries(a, start)) == QuestionNames(a);
  }

  lemma AnswerProper(buf: seq<byte>, a: Answer)
    requires WellShaped(a) && AllProperNames(AnswerNames(a)) && |buf| <= MAX_BUFFER && Compile(buf, a).Some?
    ensures AllProper(AnswerEdits(buf, a))
  {
    var edits := AnswerEdits(buf, a);
    AnswerAsks(buf, a);
    forall i | 0 <= i < |edits| && edits[i].MakeName? ensures Proper(edits[i].labels) {
      AskedHas(edits, i);
    }
  }

  /** While the answer is written, every search for a name settles on an earlier one that ends with it. */
  ghost predicate AnswerSettles(buf: seq<byte>, a: Answer)
    requires WellShaped(a) && Compile(buf, a).Some?
  {
    AllSettle(HeaderMessage(buf, a), AnswerEdits(buf, a))
  }

  lemma NamesReadIff(buf: seq<byte>, a: Answer)
    requires WellShaped(a) && AllProperNames(AnswerNames(a)) && |buf| <= MAX_BUFFER && Compile(buf, a).Some?
    ensures var n := Compile(buf, a).value; AllRead(Prefix(n), n.names) <==> AnswerSettles(buf, a)
  {
    hide AnswerEdits, Compile, Compose, AllSettle, Read;
    CompileSize(buf, a);
    var h, n := HeaderMessage(buf, a), Compile(buf, a).value;
    HeaderTidy(buf, a);
    CompileComposes(buf, a);
    AnswerProper(buf, a);
    AllNamesReadBackIff(h, AnswerEdits(buf, a), n.pos);
  }

  lemma CompileSize(buf: seq<byte>, a: Answer)
    requires WellShaped(a) && Compile(buf, a).Some?
    ensures HEADER_SIZE <= |buf|
  {
  }

  /** An answer comes back, its question's name included, exactly when it is waited for, is no TXT record and every
      search settles. */
  lemma AnswerRoundTripIff(buf: seq<byte>, a: Answer, onlyQueryId: int)
    requires WellShaped(a) && AllProperNames(AnswerNames(a)) && |buf| <= MAX_BUFFER && Compile(buf, a).Some?
    ensures var b := Prefix(Compile(buf, a).value);
            HEADER_SIZE <= |b|
            && (ReportsAnswer(b, Receive(b, onlyQueryId), a) && QuestionReads(b, a)
                <==> Wanted(onlyQueryId, a) && !a.answer.data.Txt? && AnswerSettles(buf, a))
            && (AnswerSettles(buf, a) ==>
                  (ReportsAnswer(b, Receive(b, onlyQueryId), a) <==> Wanted(onlyQueryId, a) && !a.answer.data.Txt?))
  {
    hide Compile, AllRead, AnswerSettles, ReportsAnswer, AnswerLies, AllProperNames, Receive, RecordNamesOf, QuestionReads;
    var n := Compile(buf, a).value;
    CompileStands(buf, a);
    ReceivedIff(Prefix(n), a, n.names, onlyQueryId);
    NamesReadIff(buf, a);
  }

  // ---------------------------------------------------------------- a discipline under which it does

  /** Names that keep to the discipline of `AllNamesReadBack`. */
  ghost predicate AnswerOk(a: Answer, zeros: bool, lasts: set<Label>)
    requires WellShaped(a)
  {
    forall i :: 0 <= i < |AnswerNames(a)| ==> Admissible(MakeName(AnswerNames(a)[i]), zeros, lasts)
  }

  lemma OkIsProper(a: Answer, zeros: bool, lasts: set<Label>)
    requires WellShaped(a) && AnswerOk(a, zeros, lasts)
    ensures AllProperNames(AnswerNames(a))
  {
    assert forall i :: 0 <= i < |AnswerNames(a)| ==> Admissible(MakeName(AnswerNames(a)[i]), zeros, lasts);
  }

  lemma OkSettles(buf: seq<byte>, a: Answer, zeros: bool, lasts: set<Label>)
    requires WellShaped(a) && AnswerOk(a, zeros, lasts) && |buf| <= MAX_BUFFER && Compile(buf, a).Some?
    requires zeros ==> HEADER_SIZE <= |buf| && ZerosFrom(buf, HEADER_SIZE)
    ensures AnswerSettles(buf, a)
  {
    hide AnswerEdits, AnswerNames, AllSettle, Admissible, Compile;
    CompileSize(buf, a);
    var h, edits := HeaderMessage(buf, a), AnswerEdits(buf, a);
    OkIsProper(a, zeros, lasts);
    AnswerAsks(buf, a);
    forall i | 0 <= i < |edits| ensures Admissible(edits[i], zeros, lasts) {
      if edits[i].MakeName? {
        AskedHas(edits, i);
        var k :| 0 <= k < |AnswerNames(a)| && AnswerNames(a)[k] == edits[i].labels;
        assert Admissible(MakeName(AnswerNames(a)[k]), zeros, lasts);
        assert edits[i] == MakeName(edits[i].labels);
      } else {
        OtherAdmissible(edits[i], zeros, lasts);
      }
    }
    var d := HeaderBacked(buf, a, lasts);
    ComposeSettles(d, h, edits, zeros, lasts);
  }

  lemma OtherAdmissible(e: Edit, zeros: bool, lasts: set<Label>)
    requires !e.MakeName?
    ensures Admissible(e, zeros, lasts)
  {
  }

  lemma HeaderBacked(buf: seq<byte>, a: Answer, lasts: set<Label>) returns (d: Draft)
    requires HEADER_SIZE <= |buf| <= MAX_BUFFER
    ensures Backs(d, HeaderMessage(buf, a), lasts)
    ensures ZerosFrom(buf, HEADER_SIZE) ==> ZerosFrom(HeaderMessage(buf, a).buf, HEADER_SIZE)
  {
    var h := HeaderMessage(buf, a);
    d := Draft(h.buf, h.pos, h.table, {}, map[], map[]);
  }

  /** Under it, exactly the answers that are no TXT record come back to those who wait for them. */
  lemma AnswerRoundTrip(buf: seq<byte>, a: Answer, onlyQueryId: int, zeros: bool, lasts: set<Label>)
    requires WellShaped(a) && AnswerOk(a, zeros, lasts) && |buf| <= MAX_BUFFER
    requires zeros ==> HEADER_SIZE <= |buf| && ZerosFrom(buf, HEADER_SIZE)
    ensures Compile(buf, a).Some? ==>
              var b := Prefix(Compile(buf, a).value);
              HEADER_SIZE <= |b| && (ReportsAnswer(b, Receive(b, onlyQueryId), a) <==> Wanted(onlyQueryId, a) && !a.answer.data.Txt?)
  {
    hide Compile, ReportsAnswer, Receive, AnswerOk, AnswerSettles;
    OkIsProper(a, zeros, lasts);
    if Compile(buf, a).Some? {
      OkSettles(buf, a, zeros, lasts);
      AnswerRoundTripIff(buf, a, onlyQueryId);
    }
  }

  /** An answer for which there is room without compression arrives: it is written, and comes back. */
  lemma AnswerArrives(buf: seq<byte>, a: Answer, onlyQueryId: int, zeros: bool, lasts: set<Label>)
    requires WellShaped(a) && AnswerOk(a, zeros, lasts) && Brief(a) && !a.answer.data.Txt? && Wanted(onlyQueryId, a)
    requires MIN_CAPACITY <= |buf| <= MAX_BUFFER && AnswerSize(a, false) <= |buf|
    requires zeros ==> ZerosFrom(buf, HEADER_SIZE)
    ensures Compile(buf, a).Some?
    ensures var b := Prefix(Compile(buf, a).value); HEADER_SIZE <= |b| && ReportsAnswer(b, Receive(b, onlyQueryId), a)
  {
    hide Compile, ReportsAnswer, Receive, AnswerOk, Brief, AnswerSize;
    CompileFits(buf, a);
    AnswerRoundTrip(buf, a, onlyQueryId, zeros, lasts);
  }

  // ---------------------------------------------------------------- a TXT record as the answer

  /** A TXT record given as the answer is announced and never written: no receiver gets all records of such a message,
      whatever its names and its sections. */
  lemma TxtAnswerLost(buf: seq<byte>, a: Answer, onlyQueryId: int)
    requires WellShaped(a) && AllProperNames(AnswerNames(a)) && |buf| <= MAX_BUFFER
    ensures Compile(buf, a).Some? && a.answer.data.Txt? ==>
              var b := Prefix(Compile(buf, a).value);
              HEADER_SIZE <= |b| && !ReportsAnswer(b, Receive(b, onlyQueryId), a)
  {
    hide Compile, ReportsAnswer, Receive, AllProperNames, AllRead, RecordNamesOf;
    AnswerReceivedIff(buf, a, onlyQueryId);
  }

  /** "k=v" as the answer and nothing else: the message is its header, which announces one record. */
  lemma TxtAnswerLostExample(buf: seq<byte>)
    requires |buf| == MIN_CAPACITY
    ensures var a := Answer(0, None, Record([97], Txt([107], [118])), [], [], 1, 10);
            && Compile(buf, a).Some? && |Prefix(Compile(buf, a).value)| == HEADER_SIZE
            && U16At(Prefix(Compile(buf, a).value), 6) == 1
            && Receive(Prefix(Compile(buf, a).value), 0) == NOTHING
  {
    var a := Answer(0, None, Record([97], Txt([107], [118])), [], [], 1, 10);
    var b := Prefix(HeaderMessage(buf, a));
    assert b == HeaderBytes(a);
    HeaderReads(b, a);
    ReceiveIs(b, a, HEADER_SIZE, 0);
    NothingBehind(b, HEADER_SIZE, 1);
  }

  // ---------------------------------------------------------------- what the parse functions return of it

  /** What the functions for each kind of record return of a received answer. */
  lemma AnswerReadsBack(buf: seq<byte>, a: Answer, onlyQueryId: int, capacity: nat)
    requires WellShaped(a) && AllProperNames(AnswerNames(a)) && |buf| <= MAX_BUFFER
    requires Compile(buf, a).Some? && AnswerSettles(buf, a) && !a.answer.data.Txt? && Wanted(onlyQueryId, a)
    ensures var b := Prefix(Compile(buf, a).value);
            HEADER_SIZE <= |b|
            && var r := Receive(b, onlyQueryId);
               && SectionReads(b, r.answers, [WireOf(a.answer, a.rclass, a.ttl)], capacity)
               && SectionReads(b, r.authority, SectionWires(a.authority, a.rclass, a.ttl), capacity)
               && SectionReads(b, r.additional, SectionWires(a.additional, a.rclass, a.ttl), capacity)
  {
    hide Compile, Receive, AnswerSettles, AllReport, SectionReads, SectionWires, AllProperNames;
    AnswerRoundTripIff(buf, a, onlyQueryId);
    var b := Prefix(Compile(buf, a).value);
    var r := Receive(b, onlyQueryId);
    AllReportReads(b, r.answers, [WireOf(a.answer, a.rclass, a.ttl)], capacity);
    AllReportReads(b, r.authority, SectionWires(a.authority, a.rclass, a.ttl), capacity);
    AllReportReads(b, r.additional, SectionWires(a.additional, a.rclass, a.ttl), capacity);
  }
}
