/** What a receiver finds in an answer message is what the sender put into it. */
module DnsAnswer {
  import opened Lists
  import opened DnsNames
  import opened DnsCompose
  import opened DnsMessage
  import opened DnsParser

  // ---------------------------------------------------------------- reading a longer buffer

  lemma {:induction false} HopLonger(a: seq<byte>, b: seq<byte>, o: nat, hops: nat)
    requires a <= b && o < |a| && hops <= MAX_HOPS && Hop(a, o, hops).At?
    ensures Hop(b, o, hops) == Hop(a, o, hops)
    decreases MAX_HOPS - hops, o
  {
    if IsRef(a[o]) {
      HopLonger(a, b, PointerAt(a, o), hops + 1);
    }
  }

  lemma SubLonger(a: seq<byte>, b: seq<byte>, o: nat)
    requires a <= b && NextSub(a, o).At?
    ensures NextSub(b, o) == NextSub(a, o)
  {
    if a[o] != 0 {
      HopLonger(a, b, o, 0);
    }
  }

  /** A name that can be read stays the same when more bytes follow. */
  lemma {:induction false} ReadLonger(a: seq<byte>, b: seq<byte>, o: nat, count: nat)
    requires a <= b && count <= MAX_SUBSTRINGS + 1 && Read(a, o, count).Name?
    ensures Read(b, o, count) == Read(a, o, count)
    decreases MAX_SUBSTRINGS + 1 - count, o
  {
    SubLonger(a, b, o);
    SubBounds(a, o);
    var s := NextSub(a, o);
    if s.length > 0 {
      ReadLonger(a, b, s.offset + s.length, count + 1);
      assert a[s.offset..s.offset + s.length] == b[s.offset..s.offset + s.length];
    }
  }

  /** So does where it is skipped to. */
  lemma {:induction false} SkipLonger(a: seq<byte>, b: seq<byte>, o: nat, count: nat)
    requires a <= b && count <= MAX_SUBSTRINGS + 1 && SkipFrom(a, o, count).To?
    ensures SkipFrom(b, o, count) == SkipFrom(a, o, count)
    decreases MAX_SUBSTRINGS + 1 - count, o
  {
    SubLonger(a, b, o);
    var s := NextSub(a, o);
    if !s.ref && s.length > 0 {
      SkipLonger(a, b, s.offset + s.length, count + 1);
    }
  }

  // ---------------------------------------------------------------- records on the wire

  datatype WireData =
    | Target(labels: seq<Label>)
    | Host(priority: U16, weight: U16, port: U16, labels: seq<Label>)
    | Address(bytes: seq<byte>)
    | Strings(pairs: seq<Pair>)
    | Nothing

  datatype Wire = Wire(labels: seq<Label>, rtype: U16, rclass: U16, ttl: U32, data: WireData)

  predicate NameAt(b: seq<byte>, start: nat, labels: seq<Label>, end: nat) {
    Read(b, start, 0) == Name(labels, end)
  }

  predicate BytesAt(b: seq<byte>, at: nat, bytes: seq<byte>) {
    at + |bytes| <= |b| && b[at..at + |bytes|] == bytes
  }

  function StringBytes(pairs: seq<Pair>): seq<byte> {
    if pairs == [] then [] else Counted(KeyValue(pairs[0].key, pairs[0].value)) + StringBytes(pairs[1..])
  }

  function DataNames(data: WireData): seq<seq<Label>> {
    match data
    case Target(labels) => [labels]
    case Host(_, _, _, labels) => [labels]
    case _ => []
  }

  /** The names in records, in order. */
  function NamesIn(ws: seq<Wire>): seq<seq<Label>> {
    if ws == [] then [] else [ws[0].labels] + DataNames(ws[0].data) + NamesIn(ws[1..])
  }

  lemma {:induction false} NamesInConcat(vs: seq<Wire>, ws: seq<Wire>)
    ensures NamesIn(vs + ws) == NamesIn(vs) + NamesIn(ws)
  {
    if vs == [] {
      assert vs + ws == ws;
    } else {
      NamesInConcat(vs[1..], ws);
      assert (vs + ws)[1..] == vs[1..] + ws;
    }
  }

  predicate DataAt(b: seq<byte>, start: nat, data: WireData, end: nat) {
    match data
    case Target(labels) => NameAt(b, start, labels, end)
    case Host(priority, weight, port, labels) =>
      BytesAt(b, start, Be16(priority) + Be16(weight) + Be16(port)) && NameAt(b, start + 6, labels, end)
    case Address(bytes) => BytesAt(b, start, bytes) && end == start + |bytes|
    case Strings(pairs) => BytesAt(b, start, StringBytes(pairs)) && end == start + |StringBytes(pairs)|
    case Nothing => end == start
  }

  /** The same, whatever the name in it reads as. */
  predicate DataLies(b: seq<byte>, start: nat, data: WireData, end: nat) {
    match data
    case Target(_) => true
    case Host(priority, weight, port, _) => BytesAt(b, start, Be16(priority) + Be16(weight) + Be16(port))
    case _ => DataAt(b, start, data, end)
  }

  /** A record lies where `p` tells, whatever its name reads as. */
  predicate Lies(b: seq<byte>, p: Parsed) {
    && SkipFrom(b, p.nameOffset, 0) == To(p.nameOffset + p.nameLength) && p.offset == p.nameOffset + p.nameLength + 10
    && BytesAt(b, p.offset - 10, Fixed(p.rtype, p.rclass, p.ttl, p.length)) && p.offset + p.length <= |b|
  }

  /** Records lie one after the other. */
  predicate AllLie(b: seq<byte>, start: nat, ps: seq<Parsed>, end: nat)
    decreases |ps|
  {
    if ps == [] then start == end
    else ps[0].nameOffset == start && Lies(b, ps[0]) && AllLie(b, ps[0].offset + ps[0].length, ps[1..], end)
  }

  lemma {:induction false} AllLieLonger(a: seq<byte>, b: seq<byte>, start: nat, ps: seq<Parsed>, end: nat)
    requires a <= b && AllLie(a, start, ps, end)
    ensures AllLie(b, start, ps, end)
    decreases |ps|
  {
    if ps != [] {
      SkipLonger(a, b, start, 0);
      AllLieLonger(a, b, ps[0].offset + ps[0].length, ps[1..], end);
    }
  }

  lemma {:induction false} AllLieConcat(b: seq<byte>, start: nat, ps: seq<Parsed>, mid: nat, qs: seq<Parsed>, end: nat)
    requires AllLie(b, start, ps, mid) && AllLie(b, mid, qs, end)
    ensures AllLie(b, start, ps + qs, end)
    decreases |ps|
  {
    hide Lies;
    if ps == [] {
      assert ps + qs == qs;
    } else {
      AllLieConcat(b, ps[0].offset + ps[0].length, ps[1..], mid, qs, end);
      assert (ps + qs)[1..] == ps[1..] + qs;
    }
  }

  lemma {:induction false} AllLieSize(b: seq<byte>, start: nat, ps: seq<Parsed>, end: nat)
    requires AllLie(b, start, ps, end)
    ensures start + |ps| <= end
    decreases |ps|
  {
    if ps != [] {
      AllLieSize(b, ps[0].offset + ps[0].length, ps[1..], end);
    }
  }

  // ---------------------------------------------------------------- what the receiver makes of them

  lemma Be16At(b: seq<byte>, at: nat, x: U16)
    requires BytesAt(b, at, Be16(x))
    ensures at + 2 <= |b| && U16At(b, at) == x
  {
    assert b[at..at + 2][0] == b[at] && b[at..at + 2][1] == b[at + 1];
  }

  lemma BytesSplit(b: seq<byte>, at: nat, xs: seq<byte>, ys: seq<byte>)
    requires BytesAt(b, at, xs + ys)
    ensures BytesAt(b, at, xs) && BytesAt(b, at + |xs|, ys)
  {
    var all := b[at..at + |xs + ys|];
    assert all[..|xs|] == xs && all[|xs|..] == ys;
    assert b[at..at + |xs|] == all[..|xs|] && b[at + |xs|..at + |xs| + |ys|] == all[|xs|..];
  }

  lemma FixedAt(b: seq<byte>, at: nat, rtype: U16, rclass: U16, ttl: U32, length: U16)
    requires BytesAt(b, at, Fixed(rtype, rclass, ttl, length))
    ensures at + 10 <= |b|
    ensures U16At(b, at) == rtype && U16At(b, at + 2) == rclass && U32At(b, at + 4) == ttl && U16At(b, at + 8) == length
  {
    BytesSplit(b, at, Be16(rtype) + Be16(rclass) + Be32(ttl), Be16(length));
    BytesSplit(b, at, Be16(rtype) + Be16(rclass), Be32(ttl));
    BytesSplit(b, at, Be16(rtype), Be16(rclass));
    BytesSplit(b, at + 4, Be16(ttl / 65536), Be16(ttl % 65536));
    Be16At(b, at, rtype);
    Be16At(b, at + 2, rclass);
    Be16At(b, at + 4, ttl / 65536);
    Be16At(b, at + 6, ttl % 65536);
    Be16At(b, at + 8, length);
  }

  /** `p` reports `w`. */
  ghost predicate Reports(b: seq<byte>, p: Parsed, w: Wire) {
    && p.rtype == w.rtype && p.rclass == w.rclass && p.ttl == w.ttl
    && NameAt(b, p.nameOffset, w.labels, p.nameOffset + p.nameLength)
    && p.offset + p.length <= |b| && DataAt(b, p.offset, w.data, p.offset + p.length)
  }

  ghost predicate AllReport(b: seq<byte>, ps: seq<Parsed>, ws: seq<Wire>) {
    |ps| == |ws| && forall i :: 0 <= i < |ps| ==> Reports(b, ps[i], ws[i])
  }

  /** What `p` tells is so but for the names. */
  predicate Shows(b: seq<byte>, p: Parsed, w: Wire) {
    && p.rtype == w.rtype && p.rclass == w.rclass && p.ttl == w.ttl && p.offset + p.length <= |b|
    && DataLies(b, p.offset, w.data, p.offset + p.length)
  }

  ghost predicate AllShow(b: seq<byte>, ps: seq<Parsed>, ws: seq<Wire>) {
    |ps| == |ws| && forall i :: 0 <= i < |ps| ==> Shows(b, ps[i], ws[i])
  }

  function DataEntries(start: nat, data: WireData, end: nat): seq<Entry> {
    match data
    case Target(labels) => [Entry(start, labels, end)]
    case Host(_, _, _, labels) => [Entry(start + 6, labels, end)]
    case _ => []
  }

  /** The names of a record and where they should be. */
  function Entries(p: Parsed, w: Wire): seq<Entry> {
    [Entry(p.nameOffset, w.labels, p.nameOffset + p.nameLength)] + DataEntries(p.offset, w.data, p.offset + p.length)
  }

  function AllEntries(ps: seq<Parsed>, ws: seq<Wire>): seq<Entry>
    requires |ps| == |ws|
  {
    if ps == [] then [] else Entries(ps[0], ws[0]) + AllEntries(ps[1..], ws[1..])
  }

  lemma {:induction false} AllEntriesConcat(ps: seq<Parsed>, ws: seq<Wire>, qs: seq<Parsed>, vs: seq<Wire>)
    requires |ps| == |ws| && |qs| == |vs|
    ensures AllEntries(ps + qs, ws + vs) == AllEntries(ps, ws) + AllEntries(qs, vs)
    decreases |ps|
  {
    hide Entries;
    if ps == [] {
      assert ps + qs == qs && ws + vs == vs;
    } else {
      AllEntriesConcat(ps[1..], ws[1..], qs, vs);
      assert (ps + qs)[1..] == ps[1..] + qs && (ws + vs)[1..] == ws[1..] + vs;
    }
  }

  lemma {:induction false} EntryNames(ps: seq<Parsed>, ws: seq<Wire>)
    requires |ps| == |ws|
    ensures LabelsOf(AllEntries(ps, ws)) == NamesIn(ws)
    decreases |ps|
  {
    if ps != [] {
      EntryNames(ps[1..], ws[1..]);
      LabelsOfConcat(Entries(ps[0], ws[0]), AllEntries(ps[1..], ws[1..]));
      assert LabelsOf(Entries(ps[0], ws[0])) == [ws[0].labels] + DataNames(ws[0].data);
    }
  }

  lemma LabelsOfConcat(es: seq<Entry>, fs: seq<Entry>)
    ensures LabelsOf(es + fs) == LabelsOf(es) + LabelsOf(fs)
  {
  }

  predicate EntryReads(b: seq<byte>, e: Entry) {
    NameAt(b, e.start, e.labels, e.end)
  }

  predicate AllRead(b: seq<byte>, es: seq<Entry>) {
    forall i :: 0 <= i < |es| ==> EntryReads(b, es[i])
  }

  lemma AllReadConcat(b: seq<byte>, es: seq<Entry>, fs: seq<Entry>)
    ensures AllRead(b, es + fs) <==> AllRead(b, es) && AllRead(b, fs)
  {
    if AllRead(b, es + fs) {
      assert forall i :: 0 <= i < |es| ==> es[i] == (es + fs)[i];
      assert forall i :: 0 <= i < |fs| ==> fs[i] == (es + fs)[|es| + i];
    }
  }

  lemma ReportsIff(b: seq<byte>, p: Parsed, w: Wire)
    requires Shows(b, p, w)
    ensures Reports(b, p, w) <==> AllRead(b, Entries(p, w))
  {
    var es := Entries(p, w);
    if AllRead(b, es) {
      assert EntryReads(b, es[0]);
      assert |es| == 2 ==> EntryReads(b, es[1]);
    }
  }

  /** All is reported exactly when all names read back. */
  lemma {:induction false} AllReportIff(b: seq<byte>, ps: seq<Parsed>, ws: seq<Wire>)
    requires AllShow(b, ps, ws)
    ensures AllReport(b, ps, ws) <==> AllRead(b, AllEntries(ps, ws))
    decreases |ps|
  {
    if ps != [] {
      ReportsIff(b, ps[0], ws[0]);
      AllReadConcat(b, Entries(ps[0], ws[0]), AllEntries(ps[1..], ws[1..]));
      AllReportIff(b, ps[1..], ws[1..]);
      AllReportConcat(b, [ps[0]], [ws[0]], ps[1..], ws[1..]);
      assert ps == [ps[0]] + ps[1..] && ws == [ws[0]] + ws[1..];
    }
  }

  lemma AllReportConcat(b: seq<byte>, ps: seq<Parsed>, ws: seq<Wire>, qs: seq<Parsed>, vs: seq<Wire>)
    requires |ps| == |ws| && |qs| == |vs|
    ensures AllReport(b, ps + qs, ws + vs) <==> AllReport(b, ps, ws) && AllReport(b, qs, vs)
  {
    if AllReport(b, ps + qs, ws + vs) {
      assert forall i :: 0 <= i < |ps| ==> ps[i] == (ps + qs)[i] && ws[i] == (ws + vs)[i];
      assert forall i :: 0 <= i < |qs| ==> qs[i] == (ps + qs)[|ps| + i] && vs[i] == (ws + vs)[|ps| + i];
    }
  }

  lemma ParsesRecord(b: seq<byte>, p: Parsed, count: nat)
    requires Lies(b, p)
    ensures ParseRecords(b, p.nameOffset, count + 1) == Before([p], ParseRecords(b, p.offset + p.length, count))
  {
    FixedAt(b, p.offset - 10, p.rtype, p.rclass, p.ttl, p.length);
  }

  /** `r` are the first `count` of the records, if there are so many; the others lie behind them. */
  ghost predicate ParsesTo(r: Parse, b: seq<byte>, ps: seq<Parsed>, end: nat, count: nat) {
    var k := if count <= |ps| then count else |ps|;
    r.records == ps[..k] && AllLie(b, r.end, ps[k..], end)
  }

  lemma ParsesNone(b: seq<byte>, start: nat, ps: seq<Parsed>, end: nat, count: nat)
    requires AllLie(b, start, ps, end) && (count == 0 || (ps == [] && end == |b|))
    ensures ParsesTo(ParseRecords(b, start, count), b, ps, end, count)
  {
    assert ps[0..] == ps;
    if count > 0 {
      NothingBehind(b, start, count);
    }
  }

  lemma ParsesCons(r: Parse, b: seq<byte>, ps: seq<Parsed>, end: nat, count: nat)
    requires ps != [] && ParsesTo(r, b, ps[1..], end, count)
    ensures ParsesTo(Before([ps[0]], r), b, ps, end, count + 1)
  {
    var k := if count < |ps| then count else |ps| - 1;
    assert [ps[0]] + ps[1..][..k] == ps[..k + 1] && ps[1..][k..] == ps[k + 1..];
  }

  /** The records that lie in the buffer are parsed in order, as many as are asked for and there are, and parsing ends
      where the others lie. */
  lemma {:induction false} ParsesRecords(b: seq<byte>, start: nat, ps: seq<Parsed>, end: nat, count: nat)
    requires AllLie(b, start, ps, end) && (count <= |ps| || end == |b|)
    ensures ParsesTo(ParseRecords(b, start, count), b, ps, end, count)
    decreases count
  {
    hide Lies, ParseRecords, ParsesTo;
    if count == 0 || ps == [] {
      ParsesNone(b, start, ps, end, count);
    } else {
      var next := ps[0].offset + ps[0].length;
      ParsesRecord(b, ps[0], count - 1);
      ParsesRecords(b, next, ps[1..], end, count - 1);
      ParsesCons(ParseRecords(b, next, count - 1), b, ps, end, count - 1);
    }
  }

  // ---------------------------------------------------------------- and of their data

  /** Only the empty name takes a single byte. */
  lemma NameTakes(b: seq<byte>, start: nat, labels: seq<Label>, end: nat)
    requires NameAt(b, start, labels, end)
    ensures start < end <= |b| && (labels != [] ==> start + 2 <= end)
  {
    ReadEnd(b, start, 0);
    RefRoom(b, start);
    var s := NextSub(b, start);
    if labels != [] && !s.ref {
      ReadEnd(b, s.offset + s.length, 1);
    }
  }

  lemma PtrReads(b: seq<byte>, offset: nat, labels: seq<Label>, length: nat, capacity: nat)
    requires DataAt(b, offset, Target(labels), offset + length)
    ensures PtrOf(b, offset, length, capacity) == Cut(Text(labels), capacity)
  {
    NameTakes(b, offset, labels, offset + length);
  }

  /** A service is read back exactly when its record is not taken for too short, which happens to the root name as a
      host; what such a record says reads as zeros. */
  lemma SrvReadsIff(b: seq<byte>, offset: nat, priority: U16, weight: U16, port: U16, labels: seq<Label>,
                    length: nat, capacity: nat)
    requires DataAt(b, offset, Host(priority, weight, port, labels), offset + length)
    ensures SrvOf(b, offset, length, capacity) == Service(priority, weight, port, Cut(Text(labels), capacity))
            <==> 8 <= length || (priority == 0 && weight == 0 && port == 0)
    ensures labels != [] ==> 8 <= length
  {
    NameTakes(b, offset + 6, labels, offset + length);
    BytesSplit(b, offset, Be16(priority) + Be16(weight), Be16(port));
    BytesSplit(b, offset, Be16(priority), Be16(weight));
    Be16At(b, offset, priority);
    Be16At(b, offset + 2, weight);
    Be16At(b, offset + 4, port);
  }

  lemma AddressReads(b: seq<byte>, offset: nat, bytes: seq<byte>)
    requires DataAt(b, offset, Address(bytes), offset + |bytes|)
    ensures AddressOf(b, offset, |bytes|, |bytes|) == bytes
  {
  }

  /** What a key may be: printable characters other than '=', at least one, in a string that a length byte can count. */
  predicate GoodPair(p: Pair) {
    && p.key != [] && |KeyValue(p.key, p.value)| <= 255
    && forall i :: 0 <= i < |p.key| ==> 0x20 <= p.key[i] <= 0x7E && p.key[i] != ASSIGN
  }

  lemma {:induction false} SeparatorKey(text: seq<byte>, c: nat)
    ensures var s := Separator(text, c);
            s > 0 ==> c <= s < |text| && text[s] == ASSIGN
                      && forall i :: c <= i < s ==> 0x20 <= text[i] <= 0x7E && text[i] != ASSIGN
    decreases |text| - c
  {
    if c < |text| && 0x20 <= text[c] <= 0x7E && text[c] != ASSIGN {
      SeparatorKey(text, c + 1);
    }
  }

  lemma {:induction false} SeparatorFound(key: seq<byte>, value: seq<byte>, c: nat)
    requires (forall i :: c <= i < |key| ==> 0x20 <= key[i] <= 0x7E && key[i] != ASSIGN) && c <= |key|
    ensures Separator(KeyValue(key, value), c) == |key|
    decreases |key| - c
  {
    var text := KeyValue(key, value);
    if c < |key| {
      assert text[c] == key[c];
      SeparatorFound(key, value, c + 1);
    } else {
      assert text[c] == ASSIGN;
    }
  }

  lemma PairIsGood(text: seq<byte>)
    requires |text| <= 255
    ensures PairOf(text).Some? ==> GoodPair(PairOf(text).value)
  {
    SeparatorKey(text, 0);
    var s := Separator(text, 0);
    if s > 0 {
      assert KeyValue(text[..s], text[s + 1..]) == text;
    }
  }

  /** Every pair that is read is a good one. */
  lemma {:induction false} TxtGivesGood(b: seq<byte>, offset: nat, end: nat, capacity: nat)
    requires end <= |b|
    ensures forall p <- TxtOf(b, offset, end, capacity) :: GoodPair(p)
    decreases end - offset
  {
    if offset < end && capacity > 0 && offset + 1 + b[offset] <= |b| {
      var next := offset + 1 + b[offset];
      PairIsGood(StringAt(b, offset));
      if PairOf(StringAt(b, offset)).None? {
        TxtGivesGood(b, next, end, capacity);
      } else {
        TxtGivesGood(b, next, end, capacity - 1);
      }
    }
  }

  function Take(pairs: seq<Pair>, n: nat): seq<Pair> {
    if |pairs| <= n then pairs else pairs[..n]
  }

  /** One good string in front. */
  lemma StringStands(b: seq<byte>, offset: nat, text: seq<byte>)
    requires |text| <= 255 && BytesAt(b, offset, Counted(text))
    ensures offset < |b| && b[offset] == |text| && offset + 1 + |text| <= |b| && StringAt(b, offset) == text
  {
    BytesSplit(b, offset, [|text| % 256], text);
    assert b[offset..offset + 1][0] == b[offset];
  }

  lemma TxtFirst(b: seq<byte>, offset: nat, p: Pair, next: nat, end: nat, capacity: nat)
    requires GoodPair(p) && BytesAt(b, offset, Counted(KeyValue(p.key, p.value))) && offset < end <= |b|
    requires next == offset + 1 + |KeyValue(p.key, p.value)|
    ensures TxtOf(b, offset, end, capacity + 1) == [p] + TxtOf(b, next, end, capacity)
  {
    StringStands(b, offset, KeyValue(p.key, p.value));
    GoodPairReads(p);
    hide PairOf, StringAt, KeyValue, BytesAt, GoodPair;
  }

  lemma GoodPairReads(p: Pair)
    requires GoodPair(p)
    ensures PairOf(KeyValue(p.key, p.value)) == Some(p)
  {
    var text := KeyValue(p.key, p.value);
    SeparatorFound(p.key, p.value, 0);
    assert text[..|p.key|] == p.key && text[|p.key| + 1..] == p.value;
  }

  lemma {:induction false} TxtReads(b: seq<byte>, offset: nat, pairs: seq<Pair>, end: nat, capacity: nat)
    requires BytesAt(b, offset, StringBytes(pairs)) && end == offset + |StringBytes(pairs)|
    requires forall p <- pairs :: GoodPair(p)
    ensures TxtOf(b, offset, end, capacity) == Take(pairs, capacity)
    decreases |pairs|
  {
    if pairs != [] && capacity > 0 {
      var p, more, n := pairs[0], pairs[1..], capacity - 1;
      var text := KeyValue(p.key, p.value);
      var next := offset + 1 + |text|;
      BytesSplit(b, offset, Counted(text), StringBytes(more));
      TxtFirst(b, offset, p, next, end, n);
      TxtReads(b, next, more, end, n);
      TakeCons(p, more, n);
      assert pairs == [p] + more;
    }
  }

  lemma TakeCons(p: Pair, more: seq<Pair>, n: nat)
    ensures [p] + Take(more, n) == Take([p] + more, n + 1)
  {
  }

  /** The pairs of a TXT record are read back, when there is room for all, exactly when all of them are good. */
  lemma TxtReadsIff(b: seq<byte>, offset: nat, pairs: seq<Pair>, end: nat, capacity: nat)
    requires DataAt(b, offset, Strings(pairs), end) && |pairs| <= capacity
    ensures end <= |b| && (TxtOf(b, offset, end, capacity) == pairs <==> forall p <- pairs :: GoodPair(p))
  {
    TxtGivesGood(b, offset, end, capacity);
    if forall p <- pairs :: GoodPair(p) {
      TxtReads(b, offset, pairs, end, capacity);
    }
  }

  /** A service on the root host, with priority 1, weight 2 and port 3. */
  lemma RootHostLost(capacity: nat)
    ensures var b: seq<byte> := [0, 1, 0, 2, 0, 3, 0];
            DataAt(b, 0, Host(1, 2, 3, []), 7) && SrvOf(b, 0, 7, capacity) == Service(0, 0, 0, [])
  {
    var b: seq<byte> := [0, 1, 0, 2, 0, 3, 0];
    assert NextSub(b, 6) == At(6, 0, false);
  }

  /** A string with nothing before its separator is not read back. */
  lemma {:induction false} EmptyKeyLost(value: seq<byte>)
    requires |value| <= 254
    ensures TxtOf(StringBytes([Pair([], value)]), 0, |value| + 2, 1) == []
  {
    var text, b := KeyValue([], value), StringBytes([Pair([], value)]);
    assert [Pair([], value)][1..] == [];
    assert b == Counted(text) && b[1..] == text;
    assert TxtOf(b, |b|, |b|, 1) == [];
  }

  // ---------------------------------------------------------------- what the parse functions return

  /** The data of a record as the function for its kind returns it, for strings or pairs up to a capacity. A service on
      the root host and a TXT pair that is not good are the only ones that may be lost. */
  ghost predicate DataReads(b: seq<byte>, p: Parsed, data: WireData, capacity: nat) {
    match data
    case Target(labels) => PtrOf(b, p.offset, p.length, capacity) == Cut(Text(labels), capacity)
    case Host(priority, weight, port, labels) =>
      && (labels != [] ==> 8 <= p.length)
      && (SrvOf(b, p.offset, p.length, capacity) == Service(priority, weight, port, Cut(Text(labels), capacity))
          <==> 8 <= p.length || (priority == 0 && weight == 0 && port == 0))
    case Address(bytes) => p.length == |bytes| && AddressOf(b, p.offset, p.length, |bytes|) == bytes
    case Strings(pairs) =>
      |pairs| <= capacity ==>
        (&& p.offset + p.length <= |b|
         && (TxtOf(b, p.offset, p.offset + p.length, capacity) == pairs <==> forall q <- pairs :: GoodPair(q)))
    case Nothing => p.length == 0
  }

  lemma ReportReads(b: seq<byte>, p: Parsed, w: Wire, capacity: nat)
    requires Reports(b, p, w)
    ensures DataReads(b, p, w.data, capacity)
  {
    match w.data
    case Target(labels) => PtrReads(b, p.offset, labels, p.length, capacity);
    case Host(priority, weight, port, labels) => SrvReadsIff(b, p.offset, priority, weight, port, labels, p.length, capacity);
    case Address(bytes) => AddressReads(b, p.offset, bytes);
    case Strings(pairs) =>
      if |pairs| <= capacity {
        TxtReadsIff(b, p.offset, pairs, p.offset + p.length, capacity);
      }
    case Nothing =>
  }

  /** The records of a section, each with its fields, its name and its data. */
  ghost predicate SectionReads(b: seq<byte>, ps: seq<Parsed>, ws: seq<Wire>, capacity: nat) {
    |ps| == |ws| && forall i :: 0 <= i < |ps| ==>
      && ps[i].rtype == ws[i].rtype && ps[i].rclass == ws[i].rclass && ps[i].ttl == ws[i].ttl
      && NameText(b, ps[i].nameOffset, capacity) == Cut(Text(ws[i].labels), capacity)
      && DataReads(b, ps[i], ws[i].data, capacity)
  }

  lemma AllReportReads(b: seq<byte>, ps: seq<Parsed>, ws: seq<Wire>, capacity: nat)
    requires AllReport(b, ps, ws)
    ensures SectionReads(b, ps, ws, capacity)
  {
    forall i | 0 <= i < |ps| ensures DataReads(b, ps[i], ws[i].data, capacity) {
      ReportReads(b, ps[i], ws[i], capacity);
    }
  }
}
