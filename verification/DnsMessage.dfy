/** Answer messages (section 4.1 of RFC 1035): a header, a question and resource records, written into one buffer with
    one table of name candidates. */
module DnsMessage {
  import opened Lists
  import opened DnsNames
  import opened DnsWriter
  import opened DnsCompose

  type U16 = x: int | 0 <= x < 65536
  type U32 = x: int | 0 <= x < 0x1_0000_0000

  const TYPE_A: U16 := 1
  const TYPE_PTR: U16 := 12
  const TYPE_TXT: U16 := 16
  const TYPE_AAAA: U16 := 28
  const TYPE_SRV: U16 := 33

  /** MDNS_CACHE_FLUSH and MDNS_UNICAST_RESPONSE, or'ed with the class. */
  const FLAGGED_IN: U16 := 0x8001

  const HEADER_SIZE := 12
  const ANSWER_FLAGS: U16 := 0x8400
  const ASSIGN: byte := 61

  /** Names are texts; an address is four or sixteen bytes. */
  datatype Data =
    | Ptr(target: seq<byte>)
    | Srv(priority: U16, weight: U16, port: U16, host: seq<byte>)
    | A(address: seq<byte>)
    | Aaaa(address6: seq<byte>)
    | Txt(key: seq<byte>, value: seq<byte>)
    | Other(code: U16)

  datatype Record = Record(name: seq<byte>, data: Data)

  function TypeOf(data: Data): U16 {
    match data
    case Ptr(_) => TYPE_PTR
    case Srv(_, _, _, _) => TYPE_SRV
    case A(_) => TYPE_A
    case Aaaa(_) => TYPE_AAAA
    case Txt(_, _) => TYPE_TXT
    case Other(code) => code
  }

  /** What the types of the source say: names are not empty, addresses have their size, the types are distinct. */
  predicate Shaped(r: Record) {
    && r.name != []
    && match r.data
       case Ptr(target) => target != []
       case Srv(_, _, _, host) => host != []
       case A(address) => |address| == 4
       case Aaaa(address) => |address| == 16
       case Txt(_, _) => true
       case Other(code) => code !in {TYPE_A, TYPE_PTR, TYPE_TXT, TYPE_AAAA, TYPE_SRV}
  }

  function Be16(x: U16): (r: seq<byte>)
    ensures |r| == 2
  {
    [x / 256, x % 256]
  }

  function Be32(x: U32): (r: seq<byte>)
    ensures |r| == 4
  {
    Be16(x / 65536) + Be16(x % 65536)
  }

  function LabelsOfText(name: seq<byte>): seq<Label>
    requires name != []
  {
    Split(Stripped(name), 0)
  }

  // ---------------------------------------------------------------- the parts of a message

  function AddName(m: Message, name: seq<byte>): (n: Option<Message>)
    requires Sane(m) && name != []
    ensures n.Some? ==> Sane(n.value)
  {
    Apply(m, MakeName(LabelsOfText(name)))
  }

  function AddBytes(m: Message, bytes: seq<byte>): (n: Option<Message>)
    requires Sane(m)
    ensures n.Some? ==> Sane(n.value)
  {
    Apply(m, Append(bytes))
  }

  function AddQuestion(m: Message, rtype: U16, name: seq<byte>): (n: Option<Message>)
    requires Sane(m) && name != []
    ensures n.Some? ==> Sane(n.value)
  {
    match AddName(m, name)
    case None => None
    case Some(q) => AddBytes(q, Be16(rtype) + Be16(FLAGGED_IN))
  }

  /** Type, class, time to live, and a length still to be filled in. */
  function Fixed(rtype: U16, rclass: U16, ttl: U32, length: U16): (r: seq<byte>)
    ensures |r| == 10
  {
    Be16(rtype) + Be16(rclass) + Be32(ttl) + Be16(length)
  }

  function AddHeader(m: Message, name: seq<byte>, rtype: U16, rclass: U16, ttl: U32): (n: Option<Message>)
    requires Sane(m) && name != []
    ensures n.Some? ==> Sane(n.value)
  {
    match AddName(m, name)
    case None => None
    case Some(h) => AddBytes(h, Fixed(rtype, rclass, ttl, 0))
  }

  function AddData(m: Message, data: Data): (n: Option<Message>)
    requires Sane(m) && (data.Ptr? ==> data.target != []) && (data.Srv? ==> data.host != [])
    ensures n.Some? ==> Sane(n.value)
  {
    match data
    case Ptr(target) => AddName(m, target)
    case Srv(priority, weight, port, host) =>
      (match AddBytes(m, Be16(priority) + Be16(weight) + Be16(port))
       case None => None
       case Some(s) => AddName(s, host))
    case A(address) => AddBytes(m, address)
    case Aaaa(address) => AddBytes(m, address)
    case _ => Some(m)
  }

  /** Fills in the length of the data that starts at `start`, two bytes before it. */
  function SetLength(m: Message, start: nat): (n: Option<Message>)
    requires Sane(m) && 2 <= start <= m.pos
    ensures n.Some? ==> Sane(n.value)
  {
    var length := (m.pos - start) % 65536;
    match Apply(m, Patch(start - 2, length / 256))
    case None => None
    case Some(p) => Apply(p, Patch(start - 1, length % 256))
  }

  lemma DataGoesOn(m: Message, data: Data)
    requires Sane(m) && (data.Ptr? ==> data.target != []) && (data.Srv? ==> data.host != [])
    ensures var n := AddData(m, data); n.Some? ==> m.pos <= n.value.pos
  {
    match data
    case Ptr(target) => MakeGoesOn(m.buf, m.pos, LabelsOfText(target), m.table);
    case Srv(priority, weight, port, host) =>
      var s := AddBytes(m, Be16(priority) + Be16(weight) + Be16(port));
      if s.Some? {
        MakeGoesOn(s.value.buf, s.value.pos, LabelsOfText(host), s.value.table);
      }
    case _ =>
  }

  lemma HeaderGoesOn(m: Message, name: seq<byte>, rtype: U16, rclass: U16, ttl: U32)
    requires Sane(m) && name != []
    ensures var n := AddHeader(m, name, rtype, rclass, ttl); n.Some? ==> m.pos + 11 <= n.value.pos
  {
    MakeGoesOn(m.buf, m.pos, LabelsOfText(name), m.table);
  }

  /** A record, unless it is a TXT record, which is left for later. */
  function AddRecord(m: Message, r: Record, rclass: U16, ttl: U32): (n: Option<Message>)
    requires Sane(m) && Shaped(r)
    ensures n.Some? ==> Sane(n.value)
  {
    if r.data.Txt? then Some(m)
    else
      HeaderGoesOn(m, r.name, TypeOf(r.data), rclass, ttl);
      match AddHeader(m, r.name, TypeOf(r.data), rclass, ttl)
      case None => None
      case Some(h) =>
        DataGoesOn(h, r.data);
        match AddData(h, r.data)
        case None => None
        case Some(d) => SetLength(d, h.pos)
  }

  function AddRecords(m: Message, rs: seq<Record>, rclass: U16, ttl: U32): (n: Option<Message>)
    requires Sane(m) && forall r <- rs :: Shaped(r)
    ensures n.Some? ==> Sane(n.value)
    decreases |rs|
  {
    if rs == [] then Some(m)
    else
      match AddRecord(m, rs[0], rclass, ttl)
      case None => None
      case Some(n) => AddRecords(n, rs[1..], rclass, ttl)
  }

  const MAX_STRING := 0x3FFF

  function KeyValue(key: seq<byte>, value: seq<byte>): seq<byte> {
    key + [ASSIGN] + value
  }

  /** A length byte, cut to eight bits, and a string. */
  function Counted(text: seq<byte>): seq<byte> {
    [|text| % 256] + text
  }

  /** The strings of all TXT records. */
  function AddStrings(m: Message, rs: seq<Record>): (n: Option<Message>)
    requires Sane(m)
    ensures n.Some? ==> Sane(n.value) && m.pos <= n.value.pos
    decreases |rs|
  {
    if rs == [] then Some(m)
    else if !rs[0].data.Txt? then AddStrings(m, rs[1..])
    else
      var text := KeyValue(rs[0].data.key, rs[0].data.value);
      if |text| > MAX_STRING then None
      else
        match AddBytes(m, Counted(text))
        case None => None
        case Some(n) => AddStrings(n, rs[1..])
  }

  function FirstTxt(rs: seq<Record>): Option<Record> {
    if rs == [] then None else if rs[0].data.Txt? then Some(rs[0]) else FirstTxt(rs[1..])
  }

  lemma {:induction false} FirstTxtIs(rs: seq<Record>)
    ensures var f := FirstTxt(rs); f.Some? ==> f.value in rs && f.value.data.Txt?
    ensures FirstTxt(rs).None? <==> forall r <- rs :: !r.data.Txt?
  {
    if rs != [] {
      FirstTxtIs(rs[1..]);
      assert rs == [rs[0]] + rs[1..];
    }
  }

  /** One TXT record for all of them, under the name of the first. */
  function AddTxtAs(m: Message, name: seq<byte>, rs: seq<Record>, rclass: U16, ttl: U32): (n: Option<Message>)
    requires Sane(m) && name != []
    ensures n.Some? ==> Sane(n.value)
  {
    HeaderGoesOn(m, name, TYPE_TXT, rclass, ttl);
    match AddHeader(m, name, TYPE_TXT, rclass, ttl)
    case None => None
    case Some(h) =>
      match AddStrings(h, rs)
      case None => None
      case Some(d) => SetLength(d, h.pos)
  }

  function AddTxt(m: Message, rs: seq<Record>, rclass: U16, ttl: U32): (n: Option<Message>)
    requires Sane(m) && forall r <- rs :: Shaped(r)
    ensures n.Some? ==> Sane(n.value)
  {
    FirstTxtIs(rs);
    match FirstTxt(rs)
    case None => Some(m)
    case Some(first) =>
      assert Shaped(first);
      AddTxtAs(m, first.name, rs, rclass, ttl)
  }

  function AddSection(m: Message, rs: seq<Record>, rclass: U16, ttl: U32): (n: Option<Message>)
    requires Sane(m) && forall r <- rs :: Shaped(r)
    ensures n.Some? ==> Sane(n.value)
  {
    match AddRecords(m, rs, rclass, ttl)
    case None => None
    case Some(n) => AddTxt(n, rs, rclass, ttl)
  }

  // ---------------------------------------------------------------- whose bytes they are

  /** Names take only bytes between the positions before and after. */
  lemma NameOwns(m: Message, name: seq<byte>)
    requires Sane(m) && name != [] && AddName(m, name).Some?
    ensures var n := AddName(m, name).value;
            m.pos < n.pos && forall i :: i in n.own ==> i in m.own || m.pos <= i < n.pos
  {
    MakeGoesOn(m.buf, m.pos, LabelsOfText(name), m.table);
  }

  ghost predicate Behind(m: Message) {
    forall i :: i in m.own ==> i < m.pos
  }

  lemma HeaderOwns(m: Message, name: seq<byte>, rtype: U16, rclass: U16, ttl: U32)
    requires Sane(m) && name != [] && Behind(m) && AddHeader(m, name, rtype, rclass, ttl).Some?
    ensures var h := AddHeader(m, name, rtype, rclass, ttl).value;
            m.pos + 10 < h.pos && Behind(h) && forall i :: i in h.own ==> i < h.pos - 10
  {
    NameOwns(m, name);
  }

  lemma DataOwns(h: Message, r: Data)
    requires Sane(h) && Shaped(Record([DOT], r)) && AddData(h, r).Some? && Behind(h)
    ensures var d := AddData(h, r).value; h.pos <= d.pos && Behind(d) && forall i :: i in d.own ==> i in h.own || h.pos <= i
  {
    match r
    case Ptr(target) => NameOwns(h, target);
    case Srv(priority, weight, port, host) =>
      NameOwns(AddBytes(h, Be16(priority) + Be16(weight) + Be16(port)).value, host);
    case _ =>
  }

  // ---------------------------------------------------------------- whole answers

  function CountFrom(rs: seq<Record>): nat {
    if rs == [] then 0 else (if rs[0].data.Txt? then 0 else 1) + CountFrom(rs[1..])
  }

  /** The records of a section when the TXT records are one, in 16 bits. */
  function RecordCount(rs: seq<Record>): U16 {
    (CountFrom(rs) % 65536 + if FirstTxt(rs).Some? then 1 else 0) % 65536
  }

  lemma CountOne(total: nat, rest: nat)
    ensures ((total + 1) % 65536 + rest) % 65536 == (total + 1 + rest) % 65536
  {
  }

  lemma CountNext(rs: seq<Record>, i: nat)
    requires i < |rs|
    ensures CountFrom(rs[i..]) == (if rs[i].data.Txt? then 0 else 1) + CountFrom(rs[i + 1..])
    ensures FirstTxt(rs[i..]).Some? <==> rs[i].data.Txt? || FirstTxt(rs[i + 1..]).Some?
  {
    assert rs[i..][1..] == rs[i + 1..];
  }

  method GetRecordCount(rs: seq<Record>) returns (n: U16)
    ensures n == RecordCount(rs)
  {
    var total: U16, txt: U16 := 0, 0;
    for i := 0 to |rs|
      invariant (total + CountFrom(rs[i..])) % 65536 == CountFrom(rs) % 65536
      invariant txt == 0 || (txt == 1 && FirstTxt(rs).Some?)
      invariant txt == 0 ==> (FirstTxt(rs[i..]).Some? <==> FirstTxt(rs).Some?)
    {
      CountNext(rs, i);
      CountOne(total, CountFrom(rs[i + 1..]));
      if rs[i].data.Txt? {
        txt := 1;
      } else {
        total := (total + 1) % 65536;
      }
    }
    n := (total as int + txt as int) % 65536;
  }

  datatype Answer = Answer(queryId: U16, question: Option<(U16, seq<byte>)>, answer: Record,
                           authority: seq<Record>, additional: seq<Record>, rclass: U16, ttl: U32)

  predicate WellShaped(a: Answer) {
    && (a.question.Some? ==> a.question.value.1 != []) && Shaped(a.answer)
    && (forall r <- a.authority :: Shaped(r)) && (forall r <- a.additional :: Shaped(r))
  }

  function HeaderBytes(a: Answer): (r: seq<byte>)
    ensures |r| == HEADER_SIZE
  {
    Be16(a.queryId) + Be16(ANSWER_FLAGS) + Be16(if a.question.Some? then 1 else 0) + Be16(1)
    + Be16(RecordCount(a.authority)) + Be16(RecordCount(a.additional))
  }

  const MIN_CAPACITY := HEADER_SIZE + 32 + 4

  function HeaderMessage(buf: seq<byte>, a: Answer): (h: Message)
    requires HEADER_SIZE <= |buf|
    ensures Sane(h)
  {
    Message(Overlay(buf, 0, HeaderBytes(a)), HEADER_SIZE, NewTable(), {}, [])
  }

  /** Everything after the question. */
  function Body(q: Message, a: Answer): (n: Option<Message>)
    requires Sane(q) && WellShaped(a)
    ensures n.Some? ==> Sane(n.value)
  {
    match AddRecord(q, a.answer, a.rclass, a.ttl)
    case None => None
    case Some(r) =>
      match AddSection(r, a.authority, a.rclass, a.ttl)
      case None => None
      case Some(s) => AddSection(s, a.additional, a.rclass, a.ttl)
  }

  /** The message of an answer: with a question as in `mdns_query_answer_unicast`, or without one as in
      `mdns_answer_multicast_rclass_ttl`. */
  function Compile(buf: seq<byte>, a: Answer): (n: Option<Message>)
    requires WellShaped(a)
    ensures n.Some? ==> Sane(n.value)
  {
    if |buf| < MIN_CAPACITY then None
    else if a.question.None? then Body(HeaderMessage(buf, a), a)
    else
      match AddQuestion(HeaderMessage(buf, a), a.question.value.0, a.question.value.1)
      case None => None
      case Some(q) => Body(q, a)
  }
}
