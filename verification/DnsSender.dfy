/** The writer of answers on the buffer itself: each method writes at a position and gives the next one, or fails when
    the buffer is too small. A ghost message goes along with the buffer. */
module DnsSender {
  import opened Lists
  import opened DnsNames
  import opened DnsWriter
  import opened DnsCompose
  import opened DnsMessage

  ghost predicate Matches(m: Message, buffer: array<byte>, data: nat, table: StringTable)
    reads buffer, table
  {
    Sane(m) && table.Valid() && m.buf == buffer[..] && m.pos == data && m.table == table.View()
  }

  /** `end` is what `spec` says: a failure, or the position of a message that is now in the buffer. */
  ghost predicate Done(spec: Option<Message>, buffer: array<byte>, end: Option<nat>, table: StringTable)
    reads buffer, table
  {
    if spec.None? then end.None? else end.Some? && Matches(spec.value, buffer, end.value, table)
  }

  method PutName(buffer: array<byte>, data: nat, name: seq<byte>, table: StringTable, ghost m: Message) returns (end: Option<nat>)
    requires Matches(m, buffer, data, table) && name != []
    modifies buffer, table
    ensures Done(AddName(m, name), buffer, end, table)
  {
    MakeGoesOn(m.buf, m.pos, LabelsOfText(name), m.table);
    end := StringMake(buffer, data, name, table);
  }

  /** Writes bytes that are known to fit. */
  method PutBytes(buffer: array<byte>, data: nat, bytes: seq<byte>, table: StringTable, ghost m: Message) returns (end: nat)
    requires Matches(m, buffer, data, table) && |bytes| <= buffer.Length - data
    modifies buffer
    ensures AddBytes(m, bytes).Some? && Matches(AddBytes(m, bytes).value, buffer, end, table)
  {
    Put(buffer, data, bytes);
    end := data + |bytes|;
  }

  method AnswerAddQuestion(buffer: array<byte>, data: nat, rtype: U16, name: seq<byte>, table: StringTable, ghost m: Message)
    returns (end: Option<nat>)
    requires Matches(m, buffer, data, table) && name != []
    modifies buffer, table
    ensures Done(AddQuestion(m, rtype, name), buffer, end, table)
  {
    var at := PutName(buffer, data, name, table, m);
    if at.None? || buffer.Length - at.value < 4 {
      return None;
    }
    var next := PutBytes(buffer, at.value, Be16(rtype) + Be16(FLAGGED_IN), table, AddName(m, name).value);
    return Some(next);
  }

  method AnswerAddRecordHeader(buffer: array<byte>, data: nat, name: seq<byte>, rtype: U16, rclass: U16, ttl: U32,
                               table: StringTable, ghost m: Message) returns (end: Option<nat>)
    requires Matches(m, buffer, data, table) && name != []
    modifies buffer, table
    ensures Done(AddHeader(m, name, rtype, rclass, ttl), buffer, end, table)
  {
    var at := PutName(buffer, data, name, table, m);
    if at.None? || buffer.Length - at.value < 10 {
      return None;
    }
    var next := PutBytes(buffer, at.value, Fixed(rtype, rclass, ttl, 0), table, AddName(m, name).value);
    return Some(next);
  }

  /** At the end of the buffer there is room for no name. */
  lemma NoRoom(m: Message, name: seq<byte>)
    requires Sane(m) && name != [] && m.pos == |m.buf|
    ensures AddName(m, name).None?
  {
  }

  method PutData(buffer: array<byte>, data: nat, r: Data, table: StringTable, ghost m: Message) returns (end: Option<nat>)
    requires Matches(m, buffer, data, table) && Shaped(Record([DOT], r)) && !r.Txt?
    modifies buffer, table
    ensures Done(AddData(m, r), buffer, end, table)
  {
    var remain := buffer.Length - data;
    match r
    case Ptr(target) =>
      end := PutName(buffer, data, target, table, m);
    case Srv(priority, weight, port, host) =>
      ghost var fields := Be16(priority) + Be16(weight) + Be16(port);
      if remain <= 6 {
        if remain == 6 {
          NoRoom(AddBytes(m, fields).value, host);
        }
        return None;
      }
      var next := PutBytes(buffer, data, Be16(priority) + Be16(weight) + Be16(port), table, m);
      end := PutName(buffer, next, host, table, AddBytes(m, fields).value);
    case A(address) =>
      if remain < 4 {
        return None;
      }
      var next := PutBytes(buffer, data, address, table, m);
      end := Some(next);
    case Aaaa(address) =>
      if remain < 16 {
        return None;
      }
      var next := PutBytes(buffer, data, address, table, m);
      end := Some(next);
    case Other(_) =>
      end := Some(data);
  }

  /** `mdns_htons(record_length, …)`: the data began at `start` and ends at `data`. The bytes must not belong to a name. */
  method PutLength(buffer: array<byte>, start: nat, data: nat, table: StringTable, ghost m: Message)
    requires Matches(m, buffer, data, table) && 2 <= start <= data && start - 2 !in m.own && start - 1 !in m.own
    modifies buffer
    ensures Done(SetLength(m, start), buffer, Some(data), table)
  {
    var length := (data - start) % 65536;
    buffer[start - 2] := length / 256;
    assert buffer[..] == m.buf[start - 2 := length / 256];
    buffer[start - 1] := length % 256;
    assert buffer[..] == m.buf[start - 2 := length / 256][start - 1 := length % 256];
  }

  method AnswerAddRecord(buffer: array<byte>, data: nat, r: Record, rclass: U16, ttl: U32, table: StringTable, ghost m: Message)
    returns (end: Option<nat>)
    requires Matches(m, buffer, data, table) && Shaped(r) && Behind(m)
    modifies buffer, table
    ensures Done(AddRecord(m, r, rclass, ttl), buffer, end, table)
    ensures end.Some? ==> Behind(AddRecord(m, r, rclass, ttl).value)
  {
    if r.data.Txt? {
      return Some(data);
    }
    var start := AnswerAddRecordHeader(buffer, data, r.name, TypeOf(r.data), rclass, ttl, table, m);
    if start.None? {
      return None;
    }
    ghost var h := AddHeader(m, r.name, TypeOf(r.data), rclass, ttl).value;
    HeaderOwns(m, r.name, TypeOf(r.data), rclass, ttl);
    end := PutData(buffer, start.value, r.data, table, h);
    if end.None? {
      return None;
    }
    DataOwns(h, r.data);
    PutLength(buffer, start.value, end.value, table, AddData(h, r.data).value);
  }

  method AnswerAddRecords(buffer: array<byte>, data: nat, rs: seq<Record>, rclass: U16, ttl: U32, table: StringTable, ghost m: Message)
    returns (end: Option<nat>)
    requires Matches(m, buffer, data, table) && Behind(m) && forall r <- rs :: Shaped(r)
    modifies buffer, table
    ensures Done(AddRecords(m, rs, rclass, ttl), buffer, end, table)
    ensures end.Some? ==> Behind(AddRecords(m, rs, rclass, ttl).value)
  {
    end := Some(data);
    ghost var cur := m;
    var i := 0;
    while end.Some? && i < |rs|
      invariant i <= |rs|
      invariant if end.Some? then Matches(cur, buffer, end.value, table) && Behind(cur)
                                  && AddRecords(cur, rs[i..], rclass, ttl) == AddRecords(m, rs, rclass, ttl)
                else AddRecords(m, rs, rclass, ttl).None?
    {
      ghost var spec := AddRecord(cur, rs[i], rclass, ttl);
      end := AnswerAddRecord(buffer, end.value, rs[i], rclass, ttl, table, cur);
      assert rs[i..][1..] == rs[i + 1..];
      i := i + 1;
      cur := if spec.Some? then spec.value else cur;
    }
  }

  // ---------------------------------------------------------------- TXT records

  /** Records of other types make no difference to the strings. */
  lemma {:induction false} StringsSkip(m: Message, rs: seq<Record>, i: nat)
    requires Sane(m) && i <= |rs| && FirstTxt(rs) == FirstTxt(rs[i..]) && forall k :: 0 <= k < i ==> !rs[k].data.Txt?
    ensures AddStrings(m, rs) == AddStrings(m, rs[i..])
    decreases i
  {
    if i == 0 {
      assert rs[0..] == rs;
    } else {
      assert rs[i - 1..][1..] == rs[i..];
      assert FirstTxt(rs[i - 1..]) == FirstTxt(rs[i..]);
      StringsSkip(m, rs, i - 1);
    }
  }

  /** `h`, then `cur` after some strings: the strings still to come are those of `rest`. */
  ghost predicate InTxt(h: Message, cur: Message, rs: seq<Record>, rest: seq<Record>) {
    && Sane(h) && Sane(cur) && h.pos <= cur.pos && AddStrings(h, rs) == AddStrings(cur, rest)
    && cur.own == h.own
  }

  method PutString(buffer: array<byte>, data: nat, key: seq<byte>, value: seq<byte>, table: StringTable, ghost m: Message)
    returns (end: Option<nat>)
    requires Matches(m, buffer, data, table)
    modifies buffer
    ensures end.None? <==> |KeyValue(key, value)| > MAX_STRING || AddBytes(m, Counted(KeyValue(key, value))).None?
    ensures end.Some? ==> Matches(AddBytes(m, Counted(KeyValue(key, value))).value, buffer, end.value, table)
  {
    var length := |key| + |value| + 1;
    if buffer.Length - data <= length || length > MAX_STRING {
      return None;
    }
    var next := PutBytes(buffer, data, [length % 256] + (key + [ASSIGN] + value), table, m);
    return Some(next);
  }

  method AnswerAddTxtRecord(buffer: array<byte>, data: nat, rs: seq<Record>, rclass: U16, ttl: U32, table: StringTable, ghost m: Message)
    returns (end: Option<nat>)
    requires Matches(m, buffer, data, table) && Behind(m) && forall r <- rs :: Shaped(r)
    modifies buffer, table
    ensures Done(AddTxt(m, rs, rclass, ttl), buffer, end, table)
    ensures end.Some? ==> Behind(AddTxt(m, rs, rclass, ttl).value)
  {
    hide KeyValue, AddHeader;
    var start: Option<nat> := None;
    var at := data;
    ghost var h, cur := m, m;
    for i := 0 to |rs|
      invariant start.None? ==> at == data && Matches(m, buffer, data, table) && FirstTxt(rs) == FirstTxt(rs[i..])
      invariant start.None? ==> forall k :: 0 <= k < i ==> !rs[k].data.Txt?
      invariant start.Some? ==> FirstTxt(rs).Some? && FirstTxt(rs).value.name != []
      invariant start.Some? ==> AddHeader(m, FirstTxt(rs).value.name, TYPE_TXT, rclass, ttl) == Some(h) && start.value == h.pos
      invariant start.Some? ==> Matches(cur, buffer, at, table) && InTxt(h, cur, rs, rs[i..])
    {
      assert rs[i..][1..] == rs[i + 1..];
      if !rs[i].data.Txt? {
        continue;
      }
      if start.None? {
        assert Shaped(rs[i]);
        start := AnswerAddRecordHeader(buffer, data, rs[i].name, TYPE_TXT, rclass, ttl, table, m);
        if start.None? {
          return None;
        }
        at := start.value;
        h := AddHeader(m, rs[i].name, TYPE_TXT, rclass, ttl).value;
        cur := h;
        StringsSkip(h, rs, i);
      }
      var next := PutString(buffer, at, rs[i].data.key, rs[i].data.value, table, cur);
      if next.None? {
        return None;
      }
      at := next.value;
      cur := AddBytes(cur, Counted(KeyValue(rs[i].data.key, rs[i].data.value))).value;
    }
    if start.Some? {
      HeaderOwns(m, FirstTxt(rs).value.name, TYPE_TXT, rclass, ttl);
      PutLength(buffer, start.value, at, table, cur);
    }
    end := Some(at);
  }

  // ---------------------------------------------------------------- whole answers

  /** The length of the message to send, or a failure. */
  ghost predicate Sent(spec: Option<Message>, buffer: array<byte>, end: Option<nat>)
    reads buffer
  {
    if spec.None? then end.None? else end.Some? && buffer[..] == spec.value.buf && end.value == spec.value.pos
  }

  method AnswerAddSection(buffer: array<byte>, data: nat, rs: seq<Record>, rclass: U16, ttl: U32, table: StringTable, ghost m: Message)
    returns (end: Option<nat>)
    requires Matches(m, buffer, data, table) && Behind(m) && forall r <- rs :: Shaped(r)
    modifies buffer, table
    ensures Done(AddSection(m, rs, rclass, ttl), buffer, end, table)
    ensures end.Some? ==> Behind(AddSection(m, rs, rclass, ttl).value)
  {
    end := AnswerAddRecords(buffer, data, rs, rclass, ttl, table, m);
    if end.None? {
      return None;
    }
    end := AnswerAddTxtRecord(buffer, end.value, rs, rclass, ttl, table, AddRecords(m, rs, rclass, ttl).value);
  }

  method AnswerBody(buffer: array<byte>, data: nat, a: Answer, table: StringTable, ghost q: Message) returns (end: Option<nat>)
    requires Matches(q, buffer, data, table) && Behind(q) && WellShaped(a)
    modifies buffer, table
    ensures Done(Body(q, a), buffer, end, table)
  {
    end := AnswerAddRecord(buffer, data, a.answer, a.rclass, a.ttl, table, q);
    if end.None? {
      return None;
    }
    ghost var r := AddRecord(q, a.answer, a.rclass, a.ttl).value;
    end := AnswerAddSection(buffer, end.value, a.authority, a.rclass, a.ttl, table, r);
    if end.None? {
      return None;
    }
    ghost var s := AddSection(r, a.authority, a.rclass, a.ttl).value;
    end := AnswerAddSection(buffer, end.value, a.additional, a.rclass, a.ttl, table, s);
  }

  method PutHeader(buffer: array<byte>, a: Answer) returns (table: StringTable)
    requires HEADER_SIZE <= buffer.Length
    modifies buffer
    ensures fresh(table)
    ensures Matches(HeaderMessage(old(buffer[..]), a), buffer, HEADER_SIZE, table)
  {
    var authority := GetRecordCount(a.authority);
    var additional := GetRecordCount(a.additional);
    Put(buffer, 0, Be16(a.queryId) + Be16(ANSWER_FLAGS) + Be16(if a.question.Some? then 1 else 0) + Be16(1)
                   + Be16(authority) + Be16(additional));
    table := new StringTable();
  }

  const UNICAST_TTL: U32 := 10

  method QueryAnswerUnicast(buffer: array<byte>, queryId: U16, rtype: U16, name: seq<byte>, answer: Record,
                            authority: seq<Record>, additional: seq<Record>) returns (end: Option<nat>)
    requires name != [] && Shaped(answer) && (forall r <- authority :: Shaped(r)) && (forall r <- additional :: Shaped(r))
    modifies buffer
    ensures Sent(Compile(old(buffer[..]), Answer(queryId, Some((rtype, name)), answer, authority, additional, FLAGGED_IN, UNICAST_TTL)),
                 buffer, end)
  {
    if buffer.Length < MIN_CAPACITY {
      return None;
    }
    var a := Answer(queryId, Some((rtype, name)), answer, authority, additional, FLAGGED_IN, UNICAST_TTL);
    ghost var h := HeaderMessage(buffer[..], a);
    var table := PutHeader(buffer, a);
    var data := AnswerAddQuestion(buffer, HEADER_SIZE, rtype, name, table, h);
    if data.None? {
      return None;
    }
    NameOwns(h, name);
    end := AnswerBody(buffer, data.value, a, table, AddQuestion(h, rtype, name).value);
  }

  method AnswerMulticast(buffer: array<byte>, rclass: U16, answer: Record, authority: seq<Record>, additional: seq<Record>, ttl: U32)
    returns (end: Option<nat>)
    requires Shaped(answer) && (forall r <- authority :: Shaped(r)) && (forall r <- additional :: Shaped(r))
    modifies buffer
    ensures Sent(Compile(old(buffer[..]), Answer(0, None, answer, authority, additional, rclass, ttl)), buffer, end)
  {
    if buffer.Length < MIN_CAPACITY {
      return None;
    }
    var a := Answer(0, None, answer, authority, additional, rclass, ttl);
    ghost var h := HeaderMessage(buffer[..], a);
    var table := PutHeader(buffer, a);
    end := AnswerBody(buffer, HEADER_SIZE, a, table, h);
  }
}
