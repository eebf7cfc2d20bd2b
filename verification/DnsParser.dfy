/** Reading messages: the records of each section, and the data of each kind of record. */
module DnsParser {
  import opened Lists
  import opened DnsNames
  import opened DnsMessage

  function U16At(buf: seq<byte>, at: nat): U16
    requires at + 2 <= |buf|
  {
    buf[at] as int * 256 + buf[at + 1] as int
  }

  function U32At(buf: seq<byte>, at: nat): U32
    requires at + 4 <= |buf|
  {
    U16At(buf, at) as int * 65536 + U16At(buf, at + 2) as int
  }

  /** What the callback is told about a record: its fields, where its name is, and where its data is. */
  datatype Parsed = Parsed(rtype: U16, rclass: U16, ttl: U32, nameOffset: nat, nameLength: nat, offset: nat, length: U16)

  datatype Parse = Parse(records: seq<Parsed>, end: nat)

  /** Skipping a name that cannot be read stays where it is. */
  function SkipName(buf: seq<byte>, offset: nat): nat {
    var s := SkipFrom(buf, offset, 0);
    if s.To? then s.end else offset
  }

  /** Up to `count` records, for a callback that never asks to stop. A record whose data would go beyond the buffer is
      not reported. */
  function ParseRecords(buf: seq<byte>, offset: nat, count: nat): Parse
    decreases count, offset
  {
    if count == 0 then Parse([], offset)
    else
      var at := SkipName(buf, offset);
      if |buf| < at + 10 then Parse([], at)
      else
        var length := U16At(buf, at + 8);
        var rest := ParseRecords(buf, at + 10 + length, count - 1);
        if at + 10 + length <= |buf| then
          Parse([Parsed(U16At(buf, at), U16At(buf, at + 2), U32At(buf, at + 4), offset, SkipLength(offset, at), at + 10, length)]
                + rest.records, rest.end)
        else rest
  }

  function SkipLength(offset: nat, at: nat): nat {
    if at < offset then 0 else at - offset
  }

  method RecordsParse(buf: seq<byte>, offset: nat, count: nat) returns (records: seq<Parsed>, end: nat)
    ensures Parse(records, end) == ParseRecords(buf, offset, count)
  {
    hide SkipFrom;
    records, end := [], offset;
    ghost var all := ParseRecords(buf, offset, count);
    for i := 0 to count
      invariant all == Before(records, ParseRecords(buf, end, count - i))
    {
      var nameOffset := end;
      ghost var rest := ParseRecords(buf, end, count - i);
      var ok;
      ok, end := StringSkip(buf, end);
      if |buf| < end + 10 {
        return;
      }
      var rtype := U16At(buf, end);
      var rclass := U16At(buf, end + 2);
      var ttl := U32At(buf, end + 4);
      var length := U16At(buf, end + 8);
      var nameLength := SkipLength(nameOffset, end);
      end := end + 10;
      if length <= |buf| - end {
        ghost var p := Parsed(rtype, rclass, ttl, nameOffset, nameLength, end, length);
        BeforeTwice(records, p, ParseRecords(buf, end + length, count - i - 1), rest);
        records := records + [Parsed(rtype, rclass, ttl, nameOffset, nameLength, end, length)];
      }
      end := end + length;
    }
  }

  function Before(records: seq<Parsed>, rest: Parse): Parse {
    Parse(records + rest.records, rest.end)
  }

  lemma BeforeTwice(records: seq<Parsed>, p: Parsed, rest: Parse, all: Parse)
    requires all == Before([p], rest)
    ensures Before(records, all) == Before(records + [p], rest)
  {
    assert records + ([p] + rest.records) == records + [p] + rest.records;
  }

  /** What a receiver reports of a message: the sections up to the first that is not complete. */
  datatype Received = Received(answers: seq<Parsed>, authority: seq<Parsed>, additional: seq<Parsed>)

  const NOTHING := Received([], [], [])

  /** `size` bytes have been received into `buffer`. The header is read from the buffer even when fewer have. */
  function ReceiveIn(buffer: seq<byte>, size: nat, onlyQueryId: int): Received
    requires HEADER_SIZE <= |buffer| && size <= |buffer|
  {
    if onlyQueryId > 0 && U16At(buffer, 0) != onlyQueryId then NOTHING
    else if U16At(buffer, 4) > 1 then NOTHING
    else if U16At(buffer, 4) == 0 then ReceiveSections(buffer, buffer[..size], HEADER_SIZE)
    else
      var s := SkipFrom(buffer[..size], HEADER_SIZE, 0);
      if s.Stuck? then NOTHING else ReceiveSections(buffer, buffer[..size], s.end + 4)
  }

  function ReceiveSections(header: seq<byte>, buf: seq<byte>, offset: nat): Received
    requires HEADER_SIZE <= |header|
  {
    var answers := ParseRecords(buf, offset, U16At(header, 6));
    if |answers.records| != U16At(header, 6) as int then Received(answers.records, [], [])
    else
      var authority := ParseRecords(buf, answers.end, U16At(header, 8));
      if |authority.records| != U16At(header, 8) as int then Received(answers.records, authority.records, [])
      else Received(answers.records, authority.records, ParseRecords(buf, authority.end, U16At(header, 10)).records)
  }

  /** The same for a message that fills its buffer. */
  function Receive(buf: seq<byte>, onlyQueryId: int): Received
    requires HEADER_SIZE <= |buf|
  {
    ReceiveIn(buf, |buf|, onlyQueryId)
  }

  /** Of a message shorter than its header nothing is reported. */
  lemma ShortMessage(buffer: seq<byte>, size: nat, onlyQueryId: int)
    requires HEADER_SIZE <= |buffer| && size < HEADER_SIZE
    ensures ReceiveIn(buffer, size, onlyQueryId) == NOTHING
  {
    NothingBehind(buffer[..size], HEADER_SIZE, U16At(buffer, 6));
    NothingBehind(buffer[..size], HEADER_SIZE, U16At(buffer, 8));
    NothingBehind(buffer[..size], HEADER_SIZE, U16At(buffer, 10));
  }

  lemma NothingBehind(buf: seq<byte>, offset: nat, count: nat)
    requires |buf| <= offset
    ensures ParseRecords(buf, offset, count) == Parse([], offset)
  {
    assert NextSub(buf, offset).Invalid?;
  }

  function Total(r: Received): nat {
    |r.answers| + |r.authority| + |r.additional|
  }

  method QueryRecv(buffer: seq<byte>, size: nat, onlyQueryId: int) returns (r: Received, total: nat)
    requires HEADER_SIZE <= |buffer| && size <= |buffer|
    ensures r == ReceiveIn(buffer, size, onlyQueryId) && total == Total(r)
    ensures (onlyQueryId > 0 && U16At(buffer, 0) != onlyQueryId) || U16At(buffer, 4) > 1 ==> r == NOTHING && total == 0
  {
    var buf := buffer[..size];
    r, total := NOTHING, 0;
    if onlyQueryId > 0 && U16At(buffer, 0) != onlyQueryId {
      return;
    }
    var questions := U16At(buffer, 4);
    if questions > 1 {
      return;
    }
    var offset: nat := HEADER_SIZE;
    for i := 0 to questions
      invariant i == 0 ==> offset == HEADER_SIZE
      invariant i == 1 ==> ReceiveIn(buffer, size, onlyQueryId) == ReceiveSections(buffer, buf, offset)
    {
      var ok;
      ok, offset := StringSkip(buf, offset);
      if !ok {
        return;
      }
      offset := offset + 4;
    }
    var answers, end := RecordsParse(buf, offset, U16At(buffer, 6));
    total := |answers|;
    if |answers| != U16At(buffer, 6) as int {
      return Received(answers, [], []), total;
    }
    var authority;
    authority, end := RecordsParse(buf, end, U16At(buffer, 8));
    total := total + |authority|;
    if |authority| != U16At(buffer, 8) as int {
      return Received(answers, authority, []), total;
    }
    var additional;
    additional, end := RecordsParse(buf, end, U16At(buffer, 10));
    return Received(answers, authority, additional), total + |additional|;
  }

  // ---------------------------------------------------------------- data of records

  /** The text of the name at `offset`, as far as it fits; empty when there is none. */
  function NameText(buf: seq<byte>, offset: nat, capacity: nat): seq<byte> {
    var r := Read(buf, offset, 0);
    if r.Name? then Cut(Text(r.labels), capacity) else []
  }

  function PtrOf(buf: seq<byte>, offset: nat, length: nat, capacity: nat): seq<byte> {
    if offset + length <= |buf| && 2 <= length then NameText(buf, offset, capacity) else []
  }

  datatype Service = Service(priority: U16, weight: U16, port: U16, name: seq<byte>)

  function SrvOf(buf: seq<byte>, offset: nat, length: nat, capacity: nat): Service {
    if offset + length <= |buf| && 8 <= length then
      Service(U16At(buf, offset), U16At(buf, offset + 2), U16At(buf, offset + 4), NameText(buf, offset + 6, capacity))
    else Service(0, 0, 0, [])
  }

  /** An address of `size` bytes, or zeros. */
  function AddressOf(buf: seq<byte>, offset: nat, length: nat, size: nat): (r: seq<byte>)
    ensures |r| == size
  {
    if offset + length <= |buf| && length == size then buf[offset..offset + size] else seq(size, i => 0)
  }

  method RecordParsePtr(buf: seq<byte>, offset: nat, length: nat, str: array<byte>, capacity: nat) returns (n: nat)
    requires capacity <= str.Length
    modifies str
    ensures n <= capacity && str[..n] == PtrOf(buf, offset, length, capacity)
  {
    if |buf| >= offset + length && length >= 2 {
      var ok, end;
      ok, end, n := StringExtract(buf, offset, str, capacity);
      return;
    }
    n := 0;
  }

  /** The name of the service is what has been written to `str`. */
  method RecordParseSrv(buf: seq<byte>, offset: nat, length: nat, str: array<byte>, capacity: nat)
    returns (priority: U16, weight: U16, port: U16, n: nat)
    requires capacity <= str.Length
    modifies str
    ensures n <= capacity && Service(priority, weight, port, str[..n]) == SrvOf(buf, offset, length, capacity)
  {
    priority, weight, port, n := 0, 0, 0, 0;
    if |buf| >= offset + length && length >= 8 {
      priority, weight, port := U16At(buf, offset), U16At(buf, offset + 2), U16At(buf, offset + 4);
      var ok, end;
      ok, end, n := StringExtract(buf, offset + 6, str, capacity);
    }
  }

  // ---------------------------------------------------------------- strings of TXT records

  datatype Pair = Pair(key: seq<byte>, value: seq<byte>)

  /** The position of the first '=' from `c` on, if only printable characters come before it; otherwise 0. */
  function Separator(text: seq<byte>, c: nat): (r: nat)
    ensures r == 0 || (c <= r < |text| && text[r] == ASSIGN)
    decreases |text| - c
  {
    if |text| <= c || text[c] < 0x20 || 0x7E < text[c] then 0
    else if text[c] == ASSIGN then c
    else Separator(text, c + 1)
  }

  /** The pair in a string, if it has a separator and something before it. */
  function PairOf(text: seq<byte>): Option<Pair> {
    var s := Separator(text, 0);
    if s == 0 then None else Some(Pair(text[..s], text[s + 1..]))
  }

  /** The string at `offset`, behind its length. */
  function StringAt(buf: seq<byte>, offset: nat): seq<byte>
    requires offset < |buf| && offset + 1 + buf[offset] <= |buf|
  {
    buf[offset + 1..offset + 1 + buf[offset]]
  }

  /** The pairs of the strings between `offset` and `end`, at most `capacity` of them. Strings without a separator, or
      with nothing before it, are passed over. A string that goes beyond the buffer ends the list; `TxtStaysIff` says
      what the code makes of it. */
  function TxtOf(buf: seq<byte>, offset: nat, end: nat, capacity: nat): seq<Pair>
    requires end <= |buf|
    decreases end - offset
  {
    if end <= offset || capacity == 0 || |buf| < offset + 1 + buf[offset] then []
    else
      var p, next := PairOf(StringAt(buf, offset)), offset + 1 + buf[offset];
      if p.None? then TxtOf(buf, next, end, capacity) else [p.value] + TxtOf(buf, next, end, capacity - 1)
  }

  method FindSeparator(text: seq<byte>) returns (separator: nat)
    ensures separator == Separator(text, 0)
  {
    separator := 0;
    for c := 0 to |text|
      invariant Separator(text, 0) == Separator(text, c)
    {
      if text[c] < 0x20 || text[c] > 0x7E {
        break;
      }
      if text[c] == ASSIGN {
        separator := c;
        break;
      }
    }
  }

  method ParseString(text: seq<byte>) returns (p: Option<Pair>)
    ensures p == PairOf(text)
  {
    var separator := FindSeparator(text);
    if separator == 0 {
      return None;
    }
    return Some(Pair(text[..separator], text[separator + 1..]));
  }

  lemma Snoc(xs: seq<Pair>, p: Pair, ys: seq<Pair>)
    ensures xs + ([p] + ys) == (xs + [p]) + ys
  {
  }

  method RecordParseTxt(buf: seq<byte>, start: nat, length: nat, capacity: nat) returns (records: seq<Pair>)
    ensures records == TxtOf(buf, start, if |buf| < start + length then |buf| else start + length, capacity)
  {
    hide PairOf, StringAt;
    var end := start + length;
    if |buf| < end {
      end := |buf|;
    }
    var offset := start;
    records := [];
    ghost var all := TxtOf(buf, start, end, capacity);
    while offset < end && |records| < capacity
      invariant |records| <= capacity
      invariant all == records + TxtOf(buf, offset, end, capacity - |records|)
      decreases end - offset
    {
      if |buf| < offset + 1 + buf[offset] {
        break;
      }
      var p := ParseString(StringAt(buf, offset));
      offset := offset + buf[offset] + 1;
      if p.None? {
        continue;
      }
      Snoc(records, p.value, TxtOf(buf, offset, end, capacity - |records| - 1));
      records := records + [p.value];
    }
  }

  // ---------------------------------------------------------------- strings that go beyond the buffer

  /** What the code does in a memory that goes on behind the buffer: it does not compare the length of a string with
      what is left. */
  function TxtIn(memory: seq<byte>, offset: nat, end: nat, capacity: nat): seq<Pair>
    requires end + 256 <= |memory|
    decreases end - offset
  {
    if end <= offset || capacity == 0 then []
    else
      var p, next := PairOf(StringAt(memory, offset)), offset + 1 + memory[offset];
      if p.None? then TxtIn(memory, next, end, capacity) else [p.value] + TxtIn(memory, next, end, capacity - 1)
  }

  /** The search for a separator stops at this byte. */
  predicate Stop(b: byte) {
    b < 0x20 || 0x7E < b || b == ASSIGN
  }

  /** Of a string of `length` bytes only `text` is in the buffer: no pair is found in it, whatever follows. */
  predicate NoPair(text: seq<byte>, length: nat) {
    Separator(text, 0) == 0 && if text == [] then length <= 1 else exists c :: 0 <= c < |text| && Stop(text[c])
  }

  /** Every string that is looked at ends in the buffer, or does not matter. */
  predicate Stays(buf: seq<byte>, offset: nat, end: nat, capacity: nat)
    requires end <= |buf|
    decreases end - offset
  {
    end <= offset || capacity == 0
    || if |buf| < offset + 1 + buf[offset] then NoPair(buf[offset + 1..], buf[offset])
       else Stays(buf, offset + 1 + buf[offset], end, if PairOf(StringAt(buf, offset)).None? then capacity else capacity - 1)
  }

  lemma {:induction false} SeparatorIn(text: seq<byte>, more: seq<byte>, c: nat)
    requires c <= |text|
    ensures Separator(text + more, c)
            == if exists i :: c <= i < |text| && Stop(text[i]) then Separator(text, c) else Separator(text + more, |text|)
    decreases |text| - c
  {
    if c < |text| && !Stop(text[c]) {
      SeparatorIn(text, more, c + 1);
    }
  }

  lemma NoPairAtAll(text: seq<byte>, more: seq<byte>)
    requires NoPair(text, |text| + |more|)
    ensures PairOf(text + more).None?
  {
    if text == [] {
      assert text + more == more;
    } else {
      SeparatorIn(text, more, 0);
    }
  }

  /** Otherwise some continuation shows a pair. */
  lemma SomePair(text: seq<byte>, length: nat, more: seq<byte>)
    requires |text| < length && !NoPair(text, length) && |more| == length - |text|
    requires text == [] ==> |more| >= 2 && more[0] == 97 && more[1] == ASSIGN
    requires text != [] ==> more[0] == ASSIGN
    ensures PairOf(text + more).Some?
  {
    if text == [] {
      assert text + more == more;
      assert Separator(more, 1) == 1;
    } else {
      SeparatorIn(text, more, 0);
      assert (text + more)[|text|] == ASSIGN;
    }
  }

  /** The string at `offset` in the longer memory. */
  lemma StringIn(buf: seq<byte>, more: seq<byte>, offset: nat)
    requires offset < |buf| && |more| >= 256
    ensures (buf + more)[offset] == buf[offset]
    ensures if |buf| < offset + 1 + buf[offset]
            then StringAt(buf + more, offset) == buf[offset + 1..] + more[..buf[offset] - |buf[offset + 1..]|]
            else StringAt(buf + more, offset) == StringAt(buf, offset)
  {
  }

  lemma {:induction false} StaysIn(buf: seq<byte>, more: seq<byte>, offset: nat, end: nat, capacity: nat)
    requires end <= |buf| && |more| >= 256 && Stays(buf, offset, end, capacity)
    ensures TxtIn(buf + more, offset, end, capacity) == TxtOf(buf, offset, end, capacity)
    decreases end - offset
  {
    hide PairOf, StringAt, NoPair;
    if offset < end && capacity > 0 {
      StringIn(buf, more, offset);
      var next := offset + 1 + buf[offset];
      if |buf| < next {
        NoPairAtAll(buf[offset + 1..], more[..buf[offset] - |buf[offset + 1..]|]);
      } else {
        StaysIn(buf, more, next, end, if PairOf(StringAt(buf, offset)).None? then capacity else capacity - 1);
      }
    }
  }

  lemma LastGoesAstray(buf: seq<byte>, offset: nat, end: nat, capacity: nat) returns (more: seq<byte>)
    requires offset < end <= |buf| && capacity > 0 && |buf| < offset + 1 + buf[offset]
    requires !NoPair(buf[offset + 1..], buf[offset])
    ensures |more| >= 256 && TxtIn(buf + more, offset, end, capacity) != TxtOf(buf, offset, end, capacity)
  {
    var text := buf[offset + 1..];
    more := (if text == [] then [97, ASSIGN] else [ASSIGN]) + seq(256, i => 0);
    StringIn(buf, more, offset);
    SomePair(text, buf[offset], more[..buf[offset] - |text|]);
  }

  function Put(p: Option<Pair>, rest: seq<Pair>): seq<Pair> {
    if p.None? then rest else [p.value] + rest
  }

  lemma PutDiffers(p: Option<Pair>, xs: seq<Pair>, ys: seq<Pair>)
    requires xs != ys
    ensures Put(p, xs) != Put(p, ys)
  {
    if p.Some? {
      assert ([p.value] + xs)[1..] == xs && ([p.value] + ys)[1..] == ys;
    }
  }

  /** A string that ends in the buffer. */
  lemma OneString(buf: seq<byte>, more: seq<byte>, offset: nat, end: nat, capacity: nat)
    requires offset < end <= |buf| && capacity > 0 && offset + 1 + buf[offset] <= |buf| && |more| >= 256
    ensures var p, next := PairOf(StringAt(buf, offset)), offset + 1 + buf[offset];
            var rest := if p.None? then capacity else capacity - 1;
            && TxtIn(buf + more, offset, end, capacity) == Put(p, TxtIn(buf + more, next, end, rest))
            && TxtOf(buf, offset, end, capacity) == Put(p, TxtOf(buf, next, end, rest))
  {
    StringIn(buf, more, offset);
  }

  lemma {:induction false} GoesAstray(buf: seq<byte>, offset: nat, end: nat, capacity: nat) returns (more: seq<byte>)
    requires end <= |buf| && !Stays(buf, offset, end, capacity)
    ensures |more| >= 256 && TxtIn(buf + more, offset, end, capacity) != TxtOf(buf, offset, end, capacity)
    decreases end - offset
  {
    hide TxtIn, TxtOf, PairOf, StringAt, NoPair;
    var next := offset + 1 + buf[offset];
    if |buf| < next {
      more := LastGoesAstray(buf, offset, end, capacity);
    } else {
      var p := PairOf(StringAt(buf, offset));
      var rest := if p.None? then capacity else capacity - 1;
      more := GoesAstray(buf, next, end, rest);
      OneString(buf, more, offset, end, capacity);
      PutDiffers(p, TxtIn(buf + more, next, end, rest), TxtOf(buf, next, end, rest));
    }
  }

  /** What is read does not depend on the memory behind the buffer exactly when every string that is looked at ends in
      the buffer, or shows there already that it has no pair. */
  lemma TxtStaysIff(buf: seq<byte>, offset: nat, end: nat, capacity: nat)
    requires end <= |buf|
    ensures (forall more: seq<byte> :: |more| >= 256 ==> TxtIn(buf + more, offset, end, capacity) == TxtOf(buf, offset, end, capacity))
            <==> Stays(buf, offset, end, capacity)
  {
    if Stays(buf, offset, end, capacity) {
      forall more: seq<byte> | |more| >= 256 ensures TxtIn(buf + more, offset, end, capacity) == TxtOf(buf, offset, end, capacity) {
        StaysIn(buf, more, offset, end, capacity);
      }
    } else {
      var more := GoesAstray(buf, offset, end, capacity);
    }
  }
  /** A string of five bytes of which only "a" is in the buffer: when "=" follows in the memory behind it, the code
      finds a pair. */
  lemma TxtGoesAstray(more: seq<byte>)
    requires |more| >= 256 && more[0] == ASSIGN
    ensures !Stays([5, 97], 0, 2, 1) && TxtOf([5, 97], 0, 2, 1) == []
    ensures TxtIn([5, 97] + more, 0, 2, 1) == [Pair([97], more[1..4])]
  {
    var buf: seq<byte> := [5, 97];
    var memory, text := buf + more, [97, ASSIGN] + more[1..4];
    assert buf[1..] == [97];
    assert memory[0] == 5 && StringAt(memory, 0) == text;
    assert text[0] == 97 && text[1] == ASSIGN && Separator(text, 1) == 1;
    assert text[..1] == [97] && text[2..] == more[1..4];
  }
}
