/** Writing domain names with compression (section 4.1.4 of RFC 1035): every label written in full is offered as the
    target of later pointers through a ring of sixteen offsets. */
module DnsWriter {
  import opened Lists
  import opened DnsNames

  const TABLE_SIZE := 16

  /** The candidate offsets; a caller may do without them. */
  datatype Table = NoTable | Slots(offset: seq<nat>, count: nat, next: nat)

  function Candidates(t: Table): seq<nat>
    requires Sized(t)
  {
    if t.NoTable? then [] else t.offset[..t.count]
  }

  predicate Sized(t: Table) {
    t.Slots? ==> |t.offset| == TABLE_SIZE && t.count <= TABLE_SIZE && t.next < TABLE_SIZE
                 && (t.count < TABLE_SIZE ==> t.next == t.count)
  }

  function Add(t: Table, o: nat): (r: Table)
    requires Sized(t)
    ensures Sized(r)
  {
    if t.NoTable? then t
    else Slots(t.offset[t.next := o], if t.count < TABLE_SIZE then t.count + 1 else TABLE_SIZE,
               if t.next + 1 < TABLE_SIZE then t.next + 1 else 0)
  }

  /** Adding an offset forgets the oldest one at most. */
  lemma AddCandidates(t: Table, o: nat)
    requires Sized(t)
    ensures forall c :: c in Candidates(Add(t, o)) ==> c == o || c in Candidates(t)
    ensures t.Slots? ==> o in Candidates(Add(t, o))
    ensures t.Slots? && t.count < TABLE_SIZE ==> Candidates(Add(t, o)) == Candidates(t) + [o]
  {
    if t.Slots? {
      assert Candidates(Add(t, o))[t.next] == o;
    }
  }

  class StringTable {
    var offset: seq<nat>
    var count: nat
    var next: nat

    constructor ()
      ensures Valid() && View() == Slots(seq(TABLE_SIZE, i => 0), 0, 0)
    {
      offset := seq(TABLE_SIZE, i => 0);
      count, next := 0, 0;
    }

    ghost predicate Valid()
      reads this
    {
      Sized(View())
    }

    ghost function View(): Table
      reads this
    {
      Slots(offset, count, next)
    }

    method TableAdd(o: nat)
      requires Valid()
      modifies this
      ensures Valid() && View() == Add(old(View()), o)
    {
      offset := offset[next := o];
      count := count + 1;
      if count > TABLE_SIZE {
        count := TABLE_SIZE;
      }
      next := next + 1;
      if next >= TABLE_SIZE {
        next := 0;
      }
    }
  }

  // ---------------------------------------------------------------- text and labels

  /** Where the first dot at or after `offset` is. */
  function FirstDot(text: seq<byte>, offset: nat): (r: Option<nat>)
    ensures r.Some? ==> offset <= r.value < |text|
    decreases |text| - offset
  {
    if |text| <= offset then None
    else if text[offset] == DOT then Some(offset)
    else FirstDot(text, offset + 1)
  }

  method StringFind(text: seq<byte>, offset: nat) returns (r: Option<nat>)
    ensures r == FirstDot(text, offset)
  {
    var i := offset;
    while i < |text|
      invariant FirstDot(text, i) == FirstDot(text, offset)
    {
      if text[i] == DOT {
        return Some(i);
      }
      i := i + 1;
    }
    return None;
  }

  /** Where the label that starts at `offset` stops. */
  function LabelEnd(text: seq<byte>, offset: nat): (r: nat)
    requires offset < |text|
    ensures offset <= r <= |text|
  {
    match FirstDot(text, offset) case Some(d) => d case None => |text|
  }

  /** The labels from `offset` on. */
  function Split(text: seq<byte>, offset: nat): seq<Label>
    decreases |text| - offset
  {
    if |text| <= offset then []
    else [text[offset..LabelEnd(text, offset)]] + Split(text, LabelEnd(text, offset) + 1)
  }

  /** One final dot does not matter. */
  function Stripped(name: seq<byte>): seq<byte>
    requires name != []
  {
    if name[|name| - 1] == DOT then name[..|name| - 1] else name
  }

  // ---------------------------------------------------------------- finding a target

  /** The substrings from `cur` on start with `labels`; nothing is asked of what follows them. */
  predicate Match(buf: seq<byte>, cur: nat, labels: seq<Label>)
    decreases |labels|
  {
    labels == []
    || var s := NextSub(buf, cur);
       SubBounds(buf, cur);
       s.At? && s.length > 0 && buf[s.offset..s.offset + s.length] == labels[0]
       && Match(buf, s.offset + s.length, labels[1..])
  }

  /** The first candidate from the `i`-th on that matches. */
  function FindRef(buf: seq<byte>, candidates: seq<nat>, i: nat, labels: seq<Label>): Option<nat>
    decreases |candidates| - i
  {
    if |candidates| <= i then None
    else if candidates[i] < |buf| && Match(buf, candidates[i], labels) then Some(candidates[i])
    else FindRef(buf, candidates, i + 1, labels)
  }

  lemma {:induction false} FoundRef(buf: seq<byte>, candidates: seq<nat>, i: nat, labels: seq<Label>)
    ensures var r := FindRef(buf, candidates, i, labels);
            r.Some? ==> r.value in candidates && r.value < |buf| && Match(buf, r.value, labels)
    decreases |candidates| - i
  {
    if i < |candidates| {
      FoundRef(buf, candidates, i + 1, labels);
    }
  }

  /** The substring at `cur` is the label `word`. */
  predicate IsNext(buf: seq<byte>, cur: nat, word: Label) {
    var s := NextSub(buf, cur);
    s.At? && s.length > 0 && s.offset + s.length <= |buf| && buf[s.offset..s.offset + s.length] == word
  }

  /** The same, label by label along a text. */
  predicate MatchText(buf: seq<byte>, cur: nat, text: seq<byte>, offset: nat)
    decreases |text| - offset
  {
    |text| <= offset
    || (IsNext(buf, cur, text[offset..LabelEnd(text, offset)])
        && MatchText(buf, After(buf, cur), text, LabelEnd(text, offset) + 1))
  }

  function After(buf: seq<byte>, cur: nat): nat
    requires NextSub(buf, cur).At?
  {
    NextSub(buf, cur).offset + NextSub(buf, cur).length
  }

  lemma MatchCons(buf: seq<byte>, cur: nat, word: Label, more: seq<Label>)
    ensures Match(buf, cur, [word] + more) <==> IsNext(buf, cur, word) && Match(buf, After(buf, cur), more)
  {
    SubBounds(buf, cur);
    assert ([word] + more)[1..] == more;
  }

  lemma {:induction false} MatchTextIff(buf: seq<byte>, cur: nat, text: seq<byte>, offset: nat)
    ensures MatchText(buf, cur, text, offset) <==> Match(buf, cur, Split(text, offset))
    decreases |text| - offset
  {
    if offset < |text| {
      var end := LabelEnd(text, offset);
      MatchCons(buf, cur, text[offset..end], Split(text, end + 1));
      if IsNext(buf, cur, text[offset..end]) {
        MatchTextIff(buf, After(buf, cur), text, end + 1);
      }
    }
  }

  /** Compares one label, and gives what follows it in the buffer. */
  method NextMatches(buf: seq<byte>, cur: nat, text: seq<byte>, offset: nat, length: nat) returns (ok: bool, next: nat)
    requires offset + length <= |text|
    ensures ok <==> IsNext(buf, cur, text[offset..offset + length])
    ensures ok ==> next == After(buf, cur)
  {
    SubBounds(buf, cur);
    var s := NextSubstring(buf, cur);
    if s.Invalid? || s.length == 0 || s.length != length {
      return false, cur;
    }
    if text[offset..offset + length] != buf[s.offset..s.offset + s.length] {
      return false, cur;
    }
    return true, s.offset + s.length;
  }

  /** Compares the labels of the text from `start` on with the substrings at `o`, until one list or a match ends. */
  method MatchesAt(buf: seq<byte>, o: nat, text: seq<byte>, start: nat, firstLength: nat) returns (ok: bool)
    requires start < |text| && start + firstLength == LabelEnd(text, start)
    ensures ok <==> MatchText(buf, o, text, start)
  {
    hide NextSub, IsNext;
    var cur: nat;
    ok, cur := NextMatches(buf, o, text, start, firstLength);
    if !ok {
      return;
    }
    var offset := start + firstLength + 1;
    ghost var wanted := MatchText(buf, o, text, start);
    while offset < |text|
      invariant wanted <==> MatchText(buf, cur, text, offset)
      decreases |text| - offset
    {
      var dot := StringFind(text, offset);
      var end := if dot.Some? then dot.value else |text|;
      ok, cur := NextMatches(buf, cur, text, offset, end - offset);
      if !ok {
        return;
      }
      offset := end + 1;
    }
    return true;
  }

  /** Looks for the text `text[start..]`, whose first label has the length given. */
  method TableFind(buf: seq<byte>, table: StringTable?, text: seq<byte>, start: nat, firstLength: nat)
    returns (r: Option<nat>)
    requires table != null ==> table.Valid()
    requires start < |text| && start + firstLength == LabelEnd(text, start)
    ensures r == FindRef(buf, Candidates(TableView(table)), 0, Split(text, start))
  {
    if table == null {
      return None;
    }
    var i := 0;
    ghost var all, labels := Candidates(table.View()), Split(text, start);
    while i < table.count
      invariant i <= table.count
      invariant FindRef(buf, all, i, labels) == FindRef(buf, all, 0, labels)
    {
      var o := table.offset[i];
      assert all[i] == o;
      i := i + 1;
      if o >= |buf| {
        continue;
      }
      var ok := MatchesAt(buf, o, text, start, firstLength);
      MatchTextIff(buf, o, text, start);
      if ok {
        return Some(o);
      }
    }
    return None;
  }

  // ---------------------------------------------------------------- writing a name

  function Overlay(buf: seq<byte>, pos: nat, xs: seq<byte>): (r: seq<byte>)
    requires pos + |xs| <= |buf|
    ensures |r| == |buf|
  {
    buf[..pos] + xs + buf[pos + |xs|..]
  }

  /** The length byte of a label and the label; a length is cut to eight bits. */
  function Literal(word: Label): (r: seq<byte>)
    ensures |r| == |word| + 1
  {
    [|word| % 256] + word
  }

  /** `0xC000 | (uint16_t)offset`, most significant byte first. */
  function Pointer(offset: nat): (r: seq<byte>)
    ensures |r| == 2
  {
    [192 + offset / 256 % 64, offset % 256]
  }

  datatype Made = Made(buf: seq<byte>, table: Table, end: Option<nat>)

  function Make(buf: seq<byte>, pos: nat, labels: seq<Label>, table: Table): Made
    requires pos <= |buf| && Sized(table)
    decreases |labels|
  {
    if labels == [] then
      if pos == |buf| then Made(buf, table, None) else Made(Overlay(buf, pos, [0]), table, Some(pos + 1))
    else match FindRef(buf, Candidates(table), 0, labels)
      case Some(r) =>
        if |buf| < pos + 2 then Made(buf, table, None) else Made(Overlay(buf, pos, Pointer(r)), table, Some(pos + 2))
      case None =>
        if |buf| - pos <= |labels[0]| + 1 then Made(buf, table, None)
        else Make(Overlay(buf, pos, Literal(labels[0])), pos + |labels[0]| + 1, labels[1..], Add(table, pos))
  }

  ghost function TableView(table: StringTable?): Table
    reads table
  {
    if table == null then NoTable else table.View()
  }

  method Put(buffer: array<byte>, pos: nat, xs: seq<byte>)
    requires pos + |xs| <= buffer.Length
    modifies buffer
    ensures buffer[..] == Overlay(old(buffer[..]), pos, xs)
  {
    var _ := CopyIn(buffer, pos, buffer.Length, xs);
  }

  /** One label in full, offered to later names. */
  method PutLabel(buffer: array<byte>, pos: nat, word: Label, table: StringTable?)
    requires pos + |word| + 1 <= buffer.Length
    requires table != null ==> table.Valid()
    modifies buffer, table
    ensures table != null ==> table.Valid()
    ensures buffer[..] == Overlay(old(buffer[..]), pos, Literal(word))
    ensures Sized(old(TableView(table))) && TableView(table) == Add(old(TableView(table)), pos)
  {
    Put(buffer, pos, Literal(word));
    if table != null {
      table.TableAdd(pos);
    }
  }

  lemma {:induction false} MakeCons(buf: seq<byte>, pos: nat, word: Label, more: seq<Label>, table: Table)
    requires pos <= |buf| && Sized(table)
    requires FindRef(buf, Candidates(table), 0, [word] + more).None? && |word| + 1 < |buf| - pos
    ensures Make(buf, pos, [word] + more, table)
            == Make(Overlay(buf, pos, Literal(word)), pos + |word| + 1, more, Add(table, pos))
  {
    assert ([word] + more)[1..] == more;
  }

  lemma {:induction false} MakeLiteral(buf: seq<byte>, pos: nat, labels: seq<Label>, table: Table,
                    b: seq<byte>, p: nat, more: seq<Label>, t: Table)
    requires pos <= |buf| && Sized(table) && labels != []
    requires FindRef(buf, Candidates(table), 0, labels).None? && |labels[0]| + 1 < |buf| - pos
    requires b == Overlay(buf, pos, Literal(labels[0])) && p == pos + |labels[0]| + 1 && more == labels[1..] && t == Add(table, pos)
    ensures Make(buf, pos, labels, table) == Make(b, p, more, t)
  {
    assert labels == [labels[0]] + more;
    MakeCons(buf, pos, labels[0], more, table);
  }

  /** What one label of a text leads to: the rest of the text still has to be written, or the name is complete or
      does not fit. */
  datatype Progress = More(buf: seq<byte>, table: Table, pos: nat, last: nat) | Stop(made: Made)

  function Next(buf: seq<byte>, pos: nat, text: seq<byte>, last: nat, table: Table): (p: Progress)
    requires pos <= |buf| && Sized(table) && last < |text|
    ensures p.More? ==> last < p.last && p.pos <= |p.buf| && Sized(p.table)
  {
    var end := LabelEnd(text, last);
    match FindRef(buf, Candidates(table), 0, Split(text, last))
    case Some(r) =>
      if |buf| < pos + 2 then Stop(Made(buf, table, None))
      else Stop(Made(Overlay(buf, pos, Pointer(r)), table, Some(pos + 2)))
    case None =>
      if |buf| - pos <= end - last + 1 then Stop(Made(buf, table, None))
      else More(Overlay(buf, pos, Literal(text[last..end])), Add(table, pos), pos + (end - last) + 1, end + 1)
  }

  function MakeText(buf: seq<byte>, pos: nat, text: seq<byte>, last: nat, table: Table): Made
    requires pos <= |buf| && Sized(table)
    decreases |text| - last
  {
    if |text| <= last then Make(buf, pos, [], table)
    else match Next(buf, pos, text, last, table)
      case Stop(made) => made
      case More(b, t, p, l) => MakeText(b, p, text, l, t)
  }

  lemma {:induction false} MakeTextIff(buf: seq<byte>, pos: nat, text: seq<byte>, last: nat, table: Table)
    requires pos <= |buf| && Sized(table)
    ensures MakeText(buf, pos, text, last, table) == Make(buf, pos, Split(text, last), table)
    decreases |text| - last
  {
    if last < |text| {
      match Next(buf, pos, text, last, table)
      case Stop(_) =>
      case More(b, t, p, l) =>
        MakeLiteral(buf, pos, Split(text, last), table, b, p, Split(text, l), t);
        MakeTextIff(b, p, text, l, t);
    }
  }

  /** Writes what comes next of a name: one label, or the pointer that ends it. */
  method PutNext(buffer: array<byte>, pos: nat, text: seq<byte>, last: nat, table: StringTable?)
    returns (more: bool, next: nat, after: nat, end: Option<nat>)
    requires last < |text| && pos <= buffer.Length
    requires table != null ==> table.Valid()
    modifies buffer, table
    ensures table != null ==> table.Valid()
    ensures Sized(old(TableView(table)))
    ensures Next(old(buffer[..]), pos, text, last, old(TableView(table)))
            == if more then More(buffer[..], TableView(table), next, after)
               else Stop(Made(buffer[..], TableView(table), end))
  {
    hide FindRef, Split, Add;
    var dot := StringFind(text, last);
    var length := (if dot.Some? then dot.value else |text|) - last;
    var r := TableFind(buffer[..], table, text, last, length);
    if r.Some? {
      if buffer.Length - pos < 2 {
        return false, 0, 0, None;
      }
      Put(buffer, pos, Pointer(r.value));
      return false, 0, 0, Some(pos + 2);
    }
    if buffer.Length - pos <= length + 1 {
      return false, 0, 0, None;
    }
    PutLabel(buffer, pos, text[last..last + length], table);
    return true, pos + length + 1, last + length + 1, None;
  }

  /** Writes a name at `data`; without an end, the buffer is left with what fitted. */
  method StringMake(buffer: array<byte>, data: nat, name: seq<byte>, table: StringTable?) returns (end: Option<nat>)
    requires name != [] && data <= buffer.Length
    requires table != null ==> table.Valid()
    modifies buffer, table
    ensures table != null ==> table.Valid()
    ensures Sized(old(TableView(table)))
    ensures Made(buffer[..], TableView(table), end)
            == Make(old(buffer[..]), data, Split(Stripped(name), 0), old(TableView(table)))
  {
    var text := Stripped(name);
    var pos: nat, last: nat := data, 0;
    ghost var made := MakeText(buffer[..], data, text, 0, TableView(table));
    MakeTextIff(buffer[..], data, text, 0, TableView(table));
    while last < |text|
      invariant pos <= buffer.Length
      invariant table != null ==> table.Valid()
      invariant made == MakeText(buffer[..], pos, text, last, TableView(table))
      decreases |text| - last
    {
      var more, next, after, stop := PutNext(buffer, pos, text, last, table);
      if !more {
        return stop;
      }
      pos, last := next, after;
    }
    if pos == buffer.Length {
      return None;
    }
    Put(buffer, pos, [0]);
    return Some(pos + 1);
  }
}
