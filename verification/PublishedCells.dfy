/** The array of published sequence numbers, as the sequencer's own loops fill, scan and update it. */
module PublishedCells {
  import opened Modular
  import opened SequencerRing

  class Cells {
    const size: nat
    const cells: array<int>

    ghost predicate Valid()
    {
      0 < size == cells.Length
    }

    /** The slot of `s` holds `s`. */
    predicate Answers(s: int)
      requires Valid()
      reads cells
    {
      cells[Slot(size, s)] == s
    }

    /** Fills the slots with the `size` numbers that end with `initial`, so that none is taken for published. */
    constructor (size: nat, initial: int)
      requires 0 < size
      ensures Valid() && fresh(cells) && this.size == size
      ensures forall i :: 0 <= i < size ==> cells[i] == InitialCell(size, initial, i)
    {
      this.size := size;
      cells := new int[size];
      new;
      var s := initial - (size - 1);
      while true
        invariant initial - size < s <= initial
        invariant forall x :: initial - size < x < s ==> cells[Slot(size, x)] == x
        decreases initial - s
      {
        forall x | initial - size < x < s ensures Slot(size, x) != Slot(size, s) {
          ModDistinct(size, x, s);
        }
        cells[Slot(size, s)] := s;
        if s == initial {
          break;
        }
        s := s + 1;
      }
      forall i | 0 <= i < size ensures cells[i] == InitialCell(size, initial, i) {
        InitialCellSlot(size, initial, i);
      }
    }

    /** Scans from `lastKnown` to the last number whose slot answers, in at most `size` rounds, whatever the
        array holds. */
    method LastPublishedAfter(lastKnown: int) returns (last: int)
      requires Valid()
      ensures lastKnown <= last <= lastKnown + size
      ensures forall s :: lastKnown < s <= last ==> Answers(s)
      ensures !Answers(last + 1)
    {
      last := lastKnown;
      var s := lastKnown + 1;
      while cells[Slot(size, s)] == s
        invariant s == last + 1 && lastKnown <= last <= lastKnown + size
        invariant forall x :: lastKnown < x <= last ==> Answers(x)
        decreases lastKnown + size - last
      {
        ModPeriodic(size, lastKnown + 1);
        assert last == lastKnown + size ==> Answers(lastKnown + 1);
        last := s;
        s := s + 1;
      }
    }

    /** Publishes lo, ..., hi - 1: first all but the front, then the front. */
    method PublishRange(lo: int, hi: int)
      requires Valid() && lo <= hi
      modifies cells
      ensures cells[..] == if lo == hi then old(cells[..]) else StoreAll(old(cells[..]), lo + 1, hi)[Slot(size, lo) := lo]
    {
      if lo == hi {
        return;
      }
      var s := lo + 1;
      while s != hi
        invariant lo < s <= hi
        invariant cells[..] == StoreAll(old(cells[..]), lo + 1, s)
      {
        cells[Slot(size, s)] := s;
        s := s + 1;
      }
      cells[Slot(size, lo)] := lo;
    }
  }

  /** Each of lo, ..., hi - 1 stored into its slot, in that order. */
  ghost function StoreAll(cells: seq<int>, lo: int, hi: int): (r: seq<int>)
    requires cells != []
    ensures |r| == |cells|
    decreases hi - lo
  {
    if hi <= lo then cells
    else StoreAll(cells, lo, hi - 1)[Slot(|cells|, hi - 1) := hi - 1]
  }

  /** A batch no longer than the buffer is published as a whole: afterwards every number of it has its slot,
      and slots of no number of it are untouched. */
  lemma BatchPublished(cells: seq<int>, lo: int, hi: int, s: int)
    requires cells != [] && lo < hi <= lo + |cells| && lo <= s < lo + |cells|
    ensures StoreAll(cells, lo + 1, hi)[Slot(|cells|, lo) := lo][Slot(|cells|, s)]
            == if s < hi then s else cells[Slot(|cells|, s)]
  {
    StoredSlot(cells, lo + 1, hi, s);
    if s != lo {
      ModDistinct(|cells|, s, lo);
    }
  }

  lemma {:induction false} StoredSlot(cells: seq<int>, lo: int, hi: int, s: int)
    requires cells != [] && lo <= hi < lo + |cells| && lo - 1 <= s < lo - 1 + |cells|
    ensures StoreAll(cells, lo, hi)[Slot(|cells|, s)] == if lo <= s < hi then s else cells[Slot(|cells|, s)]
    decreases hi - lo
  {
    if lo < hi {
      StoredSlot(cells, lo, hi - 1, s);
      if s != hi - 1 {
        ModDistinct(|cells|, s, hi - 1);
      }
    }
  }

  /** The initial number of a slot is one of the `size` numbers that end with `initial`, and has that slot. */
  lemma InitialCellSlot(size: int, initial: int, i: int)
    requires 0 <= i < size
    ensures initial - size < InitialCell(size, initial, i) <= initial
    ensures Slot(size, InitialCell(size, initial, i)) == i
  {
    var d := initial - i;
    assert initial - d % size == i + size * (d / size);
    ModOffset(size, i, d / size);
  }

  /** On the array of any reachable ring the scan finds the end of the published prefix, unless the consumers
      are ahead of its starting point and the slot it stops at has been reused. */
  lemma ScanFindsPrefix<V>(r: Ring<V>, start: int, last: int)
    requires RingInv(r) && r.first - 1 <= start <= last && Contiguous(r, start)
    requires forall s :: start < s <= last ==> r.published[Slot(r.size, s)] == s
    requires r.published[Slot(r.size, last + 1)] != last + 1
    ensures PrefixEnd(r, last) <==> r.published[Slot(r.size, last + 1)] <= last
    ensures r.consumed <= start ==> PrefixEnd(r, last) && last <= r.consumed + r.size
  {
    forall s | start < s <= last ensures Cell(r, s) == s {
      assert r.published[Slot(r.size, s)] == s;
    }
    ScanExact(r, start, last);
    assert last in r.done || last < r.first;
  }
}
