/** Sequence numbers of 64 bits, which wrap around, and half-open ranges of them. */
module SequenceNumbers {
  import opened Modular

  const ROUND := 0x1_0000_0000_0000_0000
  const HALF := 0x8000_0000_0000_0000

  type Word = x: int | 0 <= x < ROUND

  /** The number stored for the unbounded sequence number `x`. */
  function Wrap(x: int): Word {
    x % ROUND
  }

  /** Subtraction in the unsigned type, converted to the signed type of the same width. */
  function Difference(a: Word, b: Word): int {
    var d := Wrap(a - b);
    if d < HALF then d else d - ROUND
  }

  predicate Precedes(a: Word, b: Word) {
    Difference(a, b) < 0
  }

  /** The difference of two stored numbers is the true one exactly when that lies in the window of the signed type. */
  lemma DifferenceIff(a: int, b: int)
    ensures Difference(Wrap(a), Wrap(b)) == a - b <==> -HALF <= a - b < HALF
  {
  }

  /** Within that window the order of stored numbers is the order of the numbers they stand for; half a round further
      the greater number precedes. */
  lemma PrecedesIff(a: int, b: int)
    ensures -HALF <= a - b < HALF ==> (Precedes(Wrap(a), Wrap(b)) <==> a < b)
    ensures HALF <= a - b < ROUND ==> Precedes(Wrap(a), Wrap(b))
  {
  }

  /** A slot index may be taken of the stored number when the ring size divides the number of sequence numbers. */
  lemma SlotOfWrapped(size: nat, k: nat, x: int)
    requires 0 < size && ROUND == size * k
    ensures Wrap(x) % size == x % size
  {
    var q, s := x / ROUND, x % size;
    assert Wrap(x) == x - ROUND * q;
    assert ROUND * q == size * (k * q);
    assert x == s + size * (x / size);
    assert size * (x / size) - size * (k * q) == size * (x / size - k * q);
    ModOffset(size, s, x / size - k * q);
  }

  // ---------------------------------------------------------------- ranges

  datatype Range = Range(begin: Word, end: Word)

  function Size(r: Range): Word {
    Wrap(Difference(r.end, r.begin))
  }

  predicate Empty(r: Range) {
    r.begin == r.end
  }

  function Back(r: Range): Word {
    Wrap(r.end - 1)
  }

  function At(r: Range, index: nat): Word {
    Wrap(r.begin + index)
  }

  function Min(a: nat, b: nat): nat {
    if b < a then b else a
  }

  function First(r: Range, count: nat): Range {
    Range(r.begin, Wrap(r.begin + Min(Size(r), count)))
  }

  function Skip(r: Range, count: nat): Range {
    Range(Wrap(r.begin + Min(Size(r), count)), r.end)
  }

  /** The range that stands for the sequence numbers from `b` to `e - 1`. */
  function Of(b: int, e: int): Range {
    Range(Wrap(b), Wrap(e))
  }

  lemma BackOf(b: int, e: int)
    requires 0 <= e - b < ROUND
    ensures (Empty(Of(b, e)) <==> b == e) && Back(Of(b, e)) == Wrap(e - 1)
  {
  }

  /** A range knows its size and its ends exactly when it is short of a full round. */
  lemma SizeIff(b: int, e: int)
    ensures Size(Of(b, e)) == e - b <==> 0 <= e - b < ROUND
    ensures 0 <= e - b < ROUND ==> (Empty(Of(b, e)) <==> b == e) && Back(Of(b, e)) == Wrap(e - 1)
  {
    if 0 <= e - b < ROUND {
      BackOf(b, e);
    }
    hide Empty, Back;
  }

  /** `first` and `skip` cut a range in two. */
  lemma RangeParts(b: int, e: int, count: nat)
    requires 0 <= e - b < ROUND
    ensures var n := Min(e - b, count); First(Of(b, e), count) == Of(b, b + n) && Skip(Of(b, e), count) == Of(b + n, e)
  {
    SizeIff(b, e);
    RangeAt(b, e, Min(e - b, count));
  }

  /** The elements of a range are the numbers it stands for, in order. */
  lemma RangeAt(b: int, e: int, index: nat)
    ensures At(Of(b, e), index) == Wrap(b + index)
  {
  }
}
