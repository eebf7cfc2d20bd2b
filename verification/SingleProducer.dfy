/** The single-producer sequencer over sequence numbers that wrap around. The wait on the consumers' barrier is a
    parameter of each claim: the number it returned, which does not precede the target waited for. */
module SingleProducer {
  import opened Modular
  import opened SequenceNumbers

  /** How many sequences are free from `begin` on when the consumers have published `known`. */
  function Available(known: Word, bufferSize: Word, begin: Word): Word {
    Wrap(Wrap(Wrap(known + bufferSize) - begin) as int + 1)
  }

  lemma AvailableIs(at: int, bufferSize: Word, next: int)
    requires 0 <= at + bufferSize - next < HALF
    ensures Available(Wrap(at), bufferSize, Wrap(next)) == at + bufferSize - next + 1
  {
    WrapAdd(at, bufferSize);
    WrapSubtract(at + bufferSize, next);
  }

  lemma WrapSubtract(x: int, y: int)
    ensures Wrap(Wrap(x) - Wrap(y)) == Wrap(x - y)
  {
  }

  lemma WrapAdd(x: int, y: int)
    ensures Wrap(Wrap(x) + y) == Wrap(x + y)
  {
  }

  class Sequencer {
    const bufferSize: Word
    var nextToClaim: Word
    /** The last sequence published in the producer's barrier. */
    var lastPublished: Word

    /** The unbounded numbers behind the stored ones, how far the consumers have published, and all claims so far. */
    ghost var next: int
    ghost var published: int
    ghost var consumed: int
    ghost var claimed: seq<int>
    ghost const start: int

    /** Every number from the start on has been claimed once and in order, and at most `bufferSize` of them have not
        been consumed. */
    ghost predicate Valid()
      reads this
    {
      && 0 < bufferSize <= HALF
      && nextToClaim == Wrap(next) && lastPublished == Wrap(published)
      && consumed <= published < next <= consumed + bufferSize + 1
      && |claimed| == next - start && forall i :: 0 <= i < |claimed| ==> claimed[i] == start + i
    }

    constructor (bufferSize: Word, initialSequence: Word)
      requires 0 < bufferSize <= HALF
      ensures Valid() && this.bufferSize == bufferSize && claimed == []
      ensures next == initialSequence + 1 && published == consumed == initialSequence
    {
      this.bufferSize := bufferSize;
      nextToClaim, lastPublished := Wrap(initialSequence + 1), initialSequence;
      next, published, consumed, claimed := initialSequence + 1, initialSequence, initialSequence, [];
      start := initialSequence + 1;
    }

    /** The sequence that a claim waits for on the consumers' barrier. */
    function ClaimTarget(): Word
      reads this
    {
      Wrap(nextToClaim - bufferSize)
    }

    /** `known` is what the consumers' barrier returned to a wait for `ClaimTarget`: it stands for a number `at` that
        they had published when they did so, or when the wait began. */
    ghost predicate Awaited(known: Word, at: int)
      reads this
    {
      known == Wrap(at) && next - bufferSize - 1 <= at <= consumed && !Precedes(known, ClaimTarget())
    }

    /** The wait does what it is for, in spite of the wrap-around. */
    lemma AwaitedSlot(known: Word, at: int)
      requires Valid() && Awaited(known, at)
      ensures next - bufferSize <= at
    {
      WrapAdd(next, 0 - bufferSize as int);
      PrecedesIff(at, next - bufferSize);
    }

    method ClaimOne(known: Word, ghost at: int) returns (sequence: Word)
      requires Valid() && Awaited(known, at)
      modifies this
      ensures Valid() && published == old(published) && consumed == old(consumed)
      ensures sequence == Wrap(old(next)) && claimed == old(claimed) + [old(next)]
    {
      AwaitedSlot(known, at);
      sequence := nextToClaim;
      nextToClaim := Wrap(nextToClaim as int + 1);
      WrapAdd(next, 1);
      claimed := claimed + [next];
      next := next + 1;
    }

    /** Claims what is free, up to `count` sequences. */
    method ClaimUpTo(count: Word, known: Word, ghost at: int) returns (range: Range)
      requires Valid() && Awaited(known, at)
      modifies this
      ensures Valid() && published == old(published) && consumed == old(consumed)
      ensures range == Of(old(next), next) && Size(range) == next - old(next)
      ensures next - old(next) == Min(count, at + bufferSize + 1 - old(next))
      ensures count > 0 ==> !Empty(range)
      ensures var first := old(next); next >= first && claimed == old(claimed) + seq(next - first, i => first + i)
    {
      AwaitedSlot(known, at);
      AvailableIs(at, bufferSize, next);
      var begin := nextToClaim;
      var toClaim := Min(count, Available(known, bufferSize, begin));
      var end := Wrap(begin + toClaim);
      WrapAdd(next, toClaim);
      nextToClaim := end;
      range := Range(begin, end);
      SizeIff(next, next + toClaim);
      ghost var first := next;
      claimed := claimed + seq(toClaim, i => first + i);
      next := next + toClaim;
    }

    /** Publishes everything up to `sequence`, which stands for the claimed number `s`. */
    method PublishOne(sequence: Word, ghost s: int)
      requires Valid() && sequence == Wrap(s) && published <= s < next
      modifies this
      ensures Valid() && next == old(next) && claimed == old(claimed) && consumed == old(consumed) && published == s
    {
      lastPublished := sequence;
      published := s;
    }

    /** Publishes the number before the end of a range: its last, or for an empty range the one before it. */
    method PublishRange(range: Range, ghost b: int, ghost e: int)
      requires Valid() && range == Of(b, e) && b <= e <= next && published < e && e - b < ROUND
      modifies this
      ensures Valid() && next == old(next) && claimed == old(claimed) && consumed == old(consumed) && published == e - 1
    {
      SizeIff(b, e);
      PublishOne(Back(range), e - 1);
    }

    /** The consumers move on, over what has been published. */
    ghost method Consume(s: int)
      requires Valid() && consumed <= s <= published
      modifies this
      ensures Valid() && next == old(next) && claimed == old(claimed) && published == old(published) && consumed == s
    {
      consumed := s;
    }

    /** Sequences claimed but not consumed have slots of their own. */
    lemma LiveSlots(a: int, b: int, rounds: nat)
      requires Valid() && ROUND == bufferSize * rounds
      requires consumed < a < next && consumed < b < next && a != b
      ensures Wrap(a) % bufferSize != Wrap(b) % bufferSize
    {
      SlotOfWrapped(bufferSize, rounds, a);
      SlotOfWrapped(bufferSize, rounds, b);
      ModDistinct(bufferSize, a, b);
    }
  }
}
