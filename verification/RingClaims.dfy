/** Which numbers the producers of a ring get, and that none is passed over. */
module RingClaims {
  import opened Lists
  import opened SequencerRing

  predicate Owns<V>(r: Ring<V>, p: Id, s: int) {
    p in r.claims && r.claims[p].lo <= s < r.claims[p].hi
  }

  ghost predicate Owned<V>(r: Ring<V>, s: int) {
    exists p :: Owns(r, p, s)
  }

  ghost predicate NoGap<V>(r: Ring<V>) {
    forall s :: r.first <= s < r.nextToClaim ==> Owned(r, s)
  }

  /** Whoever owns a number before a step, somebody does after it. */
  lemma StepOwns<V>(r: Ring<V>, step: RingStep<V>, p: Id, s: int)
    requires RingEnabled(r, step) && Owns(r, p, s)
    ensures Owned(RingDo(r, step), s)
  {
    var t := RingDo(r, step);
    match step
    case Divide(a, b, mid) => assert Owns(t, p, s) || (p == a && Owns(t, b, s));
    case _ => assert Owns(t, p, s);
  }

  lemma StepNoGap<V>(r: Ring<V>, step: RingStep<V>)
    requires RingEnabled(r, step) && NoGap(r)
    ensures NoGap(RingDo(r, step))
  {
    var t := RingDo(r, step);
    forall s | t.first <= s < t.nextToClaim ensures Owned(t, s) {
      if s < r.nextToClaim {
        assert Owned(r, s);
        var p :| Owns(r, p, s);
        StepOwns(r, step, p, s);
      } else {
        assert Owns(t, step.p, s);
      }
    }
  }

  /** Every number from the first one up to the next to be claimed belongs to a claim. */
  lemma {:induction false} NothingPassedOver<V>(trace: seq<Ring<V>>, steps: seq<RingStep<V>>, size: int, initial: int, blank: V, i: nat)
    requires 0 < size && RingRun(trace, steps, size, initial, blank) && i < |trace|
    ensures NoGap(trace[i])
  {
    if i > 0 {
      NothingPassedOver(trace, steps, size, initial, blank, i - 1);
      StepNoGap(trace[i - 1], steps[i - 1]);
    }
  }

  /** A claim for `count` numbers gets that many, or a whole buffer when that is less, and they are those behind all
      that have been claimed: exactly the earlier numbers had owners, and they keep them. */
  lemma ClaimIsNext<V>(trace: seq<Ring<V>>, steps: seq<RingStep<V>>, size: int, initial: int, blank: V, i: nat, p: Id, count: nat)
    requires 0 < size && RingRun(trace, steps, size, initial, blank) && i < |steps| && steps[i] == ClaimUpTo(p, count)
    ensures p in trace[i + 1].claims
    ensures var r, t := trace[i], trace[i + 1];
            var c := t.claims[p];
            && c.hi - c.lo == (if count < size then count else size)
            && (forall s :: initial < s < c.lo <==> Owned(r, s))
            && (forall s :: initial < s < c.hi <==> Owned(t, s))
  {
    NothingPassedOver(trace, steps, size, initial, blank, i);
    NothingPassedOver(trace, steps, size, initial, blank, i + 1);
    RingReachable(trace, steps, size, initial, blank, i);
    RingReachable(trace, steps, size, initial, blank, i + 1);
    OwnedInside(trace[i]);
    OwnedInside(trace[i + 1]);
  }

  lemma OwnedInside<V>(r: Ring<V>)
    requires RingInv(r)
    ensures forall s :: Owned(r, s) ==> r.first <= s < r.nextToClaim
  {
    forall s | Owned(r, s) ensures r.first <= s < r.nextToClaim {
      var p :| Owns(r, p, s);
      assert ClaimOk(r, r.claims[p]);
    }
  }

  /** When all claims are published the consumers can read everything that has been claimed. */
  lemma AllPublished<V>(trace: seq<Ring<V>>, steps: seq<RingStep<V>>, size: int, initial: int, blank: V, i: nat)
    requires 0 < size && RingRun(trace, steps, size, initial, blank) && i < |trace|
    requires forall p :: p in trace[i].claims ==> trace[i].claims[p].phase == Published
    ensures Contiguous(trace[i], trace[i].nextToClaim - 1)
  {
    var r := trace[i];
    NothingPassedOver(trace, steps, size, initial, blank, i);
    RingReachable(trace, steps, size, initial, blank, i);
    forall s | r.first <= s <= r.nextToClaim - 1 ensures s in r.done {
      assert Owned(r, s);
      var p :| Owns(r, p, s);
      assert ClaimOk(r, r.claims[p]);
    }
  }

  // ---------------------------------------------------------------- progress

  ghost predicate Short<V>(r: Ring<V>) {
    forall p :: p in r.claims ==> r.claims[p].hi - r.claims[p].lo <= r.size
  }

  lemma {:induction false} NoClaimIsTooLong<V>(trace: seq<Ring<V>>, steps: seq<RingStep<V>>, size: int, initial: int, blank: V, i: nat)
    requires 0 < size && RingRun(trace, steps, size, initial, blank) && i < |trace|
    ensures Short(trace[i])
  {
    if i > 0 {
      NoClaimIsTooLong(trace, steps, size, initial, blank, i - 1);
      RingReachable(trace, steps, size, initial, blank, i - 1);
      StepShort(trace[i - 1], steps[i - 1]);
    }
  }

  lemma StepShort<V>(r: Ring<V>, step: RingStep<V>)
    requires RingInv(r) && RingEnabled(r, step) && Short(r)
    ensures Short(RingDo(r, step))
  {
  }

  /** The first number that has not been published. */
  lemma {:induction false} FirstOpen<V>(r: Ring<V>, from: int) returns (x: int)
    requires RingInv(r) && r.first <= from <= r.nextToClaim && Contiguous(r, from - 1)
    ensures from <= x <= r.nextToClaim && Contiguous(r, x - 1) && (x < r.nextToClaim ==> x !in r.done)
    decreases r.nextToClaim - from
  {
    if from == r.nextToClaim || from !in r.done {
      x := from;
    } else {
      x := FirstOpen(r, from + 1);
    }
  }

  /** The steps of a producer that has a claim. */
  predicate OfClaim<V>(step: RingStep<V>, p: Id) {
    match step
    case Grant(q) => p == q
    case Write(q, _, _) => p == q
    case BeginPublish(q) => p == q
    case StoreNext(q) => p == q
    case StoreFront(q) => p == q
    case _ => false
  }

  /** The numbers of a claim that still have to be written. */
  function Unwritten<V>(r: Ring<V>, c: Claim): set<int> {
    set s | c.lo <= s < c.hi && s !in r.log
  }

  /** How many steps a producer still has to make. */
  function StepsLeft<V>(r: Ring<V>, c: Claim): int {
    match c.phase
    case Waiting => |Unwritten(r, c)| + (c.hi - c.lo) + 2
    case Granted => |Unwritten(r, c)| + (c.hi - c.lo) + 1
    case Storing => c.hi - c.next + 1
    case Published => 0
  }

  /** Each step of a producer, but for writing an item twice, brings it one step closer to having published, and
      nobody takes it back; an empty claim is published at once. */
  lemma StepCounts<V>(r: Ring<V>, step: RingStep<V>, p: Id)
    requires RingInv(r) && RingEnabled(r, step) && p in r.claims && !step.Divide?
    ensures var t := RingDo(r, step);
            && p in t.claims
            && (if !OfClaim(step, p) || (step.Write? && step.s in r.log) then StepsLeft(t, t.claims[p]) <= StepsLeft(r, r.claims[p])
                else StepsLeft(t, t.claims[p]) == StepsLeft(r, r.claims[p]) - 1)
  {
    var t, c := RingDo(r, step), r.claims[p];
    assert ClaimOk(r, c);
    if step.Write? {
      if step.s in Unwritten(r, c) {
        assert Unwritten(t, c) == Unwritten(r, c) - {step.s};
      } else {
        assert Unwritten(t, c) == Unwritten(r, c);
      }
    } else {
      assert Unwritten(t, t.claims[p]) == Unwritten(r, c);
    }
  }

  /** A producer can make a step that counts, or the consumers can release numbers that are published, after which one
      can. */
  ghost predicate Moves<V(!new)>(r: Ring<V>) {
    || (exists step: RingStep<V>, p :: RingEnabled(r, step) && Counts(r, step, p))
    || (exists x, p :: Released(r, x, p))
  }

  ghost predicate Counts<V>(r: Ring<V>, step: RingStep<V>, p: Id) {
    OfClaim(step, p) && p in r.claims && (step.Write? ==> step.s !in r.log)
  }

  ghost predicate Released<V>(r: Ring<V>, x: int, p: Id) {
    RingEnabled(r, Consume(x)) && RingEnabled(RingDo(r, Consume(x)), Grant(p))
  }

  lemma HolderMoves<V(!new)>(r: Ring<V>, p: Id)
    requires RingInv(r) && p in r.claims && (r.claims[p].phase == Granted || r.claims[p].phase == Storing)
    ensures Moves(r)
  {
    var c := r.claims[p];
    assert ClaimOk(r, c);
    if c.phase == Storing {
      var step := if c.next < c.hi then StoreNext(p) else StoreFront(p);
      assert RingEnabled(r, step) && Counts(r, step, p);
    } else if s :| c.lo <= s < c.hi && s !in r.log {
      var step := Write(p, s, r.data[0]);
      assert RingEnabled(r, step) && Counts(r, step, p);
    } else {
      assert RingEnabled(r, BeginPublish(p)) && Counts(r, BeginPublish(p), p);
    }
  }

  /** No producer waits for ever: as long as a claim is not published, somebody can move. */
  lemma NeverStuck<V(!new)>(trace: seq<Ring<V>>, steps: seq<RingStep<V>>, size: int, initial: int, blank: V, i: nat, p: Id)
    requires 0 < size && RingRun(trace, steps, size, initial, blank) && i < |trace|
    requires p in trace[i].claims && trace[i].claims[p].phase != Published
    ensures Moves(trace[i])
  {
    var r := trace[i];
    RingReachable(trace, steps, size, initial, blank, i);
    NothingPassedOver(trace, steps, size, initial, blank, i);
    NoClaimIsTooLong(trace, steps, size, initial, blank, i);
    if r.claims[p].phase != Waiting {
      HolderMoves(r, p);
    } else {
      WaitingMoves(r, p);
    }
  }

  lemma WaitingMoves<V(!new)>(r: Ring<V>, p: Id)
    requires RingInv(r) && NoGap(r) && Short(r) && InClaim(r, p, Waiting)
    ensures Moves(r)
  {
    var x := FirstOpen(r, r.first);
    assert r.consumed < x by {
      assert x == r.nextToClaim || x !in r.done;
    }
    assert RingEnabled(r, Consume(x - 1));
    var q := p;
    if x < r.nextToClaim {
      assert Owned(r, x);
      q :| Owns(r, q, x);
    }
    var c := r.claims[q];
    assert ClaimOk(r, c);
    if c.phase == Waiting {
      assert x < r.nextToClaim ==> c.lo == x by {
        assert c.lo < x < c.hi ==> c.lo in r.done;
      }
      assert Released(r, x - 1, q);
    } else {
      HolderMoves(r, q);
    }
  }

  // ---------------------------------------------------------------- as the producers and consumers asked

  /** The item written last for a number. */
  function LastWrite<V>(steps: seq<RingStep<V>>, s: int): Option<V> {
    if steps == [] then None
    else
      var step := steps[|steps| - 1];
      if step.Write? && step.s == s then Some(step.v) else LastWrite(steps[..|steps| - 1], s)
  }

  /** The number up to which the consumers have released slots. */
  function LastConsume<V>(steps: seq<RingStep<V>>, initial: int): int {
    if steps == [] then initial
    else
      var step := steps[|steps| - 1];
      if step.Consume? then step.upTo else LastConsume(steps[..|steps| - 1], initial)
  }

  lemma StepAsked<V>(r: Ring<V>, step: RingStep<V>, s: int)
    requires RingEnabled(r, step)
    ensures var t := RingDo(r, step);
            && (s in t.log <==> s in r.log || (step.Write? && step.s == s))
            && (s in t.log ==> t.log[s] == if step.Write? && step.s == s then step.v else r.log[s])
            && t.consumed == if step.Consume? then step.upTo else r.consumed
  {
  }

  /** In every run the log holds what was written last for each number, and the consumers are where they said. */
  lemma {:induction false} AsAsked<V>(trace: seq<Ring<V>>, steps: seq<RingStep<V>>, size: int, initial: int, blank: V, i: nat, s: int)
    requires 0 < size && RingRun(trace, steps, size, initial, blank) && i < |trace|
    ensures LastWrite(steps[..i], s) == if s in trace[i].log then Some(trace[i].log[s]) else None
    ensures trace[i].consumed == LastConsume(steps[..i], initial)
  {
    if i > 0 {
      hide RingEnabled, RingDo;
      AsAsked(trace, steps, size, initial, blank, i - 1, s);
      StepAsked(trace[i - 1], steps[i - 1], s);
      assert steps[..i][..i - 1] == steps[..i - 1];
    }
  }
}
