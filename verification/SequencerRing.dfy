/** Claiming, publishing and consuming in the ring of a multi-producer sequencer.

    Producers claim ranges by fetch-add, wait until the consumers' barrier frees the slots, write their items
    and publish them in any order by storing each sequence number into its slot of `published`. The machine
    takes one atomic access per step; sequence numbers are unbounded integers. */
module SequencerRing {
  import opened Modular

  type Id = nat

  datatype ClaimPhase = Waiting | Granted | Storing | Published

  /** Claimed sequence numbers lo, ..., hi - 1; while storing, lo + 1, ..., next - 1 have been stored. */
  datatype Claim = Claim(lo: int, hi: int, phase: ClaimPhase, next: int)

  /** `done` and `log` are history: the sequence numbers stored so far and the item written for each. */
  datatype Ring<V> = Ring(
    size: int, first: int, published: seq<int>, data: seq<V>, nextToClaim: int, consumed: int,
    claims: map<Id, Claim>, done: set<int>, log: map<int, V>)

  datatype RingStep<V> =
    | ClaimUpTo(p: Id, count: nat)
    | Grant(p: Id)
    | Divide(p: Id, q: Id, mid: int)
    | Write(p: Id, s: int, v: V)
    | BeginPublish(p: Id)
    | StoreNext(p: Id)
    | StoreFront(p: Id)
    | Consume(upTo: int)

  /** `seq & mask` for a power-of-two size. */
  function Slot(size: int, s: int): int
    requires 0 < size
    ensures 0 <= Slot(size, s) < size
  {
    s % size
  }

  /** What the slot of `s` holds. */
  function Cell<V>(r: Ring<V>, s: int): int
    requires 0 < r.size == |r.published|
  {
    r.published[Slot(r.size, s)]
  }

  /** The unique sequence number of slot `i` among the `size` numbers that end with `initial`. */
  function InitialCell(size: int, initial: int, i: int): int
    requires 0 < size
  {
    initial - (initial - i) % size
  }

  function InitialRing<V>(size: int, initial: int, blank: V): Ring<V>
    requires 0 < size
  {
    Ring(size, initial + 1, seq(size, i => InitialCell(size, initial, i)), seq(size, i => blank),
         initial + 1, initial, map[], {}, map[])
  }

  predicate InClaim<V>(r: Ring<V>, p: Id, ph: ClaimPhase) {
    p in r.claims && r.claims[p].phase == ph
  }

  predicate WellSized<V>(r: Ring<V>) {
    0 < r.size == |r.published| == |r.data|
  }

  /** Every number from the first one up to `x` has been published. */
  ghost predicate Contiguous<V>(r: Ring<V>, x: int) {
    forall s :: r.first <= s <= x ==> s in r.done
  }

  ghost predicate RingEnabled<V>(r: Ring<V>, step: RingStep<V>) {
    && WellSized(r)
    && match step
       case ClaimUpTo(p, count) => p !in r.claims
       case Grant(p) => InClaim(r, p, Waiting) && !(r.consumed < r.claims[p].hi - 1 - r.size)
       case Divide(p, q, mid) => InClaim(r, p, Granted) && q !in r.claims && r.claims[p].lo <= mid <= r.claims[p].hi
       case Write(p, s, v) => InClaim(r, p, Granted) && r.claims[p].lo <= s < r.claims[p].hi
       case BeginPublish(p) =>
         InClaim(r, p, Granted) && forall s :: r.claims[p].lo <= s < r.claims[p].hi ==> s in r.log
       case StoreNext(p) => InClaim(r, p, Storing) && r.claims[p].next < r.claims[p].hi
       case StoreFront(p) => InClaim(r, p, Storing) && r.claims[p].next == r.claims[p].hi
       case Consume(upTo) => r.consumed <= upTo && Contiguous(r, upTo)
  }

  function SetClaim<V>(r: Ring<V>, p: Id, c: Claim): Ring<V> {
    r.(claims := r.claims[p := c])
  }

  function StoreCell<V>(r: Ring<V>, s: int): Ring<V>
    requires WellSized(r)
  {
    r.(published := r.published[Slot(r.size, s) := s], done := r.done + {s})
  }

  /** At most a whole buffer is claimed at a time. */
  function DoClaim<V>(r: Ring<V>, p: Id, count: nat): Ring<V> {
    var n := if count < r.size then count else r.size;
    SetClaim(r.(nextToClaim := r.nextToClaim + n), p, Claim(r.nextToClaim, r.nextToClaim + n, Waiting, r.nextToClaim))
  }

  function DoDivide<V>(r: Ring<V>, p: Id, q: Id, mid: int): Ring<V>
    requires p in r.claims
  {
    var c := r.claims[p];
    SetClaim(SetClaim(r, p, c.(hi := mid)), q, c.(lo := mid))
  }

  function DoWrite<V>(r: Ring<V>, s: int, v: V): Ring<V>
    requires WellSized(r)
  {
    r.(data := r.data[Slot(r.size, s) := v], log := r.log[s := v])
  }

  function DoBeginPublish<V>(r: Ring<V>, p: Id): Ring<V>
    requires p in r.claims
  {
    var c := r.claims[p];
    SetClaim(r, p, if c.lo == c.hi then c.(phase := Published) else c.(phase := Storing, next := c.lo + 1))
  }

  function DoStoreNext<V>(r: Ring<V>, p: Id): Ring<V>
    requires WellSized(r) && p in r.claims
  {
    var c := r.claims[p];
    SetClaim(StoreCell(r, c.next), p, c.(next := c.next + 1))
  }

  function DoStoreFront<V>(r: Ring<V>, p: Id): Ring<V>
    requires WellSized(r) && p in r.claims
  {
    var c := r.claims[p];
    SetClaim(StoreCell(r, c.lo), p, c.(phase := Published))
  }

  ghost function RingDo<V>(r: Ring<V>, step: RingStep<V>): Ring<V>
    requires RingEnabled(r, step)
  {
    match step
    case ClaimUpTo(p, count) => DoClaim(r, p, count)
    case Grant(p) => SetClaim(r, p, r.claims[p].(phase := Granted))
    case Divide(p, q, mid) => DoDivide(r, p, q, mid)
    case Write(p, s, v) => DoWrite(r, s, v)
    case BeginPublish(p) => DoBeginPublish(r, p)
    case StoreNext(p) => DoStoreNext(r, p)
    case StoreFront(p) => DoStoreFront(r, p)
    case Consume(upTo) => r.(consumed := upTo)
  }

  ghost predicate RingRun<V>(trace: seq<Ring<V>>, steps: seq<RingStep<V>>, size: int, initial: int, blank: V)
    requires 0 < size
  {
    && |trace| == |steps| + 1
    && trace[0] == InitialRing(size, initial, blank)
    && forall i :: 0 <= i < |steps| ==> RingEnabled(trace[i], steps[i]) && trace[i + 1] == RingDo(trace[i], steps[i])
  }

  // ---------------------------------------------------------------- invariant

  /** Numbers of a claim that have not been stored. */
  predicate Outstanding(c: Claim, s: int) {
    && c.lo <= s < c.hi
    && c.phase != Published
    && (c.phase == Storing ==> s == c.lo || c.next <= s)
  }

  ghost predicate ClaimOk<V>(r: Ring<V>, c: Claim) {
    && r.first <= c.lo <= c.hi <= r.nextToClaim
    && (c.phase != Waiting && c.lo < c.hi ==> c.hi - 1 <= r.consumed + r.size)
    && (c.phase == Storing ==> c.lo < c.next <= c.hi && forall s :: c.lo <= s < c.hi ==> s in r.log)
    && (forall s :: c.lo <= s < c.hi ==> (s in r.done <==> !Outstanding(c, s)))
  }

  ghost predicate Claims<V>(r: Ring<V>) {
    && (forall p :: p in r.claims ==> ClaimOk(r, r.claims[p]))
    && (forall p, q :: p in r.claims && q in r.claims && p != q ==> Disjoint(r.claims[p], r.claims[q]))
  }

  predicate Disjoint(c: Claim, d: Claim) {
    c.hi <= d.lo || d.hi <= c.lo || c.lo == c.hi || d.lo == d.hi
  }

  /** Over the `size` numbers after the consumed ones, a slot holds its number exactly when that is published,
      and otherwise still holds the one before it. */
  ghost predicate Window<V>(r: Ring<V>)
    requires WellSized(r)
  {
    && (forall s {:trigger Cell(r, s)} :: r.consumed < s <= r.consumed + r.size ==>
          Cell(r, s) == if s in r.done then s else s - r.size)
    && (forall s {:trigger Cell(r, s)} :: Cell(r, s) in r.done || Cell(r, s) < r.first)
  }

  ghost predicate Bounds<V>(r: Ring<V>) {
    && r.first - 1 <= r.consumed < r.nextToClaim
    && Contiguous(r, r.consumed)
    && (forall s :: s in r.done ==> r.first <= s < r.nextToClaim && s <= r.consumed + r.size)
  }

  /** Items not yet consumed are still in their slots. */
  ghost predicate Items<V>(r: Ring<V>)
    requires WellSized(r)
  {
    && (forall s :: s in r.log ==> s <= r.consumed + r.size && (r.consumed < s ==> r.data[Slot(r.size, s)] == r.log[s]))
    && (forall s :: s in r.done ==> s in r.log)
  }

  ghost predicate RingInv<V>(r: Ring<V>) {
    WellSized(r) && Bounds(r) && Claims(r) && Window(r) && Items(r)
  }

  // ---------------------------------------------------------------- the first state

  lemma InitialCellIs(size: int, initial: int, s: int)
    requires 0 < size && initial < s <= initial + size
    ensures InitialCell(size, initial, Slot(size, s)) == s - size
  {
    var d := initial - (s - size);
    assert size * (s / size) - size == size * (s / size - 1);
    ModOffset(size, d, s / size - 1);
  }

  lemma InitialCellBound(size: int, initial: int, i: int)
    requires 0 < size
    ensures initial - size < InitialCell(size, initial, i) <= initial
  {
  }

  lemma InitialInv<V>(size: int, initial: int, blank: V)
    requires 0 < size
    ensures RingInv(InitialRing(size, initial, blank))
  {
    var r := InitialRing(size, initial, blank);
    forall s ensures Cell(r, s) < r.first {
      InitialCellBound(size, initial, Slot(size, s));
    }
    forall s | r.consumed < s <= r.consumed + r.size ensures Cell(r, s) == s - r.size {
      InitialCellIs(size, initial, s);
    }
  }

  // ---------------------------------------------------------------- every step keeps the invariant

  lemma SetClaimKeeps<V>(r: Ring<V>, p: Id, c: Claim)
    requires RingInv(r) && ClaimOk(r, c)
    requires forall q :: q in r.claims && q != p ==> Disjoint(c, r.claims[q]) && Disjoint(r.claims[q], c)
    ensures RingInv(SetClaim(r, p, c))
  {
    var t := SetClaim(r, p, c);
    forall q | q in t.claims ensures ClaimOk(t, t.claims[q]) {
      assert q != p ==> ClaimOk(r, r.claims[q]);
    }
    forall s ensures Cell(t, s) == Cell(r, s) {}
  }

  lemma ClaimKeeps<V>(r: Ring<V>, p: Id, count: nat)
    requires RingInv(r) && p !in r.claims
    ensures RingInv(DoClaim(r, p, count))
  {
    hide Window, Items;
    var n := if count < r.size then count else r.size;
    var t := r.(nextToClaim := r.nextToClaim + n);
    var c := Claim(r.nextToClaim, r.nextToClaim + n, Waiting, r.nextToClaim);
    AdvanceKeeps(r, n);
    forall q | q in t.claims ensures Disjoint(c, t.claims[q]) && Disjoint(t.claims[q], c) {
      assert ClaimOk(r, r.claims[q]);
    }
    SetClaimKeeps(t, p, c);
  }

  lemma AdvanceKeeps<V>(r: Ring<V>, n: nat)
    requires RingInv(r)
    ensures RingInv(r.(nextToClaim := r.nextToClaim + n))
  {
    var t := r.(nextToClaim := r.nextToClaim + n);
    forall q | q in t.claims ensures ClaimOk(t, t.claims[q]) {
      assert ClaimOk(r, r.claims[q]);
    }
    forall s ensures Cell(t, s) == Cell(r, s) {}
  }

  lemma GrantKeeps<V>(r: Ring<V>, p: Id)
    requires RingInv(r) && InClaim(r, p, Waiting) && r.claims[p].hi - 1 - r.size <= r.consumed
    ensures RingInv(SetClaim(r, p, r.claims[p].(phase := Granted)))
  {
    assert ClaimOk(r, r.claims[p]);
    SetClaimKeeps(r, p, r.claims[p].(phase := Granted));
  }

  lemma DivideKeeps<V>(r: Ring<V>, p: Id, q: Id, mid: int)
    requires RingInv(r) && InClaim(r, p, Granted) && q !in r.claims && r.claims[p].lo <= mid <= r.claims[p].hi
    ensures RingInv(DoDivide(r, p, q, mid))
  {
    var c := r.claims[p];
    assert ClaimOk(r, c);
    SetClaimKeeps(r, p, c.(hi := mid));
    SetClaimKeeps(SetClaim(r, p, c.(hi := mid)), q, c.(lo := mid));
  }

  lemma BeginPublishKeeps<V>(r: Ring<V>, p: Id)
    requires RingInv(r) && InClaim(r, p, Granted)
    requires forall s :: r.claims[p].lo <= s < r.claims[p].hi ==> s in r.log
    ensures RingInv(DoBeginPublish(r, p))
  {
    assert ClaimOk(r, r.claims[p]);
    SetClaimKeeps(r, p, DoBeginPublish(r, p).claims[p]);
  }

  /** A number that is still outstanding in a granted claim lies in the window and is not published. */
  lemma OutstandingInWindow<V>(r: Ring<V>, p: Id, s: int)
    requires RingInv(r) && p in r.claims && r.claims[p].phase != Waiting && Outstanding(r.claims[p], s)
    ensures r.consumed < s <= r.consumed + r.size && s !in r.done && r.first <= s < r.nextToClaim
  {
    assert ClaimOk(r, r.claims[p]);
  }

  lemma WriteKeeps<V>(r: Ring<V>, p: Id, s: int, v: V)
    requires RingInv(r) && InClaim(r, p, Granted) && r.claims[p].lo <= s < r.claims[p].hi
    ensures RingInv(DoWrite(r, s, v))
  {
    var t := DoWrite(r, s, v);
    OutstandingInWindow(r, p, s);
    forall x ensures Cell(t, x) == Cell(r, x) {}
    forall q | q in t.claims ensures ClaimOk(t, t.claims[q]) {
      assert ClaimOk(r, r.claims[q]);
    }
    forall x | x in t.log && t.consumed < x ensures t.data[Slot(t.size, x)] == t.log[x] {
      if x != s {
        ModDistinct(r.size, x, s);
      }
    }
  }

  /** Storing an outstanding number of a claim, when `c` is the claim afterwards. */
  lemma StoreKeeps<V>(r: Ring<V>, p: Id, s: int, c: Claim)
    requires RingInv(r) && InClaim(r, p, Storing) && Outstanding(r.claims[p], s)
    requires c.lo == r.claims[p].lo && c.hi == r.claims[p].hi && ClaimOk(StoreCell(r, s), c)
    ensures RingInv(SetClaim(StoreCell(r, s), p, c))
  {
    var t := StoreCell(r, s);
    OutstandingInWindow(r, p, s);
    assert ClaimOk(r, r.claims[p]);
    StoreWindow(r, s);
    var u := SetClaim(t, p, c);
    forall x ensures Cell(u, x) == Cell(t, x) {}
    forall q | q in u.claims ensures ClaimOk(u, u.claims[q]) {
      if q != p {
        assert ClaimOk(r, r.claims[q]);
        assert Disjoint(r.claims[p], r.claims[q]);
      }
    }
  }

  lemma StoreWindow<V>(r: Ring<V>, s: int)
    requires WellSized(r) && Window(r) && r.consumed < s <= r.consumed + r.size && r.first <= s
    ensures Window(StoreCell(r, s))
  {
    var t := StoreCell(r, s);
    forall x | t.consumed < x <= t.consumed + t.size ensures Cell(t, x) == if x in t.done then x else x - t.size {
      assert Cell(r, x) == r.published[Slot(r.size, x)];
      if x != s {
        ModDistinct(r.size, x, s);
      }
    }
    forall x ensures Cell(t, x) in t.done || Cell(t, x) < t.first {
      assert Cell(r, x) in r.done || Cell(r, x) < r.first;
    }
  }

  lemma StoredNextOk<V>(r: Ring<V>, p: Id)
    requires WellSized(r) && Claims(r) && InClaim(r, p, Storing) && r.claims[p].next < r.claims[p].hi
    ensures var c := r.claims[p];
            Outstanding(c, c.next) && ClaimOk(StoreCell(r, c.next), c.(next := c.next + 1))
  {
    assert ClaimOk(r, r.claims[p]);
  }

  lemma StoreNextKeeps<V>(r: Ring<V>, p: Id)
    requires RingInv(r) && InClaim(r, p, Storing) && r.claims[p].next < r.claims[p].hi
    ensures RingInv(DoStoreNext(r, p))
  {
    hide ClaimOk, Window, Items, Bounds, Cell;
    StoredNextOk(r, p);
    var c := r.claims[p];
    StoreKeeps(r, p, c.next, c.(next := c.next + 1));
  }

  lemma StoreFrontKeeps<V>(r: Ring<V>, p: Id)
    requires RingInv(r) && InClaim(r, p, Storing) && r.claims[p].next == r.claims[p].hi
    ensures RingInv(DoStoreFront(r, p))
  {
    var c := r.claims[p];
    assert ClaimOk(r, c);
    StoreKeeps(r, p, c.lo, c.(phase := Published));
  }

  /** Once `s - size` is published and consumed, its slot waits for `s`. */
  lemma SlotFree<V>(r: Ring<V>, s: int)
    requires WellSized(r) && Window(r) && r.consumed < s - r.size <= r.consumed + r.size && s - r.size in r.done
    ensures Cell(r, s) == s - r.size
  {
    ModPeriodic(r.size, s - r.size);
    assert Cell(r, s - r.size) == Cell(r, s);
  }

  lemma ConsumeWindow<V>(r: Ring<V>, upTo: int)
    requires WellSized(r) && Window(r) && Bounds(r) && r.consumed <= upTo && Contiguous(r, upTo)
    ensures Window(r.(consumed := upTo))
  {
    var t := r.(consumed := upTo);
    assert r.first <= upTo ==> upTo in r.done;
    forall x ensures Cell(t, x) == Cell(r, x) {}
    forall s | t.consumed < s <= t.consumed + t.size ensures Cell(t, s) == if s in t.done then s else s - t.size {
      if r.consumed + r.size < s {
        assert s - r.size in r.done;
        SlotFree(r, s);
        assert s !in r.done;
      }
    }
  }

  lemma ConsumeKeeps<V>(r: Ring<V>, upTo: int)
    requires RingInv(r) && r.consumed <= upTo && Contiguous(r, upTo)
    ensures RingInv(r.(consumed := upTo))
  {
    var t := r.(consumed := upTo);
    assert r.first <= upTo ==> upTo in r.done;
    forall q | q in t.claims ensures ClaimOk(t, t.claims[q]) {
      assert ClaimOk(r, r.claims[q]);
    }
    ConsumeWindow(r, upTo);
  }

  lemma RingStepKeeps<V>(r: Ring<V>, step: RingStep<V>)
    requires RingInv(r) && RingEnabled(r, step)
    ensures RingInv(RingDo(r, step))
  {
    match step
    case ClaimUpTo(p, count) => ClaimKeeps(r, p, count);
    case Grant(p) => GrantKeeps(r, p);
    case Divide(p, q, mid) => DivideKeeps(r, p, q, mid);
    case Write(p, s, v) => WriteKeeps(r, p, s, v);
    case BeginPublish(p) => BeginPublishKeeps(r, p);
    case StoreNext(p) => StoreNextKeeps(r, p);
    case StoreFront(p) => StoreFrontKeeps(r, p);
    case Consume(upTo) => ConsumeKeeps(r, upTo);
  }

  lemma {:induction false} RingReachable<V>(trace: seq<Ring<V>>, steps: seq<RingStep<V>>, size: int, initial: int, blank: V, i: nat)
    requires 0 < size && RingRun(trace, steps, size, initial, blank) && i < |trace|
    ensures RingInv(trace[i])
    ensures trace[i].size == size && trace[i].first == initial + 1
  {
    if i == 0 {
      InitialInv(size, initial, blank);
    } else {
      RingReachable(trace, steps, size, initial, blank, i - 1);
      RingStepKeeps(trace[i - 1], steps[i - 1]);
    }
  }

  // ---------------------------------------------------------------- main results

  /** Granted to a producer or published, and not yet consumed. */
  ghost predicate Live<V>(r: Ring<V>, s: int) {
    && r.consumed < s
    && (s in r.done || exists p :: p in r.claims && r.claims[p].phase != Waiting && r.claims[p].lo <= s < r.claims[p].hi)
  }

  /** Ring safety: live numbers never share a slot, and a slot is not reused before the number that had it
      is consumed. */
  lemma LiveSlots<V>(trace: seq<Ring<V>>, steps: seq<RingStep<V>>, size: int, initial: int, blank: V, i: nat, a: int, b: int)
    requires 0 < size && RingRun(trace, steps, size, initial, blank) && i < |trace|
    requires Live(trace[i], a) && Live(trace[i], b)
    ensures a != b ==> Slot(size, a) != Slot(size, b)
    ensures a - size <= trace[i].consumed
  {
    RingReachable(trace, steps, size, initial, blank, i);
    LiveInWindow(trace[i], a);
    LiveInWindow(trace[i], b);
    if a != b {
      ModDistinct(size, a, b);
    }
  }

  lemma LiveInWindow<V>(r: Ring<V>, s: int)
    requires RingInv(r) && Live(r, s)
    ensures r.consumed < s <= r.consumed + r.size
  {
    if s !in r.done {
      var p :| p in r.claims && r.claims[p].phase != Waiting && r.claims[p].lo <= s < r.claims[p].hi;
      assert ClaimOk(r, r.claims[p]);
    }
  }

  /** No sequence number belongs to two claims. */
  lemma ClaimedOnce<V>(trace: seq<Ring<V>>, steps: seq<RingStep<V>>, size: int, initial: int, blank: V, i: nat, p: Id, q: Id, s: int)
    requires 0 < size && RingRun(trace, steps, size, initial, blank) && i < |trace|
    requires p in trace[i].claims && q in trace[i].claims
    requires trace[i].claims[p].lo <= s < trace[i].claims[p].hi && trace[i].claims[q].lo <= s < trace[i].claims[q].hi
    ensures p == q
  {
    RingReachable(trace, steps, size, initial, blank, i);
  }

  /** A consumer that reads a number it knows to be published, and has not yet released, reads the item
      logged for it. */
  lemma ReadsLog<V>(r: Ring<V>, s: int)
    requires RingInv(r) && r.consumed < s && Contiguous(r, s)
    ensures s in r.log && r.data[Slot(r.size, s)] == r.log[s]
  {
    assert s in r.done;
  }

  /** FIFO refinement: between the publication of `s` and its release, every read of its slot gives the item
      that the log holds for `s` at any later moment. */
  lemma ReadsTheLog<V>(trace: seq<Ring<V>>, steps: seq<RingStep<V>>, size: int, initial: int, blank: V, i: nat, j: nat, s: int)
    requires 0 < size && RingRun(trace, steps, size, initial, blank) && i <= j < |trace|
    requires trace[i].consumed < s && Contiguous(trace[i], s)
    ensures s in trace[i].log && s in trace[j].log
    ensures WellSized(trace[i]) && trace[i].size == size && trace[i].data[Slot(size, s)] == trace[j].log[s]
  {
    RingReachable(trace, steps, size, initial, blank, i);
    ReadsLog(trace[i], s);
    assert s in trace[i].done;
    LogIsFinal(trace, steps, size, initial, blank, i, j, s);
  }

  lemma {:induction false} LogIsFinal<V>(trace: seq<Ring<V>>, steps: seq<RingStep<V>>, size: int, initial: int, blank: V, i: nat, j: nat, s: int)
    requires 0 < size && RingRun(trace, steps, size, initial, blank) && i <= j < |trace| && s in trace[i].done
    ensures s in trace[i].log && s in trace[j].done && s in trace[j].log && trace[j].log[s] == trace[i].log[s]
  {
    RingReachable(trace, steps, size, initial, blank, i);
    if i < j {
      LogIsFinal(trace, steps, size, initial, blank, i, j - 1, s);
      RingReachable(trace, steps, size, initial, blank, j - 1);
      LogStep(trace[j - 1], steps[j - 1], s);
    }
  }

  lemma LogStep<V>(r: Ring<V>, step: RingStep<V>, s: int)
    requires RingInv(r) && RingEnabled(r, step) && s in r.done
    ensures s in r.log && s in RingDo(r, step).done && s in RingDo(r, step).log && RingDo(r, step).log[s] == r.log[s]
  {
    match step
    case Write(p, x, v) => OutstandingInWindow(r, p, x);
    case _ =>
  }

  /** While a batch is being stored nothing from its front on is readable, whatever has been stored already. */
  lemma BatchHidden<V>(r: Ring<V>, p: Id, x: int)
    requires RingInv(r) && InClaim(r, p, Storing) && r.claims[p].lo <= x
    ensures !Contiguous(r, x)
  {
    OutstandingInWindow(r, p, r.claims[p].lo);
  }

  /** The store of the front publishes the batch at once: afterwards any number of it is readable exactly
      when everything before the batch was. */
  lemma BatchAtOnce<V>(r: Ring<V>, p: Id, x: int)
    requires RingInv(r) && InClaim(r, p, Storing) && r.claims[p].next == r.claims[p].hi
    requires r.claims[p].lo <= x < r.claims[p].hi
    ensures Contiguous(DoStoreFront(r, p), x) <==> Contiguous(r, r.claims[p].lo - 1)
  {
    var c := r.claims[p];
    var t := DoStoreFront(r, p);
    assert ClaimOk(r, c);
    if Contiguous(r, c.lo - 1) {
      forall s | t.first <= s <= x ensures s in t.done {
        assert s >= c.lo && s != c.lo ==> !Outstanding(c, s);
      }
    }
    if Contiguous(t, x) {
      forall s | r.first <= s <= c.lo - 1 ensures s in r.done {
        assert s in t.done;
      }
    }
  }

  /** A slot answers for `s` exactly when `s` is published and the number after it in the slot is not. */
  lemma CellIff<V>(r: Ring<V>, s: int)
    requires RingInv(r) && r.first <= s
    ensures Cell(r, s) == s <==> s in r.done && s + r.size !in r.done
  {
    ModPeriodic(r.size, s);
    assert Cell(r, s + r.size) == Cell(r, s);
    if s <= r.consumed && s + r.size <= r.consumed {
      NewerCell(r, s + r.size);
    }
  }

  /** The slot of a released number never holds an older one. */
  lemma {:induction false} NewerCell<V>(r: Ring<V>, s: int)
    requires RingInv(r) && r.first <= s <= r.consumed + r.size
    ensures s <= r.consumed ==> Cell(r, s) >= s
    decreases r.consumed + r.size - s
  {
    ModPeriodic(r.size, s);
    assert Cell(r, s + r.size) == Cell(r, s);
    if s <= r.consumed && s + r.size <= r.consumed {
      NewerCell(r, s + r.size);
    }
  }

  /** The published prefix ends at `x`. */
  ghost predicate PrefixEnd<V>(r: Ring<V>, x: int) {
    Contiguous(r, x) && x + 1 !in r.done && r.first <= x + 1
  }

  /** A scan that starts at `start` and finds every slot up to `last` answering, but not the next one, has found
      the end of the published prefix exactly when that slot holds no later number, which the scan can see. */
  lemma ScanExact<V>(r: Ring<V>, start: int, last: int)
    requires RingInv(r) && r.first - 1 <= start <= last && Contiguous(r, start)
    requires forall s :: start < s <= last ==> Cell(r, s) == s
    requires Cell(r, last + 1) != last + 1
    ensures Contiguous(r, last)
    ensures PrefixEnd(r, last) <==> Cell(r, last + 1) <= last
    ensures r.consumed <= start ==> PrefixEnd(r, last)
  {
    hide Window;
    forall s | start < s <= last ensures s in r.done {
      CellIff(r, s);
    }
    LaterInSlot(r, last + 1);
    CellIff(r, last + 1);
  }

  /** A slot holds a number after `s` exactly when a later number of the slot is published, and then `s` is too. */
  lemma LaterInSlot<V>(r: Ring<V>, s: int)
    requires RingInv(r) && r.first <= s
    ensures Cell(r, s) > s <==> s + r.size in r.done
    ensures s + r.size in r.done ==> s in r.done
  {
    ModPeriodic(r.size, s);
    assert Cell(r, s + r.size) == Cell(r, s);
    if s + r.size in r.done {
      assert s <= r.consumed;
      if s + r.size <= r.consumed {
        NewerCell(r, s + r.size);
      }
    } else if s + r.size <= r.consumed + r.size {
      assert s + r.size > r.consumed;
    }
  }
}
