/** Building runs of the multi-producer sequencer step by step, for the results that need one: waiters that queue
    themselves, and producers that publish one number. */
module Courses {
  import opened Lists
  import opened SequencerRing
  import opened MultiProducer

  /** A sequencer, and what its callers allow themselves: which two targets may be waited for at the same time,
      and by how much a wait for a number ahead of the consumers may start behind them. */
  datatype Setting<V> = Setting(size: int, initial: int, blank: V, may: (int, int) -> bool, lag: nat)

  /** Waiters that are pending at the same time have targets that may wait together. */
  ghost predicate Together<V>(s: State<V>, may: (int, int) -> bool) {
    forall n, m :: n in s.waits && m in s.waits && n != m && s.waits[n].continued == 0 && s.waits[m].continued == 0 ==>
      may(s.waits[n].target, s.waits[m].target)
  }

  ghost predicate LateConstruct<V>(s: State<V>, step: Step<V>, lag: nat) {
    && step.Construct? && step.n !in s.waits && Contiguous(s.ring, step.start)
    && s.ring.consumed - lag <= step.start && (lag > 0 ==> s.ring.consumed < step.target)
  }

  ghost predicate Next<V>(s: State<V>, step: Step<V>, t: State<V>, lag: nat) {
    || (Enabled(s, step) && t == Do(s, step))
    || (LateConstruct(s, step, lag) && t == DoConstruct(s, step.n, step.target, step.start))
  }

  ghost predicate Course<V>(trace: seq<State<V>>, steps: seq<Step<V>>, e: Setting<V>)
    requires 0 < e.size
  {
    && |trace| == |steps| + 1
    && trace[0] == InitialState(e.size, e.initial, e.blank)
    && (forall i :: 0 <= i < |steps| ==> Next(trace[i], steps[i], trace[i + 1], e.lag))
    && (forall i :: 0 <= i < |trace| ==> Together(trace[i], e.may))
  }

  /** `s` is the last state of such a run. */
  ghost predicate Reach<V(!new)>(s: State<V>, e: Setting<V>)
    requires 0 < e.size
  {
    exists trace: seq<State<V>>, steps: seq<Step<V>> :: Course(trace, steps, e) && s == trace[|steps|]
  }

  lemma ReachFirst<V(!new)>(e: Setting<V>)
    requires 0 < e.size
    ensures Reach(InitialState(e.size, e.initial, e.blank), e)
  {
    assert Course([InitialState(e.size, e.initial, e.blank)], [], e);
  }

  lemma ReachNext<V(!new)>(s: State<V>, step: Step<V>, t: State<V>, e: Setting<V>)
    requires 0 < e.size && Reach(s, e)
    requires Next(s, step, t, e.lag) && Together(t, e.may)
    ensures Reach(t, e)
  {
    hide Next, Together;
    var trace: seq<State<V>>, steps: seq<Step<V>> :| Course(trace, steps, e) && s == trace[|steps|];
    var longer, more := trace + [t], steps + [step];
    assert Course(longer, more, e) && t == longer[|more|];
  }

  lemma NextIsStep<V>(s: State<V>, step: Step<V>, t: State<V>)
    requires Next(s, step, t, 0)
    ensures Enabled(s, step) && t == Do(s, step)
  {
    hide RingEnabled, RingDo;
    assert LateConstruct(s, step, 0) ==> Enabled(s, step) && Do(s, step) == DoConstruct(s, step.n, step.target, step.start);
  }

  /** Without waits that start behind the consumers these are the runs of the machine. */
  lemma ReachIsRun<V(!new)>(s: State<V>, e: Setting<V>) returns (trace: seq<State<V>>, steps: seq<Step<V>>)
    requires 0 < e.size && Reach(s, e) && e.lag == 0
    ensures Run(trace, steps, e.size, e.initial, e.blank) && s == trace[|steps|]
    ensures forall k :: 0 <= k < |trace| ==> Together(trace[k], e.may)
  {
    hide Enabled, Do, Together;
    trace, steps :| Course(trace, steps, e) && s == trace[|steps|];
    forall i | 0 <= i < |steps| ensures Enabled(trace[i], steps[i]) && trace[i + 1] == Do(trace[i], steps[i]) {
      NextIsStep(trace[i], steps[i], trace[i + 1]);
    }
  }

  /** They are among the runs with such waits. */
  lemma ReachLater<V(!new)>(s: State<V>, e: Setting<V>, lag: nat)
    requires 0 < e.size && Reach(s, e) && e.lag == 0
    ensures Reach(s, e.(lag := lag))
  {
    var trace, steps := ReachIsRun(s, e);
    hide Enabled, Do, Together;
    assert Course(trace, steps, e.(lag := lag));
  }

  // ---------------------------------------------------------------- waiters

  /** A waiter for `target` that starts from `start`, knows no more, and has not been resumed. */
  function Pending(target: int, start: int, phase: WaitPhase, hold: seq<Id>, expected: Option<Id>, place: Place): Wait {
    Wait(target, start, start, false, phase, hold, [], start, expected, 0, place)
  }

  /** It stands in the list, in front of `queue`. */
  function Queued(target: int, start: int, queue: seq<Id>): Wait {
    Pending(target, start, Scan, [], Head(queue), Shared)
  }

  /** Waiter `n` arrives and is not ready. */
  lemma Arrives<V(!new)>(s: State<V>, n: Id, target: int, start: int, e: Setting<V>)
    requires 0 < e.size && Reach(s, e) && n !in s.waits && start < target && Contiguous(s.ring, start)
    requires s.ring.consumed - e.lag <= start && s.ring.consumed < target
    requires Together(s.(waits := s.waits[n := Pending(target, start, Fresh, [], None, Nowhere)]), e.may)
    ensures Reach(s.(waits := s.waits[n := Pending(target, start, Load, [n], None, Own(n))]), e)
  {
    hide Reach, RingEnabled, RingDo;
    var t := s.(waits := s.waits[n := Pending(target, start, Fresh, [], None, Nowhere)]);
    ReachNext(s, Construct(n, target, start), t, e);
    ReachNext(t, Begin(n), s.(waits := s.waits[n := Pending(target, start, Load, [n], None, Own(n))]), e);
  }

  /** It puts itself in front of the list. */
  lemma Links<V(!new)>(s: State<V>, n: Id, target: int, start: int, e: Setting<V>)
    requires 0 < e.size && Reach(s, e) && Together(s, e.may)
    requires n in s.waits && s.waits[n] == Pending(target, start, Load, [n], None, Own(n))
    ensures Reach(s.(queue := [n] + s.queue, waits := s.waits[n := Queued(target, start, s.queue)]), e)
  {
    hide Reach, RingEnabled, RingDo;
    var t := s.(waits := s.waits[n := Pending(target, start, Link, [n], Head(s.queue), Own(n))]);
    ReachNext(s, LoadHead(n), t, e);
    ReachNext(t, LinkOk(n), s.(queue := [n] + s.queue, waits := s.waits[n := Queued(target, start, s.queue)]), e);
  }

  // ---------------------------------------------------------------- producers

  lemma RingMoves<V(!new)>(s: State<V>, move: RingStep<V>, r: Ring<V>, e: Setting<V>)
    requires 0 < e.size && Reach(s, e) && Together(s, e.may)
    requires RingEnabled(s.ring, move) && !move.Consume? && !move.StoreFront? && r == RingDo(s.ring, move)
    ensures Reach(s.(ring := r), e)
  {
    hide Reach, RingEnabled, RingDo;
    ReachNext(s, RingMove(move), s.(ring := r), e);
  }

  /** The ring when producer `p` has claimed the next number. */
  function Claiming<V>(r: Ring<V>, p: Id, phase: ClaimPhase, next: int): Ring<V> {
    SetClaim(r.(nextToClaim := r.nextToClaim + 1), p, Claim(r.nextToClaim, r.nextToClaim + 1, phase, next))
  }

  /** The next number can be claimed and written by `p`. */
  ghost predicate Free<V>(r: Ring<V>, p: Id) {
    WellSized(r) && p !in r.claims && r.nextToClaim <= r.consumed + r.size
  }

  lemma Claims<V(!new)>(s: State<V>, p: Id, e: Setting<V>)
    requires 0 < e.size && Reach(s, e) && Together(s, e.may) && Free(s.ring, p)
    ensures Reach(s.(ring := Claiming(s.ring, p, Granted, s.ring.nextToClaim)), e)
  {
    hide Reach;
    var r, x := s.ring, s.ring.nextToClaim;
    RingMoves(s, ClaimUpTo(p, 1), Claiming(r, p, Waiting, x), e);
    RingMoves(s.(ring := Claiming(r, p, Waiting, x)), Grant(p), Claiming(r, p, Granted, x), e);
    assert Claiming(r, p, Waiting, x).claims[p := Claim(x, x + 1, Granted, x)] == Claiming(r, p, Granted, x).claims;
  }

  /** The ring when it has been written too. */
  function Writing<V>(r: Ring<V>, p: Id, phase: ClaimPhase, next: int, v: V): Ring<V>
    requires WellSized(r)
  {
    DoWrite(Claiming(r, p, phase, next), r.nextToClaim, v)
  }

  lemma Writes<V(!new)>(s: State<V>, r: Ring<V>, p: Id, e: Setting<V>)
    requires 0 < e.size && Reach(s, e) && Together(s, e.may) && WellSized(r)
    requires s.ring == Claiming(r, p, Granted, r.nextToClaim)
    ensures Reach(s.(ring := Writing(r, p, Storing, r.nextToClaim + 1, e.blank)), e)
  {
    hide Reach;
    var x := r.nextToClaim;
    var w := Writing(r, p, Granted, x, e.blank);
    RingMoves(s, Write(p, x, e.blank), w, e);
    assert w.claims[p := Claim(x, x + 1, Storing, x + 1)] == Writing(r, p, Storing, x + 1, e.blank).claims;
    RingMoves(s.(ring := w), BeginPublish(p), Writing(r, p, Storing, x + 1, e.blank), e);
  }

  /** Producer `p` claims, writes and stores the next number; it has not looked at the list yet. */
  lemma Stores<V(!new)>(s: State<V>, p: Id, e: Setting<V>) returns (t: State<V>)
    requires 0 < e.size && Reach(s, e) && Together(s, e.may) && Free(s.ring, p) && p !in s.notes
    ensures Reach(t, e) && Stored(s, t, p)
  {
    hide Reach;
    var r := s.ring;
    Claims(s, p, e);
    Writes(s.(ring := Claiming(r, p, Granted, r.nextToClaim)), r, p, e);
    var u := s.(ring := Writing(r, p, Storing, r.nextToClaim + 1, e.blank));
    t := DoRing(u, StoreFront(p));
    ReachNext(u, RingMove(StoreFront(p)), t, e);
  }

  /** `t` is `s` after the next number has been stored by `p`. */
  ghost predicate Stored<V>(s: State<V>, t: State<V>, p: Id) {
    var r, q := s.ring, t.ring;
    && t.queue == s.queue && t.waits == s.waits && t.notes == s.notes[p := NOTIFY]
    && WellSized(r) && q.size == r.size && q.first == r.first && q.consumed == r.consumed
    && q.nextToClaim == r.nextToClaim + 1 && q.done == r.done + {r.nextToClaim}
    && q.claims.Keys == r.claims.Keys + {p}
    && q.published == r.published[Slot(r.size, r.nextToClaim) := r.nextToClaim]
    && |q.data| == |r.data|
  }
}
