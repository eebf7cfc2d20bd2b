/** The wait/publish protocol of a sequence barrier as a transition system with one atomic access per step.

    Any number of wait operations run concurrently; each is identified by a number, which also names the
    waiter node it owns. `Publish` may be entered again by a coroutine that an earlier `Publish` resumes,
    so a call that has reached its resume loop is kept in `loops` and no longer counts as the publisher. */
module SequenceBarrier {
  import opened Lists

  type Id = nat

  datatype Phase =
    | Fresh       // constructed: m_lastKnownPublished has been read
    | Load        // about to read the list head
    | Link        // about to compare-exchange the list head
    | Check       // about to read the published sequence
    | Take        // about to exchange the list head with null
    | Wake        // resume loop, about to store into the first node
    | Signal      // resume loop, about to exchange the first node's flag
    | Leave       // add_awaiter has returned, about to exchange the own flag
    | Suspended
    | Continued

  /** Where a node is. No step reads it: it only names the unique holder. */
  datatype Place =
    | Nowhere | Shared | PubHold | PubWake
    | LoopWake(i: nat) | Hold(c: Id) | WakeList(c: Id) | Signalled

  datatype Op = Op(
    target: int, lastKnown: int, ready: bool,
    phase: Phase, hold: seq<Id>, wake: seq<Id>, goal: int, known: int, expected: Option<Id>,
    continued: nat, place: Place)

  datatype PubPhase = Idle | Stored | Seen | Linking

  datatype Publisher = Publisher(phase: PubPhase, hold: seq<Id>, wake: seq<Id>, expected: Option<Id>)

  datatype Loop = Loop(wake: seq<Id>, known: int, written: bool)

  datatype State = State(lastPublished: int, queue: seq<Id>, pub: Publisher, loops: seq<Loop>, ops: map<Id, Op>)

  datatype Step =
    | Construct(n: Id, target: int)
    | Begin(n: Id)
    | LoadHead(n: Id)
    | LinkOk(n: Id)
    | LinkFail(n: Id)
    | CheckPublished(n: Id)
    | TakeQueue(n: Id)
    | WakeStore(n: Id)
    | WakeSignal(n: Id)
    | WakeDone(n: Id)
    | LeaveExchange(n: Id)
    | Publish(sequence: int)
    | PubLoad
    | PubTake
    | PubLinkOk
    | PubLinkFail
    | LoopStore(i: nat)
    | LoopSignal(i: nat)

  const IDLE := Publisher(Idle, [], [], None)

  function Initial(initialSequence: int): State {
    State(initialSequence, [], IDLE, [], map[])
  }

  // ---------------------------------------------------------------- steps

  predicate InPhase(s: State, n: Id, ph: Phase) {
    n in s.ops && s.ops[n].phase == ph
  }

  predicate Enabled(s: State, step: Step) {
    match step
    case Construct(n, _) => n !in s.ops
    case Begin(n) => InPhase(s, n, Fresh)
    case LoadHead(n) => InPhase(s, n, Load)
    case LinkOk(n) => InPhase(s, n, Link) && s.ops[n].expected == Head(s.queue)
    case LinkFail(n) => InPhase(s, n, Link)
    case CheckPublished(n) => InPhase(s, n, Check)
    case TakeQueue(n) => InPhase(s, n, Take)
    case WakeStore(n) => InPhase(s, n, Wake) && s.ops[n].wake != [] && s.ops[n].wake[0] in s.ops
    case WakeSignal(n) => InPhase(s, n, Signal) && s.ops[n].wake != [] && s.ops[n].wake[0] in s.ops
    case WakeDone(n) => InPhase(s, n, Wake) && s.ops[n].wake == []
    case LeaveExchange(n) => InPhase(s, n, Leave)
    case Publish(sequence) => s.pub.phase == Idle && s.lastPublished <= sequence
    case PubLoad => s.pub.phase == Stored
    case PubTake => s.pub.phase == Seen
    case PubLinkOk => s.pub.phase == Linking && s.pub.expected == Head(s.queue)
    case PubLinkFail => s.pub.phase == Linking
    case LoopStore(i) => i < |s.loops| && !s.loops[i].written && s.loops[i].wake != [] && s.loops[i].wake[0] in s.ops
    case LoopSignal(i) => i < |s.loops| && s.loops[i].written && s.loops[i].wake != [] && s.loops[i].wake[0] in s.ops
  }

  /** Nodes of `xs` whose target is still beyond `known`, in order. */
  function Later(ops: map<Id, Op>, xs: seq<Id>, known: int): seq<Id> {
    Select(xs, n => n in ops && known < ops[n].target)
  }

  /** Nodes of `xs` whose target has been reached at `known`, in order. */
  function Reached(ops: map<Id, Op>, xs: seq<Id>, known: int): seq<Id> {
    Select(xs, n => !(n in ops && known < ops[n].target))
  }

  /** The earliest target among `xs` (0 when there is none). */
  function Earliest(ops: map<Id, Op>, xs: seq<Id>): int
  {
    if xs == [] then 0
    else
      var t := if xs[0] in ops then ops[xs[0]].target else 0;
      if |xs| == 1 then t
      else
        var rest := Earliest(ops, xs[1..]);
        if t < rest then t else rest
  }

  function Relocate(ops: map<Id, Op>, xs: seq<Id>, p: Place): map<Id, Op> {
    map n | n in ops :: if n in xs then ops[n].(place := p) else ops[n]
  }

  /** `n.m_lastKnownPublished = known` */
  function Store(ops: map<Id, Op>, n: Id, known: int): map<Id, Op>
    requires n in ops
  {
    ops[n := ops[n].(lastKnown := known)]
  }

  /** `resume()` of node `n`: exchange the flag; the coroutine continues when it was already set. */
  function Raise(ops: map<Id, Op>, n: Id): map<Id, Op>
    requires n in ops
  {
    var op := ops[n];
    ops[n := if op.ready then op.(ready := true, place := Signalled, continued := op.continued + 1, phase := Continued)
             else op.(ready := true, place := Signalled)]
  }

  function Update(s: State, n: Id, op: Op): State {
    s.(ops := s.ops[n := op])
  }

  function DoConstruct(s: State, n: Id, target: int): State {
    Update(s, n, Op(target, s.lastPublished, false, Fresh, [], [], target, s.lastPublished, None, 0, Nowhere))
  }

  /** await_ready, then the entry of add_awaiter. */
  function DoBegin(s: State, n: Id): State
    requires InPhase(s, n, Fresh)
  {
    var op := s.ops[n];
    Update(s, n, if op.lastKnown < op.target then op.(phase := Load, hold := [n], place := Hold(n))
                 else op.(phase := Continued, continued := op.continued + 1))
  }

  function DoLoadHead(s: State, n: Id): State
    requires InPhase(s, n, Load)
  {
    Update(s, n, s.ops[n].(phase := Link, expected := Head(s.queue)))
  }

  /** The list behind a link. A link that is not the head any more leads to nodes that others have taken. */
  function Behind(queue: seq<Id>, link: Option<Id>): seq<Id> {
    if link == Head(queue) then queue else []
  }

  function DoLinkFail(s: State, n: Id): State
    requires InPhase(s, n, Link)
  {
    Update(s, n, s.ops[n].(expected := Head(s.queue)))
  }

  function DoLink(s: State, n: Id): State
    requires InPhase(s, n, Link)
  {
    var op := s.ops[n];
    var ops := Relocate(s.ops, op.hold, Shared);
    s.(queue := op.hold + Behind(s.queue, op.expected), ops := ops[n := ops[n].(hold := [], phase := Check)])
  }

  function DoCheck(s: State, n: Id): State
    requires InPhase(s, n, Check)
  {
    Update(s, n, s.ops[n].(known := s.lastPublished, phase := if s.lastPublished < s.ops[n].goal then Wake else Take))
  }

  /** Exchange the list with null and split it around the sequence read before. */
  function DoTake(s: State, n: Id): State
    requires InPhase(s, n, Take)
  {
    TakeSplit(s, n, Later(s.ops, s.queue, s.ops[n].known), Reached(s.ops, s.queue, s.ops[n].known))
  }

  function TakeSplit(s: State, n: Id, later: seq<Id>, reached: seq<Id>): State
    requires InPhase(s, n, Take)
  {
    var op := s.ops[n];
    var ops := Relocate(Relocate(s.ops, later, Hold(n)), reached, WakeList(n));
    s.(queue := [],
       ops := ops[n := ops[n].(hold := later, wake := op.wake + reached, goal := Earliest(s.ops, later),
                               phase := if later == [] then Wake else Load)])
  }

  function DoWakeStore(s: State, n: Id): State
    requires InPhase(s, n, Wake) && s.ops[n].wake != [] && s.ops[n].wake[0] in s.ops
  {
    var op := s.ops[n];
    var ops := Store(s.ops, op.wake[0], op.known);
    s.(ops := ops[n := ops[n].(phase := Signal)])
  }

  function DoWakeSignal(s: State, n: Id): State
    requires InPhase(s, n, Signal) && s.ops[n].wake != [] && s.ops[n].wake[0] in s.ops
  {
    var w := s.ops[n].wake;
    var ops := Raise(s.ops, w[0]);
    s.(ops := ops[n := ops[n].(wake := w[1..], phase := Wake)])
  }

  function DoWakeDone(s: State, n: Id): State
    requires InPhase(s, n, Wake)
  {
    Update(s, n, s.ops[n].(phase := Leave))
  }

  /** `return !m_readyToResume.exchange(true)` */
  function DoLeave(s: State, n: Id): State
    requires InPhase(s, n, Leave)
  {
    var op := s.ops[n];
    Update(s, n, if op.ready then op.(phase := Continued, continued := op.continued + 1)
                 else op.(ready := true, phase := Suspended))
  }

  function DoPublish(s: State, sequence: int): State {
    s.(lastPublished := sequence, pub := IDLE.(phase := Stored))
  }

  function DoPubLoad(s: State): State {
    s.(pub := IDLE.(phase := if s.queue == [] then Idle else Seen))
  }

  function DoPubTake(s: State): State {
    PubSplit(s, Later(s.ops, s.queue, s.lastPublished), Reached(s.ops, s.queue, s.lastPublished))
  }

  function PubSplit(s: State, later: seq<Id>, reached: seq<Id>): State {
    if later != [] then
      s.(queue := [], pub := Publisher(Linking, later, reached, None),
         ops := Relocate(Relocate(s.ops, later, PubHold), reached, PubWake))
    else
      s.(queue := [], pub := IDLE, loops := s.loops + [Loop(reached, s.lastPublished, false)],
         ops := Relocate(s.ops, reached, LoopWake(|s.loops|)))
  }

  function DoPubLink(s: State): State {
    s.(queue := s.pub.hold + Behind(s.queue, s.pub.expected), pub := IDLE,
       loops := s.loops + [Loop(s.pub.wake, s.lastPublished, false)],
       ops := Relocate(Relocate(s.ops, s.pub.hold, Shared), s.pub.wake, LoopWake(|s.loops|)))
  }

  function DoPubLinkFail(s: State): State {
    s.(pub := s.pub.(expected := Head(s.queue)))
  }

  function DoLoopStore(s: State, i: nat): State
    requires i < |s.loops| && s.loops[i].wake != [] && s.loops[i].wake[0] in s.ops
  {
    var l := s.loops[i];
    s.(ops := Store(s.ops, l.wake[0], l.known), loops := s.loops[i := l.(written := true)])
  }

  function DoLoopSignal(s: State, i: nat): State
    requires i < |s.loops| && s.loops[i].wake != [] && s.loops[i].wake[0] in s.ops
  {
    var l := s.loops[i];
    s.(ops := Raise(s.ops, l.wake[0]), loops := s.loops[i := l.(written := false, wake := l.wake[1..])])
  }

  function Do(s: State, step: Step): State
    requires Enabled(s, step)
  {
    match step
    case Construct(n, target) => DoConstruct(s, n, target)
    case Begin(n) => DoBegin(s, n)
    case LoadHead(n) => DoLoadHead(s, n)
    case LinkOk(n) => DoLink(s, n)
    case LinkFail(n) => DoLinkFail(s, n)
    case CheckPublished(n) => DoCheck(s, n)
    case TakeQueue(n) => DoTake(s, n)
    case WakeStore(n) => DoWakeStore(s, n)
    case WakeSignal(n) => DoWakeSignal(s, n)
    case WakeDone(n) => DoWakeDone(s, n)
    case LeaveExchange(n) => DoLeave(s, n)
    case Publish(sequence) => DoPublish(s, sequence)
    case PubLoad => DoPubLoad(s)
    case PubTake => DoPubTake(s)
    case PubLinkOk => DoPubLink(s)
    case PubLinkFail => DoPubLinkFail(s)
    case LoopStore(i) => DoLoopStore(s, i)
    case LoopSignal(i) => DoLoopSignal(s, i)
  }

  /** `trace` lists the states a run goes through while it takes `steps` from an initial state. */
  ghost predicate Run(trace: seq<State>, steps: seq<Step>, initialSequence: int) {
    && |trace| == |steps| + 1
    && trace[0] == Initial(initialSequence)
    && forall i :: 0 <= i < |steps| ==> Enabled(trace[i], steps[i]) && trace[i + 1] == Do(trace[i], steps[i])
  }
}
