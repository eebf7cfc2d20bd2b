/** Every step of a sequence barrier's calls gets them on, and what they work on is what the callers asked for. */
module BarrierProgress {
  import opened Lists
  import opened Sums
  import opened SequenceBarrier
  import opened SequenceBarrierProof

  // ---------------------------------------------------------------- what is left to do

  /** How many steps a wait operation has before it, counting two for a node that nobody has resumed: a resume loop
      needs that many for it. A goal that is published sends the operation round once more. */
  function OpLeft(published: int, op: Op): nat {
    (if op.place == Signalled then 0 else 2) +
    match op.phase
    case Suspended => 0
    case Continued => 0
    case Leave => 1
    case Signal => 2
    case Wake => 3
    case Check => if published < op.goal then 4 else 8
    case Link => if published < op.goal then 5 else 9
    case Load => if published < op.goal then 6 else 10
    case Take => if op.known < published then 11 else 7
    case Fresh => 12
  }

  function PubLeft(pub: Publisher): nat {
    match pub.phase
    case Idle => 0
    case Linking => 3
    case Seen => 4
    case Stored => 5
  }

  function LoopLeft(l: Loop): nat {
    if l.written then 0 else 1
  }

  function OpShares(published: int, ops: map<Id, Op>): map<Id, nat> {
    map n | n in ops :: OpLeft(published, ops[n])
  }

  function LoopShares(loops: seq<Loop>): map<nat, nat> {
    map i: nat | 0 <= i < |loops| :: LoopLeft(loops[i])
  }

  /** What all calls in flight together have left to do. */
  ghost function Work(s: State): nat {
    Total(OpShares(s.lastPublished, s.ops)) + PubLeft(s.pub) + Total(LoopShares(s.loops))
  }

  // ---------------------------------------------------------------- single steps

  /** The step of one operation that leaves all others as far as they are. */
  lemma OneMoves(s: State, t: State, n: Id)
    requires n in s.ops && t.lastPublished == s.lastPublished && t.pub == s.pub && t.loops == s.loops
    requires t.ops.Keys == s.ops.Keys && OpLeft(t.lastPublished, t.ops[n]) < OpLeft(s.lastPublished, s.ops[n])
    requires forall m :: m in s.ops && m != n ==> OpLeft(t.lastPublished, t.ops[m]) == OpLeft(s.lastPublished, s.ops[m])
    ensures Work(t) < Work(s)
  {
    hide OpLeft;
    TotalOne(OpShares(s.lastPublished, s.ops), OpShares(t.lastPublished, t.ops), n);
  }

  lemma {:induction false} EarliestBeyond(ops: map<Id, Op>, xs: seq<Id>, known: int)
    requires xs != [] && AllBeyond(ops, xs, known)
    ensures known < Earliest(ops, xs)
  {
    assert xs[0] in xs;
    if |xs| > 1 {
      assert forall m :: m in xs[1..] ==> m in xs;
      EarliestBeyond(ops, xs[1..], known);
    }
  }

  lemma TakeCounts(s: State, n: Id, later: seq<Id>, reached: seq<Id>)
    requires AllConsistent(s) && InPhase(s, n, Take) && OpValues(s.ops, s.lastPublished, s.ops[n])
    requires Shares(s.ops, s.queue, Shared, s.ops[n].known, later, reached)
    ensures Work(TakeSplit(s, n, later, reached)) < Work(s)
  {
    var t := TakeSplit(s, n, later, reached);
    assert OpLeft(t.lastPublished, t.ops[n]) < OpLeft(s.lastPublished, s.ops[n]) by {
      if later != [] {
        EarliestBeyond(s.ops, later, s.ops[n].known);
      }
    }
    OneMoves(s, t, n);
  }

  lemma LinkCounts(s: State, n: Id)
    requires Placed(s) && InPhase(s, n, Link)
    ensures Work(DoLink(s, n)) < Work(s)
  {
    assert s.ops[n].hold == Held(s, Hold(n));
    OneMoves(s, DoLink(s, n), n);
  }

  lemma OwnCounts(s: State, step: Step)
    requires Inv(s) && Enabled(s, step) && OwnStep(step)
    ensures Work(Do(s, step)) < Work(s)
  {
    hide Placed, Watched, LoopValues, PubValues, Work;
    var n := step.n;
    assert Consistent(s.ops[n]) && OpValues(s.ops, s.lastPublished, s.ops[n]);
    if step.WakeStore? {
      StoreCounts(s, n);
    } else {
      OwnLess(s, step);
      OneMoves(s, Do(s, step), n);
    }
  }

  predicate OwnStep(step: Step) {
    step.Begin? || step.LoadHead? || step.CheckPublished? || step.WakeStore? || step.WakeDone? || step.LeaveExchange?
  }

  lemma OwnLess(s: State, step: Step)
    requires Enabled(s, step) && OwnStep(step) && !step.WakeStore?
    requires Consistent(s.ops[step.n]) && OpValues(s.ops, s.lastPublished, s.ops[step.n])
    ensures var t := Do(s, step); var n := step.n;
            && t == s.(ops := s.ops[n := t.ops[n]])
            && OpLeft(s.lastPublished, t.ops[n]) < OpLeft(s.lastPublished, s.ops[n])
  {
  }

  lemma StoreCounts(s: State, n: Id)
    requires Enabled(s, WakeStore(n))
    ensures Work(DoWakeStore(s, n)) < Work(s)
  {
    OneMoves(s, DoWakeStore(s, n), n);
  }

  /** Raising a flag is worth two steps. */
  lemma RaiseLeft(ops: map<Id, Op>, published: int, m: Id)
    requires m in ops && Listed(ops[m].place) && Consistent(ops[m])
    ensures OpLeft(published, Raise(ops, m)[m]) == OpLeft(published, ops[m]) - 2
  {
  }

  lemma SignalCounts(s: State, n: Id)
    requires Placed(s) && AllConsistent(s) && Enabled(s, WakeSignal(n))
    ensures Work(DoWakeSignal(s, n)) < Work(s)
  {
    var t := DoWakeSignal(s, n);
    var m := s.ops[n].wake[0];
    assert m in Held(s, WakeList(n));
    RaiseLeft(s.ops, s.lastPublished, m);
    SignalledShares(s, n);
    var before, after := OpShares(s.lastPublished, s.ops), OpShares(t.lastPublished, t.ops);
    if m == n {
      TotalOne(before, after, n);
    } else {
      TotalTwo(before, after, n, m);
    }
  }

  lemma SignalledShares(s: State, n: Id)
    requires Enabled(s, WakeSignal(n)) && Consistent(s.ops[n]) && Listed(s.ops[s.ops[n].wake[0]].place)
    ensures var m := s.ops[n].wake[0]; var t := DoWakeSignal(s, n);
            && SameBut(OpShares(s.lastPublished, s.ops), OpShares(t.lastPublished, t.ops), {n, m})
            && (m != n ==> OpLeft(t.lastPublished, t.ops[n]) == OpLeft(s.lastPublished, s.ops[n]) + 1
                           && t.ops[m] == Raise(s.ops, m)[m])
            && (m == n ==> OpLeft(t.lastPublished, t.ops[n]) == OpLeft(s.lastPublished, Raise(s.ops, m)[m]) + 1)
  {
  }

  lemma LoopUpdate(loops: seq<Loop>, i: nat, l: Loop)
    requires i < |loops|
    ensures Total(LoopShares(loops[i := l])) == Total(LoopShares(loops)) - LoopLeft(loops[i]) + LoopLeft(l)
  {
    TotalOne(LoopShares(loops), LoopShares(loops[i := l]), i);
  }

  lemma LoopMore(loops: seq<Loop>, l: Loop)
    ensures Total(LoopShares(loops + [l])) == Total(LoopShares(loops)) + LoopLeft(l)
  {
    var k: nat := |loops|;
    var before, after := LoopShares(loops), LoopShares(loops + [l]);
    TotalWithout(after, k);
    assert (after - {k}).Keys == before.Keys;
    assert after - {k} == before;
  }

  lemma LoopStoreCounts(s: State, i: nat)
    requires Enabled(s, LoopStore(i))
    ensures Work(DoLoopStore(s, i)) < Work(s)
  {
    var t := DoLoopStore(s, i);
    LoopUpdate(s.loops, i, s.loops[i].(written := true));
    StoreShares(s, i);
    hide OpShares, LoopShares, Store;
  }

  lemma StoreShares(s: State, i: nat)
    requires Enabled(s, LoopStore(i))
    ensures var t := DoLoopStore(s, i); OpShares(t.lastPublished, t.ops) == OpShares(s.lastPublished, s.ops)
  {
    hide LoopShares;
    var t := DoLoopStore(s, i);
    assert OpShares(t.lastPublished, t.ops) == OpShares(s.lastPublished, s.ops);
  }

  lemma LoopSignalCounts(s: State, i: nat)
    requires Placed(s) && AllConsistent(s) && Enabled(s, LoopSignal(i))
    ensures Work(DoLoopSignal(s, i)) < Work(s)
  {
    var t := DoLoopSignal(s, i);
    var m := s.loops[i].wake[0];
    assert m in Held(s, LoopWake(i));
    RaiseLeft(s.ops, s.lastPublished, m);
    TotalOne(OpShares(s.lastPublished, s.ops), OpShares(t.lastPublished, t.ops), m);
    LoopUpdate(s.loops, i, s.loops[i].(written := false, wake := s.loops[i].wake[1..]));
  }

  /** Nodes that move from list to list are as far as they were. */
  lemma MovedShares(published: int, ops: map<Id, Op>, moved: map<Id, Op>)
    requires ops.Keys == moved.Keys
    requires forall n :: n in ops ==> SameButPlace(ops[n], moved[n]) && (ops[n].place == Signalled <==> moved[n].place == Signalled)
    ensures OpShares(published, moved) == OpShares(published, ops)
  {
  }

  lemma PubTakeCounts(s: State, later: seq<Id>, reached: seq<Id>)
    requires s.pub.phase == Seen && Shares(s.ops, s.queue, Shared, s.lastPublished, later, reached)
    ensures Work(PubSplit(s, later, reached)) < Work(s)
  {
    var t := PubSplit(s, later, reached);
    MovedShares(s.lastPublished, s.ops, t.ops);
    LoopMore(s.loops, Loop(reached, s.lastPublished, false));
  }

  lemma PubLinkCounts(s: State)
    requires Placed(s) && s.pub.phase == Linking
    ensures Work(DoPubLink(s)) < Work(s)
  {
    var t := DoPubLink(s);
    assert s.pub.hold == Held(s, PubHold) && s.pub.wake == Held(s, PubWake);
    MovedShares(s.lastPublished, s.ops, t.ops);
    LoopMore(s.loops, Loop(s.pub.wake, s.lastPublished, false));
  }

  /** Each step of a call in flight, but for a compare-exchange that fails, leaves less to do. */
  lemma StepCounts(s: State, step: Step)
    requires Inv(s) && Enabled(s, step) && Advances(step)
    ensures Work(Do(s, step)) < Work(s)
  {
    hide Watched, Placed, Consistent, OpValues, LoopValues, PubValues;
    if step.TakeQueue? || step.PubTake? {
      SplitCounts(s, step);
    } else if step.LinkOk? || step.WakeSignal? || step.PubLinkOk? || step.LoopSignal? {
      ListCounts(s, step);
    } else if step.LoopStore? {
      LoopStoreCounts(s, step.i);
    } else if step.PubLoad? {
      PubLoadCounts(s);
    } else {
      OwnCounts(s, step);
    }
  }

  lemma PubLoadCounts(s: State)
    requires s.pub.phase == Stored
    ensures Work(DoPubLoad(s)) < Work(s)
  {
  }

  lemma ListCounts(s: State, step: Step)
    requires Placed(s) && AllConsistent(s) && Enabled(s, step)
    requires step.LinkOk? || step.WakeSignal? || step.PubLinkOk? || step.LoopSignal?
    ensures Work(Do(s, step)) < Work(s)
  {
    hide Placed, AllConsistent, Work;
    match step
    case LinkOk(n) => LinkCounts(s, n);
    case WakeSignal(n) => SignalCounts(s, n);
    case PubLinkOk => PubLinkCounts(s);
    case LoopSignal(i) => LoopSignalCounts(s, i);
  }

  lemma SplitCounts(s: State, step: Step)
    requires Placed(s) && AllConsistent(s) && Values(s) && Enabled(s, step) && (step.TakeQueue? || step.PubTake?)
    ensures Work(Do(s, step)) < Work(s)
  {
    hide Work, AllConsistent, OpValues, Later, Reached;
    var known := if step.TakeQueue? then s.ops[step.n].known else s.lastPublished;
    assert s.queue == Held(s, Shared);
    SplitShares(s.ops, s.queue, known, Shared);
    var later, reached := Later(s.ops, s.queue, known), Reached(s.ops, s.queue, known);
    if step.TakeQueue? {
      TakeCounts(s, step.n, later, reached);
    } else {
      PubTakeCounts(s, later, reached);
    }
  }

  // ---------------------------------------------------------------- whole runs

  /** How many of these steps bring a call further. */
  function Advancing(steps: seq<Step>): nat {
    if steps == [] then 0
    else Advancing(steps[..|steps| - 1]) + (if Advances(steps[|steps| - 1]) then 1 else 0)
  }

  predicate NewCall(step: Step) {
    step.Construct? || step.Publish?
  }

  lemma FailCounts(s: State, step: Step)
    requires Enabled(s, step) && (step.LinkFail? || step.PubLinkFail?)
    ensures Work(Do(s, step)) == Work(s)
  {
    var t := Do(s, step);
    assert OpShares(t.lastPublished, t.ops) == OpShares(s.lastPublished, s.ops);
  }

  /** Calls do not wake each other up for ever: between two moments without a new call there are at most as many
      steps, not counting failed attempts, as were left to do at the first. */
  lemma {:induction false} AdvancesAreFew(trace: seq<State>, steps: seq<Step>, initialSequence: int, i: nat, j: nat)
    requires Run(trace, steps, initialSequence) && i <= j < |trace|
    requires forall k :: i <= k < j ==> !NewCall(steps[k])
    ensures Work(trace[j]) + Advancing(steps[i..j]) <= Work(trace[i])
  {
    hide Inv, Work, Enabled, Do;
    if i < j {
      AdvancesAreFew(trace, steps, initialSequence, i, j - 1);
      ReachableInv(trace, steps, initialSequence, j - 1);
      assert steps[i..j][..j - i - 1] == steps[i..j - 1];
      if Advances(steps[j - 1]) {
        StepCounts(trace[j - 1], steps[j - 1]);
      } else {
        FailCounts(trace[j - 1], steps[j - 1]);
      }
    }
  }

  lemma OneStep(trace: seq<State>, steps: seq<Step>, initialSequence: int, step: Step)
    requires Run(trace, steps, initialSequence) && Enabled(trace[|steps|], step)
    ensures Run(trace + [Do(trace[|steps|], step)], steps + [step], initialSequence)
  {
    hide Enabled, Do;
  }

  /** Every run can be finished without a new call: a run that goes on ends with nothing in flight. */
  lemma {:induction false} ComesToRest(trace: seq<State>, steps: seq<Step>, initialSequence: int)
    returns (longer: seq<State>, more: seq<Step>)
    requires Run(trace, steps, initialSequence)
    ensures Run(longer, more, initialSequence) && trace <= longer && steps <= more
    ensures forall k :: |steps| <= k < |more| ==> !NewCall(more[k])
    ensures Quiet(longer[|more|])
    decreases Work(trace[|steps|])
  {
    hide Inv, Work, Enabled, Do, Quiet;
    var s := trace[|steps|];
    if Quiet(s) {
      return trace, steps;
    }
    NeverStuck(trace, steps, initialSequence, |steps|);
    ReachableInv(trace, steps, initialSequence, |steps|);
    var step :| Advances(step) && (Enabled(s, step) || Retries(s, step));
    var before, early := trace, steps;
    if !Enabled(s, step) {
      before, early := Retry(trace, steps, initialSequence, step);
    }
    var t := before[|early|];
    ReachableInv(before, early, initialSequence, |early|);
    StepCounts(t, step);
    OneStep(before, early, initialSequence, step);
    longer, more := ComesToRest(before + [Do(t, step)], early + [step], initialSequence);
  }

  lemma Retry(trace: seq<State>, steps: seq<Step>, initialSequence: int, step: Step)
    returns (longer: seq<State>, more: seq<Step>)
    requires Run(trace, steps, initialSequence) && Retries(trace[|steps|], step)
    ensures Run(longer, more, initialSequence) && trace <= longer && steps <= more && |more| == |steps| + 1
    ensures !NewCall(more[|steps|]) && Enabled(longer[|more|], step) && Work(longer[|more|]) == Work(trace[|steps|])
  {
    hide Work, Inv;
    var s := trace[|steps|];
    var fail := if step.LinkOk? then LinkFail(step.n) else PubLinkFail;
    FailCounts(s, fail);
    OneStep(trace, steps, initialSequence, fail);
    longer, more := trace + [Do(s, fail)], steps + [fail];
  }

  // ---------------------------------------------------------------- as the callers asked

  /** The number published last. */
  function LastPublish(steps: seq<Step>, initialSequence: int): int {
    if steps == [] then initialSequence
    else
      var step := steps[|steps| - 1];
      if step.Publish? then step.sequence else LastPublish(steps[..|steps| - 1], initialSequence)
  }

  /** What a step does to targets and to the published sequence. */
  lemma StepAsked(s: State, step: Step, n: Id)
    requires Enabled(s, step)
    ensures n in s.ops ==> n in Do(s, step).ops && Do(s, step).ops[n].target == s.ops[n].target && !(step.Construct? && step.n == n)
    ensures n !in s.ops ==> (n in Do(s, step).ops <==> step.Construct? && step.n == n)
    ensures step.Construct? ==> Do(s, step).ops[step.n].target == step.target
    ensures Do(s, step).lastPublished == if step.Publish? then step.sequence else s.lastPublished
  {
    hide Later, Reached, Earliest;
  }

  /** In every run the published sequence is the one of the last publication, and the operations are those that have
      been begun, with the targets they have been begun for. */
  lemma {:induction false} AsAsked(trace: seq<State>, steps: seq<Step>, initialSequence: int, i: nat, n: Id, target: int)
    requires Run(trace, steps, initialSequence) && i < |trace|
    ensures trace[i].lastPublished == LastPublish(steps[..i], initialSequence)
    ensures (n in trace[i].ops && trace[i].ops[n].target == target) <==> Construct(n, target) in steps[..i]
  {
    if i > 0 {
      hide Enabled, Do;
      AsAsked(trace, steps, initialSequence, i - 1, n, target);
      StepAsked(trace[i - 1], steps[i - 1], n);
      assert steps[..i] == steps[..i - 1] + [steps[i - 1]];
    }
  }
}
