/** Every step of the calls on a multi-producer sequencer gets them on, and what they work on is what the callers asked
    for. */
module MultiProducerProgress {
  import opened Lists
  import opened Sums
  import opened SequencerRing
  import opened MultiProducer
  import opened MultiProducerProof

  // ---------------------------------------------------------------- what is left to do

  /** How many numbers behind `k` have been claimed. */
  function Ahead<V>(r: Ring<V>, k: int): nat {
    if k < r.nextToClaim then r.nextToClaim - k else 0
  }

  /** A scan that starts anywhere. */
  function Span<V>(r: Ring<V>): nat {
    Ahead(r, r.first - 1)
  }

  /** How many steps a waiter has before it, counting one for a node that nobody has resumed. */
  function WaitLeft<V>(r: Ring<V>, w: Wait): nat {
    (if Raised(w.place) then 0 else 1) +
    match w.phase
    case Suspended => 0
    case Continued => 0
    case Leave => 1
    case Wake => 2
    case Sweep => 3
    case Scan => 4 + Ahead(r, w.known)
    case Link => 5 + Span(r)
    case Load => 6 + Span(r)
    case Fresh => 7 + Span(r)
  }

  /** A notification takes the list a second time only when a number has been published behind its first scan. */
  function NoteLeft<V>(s: State<V>, c: Note): nat {
    match c.phase
    case NWake => 0
    case NScan => 3 + Ahead(s.ring, c.known)
    case NRetake => 4 + Span(s.ring)
    case NTake => 4 + Span(s.ring)
    case NLoad => 5 + Span(s.ring)
    case NRescan => if Answers(s, c.known + 1) then 5 + Span(s.ring) + Ahead(s.ring, c.known) else 1
    case NLink => if Answers(s, c.known + 1) then 6 + Span(s.ring) + Ahead(s.ring, c.known) else 2
  }

  function WaitShares<V>(r: Ring<V>, ws: map<Id, Wait>): map<Id, nat> {
    map n | n in ws :: WaitLeft(r, ws[n])
  }

  function NoteShares<V>(s: State<V>, notes: map<Id, Note>): map<Id, nat> {
    map p | p in notes :: NoteLeft(s, notes[p])
  }

  /** What all calls in flight together have left to do. */
  ghost function Work<V>(s: State<V>): nat {
    Total(WaitShares(s.ring, s.waits)) + Total(NoteShares(s, s.notes))
  }

  // ---------------------------------------------------------------- single steps

  lemma AnswerAhead<V>(s: State<V>, k: int)
    requires RingInv(s.ring) && Answers(s, k + 1)
    ensures Ahead(s.ring, k + 1) < Ahead(s.ring, k)
  {
    assert Cell(s.ring, k + 1) in s.ring.done || Cell(s.ring, k + 1) < s.ring.first;
  }

  lemma ReadableSpan<V>(r: Ring<V>, k: int)
    requires Readable(r, k)
    ensures Ahead(r, k) <= Span(r)
  {
  }

  /** The waiters are as far as they were, apart from the place of their nodes. */
  ghost predicate SameLeft(ws: map<Id, Wait>, moved: map<Id, Wait>) {
    && ws.Keys == moved.Keys
    && forall n :: n in ws ==> moved[n].phase == ws[n].phase && moved[n].known == ws[n].known
                               && (Raised(ws[n].place) <==> Raised(moved[n].place))
  }

  /** A notification moves on, and the waiters stay as far as they were. */
  lemma NoteMoves<V>(s: State<V>, t: State<V>, p: Id)
    requires p in s.notes && p in t.notes && t.notes == s.notes[p := t.notes[p]] && t.ring == s.ring
    requires SameLeft(s.waits, t.waits) && NoteLeft(s, t.notes[p]) < NoteLeft(s, s.notes[p])
    ensures Work(t) < Work(s)
  {
    SameRing(s, t);
    assert WaitShares(t.ring, t.waits) == WaitShares(s.ring, s.waits);
    TotalOne(NoteShares(s, s.notes), NoteShares(t, t.notes), p);
  }

  /** Waiter `n` moves on, and the others stay as far as they were. */
  lemma WaitMoves<V>(s: State<V>, t: State<V>, n: Id)
    requires n in s.waits && t.waits.Keys == s.waits.Keys && t.notes == s.notes && t.ring == s.ring
    requires WaitLeft(s.ring, t.waits[n]) < WaitLeft(s.ring, s.waits[n])
    requires forall m :: m in s.waits && m != n ==> WaitLeft(s.ring, t.waits[m]) == WaitLeft(s.ring, s.waits[m])
    ensures Work(t) < Work(s)
  {
    hide WaitLeft;
    SameRing(s, t);
    assert NoteShares(t, t.notes) == NoteShares(s, s.notes);
    TotalOne(WaitShares(s.ring, s.waits), WaitShares(t.ring, t.waits), n);
  }

  // ---------------------------------------------------------------- notifications

  lemma NoteLess<V>(s: State<V>, step: Step<V>)
    requires RingInv(s.ring) && Enabled(s, step)
    requires step.NoteLoad? || step.NoteScan? || step.NoteRescan? || step.NoteStop?
    ensures var t := Do(s, step); var p := step.p;
            && t == s.(notes := s.notes[p := t.notes[p]])
            && NoteLeft(s, t.notes[p]) < NoteLeft(s, s.notes[p])
  {
    hide RingInv, Answers;
    if step.NoteScan? || step.NoteRescan? {
      AnswerAhead(s, s.notes[step.p].known);
    }
  }

  lemma TakeCounts<V>(s: State<V>, p: Id)
    requires Placed(s) && Values(s) && (Noting(s, p, NTake) || Noting(s, p, NRetake))
    ensures Work(DoNoteTake(s, p)) < Work(s)
  {
    hide Values, Answers;
    var t := DoNoteTake(s, p);
    assert s.queue == Held(s, Shared);
    if s.queue != [] {
      var m := s.queue[0];
      assert m in Held(s, Shared);
      FirstKnown(s, m);
      assert Ahead(s.ring, t.notes[p].known) <= Span(s.ring);
    }
    NoteMoves(s, t, p);
  }

  lemma FirstKnown<V>(s: State<V>, m: Id)
    requires Values(s) && m in s.waits
    ensures Ahead(s.ring, s.waits[m].lastKnown) <= Span(s.ring)
  {
    assert WaitOk(s.ring, s.waits[m]);
    ReadableSpan(s.ring, s.waits[m].lastKnown);
  }

  lemma SplitCounts<V>(s: State<V>, p: Id, later: seq<Id>, reached: seq<Id>)
    requires Noting(s, p, NScan) && !Answers(s, s.notes[p].known + 1)
    requires Shares(s.waits, s.notes[p].taken, Taken(p), s.notes[p].known, later, reached)
    ensures Work(NoteDivide(s, p, later, reached)) < Work(s)
  {
    hide Answers, Earliest;
    NoteMoves(s, NoteDivide(s, p, later, reached), p);
  }

  lemma LinkNoteCounts<V>(s: State<V>, p: Id)
    requires Placed(s) && Noting(s, p, NLink)
    ensures Work(DoNoteLink(s, p)) < Work(s)
  {
    hide Answers;
    assert s.notes[p].hold == Held(s, Hold(p));
    NoteMoves(s, DoNoteLink(s, p), p);
  }

  lemma SameRing<V>(s: State<V>, t: State<V>)
    requires t.ring == s.ring
    ensures forall c :: NoteLeft(t, c) == NoteLeft(s, c)
  {
  }

  lemma ResumeCounts<V>(s: State<V>, p: Id)
    requires Placed(s) && AllConsistent(s) && Enabled(s, NoteResume(p))
    ensures Work(DoNoteResume(s, p)) < Work(s)
  {
    hide Answers, NoteConsistent, AllConsistent;
    var t := DoNoteResume(s, p);
    var m := s.notes[p].wake[0];
    assert m in Held(s, Due(p));
    hide Placed, Held;
    RaisedLeft(s, m, s.notes[p].known);
    SameRing(s, t);
    assert NoteShares(t, t.notes) == NoteShares(s, s.notes);
    hide NoteLeft, WaitLeft;
    TotalOne(WaitShares(s.ring, s.waits), WaitShares(t.ring, t.waits), m);
  }

  lemma RaisedLeft<V>(s: State<V>, m: Id, known: int)
    requires AllConsistent(s) && m in s.waits && Listed(s.waits[m].place)
    ensures WaitLeft(s.ring, Raise(s.waits, m, known, Served)[m]) < WaitLeft(s.ring, s.waits[m])
  {
    assert Consistent(m, s.waits[m]);
  }

  // ---------------------------------------------------------------- waiters

  predicate OwnStep<V>(step: Step<V>) {
    step.Begin? || step.LoadHead? || step.ScanOn? || step.ScanStop? || step.WakeDone? || step.LeaveExchange?
  }

  lemma OwnLess<V>(s: State<V>, step: Step<V>)
    requires RingInv(s.ring) && Enabled(s, step) && OwnStep(step)
    requires Consistent(step.n, s.waits[step.n]) && WaitOk(s.ring, s.waits[step.n])
    ensures var t := Do(s, step); var n := step.n;
            && t == s.(waits := s.waits[n := t.waits[n]])
            && WaitLeft(s.ring, t.waits[n]) < WaitLeft(s.ring, s.waits[n])
  {
    hide RingInv, Answers;
    if step.ScanOn? {
      AnswerAhead(s, s.waits[step.n].known);
    }
  }

  lemma LinkCounts<V>(s: State<V>, n: Id)
    requires Placed(s) && WaitIn(s, n, Link) && WaitOk(s.ring, s.waits[n])
    ensures Work(DoLink(s, n)) < Work(s)
  {
    assert s.waits[n].hold == Held(s, Own(n));
    ReadableSpan(s.ring, s.waits[n].known);
    WaitMoves(s, DoLink(s, n), n);
  }

  lemma SweepCounts<V>(s: State<V>, n: Id)
    requires Placed(s) && WaitIn(s, n, Sweep)
    ensures Work(DoSweep(s, n)) < Work(s)
  {
    hide ResumedBySweep;
    assert s.queue == Held(s, Shared);
    WaitMoves(s, DoSweep(s, n), n);
  }

  lemma WakeCounts<V>(s: State<V>, n: Id)
    requires Placed(s) && AllConsistent(s) && Enabled(s, WakeNext(n))
    ensures Work(DoWakeNext(s, n)) < Work(s)
  {
    var t := DoWakeNext(s, n);
    var m := s.waits[n].wake[0];
    assert m in Held(s, SweepList(n));
    hide Placed, Work;
    RaisedNext(s, n);
    hide WaitLeft, AllConsistent, Consistent, NoteConsistent;
    WaitMoves(s, t, m);
  }

  lemma RaisedNext<V>(s: State<V>, n: Id)
    requires AllConsistent(s) && Enabled(s, WakeNext(n)) && Listed(s.waits[s.waits[n].wake[0]].place)
    ensures var t, m := DoWakeNext(s, n), s.waits[n].wake[0];
            && t == s.(waits := t.waits) && t.waits.Keys == s.waits.Keys
            && WaitLeft(s.ring, t.waits[m]) < WaitLeft(s.ring, s.waits[m])
            && forall k :: k in s.waits && k != m ==> WaitLeft(s.ring, t.waits[k]) == WaitLeft(s.ring, s.waits[k])
  {
    hide NoteConsistent;
    assert Consistent(s.waits[n].wake[0], s.waits[s.waits[n].wake[0]]);
  }

  /** Each step of a call in flight, but for a compare-exchange that fails, leaves less to do. */
  lemma StepCounts<V>(s: State<V>, step: Step<V>)
    requires Inv(s) && Enabled(s, step) && (Advances(step) || step.Begin?)
    ensures Work(Do(s, step)) < Work(s)
  {
    hide RingInv, Placed, Consistent, NoteConsistent, NoteOk, WaitOk, Watched, Answers, Work;
    match step
    case NoteTake(p) => TakeCounts(s, p);
    case NoteRetake(p) => TakeCounts(s, p);
    case NoteSplit(p) =>
      var c := s.notes[p];
      TakenShares(s, p);
      SplitCounts(s, p, Later(s.waits, c.taken, c.known), Reached(s.waits, c.taken, c.known));
    case NoteLinkOk(p) => LinkNoteCounts(s, p);
    case NoteResume(p) => ResumeCounts(s, p);
    case LinkOk(n) => LinkCounts(s, n);
    case SweepAll(n) => SweepCounts(s, n);
    case WakeNext(n) => WakeCounts(s, n);
    case _ => PlainCounts(s, step);
  }

  lemma PlainCounts<V>(s: State<V>, step: Step<V>)
    requires RingInv(s.ring) && AllConsistent(s) && Values(s) && Enabled(s, step)
    requires OwnStep(step) || step.NoteLoad? || step.NoteScan? || step.NoteRescan? || step.NoteStop?
    ensures Work(Do(s, step)) < Work(s)
  {
    hide RingInv, Consistent, NoteConsistent, NoteOk, WaitOk, Answers, Work;
    if OwnStep(step) {
      OwnLess(s, step);
      WaitMoves(s, Do(s, step), step.n);
    } else {
      NoteLess(s, step);
      NoteMoves(s, Do(s, step), step.p);
    }
  }

  // ---------------------------------------------------------------- whole runs

  predicate Gains<V>(step: Step<V>) {
    Advances(step) || step.Begin?
  }

  /** How many of these steps bring a call further. */
  function Gaining<V>(steps: seq<Step<V>>): nat {
    if steps == [] then 0
    else Gaining(steps[..|steps| - 1]) + (if Gains(steps[|steps| - 1]) then 1 else 0)
  }

  /** A step of a producer or consumer in the ring, or a new wait. */
  predicate Foreign<V>(step: Step<V>) {
    step.Construct? || step.RingMove?
  }

  lemma FailCounts<V>(s: State<V>, step: Step<V>)
    requires Enabled(s, step) && (step.LinkFail? || step.NoteLinkFail?)
    ensures Work(Do(s, step)) == Work(s)
  {
    var t := Do(s, step);
    SameRing(s, t);
    assert WaitShares(t.ring, t.waits) == WaitShares(s.ring, s.waits);
    assert NoteShares(t, t.notes) == NoteShares(s, s.notes);
  }

  /** Calls do not wake each other up for ever: as long as the ring stands still and nobody begins to wait there are at
      most as many steps, not counting failed attempts, as were left to do at first. */
  lemma {:induction false} AdvancesAreFew<V>(trace: seq<State<V>>, steps: seq<Step<V>>, size: int, initial: int, blank: V, i: nat, j: nat)
    requires 0 < size && Run(trace, steps, size, initial, blank) && i <= j < |trace|
    requires forall k :: i <= k < j ==> !Foreign(steps[k])
    ensures Work(trace[j]) + Gaining(steps[i..j]) <= Work(trace[i])
  {
    hide Inv, Work, Enabled, Do;
    if i < j {
      AdvancesAreFew(trace, steps, size, initial, blank, i, j - 1);
      ReachableInv(trace, steps, size, initial, blank, j - 1);
      assert steps[i..j][..j - i - 1] == steps[i..j - 1];
      if Gains(steps[j - 1]) {
        StepCounts(trace[j - 1], steps[j - 1]);
      } else {
        FailCounts(trace[j - 1], steps[j - 1]);
      }
    }
  }

  lemma OneStep<V>(trace: seq<State<V>>, steps: seq<Step<V>>, size: int, initial: int, blank: V, step: Step<V>)
    requires 0 < size && Run(trace, steps, size, initial, blank) && Enabled(trace[|steps|], step)
    ensures Run(trace + [Do(trace[|steps|], step)], steps + [step], size, initial, blank)
  {
    hide Enabled, Do;
  }

  /** Every run can be finished without a foreign step: a run that goes on ends with nothing in flight. */
  lemma {:induction false} ComesToRest<V>(trace: seq<State<V>>, steps: seq<Step<V>>, size: int, initial: int, blank: V)
    returns (longer: seq<State<V>>, more: seq<Step<V>>)
    requires 0 < size && Run(trace, steps, size, initial, blank)
    ensures Run(longer, more, size, initial, blank) && trace <= longer && steps <= more
    ensures forall k :: |steps| <= k < |more| ==> !Foreign(more[k])
    ensures Quiet(longer[|more|])
    decreases Work(trace[|steps|])
  {
    hide Inv, Work, Enabled, Do, Quiet;
    var s := trace[|steps|];
    if Quiet(s) {
      return trace, steps;
    }
    NeverStuck(trace, steps, size, initial, blank, |steps|);
    ReachableInv(trace, steps, size, initial, blank, |steps|);
    var step :| Advances(step) && (Enabled(s, step) || Retries(s, step));
    var before, early := trace, steps;
    if !Enabled(s, step) {
      before, early := Retry(trace, steps, size, initial, blank, step);
    }
    var t := before[|early|];
    ReachableInv(before, early, size, initial, blank, |early|);
    StepCounts(t, step);
    OneStep(before, early, size, initial, blank, step);
    longer, more := ComesToRest(before + [Do(t, step)], early + [step], size, initial, blank);
  }

  lemma Retry<V>(trace: seq<State<V>>, steps: seq<Step<V>>, size: int, initial: int, blank: V, step: Step<V>)
    returns (longer: seq<State<V>>, more: seq<Step<V>>)
    requires 0 < size && Run(trace, steps, size, initial, blank) && Retries(trace[|steps|], step)
    ensures Run(longer, more, size, initial, blank) && trace <= longer && steps <= more && |more| == |steps| + 1
    ensures !Foreign(more[|steps|]) && Enabled(longer[|more|], step) && Work(longer[|more|]) == Work(trace[|steps|])
  {
    hide Work, Inv, Answers, RingEnabled, RingDo;
    var s := trace[|steps|];
    var fail := if step.LinkOk? then LinkFail(step.n) else NoteLinkFail(step.p);
    FailCounts(s, fail);
    OneStep(trace, steps, size, initial, blank, fail);
    longer, more := trace + [Do(s, fail)], steps + [fail];
  }

  // ---------------------------------------------------------------- as the callers asked

  lemma StepAsked<V>(s: State<V>, step: Step<V>, n: Id)
    requires Enabled(s, step)
    ensures n in s.waits ==> n in Do(s, step).waits && !(step.Construct? && step.n == n)
                             && Do(s, step).waits[n].target == s.waits[n].target && Do(s, step).waits[n].start == s.waits[n].start
    ensures n !in s.waits ==> (n in Do(s, step).waits <==> step.Construct? && step.n == n)
    ensures step.Construct? ==> Do(s, step).waits[step.n].target == step.target && Do(s, step).waits[step.n].start == step.start
  {
    hide Later, Reached, Earliest, ResumedBySweep, Answers, RingEnabled, RingDo;
  }

  /** In every run the waiters are those that have been begun, with the targets they have been begun for and the numbers
      they start from. */
  lemma {:induction false} AsAsked<V>(trace: seq<State<V>>, steps: seq<Step<V>>, size: int, initial: int, blank: V, i: nat,
                                      n: Id, target: int, start: int)
    requires 0 < size && Run(trace, steps, size, initial, blank) && i < |trace|
    ensures (n in trace[i].waits && trace[i].waits[n].target == target && trace[i].waits[n].start == start)
            <==> Construct(n, target, start) in steps[..i]
  {
    if i > 0 {
      hide Enabled, Do;
      AsAsked(trace, steps, size, initial, blank, i - 1, n, target, start);
      StepAsked(trace[i - 1], steps[i - 1], n);
      assert steps[..i] == steps[..i - 1] + [steps[i - 1]];
    }
  }
}
