/** Which numbers the waiters of a multi-producer sequencer are given. */
module MultiProducerGiven {
  import opened Lists
  import opened SequencerRing
  import opened MultiProducer
  import opened MultiProducerProof

  /** Whether a number was the end of the published prefix at a moment at which a wait was there. */
  type Ends = (int, Id) -> bool

  /** Some waiter aims at `goal`. */
  ghost predicate Aimed(ws: map<Id, Wait>, goal: int) {
    exists m :: m in ws && ws[m].target == goal
  }

  /** Nodes that a publication is going to resume with `known`: it was the end of the published prefix while they
      waited, or it is the later target of another waiter, which has been put back since. */
  ghost predicate Resumable(ends: Ends, ws: map<Id, Wait>, xs: seq<Id>, known: int) {
    (forall m :: m in xs ==> ends(known, m)) || (AllDue(ws, xs, known - 1) && Aimed(ws, known))
  }

  ghost predicate NoteGives(ends: Ends, ws: map<Id, Wait>, c: Note) {
    && (c.phase in {NLink, NRescan, NRetake} ==> AllDue(ws, c.wake, c.goal - 1) && Aimed(ws, c.goal))
    && (c.phase == NRetake ==> c.known == c.goal)
    && (c.phase == NWake && c.wake != [] ==> Resumable(ends, ws, c.wake, c.known))
  }

  ghost predicate WaitGives(ends: Ends, ws: map<Id, Wait>, n: Id, w: Wait) {
    && (w.phase == Sweep || (w.phase == Wake && w.wake != []) ==> ends(w.known, n))
    && match w.place
       case Nowhere => w.lastKnown == w.start
       case Served => w.start < w.target && (ends(w.lastKnown, n) || (w.target < w.lastKnown && Aimed(ws, w.lastKnown)))
       case Swept => w.start < w.target && exists c :: ends(w.lastKnown, c)
       case _ => w.start < w.target
  }

  ghost predicate Gives<V>(s: State<V>, ends: Ends) {
    && (forall n :: n in s.waits ==> WaitGives(ends, s.waits, n, s.waits[n]))
    && (forall p :: p in s.notes ==> NoteGives(ends, s.waits, s.notes[p]))
  }

  /** `later` knows what `ends` knows, and the end at which the prefix stands now. */
  ghost predicate Learns<V>(s: State<V>, ends: Ends, later: Ends) {
    && (forall v, n {:trigger later(v, n)} :: ends(v, n) ==> later(v, n))
    && (forall v, n {:trigger later(v, n)} :: PrefixEnd(s.ring, v) && n in s.waits ==> later(v, n))
  }

  lemma WaitFrame<V>(s: State<V>, ends: Ends, later: Ends, ws: map<Id, Wait>, n: Id, w: Wait)
    requires Learns(s, ends, later) && SameGoals(s.waits, ws) && WaitGives(ends, s.waits, n, w)
    ensures WaitGives(later, ws, n, w)
  {
    if w.place == Swept {
      var c :| ends(w.lastKnown, c);
      assert later(w.lastKnown, c);
    }
    assert w.place == Served && Aimed(s.waits, w.lastKnown) ==> Aimed(ws, w.lastKnown);
  }

  lemma NoteFrames<V>(s: State<V>, ends: Ends, later: Ends, ws: map<Id, Wait>, c: Note)
    requires Learns(s, ends, later) && SameGoals(s.waits, ws) && NoteGives(ends, s.waits, c)
    ensures NoteGives(later, ws, c)
  {
    assert Aimed(s.waits, c.goal) ==> Aimed(ws, c.goal);
    assert Aimed(s.waits, c.known) ==> Aimed(ws, c.known);
  }

  /** What has changed is all there is to look at. */
  lemma GivesFrame<V>(s: State<V>, t: State<V>, ends: Ends, later: Ends)
    requires Gives(s, ends) && Learns(s, ends, later) && SameGoals(s.waits, t.waits)
    requires forall n :: n in t.waits ==>
               (n in s.waits && t.waits[n] == s.waits[n]) || WaitGives(later, t.waits, n, t.waits[n])
    requires forall p :: p in t.notes ==>
               (p in s.notes && t.notes[p] == s.notes[p]) || NoteGives(later, t.waits, t.notes[p])
    ensures Gives(t, later)
  {
    hide WaitGives, NoteGives;
    forall n | n in t.waits ensures WaitGives(later, t.waits, n, t.waits[n]) {
      if n in s.waits && t.waits[n] == s.waits[n] {
        WaitFrame(s, ends, later, t.waits, n, s.waits[n]);
      }
    }
    forall p | p in t.notes ensures NoteGives(later, t.waits, t.notes[p]) {
      if p in s.notes && t.notes[p] == s.notes[p] {
        NoteFrames(s, ends, later, t.waits, s.notes[p]);
      }
    }
  }

  /** A slot that does not answer behind what is readable, when the consumers have not passed it. */
  lemma SilenceIsEnd<V>(s: State<V>, k: int)
    requires RingInv(s.ring) && Readable(s.ring, k) && s.ring.consumed <= k && !Answers(s, k + 1)
    ensures PrefixEnd(s.ring, k)
  {
    SilenceMeansEnd(s, k);
    assert k + 1 in s.ring.done ==> Contiguous(s.ring, k + 1);
  }

  /** Nodes that have only been moved from list to list, and been told something on the way. */
  lemma MovedGives<V>(s: State<V>, ends: Ends, later: Ends, ws: map<Id, Wait>, n: Id)
    requires Gives(s, ends) && Learns(s, ends, later) && SamePlus(s.waits, ws) && n in s.waits
    ensures WaitGives(later, ws, n, ws[n])
  {
    assert WaitGives(ends, s.waits, n, s.waits[n]) && SameButPlace(s.waits[n], ws[n]);
    WaitFrame(s, ends, later, ws, n, s.waits[n]);
  }

  // ---------------------------------------------------------------- publications

  lemma TakenNoteGives<V>(s: State<V>, p: Id, ends: Ends, later: Ends)
    requires AllConsistent(s) && Gives(s, ends) && Learns(s, ends, later) && (Noting(s, p, NTake) || Noting(s, p, NRetake))
    ensures var t := DoNoteTake(s, p); NoteGives(later, t.waits, t.notes[p])
  {
    hide WaitGives;
    var t := DoNoteTake(s, p);
    assert NoteConsistent(s.notes[p]);
    NoteFrames(s, ends, later, t.waits, s.notes[p]);
  }

  lemma TakeGives<V>(s: State<V>, p: Id, ends: Ends, later: Ends)
    requires Inv(s) && Gives(s, ends) && Learns(s, ends, later) && (Noting(s, p, NTake) || Noting(s, p, NRetake))
    ensures Gives(DoNoteTake(s, p), later)
  {
    hide RingInv, Values, Watched, Answers, AllConsistent, WaitGives;
    var t := DoNoteTake(s, p);
    var c := s.notes[p];
    assert s.queue == Held(s, Shared);
    RelocateSame(s.waits, s.queue, Shared, Taken(p));
    forall n | n in t.waits ensures WaitGives(later, t.waits, n, t.waits[n]) {
      MovedGives(s, ends, later, t.waits, n);
    }
    TakenNoteGives(s, p, ends, later);
    hide NoteGives;
    GivesFrame(s, t, ends, later);
  }

  lemma {:induction false} EarliestIsTarget(ws: map<Id, Wait>, xs: seq<Id>)
    requires xs != [] && forall n :: n in xs ==> n in ws
    ensures exists m :: m in xs && ws[m].target == Earliest(ws, xs)
  {
    assert xs[0] in xs;
    if |xs| > 1 {
      EarliestIsTarget(ws, xs[1..]);
      var m :| m in xs[1..] && ws[m].target == Earliest(ws, xs[1..]);
      assert m in xs;
    }
  }

  lemma DivideNoteGives<V>(s: State<V>, p: Id, laters: seq<Id>, reached: seq<Id>, ends: Ends, later: Ends)
    requires Inv(s) && Learns(s, ends, later) && Noting(s, p, NScan) && !Answers(s, s.notes[p].known + 1)
    requires Shares(s.waits, s.notes[p].taken, Taken(p), s.notes[p].known, laters, reached)
    ensures var t := NoteDivide(s, p, laters, reached); NoteGives(later, t.waits, t.notes[p])
  {
    var t := NoteDivide(s, p, laters, reached);
    var c, d := s.notes[p], t.notes[p];
    TakenHoldsBack(s, p);
    SilenceIsEnd(s, c.known);
    ScanEnds(s, p);
    assert NoteConsistent(c);
    DivideNote(s, p, laters, reached);
    assert NoteOk(s.ring, t.waits, d);
    if laters != [] {
      EarliestBound(s.waits, laters, c.known);
      EarliestIsTarget(s.waits, laters);
      var m :| m in laters && s.waits[m].target == Earliest(s.waits, laters);
      assert m in t.waits && t.waits[m].target == d.goal;
    } else {
      forall m | m in d.wake ensures later(d.known, m) {
        assert m in s.waits;
      }
    }
  }

  /** What changes when a list is divided. */
  lemma DivideMoves<V>(s: State<V>, p: Id, laters: seq<Id>, reached: seq<Id>)
    requires p in s.notes && Shares(s.waits, s.notes[p].taken, Taken(p), s.notes[p].known, laters, reached)
    ensures var t := NoteDivide(s, p, laters, reached); SamePlus(s.waits, t.waits) && t.notes == s.notes[p := t.notes[p]]
  {
    hide Earliest;
    RenewSame(s.waits, laters, Hold(p), reached, Due(p), s.notes[p].known, Taken(p));
  }

  lemma SplitGives<V>(s: State<V>, p: Id, ends: Ends, later: Ends)
    requires Inv(s) && Gives(s, ends) && Learns(s, ends, later) && Noting(s, p, NScan) && !Answers(s, s.notes[p].known + 1)
    ensures Gives(DoNoteSplit(s, p), later)
  {
    hide Answers, RingInv, Values, Watched, AllConsistent, NoteGives, WaitGives;
    TakenShares(s, p);
    hide Placed, Shares, NoteDivide, Later, Reached;
    var c := s.notes[p];
    var laters, reached := Later(s.waits, c.taken, c.known), Reached(s.waits, c.taken, c.known);
    var t := NoteDivide(s, p, laters, reached);
    DivideNoteGives(s, p, laters, reached, ends, later);
    DivideMoves(s, p, laters, reached);
    forall n | n in t.waits ensures WaitGives(later, t.waits, n, t.waits[n]) {
      MovedGives(s, ends, later, t.waits, n);
    }
    GivesFrame(s, t, ends, later);
  }

  lemma NoteLinkGives<V>(s: State<V>, p: Id, ends: Ends, later: Ends)
    requires Inv(s) && Gives(s, ends) && Learns(s, ends, later) && Noting(s, p, NLink)
    ensures Gives(DoNoteLink(s, p), later)
  {
    hide Answers, RingInv, Values, Watched, AllConsistent, WaitGives;
    var t := DoNoteLink(s, p);
    var c := s.notes[p];
    assert c.hold == Held(s, Hold(p));
    RelocateSame(s.waits, c.hold, Hold(p), Shared);
    forall n | n in t.waits ensures WaitGives(later, t.waits, n, t.waits[n]) {
      MovedGives(s, ends, later, t.waits, n);
    }
    NoteFrames(s, ends, later, t.waits, c);
    assert NoteGives(later, t.waits, t.notes[p]);
    GivesFrame(s, t, ends, later);
  }

  /** Nodes that are due have not continued, and hold the consumers back. */
  lemma DueHoldsBack<V>(s: State<V>, p: Id, ends: Ends)
    requires Placed(s) && AllConsistent(s) && Values(s) && Gives(s, ends) && p in s.notes && s.notes[p].phase != NScan
    requires s.notes[p].wake != []
    ensures s.ring.consumed <= s.notes[p].known && Readable(s.ring, s.notes[p].known)
  {
    var c := s.notes[p];
    var m := c.wake[0];
    assert NoteOk(s.ring, s.waits, c) && m in Held(s, Due(p));
    assert WaitOk(s.ring, s.waits[m]) && Consistent(m, s.waits[m]) && WaitGives(ends, s.waits, m, s.waits[m]);
  }

  lemma StopGives<V>(s: State<V>, p: Id, ends: Ends, later: Ends)
    requires Inv(s) && Gives(s, ends) && Learns(s, ends, later) && Noting(s, p, NRescan) && !Answers(s, s.notes[p].known + 1)
    ensures Gives(DoNoteStop(s, p), later)
  {
    hide Answers, RingInv, Watched, WaitGives;
    var t := DoNoteStop(s, p);
    StoppedNoteGives(s, p, ends, later);
    hide NoteGives, Placed, Values, AllConsistent;
    GivesFrame(s, t, ends, later);
  }

  lemma StoppedNoteGives<V>(s: State<V>, p: Id, ends: Ends, later: Ends)
    requires Inv(s) && Gives(s, ends) && Learns(s, ends, later) && Noting(s, p, NRescan) && !Answers(s, s.notes[p].known + 1)
    ensures NoteGives(later, s.waits, DoNoteStop(s, p).notes[p])
  {
    hide Answers, RingInv, Watched, WaitGives, Gives;
    var c := s.notes[p];
    if c.wake != [] {
      DueHoldsBack(s, p, ends);
      SilenceIsEnd(s, c.known);
      assert c.wake == Held(s, Due(p));
      forall m | m in c.wake ensures later(c.known, m) {
        assert m in s.waits;
      }
    }
  }

  lemma ResumeGives<V>(s: State<V>, p: Id, ends: Ends, later: Ends)
    requires Inv(s) && Gives(s, ends) && Learns(s, ends, later)
    requires Noting(s, p, NWake) && s.notes[p].wake != [] && s.notes[p].wake[0] in s.waits
    ensures Gives(DoNoteResume(s, p), later)
  {
    hide RingInv, Values, Watched;
    var t := DoNoteResume(s, p);
    var c := s.notes[p];
    var m := c.wake[0];
    assert m in Held(s, Due(p));
    assert NoteGives(ends, s.waits, c) && Consistent(m, s.waits[m]) && WaitGives(ends, s.waits, m, s.waits[m]);
    NoteFrames(s, ends, later, t.waits, c);
    assert NoteGives(later, t.waits, t.notes[p]);
    ServedGives(s, p, ends, later);
    GivesFrame(s, t, ends, later);
  }

  lemma ServedGives<V>(s: State<V>, p: Id, ends: Ends, later: Ends)
    requires Placed(s) && AllConsistent(s) && Gives(s, ends) && Learns(s, ends, later)
    requires Noting(s, p, NWake) && s.notes[p].wake != [] && s.notes[p].wake[0] in s.waits
    ensures var t := DoNoteResume(s, p); var m := s.notes[p].wake[0]; WaitGives(later, t.waits, m, t.waits[m])
  {
    var t, c := DoNoteResume(s, p), s.notes[p];
    var m := c.wake[0];
    assert m in c.wake && m in Held(s, Due(p));
    assert NoteGives(ends, s.waits, c) && WaitGives(ends, s.waits, m, s.waits[m]) && Consistent(m, s.waits[m]);
    if Aimed(s.waits, c.known) {
      var k :| k in s.waits && s.waits[k].target == c.known;
      assert k in t.waits && t.waits[k].target == c.known;
    }
  }

  // ---------------------------------------------------------------- waits

  lemma LinkGives<V>(s: State<V>, n: Id, ends: Ends, later: Ends)
    requires Inv(s) && Gives(s, ends) && Learns(s, ends, later) && WaitIn(s, n, Link)
    ensures Gives(DoLink(s, n), later)
  {
    hide RingInv, Values, Watched, Answers, NoteGives;
    var t := DoLink(s, n);
    var hold := s.waits[n].hold;
    assert hold == Held(s, Own(n));
    var ws := Relocate(s.waits, hold, Shared);
    RelocateSame(s.waits, hold, Own(n), Shared);
    hide Placed, Held, AllConsistent, Relocate, WaitGives, Behind;
    forall m | m in t.waits ensures WaitGives(later, t.waits, m, t.waits[m]) {
      MovedGives(s, ends, later, ws, m);
      assert WaitGives(later, ws, m, ws[m]);
      SameAims(later, ws, t.waits, m, t.waits[m]);
    }
    GivesFrame(s, t, ends, later);
  }

  lemma SameAims(ends: Ends, ws: map<Id, Wait>, ws': map<Id, Wait>, n: Id, w: Wait)
    requires WaitGives(ends, ws, n, w) && SameGoals(ws, ws')
    ensures WaitGives(ends, ws', n, w)
  {
    assert Aimed(ws, w.lastKnown) ==> Aimed(ws', w.lastKnown);
  }

  lemma SetWaitGives<V>(s: State<V>, n: Id, w: Wait, ends: Ends, later: Ends)
    requires Gives(s, ends) && Learns(s, ends, later)
    requires n in s.waits ==> w.target == s.waits[n].target && w.start == s.waits[n].start
    requires WaitGives(later, s.waits, n, w)
    ensures Gives(SetWait(s, n, w), later)
  {
    hide NoteGives;
    var t := SetWait(s, n, w);
    SameAims(later, s.waits, t.waits, n, w);
    hide WaitGives;
    GivesFrame(s, t, ends, later);
  }

  lemma SetNoteGives<V>(s: State<V>, p: Id, c: Note, ends: Ends, later: Ends)
    requires Gives(s, ends) && Learns(s, ends, later) && NoteGives(later, s.waits, c)
    ensures Gives(SetNote(s, p, c), later)
  {
    hide NoteGives, WaitGives;
    GivesFrame(s, SetNote(s, p, c), ends, later);
  }

  lemma ScanStopGives<V>(s: State<V>, n: Id, ends: Ends, later: Ends)
    requires Inv(s) && Gives(s, ends) && Learns(s, ends, later) && WaitIn(s, n, Scan) && !Answers(s, s.waits[n].known + 1)
    ensures Gives(DoScanStop(s, n), later)
  {
    var w := s.waits[n];
    assert WaitOk(s.ring, w) && Consistent(n, w);
    SilenceIsEnd(s, w.known);
    WaitFrame(s, ends, later, s.waits, n, w);
    SetWaitGives(s, n, DoScanStop(s, n).waits[n], ends, later);
  }

  lemma SweepNodeGives<V>(s: State<V>, n: Id, ends: Ends, later: Ends, m: Id)
    requires Placed(s) && Gives(s, ends) && Learns(s, ends, later) && WaitIn(s, n, Sweep) && m in s.waits
    ensures var t := DoSweep(s, n); WaitGives(later, t.waits, m, t.waits[m])
  {
    hide ResumedBySweep, NoteGives;
    var t := DoSweep(s, n);
    assert s.queue == Held(s, Shared);
    var ws := Relocate(s.waits, s.queue, SweepList(n));
    RelocateSame(s.waits, s.queue, Shared, SweepList(n));
    MovedGives(s, ends, later, ws, m);
    SameAims(later, ws, t.waits, m, ws[m]);
  }

  lemma SweepGives<V>(s: State<V>, n: Id, ends: Ends, later: Ends)
    requires Inv(s) && Gives(s, ends) && Learns(s, ends, later) && WaitIn(s, n, Sweep)
    ensures Gives(DoSweep(s, n), later)
  {
    hide RingInv, Values, Watched, Placed, AllConsistent, ResumedBySweep, WaitGives, NoteGives;
    var t := DoSweep(s, n);
    forall m | m in t.waits ensures WaitGives(later, t.waits, m, t.waits[m]) {
      SweepNodeGives(s, n, ends, later, m);
    }
    GivesFrame(s, t, ends, later);
  }

  lemma SweptGives<V>(s: State<V>, n: Id, ends: Ends, later: Ends, m: Id)
    requires Placed(s) && AllConsistent(s) && Gives(s, ends) && Learns(s, ends, later) && m in s.waits
    requires WaitIn(s, n, Wake) && s.waits[n].wake != [] && s.waits[n].wake[0] in s.waits
    ensures var t := DoWakeNext(s, n); WaitGives(later, t.waits, m, t.waits[m])
  {
    hide NoteConsistent, NoteGives;
    var t, w := DoWakeNext(s, n), s.waits[n];
    var k := w.wake[0];
    assert k in Held(s, SweepList(n));
    assert WaitGives(ends, s.waits, n, w) && ends(w.known, n) && later(w.known, n);
    assert WaitGives(ends, s.waits, m, s.waits[m]) && Consistent(m, s.waits[m]);
    WaitFrame(s, ends, later, t.waits, m, s.waits[m]);
  }

  lemma WakeNextGives<V>(s: State<V>, n: Id, ends: Ends, later: Ends)
    requires Inv(s) && Gives(s, ends) && Learns(s, ends, later)
    requires WaitIn(s, n, Wake) && s.waits[n].wake != [] && s.waits[n].wake[0] in s.waits
    ensures Gives(DoWakeNext(s, n), later)
  {
    hide RingInv, Values, Watched, Placed, AllConsistent, WaitGives, NoteGives;
    var t := DoWakeNext(s, n);
    forall m | m in t.waits ensures WaitGives(later, t.waits, m, t.waits[m]) {
      SweptGives(s, n, ends, later, m);
    }
    GivesFrame(s, t, ends, later);
  }

  /** Steps of one wait that move no node and resume nobody. */
  lemma LocalWaitGives<V>(s: State<V>, step: Step<V>, ends: Ends, later: Ends)
    requires AllConsistent(s) && Gives(s, ends) && Learns(s, ends, later) && Enabled(s, step)
    requires step.Begin? || step.LoadHead? || step.LinkFail? || step.ScanOn? || step.WakeDone? || step.LeaveExchange?
    ensures Gives(Do(s, step), later)
  {
    hide Answers, NoteConsistent, NoteGives;
    var n, t := step.n, Do(s, step);
    assert Consistent(n, s.waits[n]);
    WaitFrame(s, ends, later, s.waits, n, s.waits[n]);
    SetWaitGives(s, n, t.waits[n], ends, later);
    assert t == SetWait(s, n, t.waits[n]);
  }

  /** Steps of one publication that move no node and resume nobody. */
  lemma LocalNoteGives<V>(s: State<V>, step: Step<V>, ends: Ends, later: Ends)
    requires AllConsistent(s) && Gives(s, ends) && Learns(s, ends, later) && Enabled(s, step)
    requires step.NoteLoad? || step.NoteScan? || step.NoteLinkFail? || step.NoteRescan?
    ensures Gives(Do(s, step), later)
  {
    hide Answers, WaitGives;
    var p, t := step.p, Do(s, step);
    assert NoteConsistent(s.notes[p]);
    NoteFrames(s, ends, later, s.waits, s.notes[p]);
    SetNoteGives(s, p, t.notes[p], ends, later);
    assert t == SetNote(s, p, t.notes[p]);
  }

  lemma ConstructGives<V>(s: State<V>, n: Id, target: int, start: int, ends: Ends, later: Ends)
    requires Gives(s, ends) && Learns(s, ends, later) && n !in s.waits
    ensures Gives(DoConstruct(s, n, target, start), later)
  {
    SetWaitGives(s, n, DoConstruct(s, n, target, start).waits[n], ends, later);
  }

  lemma RingMoveGives<V>(s: State<V>, move: RingStep<V>, ends: Ends, later: Ends)
    requires Gives(s, ends) && Learns(s, ends, later) && RingEnabled(s.ring, move)
    ensures Gives(DoRing(s, move), later)
  {
    var t := DoRing(s, move);
    assert move.StoreFront? ==> NoteGives(later, t.waits, NOTIFY);
    GivesFrame(s, t, ends, later);
  }

  lemma StepGives<V>(s: State<V>, step: Step<V>, ends: Ends, later: Ends)
    requires Inv(s) && Gives(s, ends) && Learns(s, ends, later) && Enabled(s, step)
    ensures Gives(Do(s, step), later)
  {
    hide Gives, Learns, Answers, HoldsBack, RingEnabled, RingInv, Placed, AllConsistent, Values, Watched;
    hide DoRing, DoNoteTake, DoNoteSplit, DoNoteLink, DoNoteStop, DoNoteResume, DoConstruct, DoLink, DoScanStop, DoSweep, DoWakeNext;
    match step
    case RingMove(move) => RingMoveGives(s, move, ends, later);
    case NoteTake(p) => TakeGives(s, p, ends, later);
    case NoteRetake(p) => TakeGives(s, p, ends, later);
    case NoteSplit(p) => SplitGives(s, p, ends, later);
    case NoteLinkOk(p) => NoteLinkGives(s, p, ends, later);
    case NoteStop(p) => StopGives(s, p, ends, later);
    case NoteResume(p) => ResumeGives(s, p, ends, later);
    case Construct(n, target, start) => ConstructGives(s, n, target, start, ends, later);
    case LinkOk(n) => LinkGives(s, n, ends, later);
    case ScanStop(n) => ScanStopGives(s, n, ends, later);
    case SweepAll(n) => SweepGives(s, n, ends, later);
    case WakeNext(n) => WakeNextGives(s, n, ends, later);
    case _ =>
      if step.NoteLoad? || step.NoteScan? || step.NoteLinkFail? || step.NoteRescan? {
        LocalNoteGives(s, step, ends, later);
      } else {
        LocalWaitGives(s, step, ends, later);
      }
  }

  // ---------------------------------------------------------------- what holds in every run

  /** At some moment up to `i` at which `n` was there the published prefix ended at `v`. */
  ghost predicate EndedAt<V>(trace: seq<State<V>>, i: nat, v: int, n: Id)
    requires i < |trace|
  {
    exists j :: 0 <= j <= i && PrefixEnd(trace[j].ring, v) && n in trace[j].waits
  }

  ghost function EndsUpTo<V>(trace: seq<State<V>>, i: nat): Ends
    requires i < |trace|
  {
    (v: int, n: Id) => EndedAt(trace, i, v, n)
  }

  lemma EndsGrow<V>(trace: seq<State<V>>, i: nat)
    requires i + 1 < |trace|
    ensures Learns(trace[i], EndsUpTo(trace, i), EndsUpTo(trace, i + 1))
  {
    hide PrefixEnd;
    forall v, n | EndedAt(trace, i, v, n) ensures EndedAt(trace, i + 1, v, n) {
      var j :| 0 <= j <= i && PrefixEnd(trace[j].ring, v) && n in trace[j].waits;
      assert 0 <= j <= i + 1;
    }
    forall v, n | PrefixEnd(trace[i].ring, v) && n in trace[i].waits ensures EndedAt(trace, i + 1, v, n) {
      assert 0 <= i <= i + 1;
    }
  }

  lemma {:induction false} ReachableGives<V>(trace: seq<State<V>>, steps: seq<Step<V>>, size: int, initial: int, blank: V, i: nat)
    requires 0 < size && Run(trace, steps, size, initial, blank) && i < |trace|
    ensures Gives(trace[i], EndsUpTo(trace, i))
  {
    hide WaitGives, NoteGives, Learns;
    if i > 0 {
      ReachableGives(trace, steps, size, initial, blank, i - 1);
      ReachableInv(trace, steps, size, initial, blank, i - 1);
      EndsGrow(trace, i - 1);
      StepGives(trace[i - 1], steps[i - 1], EndsUpTo(trace, i - 1), EndsUpTo(trace, i));
    }
  }

  /** Which number a waiter has been given: the one it started from when that reaches its target; the end of the
      published prefix at some moment of its wait, or a number after its target that another waiter aims at, when a
      publication resumed it; and when another waiter did, the end of the published prefix at some moment of that one's
      wait. */
  lemma GivenIsAnEnd<V>(trace: seq<State<V>>, steps: seq<Step<V>>, size: int, initial: int, blank: V, i: nat, n: Id)
    requires 0 < size && Run(trace, steps, size, initial, blank) && i < |trace|
    requires n in trace[i].waits && trace[i].waits[n].continued == 1
    ensures var w := trace[i].waits[n];
            match w.place
            case Nowhere => w.lastKnown == w.start
            case Served =>
              EndedAt(trace, i, w.lastKnown, n)
              || (w.target < w.lastKnown && exists m :: m in trace[i].waits && trace[i].waits[m].target == w.lastKnown)
            case Swept => exists c :: EndedAt(trace, i, w.lastKnown, c)
            case _ => false
  {
    ReachableGives(trace, steps, size, initial, blank, i);
    ReachableInv(trace, steps, size, initial, blank, i);
    var w := trace[i].waits[n];
    assert WaitGives(EndsUpTo(trace, i), trace[i].waits, n, w) && Consistent(n, w);
    if w.place == Swept {
      var c :| EndsUpTo(trace, i)(w.lastKnown, c);
      assert EndedAt(trace, i, w.lastKnown, c);
    }
  }
}
