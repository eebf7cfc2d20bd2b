/** What every reachable state of a multi-producer sequencer satisfies. */
module MultiProducerProof {
  import opened Lists
  import opened SequencerRing
  import opened MultiProducer

  // ---------------------------------------------------------------- invariant

  /** The list kept at a place. */
  function Held<V>(s: State<V>, p: Place): seq<Id> {
    match p
    case Shared => s.queue
    case Own(c) => if c in s.waits then s.waits[c].hold else []
    case SweepList(c) => if c in s.waits then s.waits[c].wake else []
    case Taken(c) => if c in s.notes then s.notes[c].taken else []
    case Hold(c) => if c in s.notes then s.notes[c].hold else []
    case Due(c) => if c in s.notes then s.notes[c].wake else []
    case Nowhere => []
    case Served => []
    case Swept => []
  }

  predicate Raised(p: Place) {
    p.Served? || p.Swept?
  }

  predicate Listed(p: Place) {
    !p.Nowhere? && !Raised(p)
  }

  ghost predicate ListOk(ws: map<Id, Wait>, xs: seq<Id>, p: Place) {
    NoDup(xs) && forall n :: n in xs ==> n in ws && ws[n].place == p
  }

  ghost predicate NodeOk<V>(s: State<V>, n: Id)
    requires n in s.waits
  {
    Listed(s.waits[n].place) ==> n in Held(s, s.waits[n].place)
  }

  /** Every node is in exactly one list, once, until its flag has been raised by a resume loop. */
  ghost predicate Placed<V>(s: State<V>) {
    && (forall p {:trigger Held(s, p)} :: ListOk(s.waits, Held(s, p), p))
    && (forall n {:trigger NodeOk(s, n)} :: n in s.waits ==> NodeOk(s, n))
  }

  predicate Left(w: Wait) {
    w.phase == Suspended || w.phase == Continued
  }

  /** Flag, phase and continuation count of wait operation `n` agree. */
  predicate Consistent(n: Id, w: Wait) {
    && w.hold == (if w.phase == Load || w.phase == Link then [n] else [])
    && (w.phase != Wake ==> w.wake == [])
    && if w.place == Nowhere then
         && !w.ready
         && (w.phase == Fresh || w.phase == Continued)
         && w.continued == (if w.phase == Fresh then 0 else 1)
         && (w.phase == Continued ==> w.target <= w.lastKnown)
       else
         && w.phase != Fresh
         && w.ready == (Left(w) || Raised(w.place))
         && w.continued == (if w.phase == Continued then 1 else 0)
         && (w.phase == Suspended ==> !Raised(w.place))
         && (w.phase == Continued ==> Raised(w.place))
  }

  predicate NoteConsistent(c: Note) {
    && (c.phase == NScan <==> c.taken != [])
    && (c.phase == NLink <==> c.hold != [])
    && (c.phase == NLoad || c.phase == NTake ==> c.wake == [])
  }

  ghost predicate AllConsistent<V>(s: State<V>) {
    && (forall n :: n in s.waits ==> Consistent(n, s.waits[n]))
    && (forall p :: p in s.notes ==> NoteConsistent(s.notes[p]))
  }

  /** `x` is known to be published, with everything before it. */
  ghost predicate Readable<V>(r: Ring<V>, x: int) {
    r.first - 1 <= x && Contiguous(r, x)
  }

  ghost predicate WaitOk<V>(r: Ring<V>, w: Wait) {
    && Readable(r, w.start) && Readable(r, w.lastKnown)
    && (w.continued == 0 ==> r.consumed <= w.start)
    && (!Raised(w.place) ==> w.start <= w.lastKnown)
    && (w.phase == Fresh || w.phase == Load || w.phase == Link ==> w.known == w.start)
    && (w.phase in {Scan, Sweep, Wake} ==> w.start <= w.known && Readable(r, w.known))
    && (w.phase == Sweep || (w.phase == Wake && w.wake != []) ==> w.target <= w.known)
    && (w.place == Served ==> w.target <= w.lastKnown)
  }

  /** Nodes a publication may resume at `known`. */
  ghost predicate AllDue(ws: map<Id, Wait>, xs: seq<Id>, known: int) {
    forall m :: m in xs ==> m in ws && ws[m].target <= known
  }

  /** Nodes whose targets are published. */
  ghost predicate AllServable<V>(r: Ring<V>, ws: map<Id, Wait>, xs: seq<Id>) {
    forall m :: m in xs ==> m in ws && Contiguous(r, ws[m].target)
  }

  /** Nodes to be put back: they start at `known` or before and aim at `goal` or beyond. */
  ghost predicate AllPending(ws: map<Id, Wait>, xs: seq<Id>, known: int, goal: int) {
    forall m :: m in xs ==> m in ws && ws[m].start <= known && goal <= ws[m].target
  }

  ghost predicate NoteOk<V>(r: Ring<V>, ws: map<Id, Wait>, c: Note) {
    && (c.phase == NScan ==> c.taken != [] && c.taken[0] in ws && ws[c.taken[0]].start <= c.known && AllServable(r, ws, c.wake))
    && (c.phase != NScan ==> AllDue(ws, c.wake, c.known))
    && (c.phase in {NScan, NLink, NRescan, NRetake} || c.wake != [] ==> Readable(r, c.known))
    && (c.phase == NLink || c.phase == NRescan ==> c.known < c.goal)
    && AllPending(ws, c.hold, c.known, c.goal)
  }

  ghost predicate Values<V>(s: State<V>) {
    && (forall n :: n in s.waits ==> WaitOk(s.ring, s.waits[n]))
    && (forall p :: p in s.notes ==> NoteOk(s.ring, s.waits, s.notes[p]))
  }

  predicate NoteWillTake(c: Note, w: Wait) {
    || c.phase in {NLoad, NTake, NRetake}
    || (c.phase == NRescan && c.goal <= w.target && w.start <= c.known)
  }

  predicate WaitWillTake(c: Wait, w: Wait) {
    || c.phase == Sweep
    || (c.phase == Scan && c.target <= w.target && w.start <= c.known)
  }

  /** Some call in flight is bound to take the list in which `w` is queued, or to find `w`'s target unpublished. */
  ghost predicate Covered<V>(s: State<V>, w: Wait) {
    || (exists p :: p in s.notes && NoteWillTake(s.notes[p], w))
    || (exists c :: c in s.waits && WaitWillTake(s.waits[c], w))
  }

  /** Every queued node whose target is published is covered. */
  ghost predicate Watched<V>(s: State<V>) {
    forall n :: n in s.queue && n in s.waits && Contiguous(s.ring, s.waits[n].target) ==> Covered(s, s.waits[n])
  }

  ghost predicate Inv<V>(s: State<V>) {
    RingInv(s.ring) && Placed(s) && AllConsistent(s) && Values(s) && Watched(s)
  }

  // ---------------------------------------------------------------- what a slot tells

  /** A slot that answers for the next number proves it published. */
  lemma AnswerMeansPublished<V>(s: State<V>, k: int)
    requires RingInv(s.ring) && Readable(s.ring, k) && Answers(s, k + 1)
    ensures Readable(s.ring, k + 1)
  {
    CellIff(s.ring, k + 1);
  }

  /** A slot that does not answer ends the published prefix, as long as the consumers have not passed `k`. */
  lemma SilenceMeansEnd<V>(s: State<V>, k: int)
    requires RingInv(s.ring) && Readable(s.ring, k) && s.ring.consumed <= k && !Answers(s, k + 1)
    ensures forall x :: Contiguous(s.ring, x) ==> x <= k
  {
    CellIff(s.ring, k + 1);
    forall x | Contiguous(s.ring, x) ensures x <= k {
      assert k < x ==> k + 1 in s.ring.done;
    }
  }

  // ---------------------------------------------------------------- nodes stay in one place

  /** The list at every place and the place of every node are unchanged. */
  ghost predicate Steady<V>(s: State<V>, t: State<V>) {
    && (forall p :: Held(t, p) == Held(s, p))
    && s.waits.Keys <= t.waits.Keys
    && (forall n :: n in s.waits ==> t.waits[n].place == s.waits[n].place)
    && (forall n :: n in t.waits && n !in s.waits ==> !Listed(t.waits[n].place))
  }

  lemma SteadyPlaced<V>(s: State<V>, t: State<V>)
    requires Placed(s) && Steady(s, t)
    ensures Placed(t)
  {
    forall p ensures ListOk(t.waits, Held(t, p), p) {
      assert ListOk(s.waits, Held(s, p), p);
    }
    forall n | n in t.waits ensures NodeOk(t, n) {
      if n in s.waits {
        assert NodeOk(s, n);
      }
    }
  }

  lemma SetWaitPlaced<V>(s: State<V>, n: Id, w: Wait)
    requires Placed(s)
    requires n in s.waits ==> w.hold == s.waits[n].hold && w.wake == s.waits[n].wake && w.place == s.waits[n].place
    requires n !in s.waits ==> w.hold == [] && w.wake == [] && !Listed(w.place)
    ensures Placed(SetWait(s, n, w))
  {
    var t := SetWait(s, n, w);
    forall p ensures Held(t, p) == Held(s, p) {}
    SteadyPlaced(s, t);
  }

  lemma SetNotePlaced<V>(s: State<V>, p: Id, c: Note)
    requires Placed(s)
    requires p in s.notes ==> c.taken == s.notes[p].taken && c.hold == s.notes[p].hold && c.wake == s.notes[p].wake
    requires p !in s.notes ==> c.taken == [] && c.hold == [] && c.wake == []
    ensures Placed(SetNote(s, p, c))
  {
    var t := SetNote(s, p, c);
    forall q ensures Held(t, q) == Held(s, q) {}
    SteadyPlaced(s, t);
  }

  lemma BeginPlaced<V>(s: State<V>, n: Id)
    requires Placed(s) && WaitIn(s, n, Fresh) && Consistent(n, s.waits[n])
    ensures Placed(DoBegin(s, n))
  {
    var t := DoBegin(s, n);
    forall p ensures ListOk(t.waits, Held(t, p), p) {
      assert ListOk(s.waits, Held(s, p), p);
      assert p != Own(n) ==> Held(t, p) == Held(s, p);
    }
    forall m | m in t.waits ensures NodeOk(t, m) {
      assert NodeOk(s, m);
    }
  }

  lemma LinkPlaced<V>(s: State<V>, n: Id)
    requires Placed(s) && WaitIn(s, n, Link) && s.waits[n].expected == Head(s.queue)
    ensures Placed(DoLink(s, n))
  {
    var t := DoLink(s, n);
    var hold := s.waits[n].hold;
    assert hold == Held(s, Own(n)) && s.queue == Held(s, Shared);
    forall p ensures ListOk(t.waits, Held(t, p), p) {
      if p == Shared {
        NoDupConcat(hold, s.queue);
      } else if p != Own(n) {
        assert Held(t, p) == Held(s, p);
      }
    }
    forall m | m in t.waits ensures NodeOk(t, m) {
      assert NodeOk(s, m);
    }
  }

  lemma {:induction false} SweepTakesAll(xs: seq<Id>, localTarget: int, known: int)
    requires localTarget <= known
    ensures ResumedBySweep(xs, localTarget, known) == xs
  {
    if xs != [] {
      SweepTakesAll(xs[1..], localTarget, known);
    }
  }

  lemma SweepNode<V>(s: State<V>, n: Id, m: Id)
    requires WaitIn(s, n, Sweep) && s.waits[n].wake == [] && s.waits[n].target <= s.waits[n].known
    requires m in s.waits && NodeOk(s, m)
    ensures NodeOk(DoSweep(s, n), m)
  {
    SweepTakesAll(s.queue, s.waits[n].target, s.waits[n].known);
    hide ResumedBySweep;
  }

  lemma SweepPlaced<V>(s: State<V>, n: Id)
    requires Placed(s) && WaitIn(s, n, Sweep) && s.waits[n].wake == [] && s.waits[n].target <= s.waits[n].known
    ensures Placed(DoSweep(s, n))
  {
    hide ResumedBySweep;
    var t := DoSweep(s, n);
    SweepTakesAll(s.queue, s.waits[n].target, s.waits[n].known);
    assert s.queue == Held(s, Shared) && Held(s, SweepList(n)) == [];
    forall p ensures ListOk(t.waits, Held(t, p), p) {
      if p != SweepList(n) && p != Shared {
        assert Held(t, p) == Held(s, p);
      }
    }
    forall m | m in t.waits ensures NodeOk(t, m) {
      assert NodeOk(s, m);
      SweepNode(s, n, m);
    }
  }

  lemma NoteTakePlaced<V>(s: State<V>, p: Id)
    requires Placed(s) && p in s.notes && s.notes[p].taken == []
    ensures Placed(DoNoteTake(s, p))
  {
    var t := DoNoteTake(s, p);
    assert s.queue == Held(s, Shared) && Held(s, Taken(p)) == [];
    forall q ensures ListOk(t.waits, Held(t, q), q) {
      if q != Taken(p) && q != Shared {
        assert Held(t, q) == Held(s, q);
      }
    }
    forall m | m in t.waits ensures NodeOk(t, m) {
      assert NodeOk(s, m);
    }
  }

  /** `later` and `reached` share out the nodes of `xs`, all of which are at `p`. */
  ghost predicate Shares(ws: map<Id, Wait>, xs: seq<Id>, p: Place, known: int, later: seq<Id>, reached: seq<Id>) {
    && ListOk(ws, later, p) && ListOk(ws, reached, p)
    && (forall n :: n in xs <==> n in later || n in reached)
    && (forall n :: n in later ==> known < ws[n].target)
    && AllDue(ws, reached, known)
  }

  lemma SplitShares(ws: map<Id, Wait>, xs: seq<Id>, known: int, p: Place)
    requires ListOk(ws, xs, p)
    ensures Shares(ws, xs, p, known, Later(ws, xs, known), Reached(ws, xs, known))
  {
    var f := n => n in ws && known < ws[n].target;
    var g := n => !(n in ws && known < ws[n].target);
    SelectMembers(xs, f);
    SelectMembers(xs, g);
    SelectNoDup(xs, f);
    SelectNoDup(xs, g);
  }

  lemma TakenShares<V>(s: State<V>, p: Id)
    requires Placed(s) && p in s.notes
    ensures var c := s.notes[p];
            Shares(s.waits, c.taken, Taken(p), c.known, Later(s.waits, c.taken, c.known), Reached(s.waits, c.taken, c.known))
  {
    assert s.notes[p].taken == Held(s, Taken(p));
    SplitShares(s.waits, s.notes[p].taken, s.notes[p].known, Taken(p));
  }

  lemma DividePlaced<V>(s: State<V>, p: Id, later: seq<Id>, reached: seq<Id>)
    requires Placed(s) && Noting(s, p, NScan) && s.notes[p].hold == []
    requires Shares(s.waits, s.notes[p].taken, Taken(p), s.notes[p].known, later, reached)
    ensures Placed(NoteDivide(s, p, later, reached))
  {
    var t := NoteDivide(s, p, later, reached);
    var wake := s.notes[p].wake;
    assert wake == Held(s, Due(p));
    forall q ensures ListOk(t.waits, Held(t, q), q) {
      if q == Due(p) {
        NoDupConcat(wake, reached);
      } else if q != Hold(p) && q != Taken(p) {
        assert Held(t, q) == Held(s, q);
      }
    }
    forall m | m in t.waits ensures NodeOk(t, m) {
      DivideNode(s, p, later, reached, m);
    }
  }

  lemma DivideNode<V>(s: State<V>, p: Id, later: seq<Id>, reached: seq<Id>, m: Id)
    requires Placed(s) && Noting(s, p, NScan) && s.notes[p].hold == [] && m in s.waits
    requires Shares(s.waits, s.notes[p].taken, Taken(p), s.notes[p].known, later, reached)
    ensures m in NoteDivide(s, p, later, reached).waits && NodeOk(NoteDivide(s, p, later, reached), m)
  {
    assert NodeOk(s, m);
  }

  lemma NoteLinkPlaced<V>(s: State<V>, p: Id)
    requires Placed(s) && Noting(s, p, NLink) && s.notes[p].expected == Head(s.queue)
    ensures Placed(DoNoteLink(s, p))
  {
    var t := DoNoteLink(s, p);
    var hold := s.notes[p].hold;
    assert hold == Held(s, Hold(p)) && s.queue == Held(s, Shared);
    forall q ensures ListOk(t.waits, Held(t, q), q) {
      if q == Shared {
        NoDupConcat(hold, s.queue);
      } else if q != Hold(p) {
        assert Held(t, q) == Held(s, q);
      }
    }
    forall m | m in t.waits ensures NodeOk(t, m) {
      assert NodeOk(s, m);
    }
  }

  /** Raising the flag of a node removes it from the list it heads and leaves the other lists alone. */
  lemma RaiseLists(ws: map<Id, Wait>, w: seq<Id>, from: Place, known: int, via: Place, ys: seq<Id>, q: Place)
    requires w != [] && w[0] in ws && ListOk(ws, w, from) && ListOk(ws, ys, q)
    ensures q != from ==> ListOk(Raise(ws, w[0], known, via), ys, q)
    ensures ListOk(Raise(ws, w[0], known, via), w[1..], from)
  {
    assert w[0] in w;
  }

  lemma WakeNextNode<V>(s: State<V>, n: Id, m: Id)
    requires WaitIn(s, n, Wake) && s.waits[n].wake != [] && s.waits[n].wake[0] in s.waits
    requires m in s.waits && NodeOk(s, m)
    ensures NodeOk(DoWakeNext(s, n), m)
  {
    var w := s.waits[n].wake;
    assert w == [w[0]] + w[1..];
  }

  lemma WakeNextPlaced<V>(s: State<V>, n: Id)
    requires Placed(s) && WaitIn(s, n, Wake) && s.waits[n].wake != [] && s.waits[n].wake[0] in s.waits
    ensures Placed(DoWakeNext(s, n))
  {
    var t := DoWakeNext(s, n);
    var w := s.waits[n].wake;
    assert w == Held(s, SweepList(n));
    forall p ensures ListOk(t.waits, Held(t, p), p) {
      RaiseLists(s.waits, w, SweepList(n), s.waits[n].known, Swept, Held(s, p), p);
      if p != SweepList(n) {
        assert Held(t, p) == Held(s, p);
      }
    }
    forall m | m in t.waits ensures NodeOk(t, m) {
      assert NodeOk(s, m);
      WakeNextNode(s, n, m);
    }
  }

  lemma NoteResumeNode<V>(s: State<V>, p: Id, m: Id)
    requires Noting(s, p, NWake) && s.notes[p].wake != [] && s.notes[p].wake[0] in s.waits && m in s.waits && NodeOk(s, m)
    ensures NodeOk(DoNoteResume(s, p), m)
  {
    var w := s.notes[p].wake;
    assert w == [w[0]] + w[1..];
  }

  lemma NoteResumePlaced<V>(s: State<V>, p: Id)
    requires Placed(s) && Noting(s, p, NWake) && s.notes[p].wake != [] && s.notes[p].wake[0] in s.waits
    ensures Placed(DoNoteResume(s, p))
  {
    var t := DoNoteResume(s, p);
    var w := s.notes[p].wake;
    assert w == Held(s, Due(p));
    forall q ensures ListOk(t.waits, Held(t, q), q) {
      RaiseLists(s.waits, w, Due(p), s.notes[p].known, Served, Held(s, q), q);
      if q != Due(p) {
        assert Held(t, q) == Held(s, q);
      }
    }
    forall m | m in t.waits ensures NodeOk(t, m) {
      assert NodeOk(s, m);
      NoteResumeNode(s, p, m);
    }
  }

  // ---------------------------------------------------------------- flags, phases and counts

  predicate SameButPlace(w: Wait, w': Wait) {
    w' == w.(place := w'.place, lastKnown := w'.lastKnown)
    && (w'.place == w.place || (Listed(w.place) && Listed(w'.place)))
  }

  /** Nothing changes but places, and those only between lists, and what a node between lists is told. */
  ghost predicate SamePlus(ws: map<Id, Wait>, ws': map<Id, Wait>) {
    && ws'.Keys == ws.Keys
    && forall n :: n in ws ==> SameButPlace(ws[n], ws'[n]) && (ws'[n].lastKnown == ws[n].lastKnown || Listed(ws[n].place))
  }

  lemma RelocateSame(ws: map<Id, Wait>, xs: seq<Id>, from: Place, p: Place)
    requires ListOk(ws, xs, from) && Listed(from) && Listed(p)
    ensures SamePlus(ws, Relocate(ws, xs, p))
  {
  }

  lemma RenewSame(ws: map<Id, Wait>, xs: seq<Id>, p: Place, ys: seq<Id>, q: Place, known: int, from: Place)
    requires ListOk(ws, xs, from) && ListOk(ws, ys, from) && Listed(from) && Listed(p) && Listed(q)
    ensures SamePlus(ws, Renew(Renew(ws, xs, p, known), ys, q, known))
  {
  }

  lemma SameConsistent(ws: map<Id, Wait>, ws': map<Id, Wait>)
    requires SamePlus(ws, ws') && forall n :: n in ws ==> Consistent(n, ws[n])
    ensures forall n :: n in ws' ==> Consistent(n, ws'[n])
  {
    forall n | n in ws' ensures Consistent(n, ws'[n]) {
      assert Consistent(n, ws[n]) && SameButPlace(ws[n], ws'[n]);
    }
  }

  lemma LinkConsistent<V>(s: State<V>, n: Id)
    requires Placed(s) && AllConsistent(s) && WaitIn(s, n, Link)
    ensures AllConsistent(DoLink(s, n))
  {
    hide NoteConsistent;
    assert s.waits[n].hold == Held(s, Own(n));
    RelocateSame(s.waits, s.waits[n].hold, Own(n), Shared);
    SameConsistent(s.waits, Relocate(s.waits, s.waits[n].hold, Shared));
  }

  lemma SweepConsistent<V>(s: State<V>, n: Id)
    requires Placed(s) && AllConsistent(s) && WaitIn(s, n, Sweep)
    ensures AllConsistent(DoSweep(s, n))
  {
    hide NoteConsistent, ListOk;
    assert s.queue == Held(s, Shared);
    RelocateSame(s.waits, s.queue, Shared, SweepList(n));
    SameConsistent(s.waits, Relocate(s.waits, s.queue, SweepList(n)));
  }

  lemma NoteTakeConsistent<V>(s: State<V>, p: Id)
    requires Placed(s) && AllConsistent(s) && (Noting(s, p, NTake) || Noting(s, p, NRetake))
    ensures AllConsistent(DoNoteTake(s, p))
  {
    assert s.queue == Held(s, Shared);
    RelocateSame(s.waits, s.queue, Shared, Taken(p));
    SameConsistent(s.waits, Relocate(s.waits, s.queue, Taken(p)));
  }

  lemma DivideConsistent<V>(s: State<V>, p: Id, later: seq<Id>, reached: seq<Id>)
    requires AllConsistent(s) && Noting(s, p, NScan)
    requires Shares(s.waits, s.notes[p].taken, Taken(p), s.notes[p].known, later, reached)
    ensures AllConsistent(NoteDivide(s, p, later, reached))
  {
    RenewSame(s.waits, later, Hold(p), reached, Due(p), s.notes[p].known, Taken(p));
    SameConsistent(s.waits, NoteDivide(s, p, later, reached).waits);
  }

  lemma NoteLinkConsistent<V>(s: State<V>, p: Id)
    requires Placed(s) && AllConsistent(s) && Noting(s, p, NLink)
    ensures AllConsistent(DoNoteLink(s, p))
  {
    assert s.notes[p].hold == Held(s, Hold(p));
    RelocateSame(s.waits, s.notes[p].hold, Hold(p), Shared);
    SameConsistent(s.waits, DoNoteLink(s, p).waits);
  }

  lemma RaiseConsistent(ws: map<Id, Wait>, m: Id, known: int, via: Place)
    requires forall n :: n in ws ==> Consistent(n, ws[n])
    requires m in ws && Listed(ws[m].place) && Raised(via)
    ensures forall n :: n in ws ==> Consistent(n, Raise(ws, m, known, via)[n])
  {
    assert Consistent(m, ws[m]);
  }

  lemma WakeNextConsistent<V>(s: State<V>, n: Id)
    requires Placed(s) && AllConsistent(s) && WaitIn(s, n, Wake) && s.waits[n].wake != [] && s.waits[n].wake[0] in s.waits
    ensures AllConsistent(DoWakeNext(s, n))
  {
    var w := s.waits[n].wake;
    assert w == Held(s, SweepList(n)) && w[0] in w;
    RaiseConsistent(s.waits, w[0], s.waits[n].known, Swept);
  }

  lemma NoteResumeConsistent<V>(s: State<V>, p: Id)
    requires Placed(s) && AllConsistent(s) && Noting(s, p, NWake) && s.notes[p].wake != [] && s.notes[p].wake[0] in s.waits
    ensures AllConsistent(DoNoteResume(s, p))
  {
    var w := s.notes[p].wake;
    assert w == Held(s, Due(p)) && w[0] in w;
    RaiseConsistent(s.waits, w[0], s.notes[p].known, Served);
  }

  // ---------------------------------------------------------------- sequence numbers

  /** Targets and starting numbers never change. */
  ghost predicate SameGoals(ws: map<Id, Wait>, ws': map<Id, Wait>) {
    forall m :: m in ws ==> m in ws' && ws'[m].target == ws[m].target && ws'[m].start == ws[m].start
  }

  lemma NoteFrame<V>(r: Ring<V>, ws: map<Id, Wait>, ws': map<Id, Wait>, c: Note)
    requires NoteOk(r, ws, c) && SameGoals(ws, ws')
    ensures NoteOk(r, ws', c)
  {
  }

  /** What holds of one operation or one call survives any change to the others. */
  lemma ValuesFrame<V>(s: State<V>, t: State<V>)
    requires Values(s) && s.ring == t.ring && SameGoals(s.waits, t.waits)
    requires forall n :: n in t.waits ==> WaitOk(t.ring, t.waits[n])
    requires forall p :: p in t.notes ==> (p in s.notes && t.notes[p] == s.notes[p]) || NoteOk(t.ring, t.waits, t.notes[p])
    ensures Values(t)
  {
    forall p | p in t.notes ensures NoteOk(t.ring, t.waits, t.notes[p]) {
      if p in s.notes && t.notes[p] == s.notes[p] {
        NoteFrame(s.ring, s.waits, t.waits, s.notes[p]);
      }
    }
  }

  lemma SetWaitValues<V>(s: State<V>, n: Id, w: Wait)
    requires Values(s) && WaitOk(s.ring, w)
    requires n in s.waits ==> w.target == s.waits[n].target && w.start == s.waits[n].start
    ensures Values(SetWait(s, n, w))
  {
    ValuesFrame(s, SetWait(s, n, w));
  }

  lemma SetNoteValues<V>(s: State<V>, p: Id, c: Note)
    requires Values(s) && NoteOk(s.ring, s.waits, c)
    ensures Values(SetNote(s, p, c))
  {
    ValuesFrame(s, SetNote(s, p, c));
  }

  lemma RelocateValues<V>(s: State<V>, xs: seq<Id>, from: Place, p: Place)
    requires Values(s) && ListOk(s.waits, xs, from) && Listed(from) && Listed(p)
    ensures forall n :: n in s.waits ==> WaitOk(s.ring, Relocate(s.waits, xs, p)[n])
  {
    forall n | n in s.waits ensures WaitOk(s.ring, Relocate(s.waits, xs, p)[n]) {
      assert WaitOk(s.ring, s.waits[n]);
    }
  }

  lemma LinkValues<V>(s: State<V>, n: Id)
    requires Placed(s) && Values(s) && WaitIn(s, n, Link)
    ensures Values(DoLink(s, n))
  {
    hide NoteOk;
    var hold := s.waits[n].hold;
    assert hold == Held(s, Own(n));
    RelocateValues(s, hold, Own(n), Shared);
    ValuesFrame(s, DoLink(s, n));
  }

  lemma SweepWaits<V>(s: State<V>, n: Id)
    requires Placed(s) && Values(s) && WaitIn(s, n, Sweep)
    ensures forall m :: m in s.waits ==> WaitOk(s.ring, DoSweep(s, n).waits[m])
  {
    hide NoteOk;
    assert s.queue == Held(s, Shared);
    RelocateValues(s, s.queue, Shared, SweepList(n));
  }

  lemma SweepValues<V>(s: State<V>, n: Id)
    requires Placed(s) && Values(s) && WaitIn(s, n, Sweep)
    ensures Values(DoSweep(s, n))
  {
    hide NoteOk, WaitOk;
    SweepWaits(s, n);
    ValuesFrame(s, DoSweep(s, n));
  }

  lemma NoteTakeValues<V>(s: State<V>, p: Id)
    requires Placed(s) && AllConsistent(s) && Values(s) && (Noting(s, p, NTake) || Noting(s, p, NRetake))
    ensures Values(DoNoteTake(s, p))
  {
    hide WaitOk, NoteOk, Placed;
    NoteTakeNote(s, p);
    NoteTakeWaits(s, p);
    ValuesFrame(s, DoNoteTake(s, p));
  }

  lemma NoteTakeWaits<V>(s: State<V>, p: Id)
    requires Placed(s) && Values(s) && p in s.notes
    ensures forall n :: n in s.waits ==> WaitOk(s.ring, DoNoteTake(s, p).waits[n])
  {
    assert s.queue == Held(s, Shared);
    RelocateValues(s, s.queue, Shared, Taken(p));
  }

  lemma NoteTakeNote<V>(s: State<V>, p: Id)
    requires Placed(s) && AllConsistent(s) && Values(s) && (Noting(s, p, NTake) || Noting(s, p, NRetake))
    ensures NoteOk(s.ring, DoNoteTake(s, p).waits, DoNoteTake(s, p).notes[p])
  {
    var c := s.notes[p];
    assert NoteOk(s.ring, s.waits, c) && NoteConsistent(c);
    assert s.queue == Held(s, Shared);
    if s.queue != [] {
      var m := s.queue[0];
      assert m in s.queue && WaitOk(s.ring, s.waits[m]);
    }
  }

  lemma {:induction false} EarliestBound(ws: map<Id, Wait>, xs: seq<Id>, known: int)
    requires forall n :: n in xs ==> n in ws && known < ws[n].target
    ensures forall n :: n in xs ==> Earliest(ws, xs) <= ws[n].target
    ensures xs != [] ==> known < Earliest(ws, xs)
  {
    if |xs| > 1 {
      EarliestBound(ws, xs[1..], known);
    }
    if xs != [] {
      assert xs[0] in xs;
    }
  }

  /** The first node of the list being scanned for holds the consumers back behind the scan. */
  lemma TakenHoldsBack<V>(s: State<V>, p: Id)
    requires Placed(s) && AllConsistent(s) && Values(s) && Noting(s, p, NScan)
    ensures s.ring.consumed <= s.notes[p].known && Readable(s.ring, s.notes[p].known)
  {
    var c := s.notes[p];
    var m := c.taken[0];
    assert NoteOk(s.ring, s.waits, c) && m in Held(s, Taken(p));
    assert WaitOk(s.ring, s.waits[m]) && Consistent(m, s.waits[m]);
  }

  /** So it ends at the end of the published prefix. */
  lemma ScanEnds<V>(s: State<V>, p: Id)
    requires RingInv(s.ring) && Placed(s) && AllConsistent(s) && Values(s)
    requires Noting(s, p, NScan) && !Answers(s, s.notes[p].known + 1)
    ensures forall x :: Contiguous(s.ring, x) ==> x <= s.notes[p].known
  {
    TakenHoldsBack(s, p);
    SilenceMeansEnd(s, s.notes[p].known);
  }

  lemma DivideValues<V>(s: State<V>, p: Id, later: seq<Id>, reached: seq<Id>)
    requires RingInv(s.ring) && Placed(s) && AllConsistent(s) && Values(s)
    requires Noting(s, p, NScan) && !Answers(s, s.notes[p].known + 1)
    requires Shares(s.waits, s.notes[p].taken, Taken(p), s.notes[p].known, later, reached)
    ensures Values(NoteDivide(s, p, later, reached))
  {
    hide RingInv, Shares, WaitOk, NoteOk;
    ScanEnds(s, p);
    DivideWaits(s, p, later, reached);
    assert NoteConsistent(s.notes[p]);
    DivideNote(s, p, later, reached);
    ValuesFrame(s, NoteDivide(s, p, later, reached));
  }

  lemma DivideWaits<V>(s: State<V>, p: Id, later: seq<Id>, reached: seq<Id>)
    requires Values(s) && Noting(s, p, NScan)
    requires forall x :: Contiguous(s.ring, x) ==> x <= s.notes[p].known
    requires Shares(s.waits, s.notes[p].taken, Taken(p), s.notes[p].known, later, reached)
    ensures forall n :: n in s.waits ==> WaitOk(s.ring, NoteDivide(s, p, later, reached).waits[n])
  {
    assert NoteOk(s.ring, s.waits, s.notes[p]);
    forall n | n in s.waits ensures WaitOk(s.ring, NoteDivide(s, p, later, reached).waits[n]) {
      assert WaitOk(s.ring, s.waits[n]);
    }
  }

  lemma DivideNote<V>(s: State<V>, p: Id, later: seq<Id>, reached: seq<Id>)
    requires Values(s) && Noting(s, p, NScan) && s.notes[p].taken != []
    requires forall x :: Contiguous(s.ring, x) ==> x <= s.notes[p].known
    requires Shares(s.waits, s.notes[p].taken, Taken(p), s.notes[p].known, later, reached)
    ensures NoteOk(s.ring, NoteDivide(s, p, later, reached).waits, NoteDivide(s, p, later, reached).notes[p])
  {
    var c := s.notes[p];
    assert NoteOk(s.ring, s.waits, c);
    EarliestBound(s.waits, later, c.known);
    forall m | m in later ensures s.waits[m].start <= c.known {
      assert WaitOk(s.ring, s.waits[m]);
    }
  }

  lemma NoteLinkValues<V>(s: State<V>, p: Id)
    requires Placed(s) && Values(s) && Noting(s, p, NLink)
    ensures Values(DoNoteLink(s, p))
  {
    var hold := s.notes[p].hold;
    assert hold == Held(s, Hold(p)) && NoteOk(s.ring, s.waits, s.notes[p]);
    RelocateValues(s, hold, Hold(p), Shared);
    NoteFrame(s.ring, s.waits, DoNoteLink(s, p).waits, s.notes[p].(phase := NRescan, hold := []));
    ValuesFrame(s, DoNoteLink(s, p));
  }

  lemma RaiseValues<V>(s: State<V>, m: Id, known: int, via: Place)
    requires Values(s) && m in s.waits && Readable(s.ring, known) && Raised(via)
    requires via == Served ==> s.waits[m].target <= known
    ensures Values(s.(waits := Raise(s.waits, m, known, via)))
  {
    assert WaitOk(s.ring, s.waits[m]);
    SetWaitValues(s, m, Raise(s.waits, m, known, via)[m]);
  }

  lemma WakeNextValues<V>(s: State<V>, n: Id)
    requires Placed(s) && AllConsistent(s) && Values(s)
    requires WaitIn(s, n, Wake) && s.waits[n].wake != [] && s.waits[n].wake[0] in s.waits
    ensures Values(DoWakeNext(s, n))
  {
    var w := s.waits[n].wake;
    assert WaitOk(s.ring, s.waits[n]);
    RaiseValues(s, w[0], s.waits[n].known, Swept);
    var t := s.(waits := Raise(s.waits, w[0], s.waits[n].known, Swept));
    SetWaitValues(t, n, t.waits[n].(wake := w[1..]));
  }

  lemma NoteResumeValues<V>(s: State<V>, p: Id)
    requires Placed(s) && AllConsistent(s) && Values(s)
    requires Noting(s, p, NWake) && s.notes[p].wake != [] && s.notes[p].wake[0] in s.waits
    ensures Values(DoNoteResume(s, p))
  {
    var c := s.notes[p];
    assert NoteOk(s.ring, s.waits, c) && NoteConsistent(c) && c.wake[0] in c.wake;
    RaiseValues(s, c.wake[0], c.known, Served);
    var t := s.(waits := Raise(s.waits, c.wake[0], c.known, Served));
    assert NoteOk(t.ring, t.waits, c);
    SetNoteValues(t, p, c.(wake := c.wake[1..]));
  }

  // ---------------------------------------------------------------- no queued node is forgotten

  /** Coverage of one node survives a step that keeps everybody's intention towards it. */
  lemma CoveredStays<V>(s: State<V>, t: State<V>, w: Wait, w': Wait)
    requires Covered(s, w) && w'.target == w.target && w'.start == w.start
    requires s.notes.Keys <= t.notes.Keys && s.waits.Keys <= t.waits.Keys
    requires forall p :: p in s.notes && NoteWillTake(s.notes[p], w) ==> NoteWillTake(t.notes[p], w)
    requires forall c :: c in s.waits && WaitWillTake(s.waits[c], w) ==> WaitWillTake(t.waits[c], w)
    ensures Covered(t, w')
  {
    if p :| p in s.notes && NoteWillTake(s.notes[p], w) {
      assert NoteWillTake(t.notes[p], w');
    } else {
      var c :| c in s.waits && WaitWillTake(s.waits[c], w);
      assert WaitWillTake(t.waits[c], w');
    }
  }

  /** A node in the queue has not continued, so it holds back the consumers. */
  lemma QueuedHoldsBack<V>(s: State<V>, n: Id)
    requires Placed(s) && AllConsistent(s) && Values(s) && n in s.queue
    ensures n in s.waits && s.waits[n].continued == 0 && s.ring.consumed <= s.waits[n].start
  {
    assert n in Held(s, Shared);
    assert Consistent(n, s.waits[n]) && WaitOk(s.ring, s.waits[n]);
  }

  ghost predicate Satisfied<V>(s: State<V>, m: Id) {
    m in s.queue && m in s.waits && Contiguous(s.ring, s.waits[m].target)
  }

  /** Whatever satisfied node `c` was bound to find, `d` is too. */
  ghost predicate WaitKeepsWatch<V>(s: State<V>, c: Wait, d: Wait) {
    forall m :: Satisfied(s, m) && WaitWillTake(c, s.waits[m]) ==> WaitWillTake(d, s.waits[m])
  }

  ghost predicate NoteKeepsWatch<V>(s: State<V>, c: Note, d: Note) {
    forall m :: Satisfied(s, m) && NoteWillTake(c, s.waits[m]) ==> NoteWillTake(d, s.waits[m])
  }

  /** A step of one wait operation that leaves the queue alone. */
  lemma SetWaitWatched<V>(s: State<V>, n: Id, w: Wait)
    requires Placed(s) && Watched(s)
    requires n in s.waits ==> w.target == s.waits[n].target && w.start == s.waits[n].start
    requires n in s.waits ==> WaitKeepsWatch(s, s.waits[n], w)
    ensures Watched(SetWait(s, n, w))
  {
    var t := SetWait(s, n, w);
    assert s.queue == Held(s, Shared);
    forall m | m in t.queue && m in t.waits && Contiguous(t.ring, t.waits[m].target) ensures Covered(t, t.waits[m]) {
      assert Satisfied(s, m);
      CoveredStays(s, t, s.waits[m], t.waits[m]);
    }
  }

  /** A step of one notifying call that leaves the queue alone. */
  lemma SetNoteWatched<V>(s: State<V>, p: Id, c: Note)
    requires Placed(s) && Watched(s)
    requires p in s.notes ==> NoteKeepsWatch(s, s.notes[p], c)
    ensures Watched(SetNote(s, p, c))
  {
    var t := SetNote(s, p, c);
    forall m | m in t.queue && m in t.waits && Contiguous(t.ring, t.waits[m].target) ensures Covered(t, t.waits[m]) {
      assert Satisfied(s, m);
      CoveredStays(s, t, s.waits[m], t.waits[m]);
    }
  }

  lemma LinkWatched<V>(s: State<V>, n: Id)
    requires Placed(s) && AllConsistent(s) && Values(s) && Watched(s) && WaitIn(s, n, Link)
    ensures Watched(DoLink(s, n))
  {
    hide NoteOk, WaitOk;
    var t := DoLink(s, n);
    forall m | m in t.queue && m in t.waits && Contiguous(t.ring, t.waits[m].target) ensures Covered(t, t.waits[m]) {
      if m == n {
        LinkTakes(s, n);
      } else {
        assert Consistent(n, s.waits[n]);
        CoveredStays(s, t, s.waits[m], t.waits[m]);
      }
    }
  }

  /** A waiter that has just linked itself will look for its own target. */
  lemma LinkTakes<V>(s: State<V>, n: Id)
    requires Values(s) && WaitIn(s, n, Link)
    ensures var t := DoLink(s, n); WaitWillTake(t.waits[n], t.waits[n]) && Covered(t, t.waits[n])
  {
    hide NoteWillTake, NoteOk;
    assert WaitOk(s.ring, s.waits[n]);
    assert WaitWillTake(DoLink(s, n).waits[n], DoLink(s, n).waits[n]);
  }

  lemma NoteLinkWatched<V>(s: State<V>, p: Id)
    requires Placed(s) && Values(s) && Watched(s) && Noting(s, p, NLink)
    ensures Watched(DoNoteLink(s, p))
  {
    var t := DoNoteLink(s, p);
    assert NoteOk(s.ring, s.waits, s.notes[p]);
    forall m | m in t.queue && m in t.waits && Contiguous(t.ring, t.waits[m].target) ensures Covered(t, t.waits[m]) {
      if m in s.notes[p].hold {
        assert NoteWillTake(t.notes[p], t.waits[m]);
      } else {
        CoveredStays(s, t, s.waits[m], t.waits[m]);
      }
    }
  }

  // ---------------------------------------------------------------- claiming, publishing and consuming

  lemma RingGrows<V>(r: Ring<V>, move: RingStep<V>)
    requires RingInv(r) && RingEnabled(r, move)
    ensures var t := RingDo(r, move);
            && t.first == r.first && r.done <= t.done
            && t.consumed == (if move.Consume? then move.upTo else r.consumed)
  {
  }

  /** Only the store of a front number makes more numbers readable. */
  lemma NewlyReadable<V>(r: Ring<V>, move: RingStep<V>, x: int)
    requires RingInv(r) && RingEnabled(r, move) && !move.StoreFront? && Contiguous(RingDo(r, move), x)
    ensures Contiguous(r, x)
  {
    if move.StoreNext? {
      var c := r.claims[move.p];
      OutstandingInWindow(r, move.p, c.lo);
      assert ClaimOk(r, c);
      assert r.first <= c.lo && c.lo !in RingDo(r, move).done;
      assert x < c.lo;
    }
  }

  lemma RingValues<V>(s: State<V>, move: RingStep<V>)
    requires RingInv(s.ring) && Values(s) && RingEnabled(s.ring, move)
    requires move.Consume? ==> HoldsBack(s, move.upTo)
    ensures Values(s.(ring := RingDo(s.ring, move)))
  {
    var r := RingDo(s.ring, move);
    RingGrows(s.ring, move);
    forall n | n in s.waits ensures WaitOk(r, s.waits[n]) {
      assert WaitOk(s.ring, s.waits[n]);
    }
    forall p | p in s.notes ensures NoteOk(r, s.waits, s.notes[p]) {
      assert NoteOk(s.ring, s.waits, s.notes[p]);
    }
  }

  lemma RingWatched<V>(s: State<V>, move: RingStep<V>)
    requires RingInv(s.ring) && Watched(s) && RingEnabled(s.ring, move)
    ensures Watched(DoRing(s, move))
  {
    var t := DoRing(s, move);
    forall m | m in t.queue && m in t.waits && Contiguous(t.ring, t.waits[m].target) ensures Covered(t, t.waits[m]) {
      if move.StoreFront? {
        assert NoteWillTake(t.notes[move.p], t.waits[m]);
      } else {
        NewlyReadable(s.ring, move, s.waits[m].target);
        CoveredStays(s, t, s.waits[m], t.waits[m]);
      }
    }
  }

  lemma RingPlaced<V>(s: State<V>, move: RingStep<V>)
    requires Placed(s) && RingEnabled(s.ring, move) && (move.StoreFront? ==> move.p !in s.notes)
    ensures Placed(DoRing(s, move))
  {
    var t := s.(ring := RingDo(s.ring, move));
    SteadyPlaced(s, t);
    if move.StoreFront? {
      SetNotePlaced(t, move.p, NOTIFY);
    }
  }

  lemma RingKeeps<V>(s: State<V>, move: RingStep<V>)
    requires Inv(s) && Enabled(s, RingMove(move))
    ensures Inv(DoRing(s, move))
  {
    RingStepKeeps(s.ring, move);
    RingPlaced(s, move);
    RingValues(s, move);
    RingWatched(s, move);
    if move.StoreFront? {
      var t := s.(ring := RingDo(s.ring, move));
      SetNoteValues(t, move.p, NOTIFY);
    }
  }

  // ---------------------------------------------------------------- every step keeps the invariant

  /** A step that rewrites one wait operation without touching a list. */
  lemma SetWaitKeeps<V>(s: State<V>, n: Id, w: Wait)
    requires Inv(s) && Consistent(n, w) && WaitOk(s.ring, w)
    requires n in s.waits ==>
               && w.hold == s.waits[n].hold && w.wake == s.waits[n].wake && w.place == s.waits[n].place
               && w.target == s.waits[n].target && w.start == s.waits[n].start
    requires n in s.waits ==> WaitKeepsWatch(s, s.waits[n], w)
    requires n !in s.waits ==> w.hold == [] && w.wake == [] && !Listed(w.place)
    ensures Inv(SetWait(s, n, w))
  {
    SetWaitPlaced(s, n, w);
    SetWaitValues(s, n, w);
    SetWaitWatched(s, n, w);
  }

  /** A step that rewrites one notifying call without touching a list. */
  lemma SetNoteKeeps<V>(s: State<V>, p: Id, c: Note)
    requires Inv(s) && p in s.notes && NoteConsistent(c) && NoteOk(s.ring, s.waits, c)
    requires c.taken == s.notes[p].taken && c.hold == s.notes[p].hold && c.wake == s.notes[p].wake
    requires NoteKeepsWatch(s, s.notes[p], c)
    ensures Inv(SetNote(s, p, c))
  {
    SetNotePlaced(s, p, c);
    SetNoteValues(s, p, c);
    SetNoteWatched(s, p, c);
  }

  lemma ConstructKeeps<V>(s: State<V>, n: Id, target: int, start: int)
    requires Inv(s) && n !in s.waits && s.ring.consumed <= start && Contiguous(s.ring, start)
    ensures Inv(DoConstruct(s, n, target, start))
  {
    SetWaitKeeps(s, n, DoConstruct(s, n, target, start).waits[n]);
  }

  lemma BeginKeeps<V>(s: State<V>, n: Id)
    requires Inv(s) && WaitIn(s, n, Fresh)
    ensures Inv(DoBegin(s, n))
  {
    var w := DoBegin(s, n).waits[n];
    BeginOk(s, n);
    BeginPlaced(s, n);
    SetWaitValues(s, n, w);
    SetWaitWatched(s, n, w);
  }

  lemma BeginOk<V>(s: State<V>, n: Id)
    requires AllConsistent(s) && Values(s) && WaitIn(s, n, Fresh)
    ensures Consistent(n, s.waits[n]) && Consistent(n, DoBegin(s, n).waits[n]) && WaitOk(s.ring, DoBegin(s, n).waits[n])
  {
    assert Consistent(n, s.waits[n]) && WaitOk(s.ring, s.waits[n]);
  }

  lemma LoadHeadKeeps<V>(s: State<V>, n: Id)
    requires Inv(s) && WaitIn(s, n, Load)
    ensures Inv(DoLoadHead(s, n))
  {
    assert Consistent(n, s.waits[n]) && WaitOk(s.ring, s.waits[n]);
    SetWaitKeeps(s, n, DoLoadHead(s, n).waits[n]);
  }

  lemma LinkFailKeeps<V>(s: State<V>, n: Id)
    requires Inv(s) && WaitIn(s, n, Link)
    ensures Inv(DoLinkFail(s, n))
  {
    assert Consistent(n, s.waits[n]) && WaitOk(s.ring, s.waits[n]);
    SetWaitKeeps(s, n, DoLinkFail(s, n).waits[n]);
  }

  lemma LinkKeeps<V>(s: State<V>, n: Id)
    requires Inv(s) && WaitIn(s, n, Link) && s.waits[n].expected == Head(s.queue)
    ensures Inv(DoLink(s, n))
  {
    LinkPlaced(s, n);
    LinkConsistent(s, n);
    LinkValues(s, n);
    LinkWatched(s, n);
  }

  lemma ScanOnKeeps<V>(s: State<V>, n: Id)
    requires Inv(s) && WaitIn(s, n, Scan) && Answers(s, s.waits[n].known + 1)
    ensures Inv(DoScanOn(s, n))
  {
    assert Consistent(n, s.waits[n]) && WaitOk(s.ring, s.waits[n]);
    AnswerMeansPublished(s, s.waits[n].known);
    SetWaitKeeps(s, n, DoScanOn(s, n).waits[n]);
  }

  /** add_awaiter gives up only when none of the nodes it watches is satisfied. */
  lemma ScanStopKeeps<V>(s: State<V>, n: Id)
    requires Inv(s) && WaitIn(s, n, Scan) && !Answers(s, s.waits[n].known + 1)
    ensures Inv(DoScanStop(s, n))
  {
    var w := s.waits[n];
    assert Consistent(n, w) && WaitOk(s.ring, w);
    SilentWait(s, n);
    SetWaitKeeps(s, n, DoScanStop(s, n).waits[n]);
  }

  lemma SilentWait<V>(s: State<V>, n: Id)
    requires RingInv(s.ring) && Placed(s) && AllConsistent(s) && Values(s)
    requires WaitIn(s, n, Scan) && !Answers(s, s.waits[n].known + 1)
    ensures WaitKeepsWatch(s, s.waits[n], DoScanStop(s, n).waits[n])
  {
    var w := s.waits[n];
    assert WaitOk(s.ring, w);
    forall m | Satisfied(s, m) && WaitWillTake(w, s.waits[m]) ensures WaitWillTake(DoScanStop(s, n).waits[n], s.waits[m]) {
      SilentForNode(s, w.known, m);
    }
  }

  lemma SweepKeeps<V>(s: State<V>, n: Id)
    requires Inv(s) && WaitIn(s, n, Sweep)
    ensures Inv(DoSweep(s, n))
  {
    assert Consistent(n, s.waits[n]) && WaitOk(s.ring, s.waits[n]);
    SweepPlaced(s, n);
    SweepConsistent(s, n);
    SweepValues(s, n);
  }

  lemma WakeNextKeeps<V>(s: State<V>, n: Id)
    requires Inv(s) && WaitIn(s, n, Wake) && s.waits[n].wake != [] && s.waits[n].wake[0] in s.waits
    ensures Inv(DoWakeNext(s, n))
  {
    WakeNextPlaced(s, n);
    WakeNextConsistent(s, n);
    WakeNextValues(s, n);
    WakeNextWatched(s, n);
  }

  lemma WakeNextWatched<V>(s: State<V>, n: Id)
    requires Placed(s) && AllConsistent(s) && Watched(s)
    requires WaitIn(s, n, Wake) && s.waits[n].wake != [] && s.waits[n].wake[0] in s.waits
    ensures Watched(DoWakeNext(s, n))
  {
    var t := DoWakeNext(s, n);
    var k := s.waits[n].wake[0];
    assert k in Held(s, SweepList(n)) && s.queue == Held(s, Shared);
    assert Consistent(k, s.waits[k]);
    forall m | m in t.queue && m in t.waits && Contiguous(t.ring, t.waits[m].target) ensures Covered(t, t.waits[m]) {
      CoveredStays(s, t, s.waits[m], t.waits[m]);
    }
  }

  lemma WakeDoneKeeps<V>(s: State<V>, n: Id)
    requires Inv(s) && WaitIn(s, n, Wake) && s.waits[n].wake == []
    ensures Inv(DoWakeDone(s, n))
  {
    assert Consistent(n, s.waits[n]) && WaitOk(s.ring, s.waits[n]);
    SetWaitKeeps(s, n, DoWakeDone(s, n).waits[n]);
  }

  lemma LeaveKeeps<V>(s: State<V>, n: Id)
    requires Inv(s) && WaitIn(s, n, Leave)
    ensures Inv(DoLeave(s, n))
  {
    assert Consistent(n, s.waits[n]) && WaitOk(s.ring, s.waits[n]);
    SetWaitKeeps(s, n, DoLeave(s, n).waits[n]);
  }

  lemma NoteLoadKeeps<V>(s: State<V>, p: Id)
    requires Inv(s) && Noting(s, p, NLoad)
    ensures Inv(DoNoteLoad(s, p))
  {
    assert NoteConsistent(s.notes[p]) && NoteOk(s.ring, s.waits, s.notes[p]);
    SetNoteKeeps(s, p, DoNoteLoad(s, p).notes[p]);
  }

  lemma NoteTakeKeeps<V>(s: State<V>, p: Id)
    requires Inv(s) && (Noting(s, p, NTake) || Noting(s, p, NRetake))
    ensures Inv(DoNoteTake(s, p))
  {
    assert NoteConsistent(s.notes[p]);
    NoteTakePlaced(s, p);
    NoteTakeConsistent(s, p);
    NoteTakeValues(s, p);
  }

  lemma NoteScanKeeps<V>(s: State<V>, p: Id)
    requires Inv(s) && Noting(s, p, NScan) && Answers(s, s.notes[p].known + 1)
    ensures Inv(DoNoteScan(s, p))
  {
    assert NoteConsistent(s.notes[p]) && NoteOk(s.ring, s.waits, s.notes[p]);
    AnswerMeansPublished(s, s.notes[p].known);
    SetNoteKeeps(s, p, DoNoteScan(s, p).notes[p]);
  }

  lemma NoteSplitKeeps<V>(s: State<V>, p: Id)
    requires Inv(s) && Noting(s, p, NScan) && !Answers(s, s.notes[p].known + 1)
    ensures Inv(DoNoteSplit(s, p))
  {
    hide RingInv, Watched, Values;
    var c := s.notes[p];
    var later, reached := Later(s.waits, c.taken, c.known), Reached(s.waits, c.taken, c.known);
    assert c.taken == Held(s, Taken(p)) && NoteConsistent(c);
    SplitShares(s.waits, c.taken, c.known, Taken(p));
    DividePlaced(s, p, later, reached);
    DivideConsistent(s, p, later, reached);
    DivideValues(s, p, later, reached);
    DivideWatched(s, p, later, reached);
  }

  lemma DivideWatched<V>(s: State<V>, p: Id, later: seq<Id>, reached: seq<Id>)
    requires Watched(s) && Noting(s, p, NScan)
    ensures Watched(NoteDivide(s, p, later, reached))
  {
    var t := NoteDivide(s, p, later, reached);
    forall m | m in t.queue && m in t.waits && Contiguous(t.ring, t.waits[m].target) ensures Covered(t, t.waits[m]) {
      CoveredStays(s, t, s.waits[m], t.waits[m]);
    }
  }

  lemma NoteLinkKeeps<V>(s: State<V>, p: Id)
    requires Inv(s) && Noting(s, p, NLink) && s.notes[p].expected == Head(s.queue)
    ensures Inv(DoNoteLink(s, p))
  {
    NoteLinkPlaced(s, p);
    NoteLinkConsistent(s, p);
    NoteLinkValues(s, p);
    NoteLinkWatched(s, p);
  }

  lemma NoteLinkFailKeeps<V>(s: State<V>, p: Id)
    requires Inv(s) && Noting(s, p, NLink)
    ensures Inv(DoNoteLinkFail(s, p))
  {
    assert NoteConsistent(s.notes[p]) && NoteOk(s.ring, s.waits, s.notes[p]);
    SetNoteKeeps(s, p, DoNoteLinkFail(s, p).notes[p]);
  }

  lemma NoteRescanKeeps<V>(s: State<V>, p: Id)
    requires Inv(s) && Noting(s, p, NRescan) && Answers(s, s.notes[p].known + 1)
    ensures Inv(DoNoteRescan(s, p))
  {
    assert NoteConsistent(s.notes[p]) && NoteOk(s.ring, s.waits, s.notes[p]);
    AnswerMeansPublished(s, s.notes[p].known);
    SetNoteKeeps(s, p, DoNoteRescan(s, p).notes[p]);
  }

  /** A publication gives up only when none of the nodes it watches is satisfied. */
  lemma NoteStopKeeps<V>(s: State<V>, p: Id)
    requires Inv(s) && Noting(s, p, NRescan) && !Answers(s, s.notes[p].known + 1)
    ensures Inv(DoNoteStop(s, p))
  {
    assert NoteConsistent(s.notes[p]) && NoteOk(s.ring, s.waits, s.notes[p]);
    SilentNote(s, p);
    SetNoteKeeps(s, p, DoNoteStop(s, p).notes[p]);
  }

  lemma SilentNote<V>(s: State<V>, p: Id)
    requires RingInv(s.ring) && Placed(s) && AllConsistent(s) && Values(s)
    requires Noting(s, p, NRescan) && !Answers(s, s.notes[p].known + 1)
    ensures NoteKeepsWatch(s, s.notes[p], DoNoteStop(s, p).notes[p])
  {
    hide RingInv, Placed, WaitOk;
    assert NoteOk(s.ring, s.waits, s.notes[p]);
    forall m | Satisfied(s, m) ensures !NoteWillTake(s.notes[p], s.waits[m]) {
      SilentForNode(s, s.notes[p].known, m);
    }
  }

  /** A slot that stays silent after `k` says that a queued node starting at `k` or before is not satisfied
      beyond `k`. */
  lemma SilentForNode<V>(s: State<V>, k: int, m: Id)
    requires RingInv(s.ring) && Placed(s) && AllConsistent(s) && Values(s)
    requires Readable(s.ring, k) && !Answers(s, k + 1) && Satisfied(s, m)
    ensures s.waits[m].start <= k ==> s.waits[m].target <= k
  {
    QueuedHoldsBack(s, m);
    if s.waits[m].start <= k {
      SilenceMeansEnd(s, k);
    }
  }

  lemma NoteResumeKeeps<V>(s: State<V>, p: Id)
    requires Inv(s) && Noting(s, p, NWake) && s.notes[p].wake != [] && s.notes[p].wake[0] in s.waits
    ensures Inv(DoNoteResume(s, p))
  {
    var c := s.notes[p];
    assert c.wake[0] in Held(s, Due(p));
    NoteResumePlaced(s, p);
    NoteResumeConsistent(s, p);
    NoteResumeValues(s, p);
    NoteResumeWatched(s, p);
  }

  lemma NoteResumeWatched<V>(s: State<V>, p: Id)
    requires Placed(s) && AllConsistent(s) && Watched(s)
    requires Noting(s, p, NWake) && s.notes[p].wake != [] && s.notes[p].wake[0] in s.waits
    ensures Watched(DoNoteResume(s, p))
  {
    var t := DoNoteResume(s, p);
    var k := s.notes[p].wake[0];
    assert k in Held(s, Due(p));
    assert Consistent(k, s.waits[k]);
    forall m | m in t.queue && m in t.waits && Contiguous(t.ring, t.waits[m].target) ensures Covered(t, t.waits[m]) {
      CoveredStays(s, t, s.waits[m], t.waits[m]);
    }
  }

  predicate ListStep<V>(step: Step<V>) {
    step.NoteTake? || step.NoteRetake? || step.NoteSplit? || step.NoteLinkOk? || step.NoteResume?
  }

  predicate NoteStep<V>(step: Step<V>) {
    step.NoteLoad? || step.NoteScan? || step.NoteLinkFail? || step.NoteRescan? || step.NoteStop?
  }

  lemma ListStepKeeps<V>(s: State<V>, step: Step<V>)
    requires Inv(s) && Enabled(s, step) && ListStep(step)
    ensures Inv(Do(s, step))
  {
    hide Inv, Answers;
    match step
    case NoteTake(p) => NoteTakeKeeps(s, p);
    case NoteRetake(p) => NoteTakeKeeps(s, p);
    case NoteSplit(p) => NoteSplitKeeps(s, p);
    case NoteLinkOk(p) => NoteLinkKeeps(s, p);
    case NoteResume(p) => NoteResumeKeeps(s, p);
  }

  lemma NoteStepKeeps<V>(s: State<V>, step: Step<V>)
    requires Inv(s) && Enabled(s, step) && NoteStep(step)
    ensures Inv(Do(s, step))
  {
    hide Inv, Answers;
    match step
    case NoteLoad(p) => NoteLoadKeeps(s, p);
    case NoteScan(p) => NoteScanKeeps(s, p);
    case NoteLinkFail(p) => NoteLinkFailKeeps(s, p);
    case NoteRescan(p) => NoteRescanKeeps(s, p);
    case NoteStop(p) => NoteStopKeeps(s, p);
  }

  lemma WaitStepKeeps<V>(s: State<V>, step: Step<V>)
    requires Inv(s) && Enabled(s, step) && !NoteStep(step) && !ListStep(step) && !step.RingMove?
    ensures Inv(Do(s, step))
  {
    hide Inv, Answers, HoldsBack;
    match step
    case Construct(n, target, start) => ConstructKeeps(s, n, target, start);
    case Begin(n) => BeginKeeps(s, n);
    case LoadHead(n) => LoadHeadKeeps(s, n);
    case LinkOk(n) => LinkKeeps(s, n);
    case LinkFail(n) => LinkFailKeeps(s, n);
    case ScanOn(n) => ScanOnKeeps(s, n);
    case ScanStop(n) => ScanStopKeeps(s, n);
    case SweepAll(n) => SweepKeeps(s, n);
    case WakeNext(n) => WakeNextKeeps(s, n);
    case WakeDone(n) => WakeDoneKeeps(s, n);
    case LeaveExchange(n) => LeaveKeeps(s, n);
  }

  lemma StepKeeps<V>(s: State<V>, step: Step<V>)
    requires Inv(s) && Enabled(s, step)
    ensures Inv(Do(s, step))
  {
    hide Inv, Answers;
    if step.RingMove? {
      RingKeeps(s, step.move);
    } else if NoteStep(step) {
      NoteStepKeeps(s, step);
    } else if ListStep(step) {
      ListStepKeeps(s, step);
    } else {
      WaitStepKeeps(s, step);
    }
  }

  lemma {:induction false} ReachableInv<V>(trace: seq<State<V>>, steps: seq<Step<V>>, size: int, initial: int, blank: V, i: nat)
    requires 0 < size && Run(trace, steps, size, initial, blank) && i < |trace|
    ensures Inv(trace[i])
  {
    if i == 0 {
      var s := trace[0];
      InitialInv(size, initial, blank);
      forall p ensures Held(s, p) == [] {}
    } else {
      ReachableInv(trace, steps, size, initial, blank, i - 1);
      StepKeeps(trace[i - 1], steps[i - 1]);
    }
  }

  // ---------------------------------------------------------------- main results

  /** No lost wakeup: a queued node whose target and everything before it is published is bound to be found. */
  lemma NoLostWakeup<V>(trace: seq<State<V>>, steps: seq<Step<V>>, size: int, initial: int, blank: V, i: nat, n: Id)
    requires 0 < size && Run(trace, steps, size, initial, blank) && i < |trace|
    requires n in trace[i].queue
    ensures n in trace[i].waits
    ensures Contiguous(trace[i].ring, trace[i].waits[n].target) ==> Covered(trace[i], trace[i].waits[n])
  {
    ReachableInv(trace, steps, size, initial, blank, i);
    assert n in Held(trace[i], Shared);
  }

  /** No notification and no await_suspend is in flight. */
  ghost predicate Quiet<V>(s: State<V>) {
    && (forall p :: p in s.notes ==> s.notes[p].phase == NWake && s.notes[p].wake == [])
    && (forall n :: n in s.waits ==> s.waits[n].phase in {Fresh, Suspended, Continued})
  }

  /** When nothing is in flight every waiter whose target is readable has continued, and the ones that have not
      are suspended and queued. */
  lemma QuietMeansServed<V>(trace: seq<State<V>>, steps: seq<Step<V>>, size: int, initial: int, blank: V, i: nat, n: Id)
    requires 0 < size && Run(trace, steps, size, initial, blank) && i < |trace| && Quiet(trace[i])
    requires n in trace[i].waits && trace[i].waits[n].phase != Fresh
    ensures Contiguous(trace[i].ring, trace[i].waits[n].target) ==> trace[i].waits[n].continued == 1
    ensures trace[i].waits[n].continued == 0 <==> n in trace[i].queue
  {
    ReachableInv(trace, steps, size, initial, blank, i);
    QuietState(trace[i], n);
  }

  lemma QuietState<V>(s: State<V>, n: Id)
    requires Inv(s) && Quiet(s) && n in s.waits && s.waits[n].phase != Fresh
    ensures Contiguous(s.ring, s.waits[n].target) ==> s.waits[n].continued == 1
    ensures s.waits[n].continued == 0 <==> n in s.queue
  {
    var w := s.waits[n];
    assert Consistent(n, w) && NodeOk(s, n);
    assert s.queue == Held(s, Shared);
    QuietPlace(s, n);
  }

  lemma QuietPlace<V>(s: State<V>, n: Id)
    requires AllConsistent(s) && Quiet(s) && n in s.waits && NodeOk(s, n)
    ensures Listed(s.waits[n].place) ==> s.waits[n].place == Shared
  {
    match s.waits[n].place
    case Own(c) => assert c in s.waits ==> Consistent(c, s.waits[c]);
    case SweepList(c) => assert c in s.waits ==> Consistent(c, s.waits[c]);
    case Taken(p) => assert p in s.notes ==> NoteConsistent(s.notes[p]);
    case Hold(p) => assert p in s.notes ==> NoteConsistent(s.notes[p]);
    case Due(p) => assert p in s.notes ==> s.notes[p].wake == [];
    case _ =>
  }

  /** Exactly once: no waiter continues twice; what a waiter is given is published; and it does not precede the
      target of a waiter that was ready at once or was resumed by a publication. */
  lemma ContinuesOnce<V>(trace: seq<State<V>>, steps: seq<Step<V>>, size: int, initial: int, blank: V, i: nat, n: Id)
    requires 0 < size && Run(trace, steps, size, initial, blank) && i < |trace| && n in trace[i].waits
    ensures trace[i].waits[n].continued <= 1
    ensures trace[i].waits[n].continued == 1 <==> trace[i].waits[n].phase == Continued
    ensures Readable(trace[i].ring, trace[i].waits[n].lastKnown)
    ensures trace[i].waits[n].continued == 1 && trace[i].waits[n].place != Swept ==>
              trace[i].waits[n].target <= trace[i].waits[n].lastKnown
  {
    ReachableInv(trace, steps, size, initial, blank, i);
    assert Consistent(n, trace[i].waits[n]) && WaitOk(trace[i].ring, trace[i].waits[n]);
  }

  /** Conservation: until its flag is raised, a waiting node is in exactly one list, and there once. */
  lemma InOneList<V>(trace: seq<State<V>>, steps: seq<Step<V>>, size: int, initial: int, blank: V, i: nat, n: Id, p: Place, q: Place)
    requires 0 < size && Run(trace, steps, size, initial, blank) && i < |trace| && n in trace[i].waits
    ensures NoDup(Held(trace[i], p))
    ensures n in Held(trace[i], p) && n in Held(trace[i], q) ==> p == q
    ensures Listed(trace[i].waits[n].place) <==> exists r :: n in Held(trace[i], r)
    ensures trace[i].waits[n].phase != Fresh && trace[i].waits[n].continued == 0 && !Raised(trace[i].waits[n].place) ==>
              Listed(trace[i].waits[n].place)
  {
    hide RingInv, Values, Watched;
    var s := trace[i];
    ReachableInv(trace, steps, size, initial, blank, i);
    assert ListOk(s.waits, Held(s, p), p) && ListOk(s.waits, Held(s, q), q) && NodeOk(s, n) && Consistent(n, s.waits[n]);
    forall r | n in Held(s, r) ensures s.waits[n].place == r {
      assert ListOk(s.waits, Held(s, r), r);
    }
  }

  /** The steps of calls that are in flight. */
  predicate Advances<V>(step: Step<V>) {
    !step.Construct? && !step.Begin? && !step.RingMove? && !step.LinkFail? && !step.NoteLinkFail?
  }

  /** The compare-exchange of `step` would succeed right after one that fails. */
  ghost predicate Retries<V>(s: State<V>, step: Step<V>) {
    match step
    case LinkOk(n) => Enabled(s, LinkFail(n)) && Enabled(DoLinkFail(s, n), step)
    case NoteLinkOk(p) => Enabled(s, NoteLinkFail(p)) && Enabled(DoNoteLinkFail(s, p), step)
    case _ => false
  }

  /** No call in flight is ever stuck. */
  lemma NeverStuck<V>(trace: seq<State<V>>, steps: seq<Step<V>>, size: int, initial: int, blank: V, i: nat)
    requires 0 < size && Run(trace, steps, size, initial, blank) && i < |trace| && !Quiet(trace[i])
    ensures exists step :: Advances(step) && (Enabled(trace[i], step) || Retries(trace[i], step))
  {
    var s := trace[i];
    ReachableInv(trace, steps, size, initial, blank, i);
    if p :| p in s.notes && !(s.notes[p].phase == NWake && s.notes[p].wake == []) {
      NoteMoves(s, p);
    } else {
      var n :| n in s.waits && s.waits[n].phase !in {Fresh, Suspended, Continued};
      WaitMoves(s, n);
    }
  }

  lemma NoteMoves<V>(s: State<V>, p: Id)
    requires Placed(s) && p in s.notes && !(s.notes[p].phase == NWake && s.notes[p].wake == [])
    ensures exists step :: Advances(step) && (Enabled(s, step) || Retries(s, step))
  {
    var c := s.notes[p];
    match c.phase
    case NLoad => assert Enabled(s, NoteLoad(p));
    case NTake => assert Enabled(s, NoteTake(p));
    case NScan => assert Enabled(s, if Answers(s, c.known + 1) then NoteScan(p) else NoteSplit(p));
    case NLink => assert Retries(s, NoteLinkOk(p));
    case NRescan => assert Enabled(s, if Answers(s, c.known + 1) then NoteRescan(p) else NoteStop(p));
    case NRetake => assert Enabled(s, NoteRetake(p));
    case NWake =>
      assert c.wake[0] in Held(s, Due(p));
      assert Enabled(s, NoteResume(p));
  }

  lemma WaitMoves<V>(s: State<V>, n: Id)
    requires Placed(s) && n in s.waits && s.waits[n].phase !in {Fresh, Suspended, Continued}
    ensures exists step :: Advances(step) && (Enabled(s, step) || Retries(s, step))
  {
    hide Answers;
    var w := s.waits[n];
    match w.phase
    case Load => assert Enabled(s, LoadHead(n));
    case Link => assert Retries(s, LinkOk(n));
    case Scan => assert Enabled(s, if Answers(s, w.known + 1) then ScanOn(n) else ScanStop(n));
    case Sweep => assert Enabled(s, SweepAll(n));
    case Wake =>
      assert w.wake != [] ==> w.wake[0] in Held(s, SweepList(n));
      assert Enabled(s, if w.wake == [] then WakeDone(n) else WakeNext(n));
    case Leave => assert Enabled(s, LeaveExchange(n));
  }

  /** Once a waiter has continued nobody touches its node again, not even a waiter that resumes others. */
  lemma ContinuedIsFinal<V>(trace: seq<State<V>>, steps: seq<Step<V>>, size: int, initial: int, blank: V, i: nat, n: Id)
    requires 0 < size && Run(trace, steps, size, initial, blank) && i < |steps|
    requires n in trace[i].waits && trace[i].waits[n].phase == Continued
    ensures n in trace[i + 1].waits && trace[i + 1].waits[n] == trace[i].waits[n]
  {
    ReachableInv(trace, steps, size, initial, blank, i);
    Untouched(trace[i], steps[i], n);
  }

  lemma NotHeld<V>(s: State<V>, n: Id)
    requires Placed(s) && n in s.waits && !Listed(s.waits[n].place)
    ensures forall p :: n !in Held(s, p)
  {
    forall p ensures n !in Held(s, p) {
      assert ListOk(s.waits, Held(s, p), p);
    }
  }

  lemma Untouched<V>(s: State<V>, step: Step<V>, n: Id)
    requires Inv(s) && Enabled(s, step) && n in s.waits && s.waits[n].phase == Continued
    ensures n in Do(s, step).waits && Do(s, step).waits[n] == s.waits[n]
  {
    hide RingEnabled, Values, Watched;
    assert Consistent(n, s.waits[n]);
    NotHeld(s, n);
    if ListStep(step) {
      NoteUntouched(s, step, n);
    } else if step.LinkOk? || step.SweepAll? || step.WakeNext? {
      WaitUntouched(s, step, n);
    }
  }

  lemma NoteUntouched<V>(s: State<V>, step: Step<V>, n: Id)
    requires Placed(s) && Enabled(s, step) && ListStep(step) && n in s.waits && forall p :: n !in Held(s, p)
    ensures n in Do(s, step).waits && Do(s, step).waits[n] == s.waits[n]
  {
    assert s.queue == Held(s, Shared);
    match step
    case NoteTake(p) =>
    case NoteRetake(p) =>
    case NoteSplit(p) =>
      assert s.notes[p].taken == Held(s, Taken(p));
      SplitShares(s.waits, s.notes[p].taken, s.notes[p].known, Taken(p));
    case NoteLinkOk(p) => assert s.notes[p].hold == Held(s, Hold(p));
    case NoteResume(p) => assert s.notes[p].wake[0] in Held(s, Due(p));
  }

  lemma WaitUntouched<V>(s: State<V>, step: Step<V>, n: Id)
    requires Enabled(s, step) && (step.LinkOk? || step.SweepAll? || step.WakeNext?)
    requires n in s.waits && s.waits[n].phase == Continued && forall p :: n !in Held(s, p)
    ensures n in Do(s, step).waits && Do(s, step).waits[n] == s.waits[n]
  {
    assert s.queue == Held(s, Shared);
    match step
    case LinkOk(c) => assert s.waits[c].hold == Held(s, Own(c));
    case SweepAll(c) =>
    case WakeNext(c) => assert s.waits[c].wake[0] in Held(s, SweepList(c));
  }

  // ---------------------------------------------------------------- waiters swept up by another waiter

  /** A calling discipline: waiters that are pending at the same time wait for the same number. */
  ghost predicate SameTarget<V>(s: State<V>) {
    forall n, m :: n in s.waits && m in s.waits && s.waits[n].continued == 0 && s.waits[m].continued == 0 ==>
      s.waits[n].target == s.waits[m].target
  }

  ghost predicate NeverEarly<V>(s: State<V>) {
    forall n :: n in s.waits && s.waits[n].place == Swept ==> s.waits[n].target <= s.waits[n].lastKnown
  }

  /** Under that discipline nobody is ever resumed early. */
  lemma {:induction false} OneTargetNeverEarly<V>(trace: seq<State<V>>, steps: seq<Step<V>>, size: int, initial: int, blank: V, i: nat)
    requires 0 < size && Run(trace, steps, size, initial, blank) && i < |trace|
    requires forall k :: 0 <= k < i ==> SameTarget(trace[k])
    ensures NeverEarly(trace[i])
  {
    if i > 0 {
      OneTargetNeverEarly(trace, steps, size, initial, blank, i - 1);
      ReachableInv(trace, steps, size, initial, blank, i - 1);
      StepNeverEarly(trace[i - 1], steps[i - 1]);
    }
  }

  lemma StepNeverEarly<V>(s: State<V>, step: Step<V>)
    requires Inv(s) && Enabled(s, step) && SameTarget(s) && NeverEarly(s)
    ensures NeverEarly(Do(s, step))
  {
    if step.WakeNext? {
      WakeNeverEarly(s, step.n);
    } else if step.NoteSplit? {
      SplitNeverEarly(s, step.p);
    } else if !NoteStep(step) && !ListStep(step) && !step.RingMove? {
      WaitStepNeverEarly(s, step);
    } else {
      NoteStepNeverEarly(s, step);
    }
  }

  lemma WaitStepNeverEarly<V>(s: State<V>, step: Step<V>)
    requires Enabled(s, step) && NeverEarly(s) && !NoteStep(step) && !ListStep(step) && !step.RingMove? && !step.WakeNext?
    ensures NeverEarly(Do(s, step))
  {
  }

  lemma NoteStepNeverEarly<V>(s: State<V>, step: Step<V>)
    requires Enabled(s, step) && NeverEarly(s) && !step.NoteSplit?
    requires NoteStep(step) || ListStep(step) || step.RingMove?
    ensures NeverEarly(Do(s, step))
  {
  }

  lemma WakeNeverEarly<V>(s: State<V>, n: Id)
    requires Placed(s) && AllConsistent(s) && Values(s) && SameTarget(s) && NeverEarly(s)
    requires WaitIn(s, n, Wake) && s.waits[n].wake != [] && s.waits[n].wake[0] in s.waits
    ensures NeverEarly(DoWakeNext(s, n))
  {
    var m := s.waits[n].wake[0];
    assert m in Held(s, SweepList(n));
    assert WaitOk(s.ring, s.waits[n]) && Consistent(n, s.waits[n]) && Consistent(m, s.waits[m]);
  }

  lemma SplitNeverEarly<V>(s: State<V>, p: Id)
    requires Placed(s) && NeverEarly(s) && Noting(s, p, NScan)
    ensures NeverEarly(DoNoteSplit(s, p))
  {
    var c := s.notes[p];
    assert c.taken == Held(s, Taken(p));
    SplitShares(s.waits, c.taken, c.known, Taken(p));
  }
}
