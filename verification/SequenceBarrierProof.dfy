/** What every reachable state of the sequence barrier satisfies. */
module SequenceBarrierProof {
  import opened Lists
  import opened SequenceBarrier

  // ---------------------------------------------------------------- invariant

  /** The list kept at a place. */
  function Held(s: State, p: Place): seq<Id> {
    match p
    case Shared => s.queue
    case PubHold => s.pub.hold
    case PubWake => s.pub.wake
    case LoopWake(i) => if i < |s.loops| then s.loops[i].wake else []
    case Hold(c) => if c in s.ops then s.ops[c].hold else []
    case WakeList(c) => if c in s.ops then s.ops[c].wake else []
    case Nowhere => []
    case Signalled => []
  }

  predicate Listed(p: Place) {
    !p.Nowhere? && !p.Signalled?
  }

  /** The nodes of a list are distinct and all of them are at its place. */
  ghost predicate ListOk(ops: map<Id, Op>, xs: seq<Id>, p: Place) {
    NoDup(xs) && forall n :: n in xs ==> n in ops && ops[n].place == p
  }

  ghost predicate NodeOk(s: State, n: Id)
    requires n in s.ops
  {
    Listed(s.ops[n].place) ==> n in Held(s, s.ops[n].place)
  }

  /** Every node is in exactly one list, once, until its flag has been raised by a resume loop. */
  ghost predicate Placed(s: State) {
    && (forall p {:trigger Held(s, p)} :: ListOk(s.ops, Held(s, p), p))
    && (forall n {:trigger NodeOk(s, n)} :: n in s.ops ==> NodeOk(s, n))
  }

  predicate Left(op: Op) {
    op.phase == Suspended || op.phase == Continued
  }

  /** Flag, phase and continuation count of one wait operation agree. */
  predicate Consistent(op: Op) {
    && (op.phase == Load || op.phase == Link <==> op.hold != [])
    && (op.phase in {Fresh, Leave, Suspended, Continued} ==> op.wake == [])
    && (op.phase == Signal ==> op.wake != [])
    && if op.place == Nowhere then
         && !op.ready
         && (op.phase == Fresh || op.phase == Continued)
         && op.continued == (if op.phase == Fresh then 0 else 1)
         && (op.phase == Continued ==> op.target <= op.lastKnown)
       else
         && op.phase != Fresh
         && op.ready == (Left(op) || op.place == Signalled)
         && op.continued == (if op.phase == Continued then 1 else 0)
         && (op.phase == Suspended ==> op.place != Signalled)
         && (op.phase == Continued ==> op.place == Signalled)
  }

  ghost predicate AllReached(ops: map<Id, Op>, xs: seq<Id>, known: int) {
    forall m :: m in xs ==> m in ops && ops[m].target <= known
  }

  ghost predicate AllBeyond(ops: map<Id, Op>, xs: seq<Id>, known: int) {
    forall m :: m in xs ==> m in ops && known < ops[m].target
  }

  /** The first node of a resume loop has just been given the loop's sequence number. */
  ghost predicate StoredAt(ops: map<Id, Op>, xs: seq<Id>, known: int) {
    xs != [] && xs[0] in ops && ops[xs[0]].lastKnown == known
  }

  ghost predicate OpValues(ops: map<Id, Op>, published: int, op: Op) {
    && op.lastKnown <= published
    && (op.place == Signalled ==> op.target <= op.lastKnown)
    && AllReached(ops, op.wake, published)
    && (op.phase in {Take, Wake, Signal} ==> AllReached(ops, op.wake, op.known) && op.known <= published)
    && (op.phase == Signal ==> StoredAt(ops, op.wake, op.known))
    && AllBeyond(ops, op.hold, op.goal - 1)
    && (op.phase == Take ==> op.goal <= op.known)
    && (op.phase == Fresh ==> op.goal == op.target)
  }

  ghost predicate LoopValues(ops: map<Id, Op>, published: int, l: Loop) {
    && l.known <= published
    && AllReached(ops, l.wake, l.known)
    && (l.written ==> StoredAt(ops, l.wake, l.known))
  }

  ghost predicate PubValues(s: State) {
    && (s.pub.phase != Linking ==> s.pub.hold == [] && s.pub.wake == [])
    && AllBeyond(s.ops, s.pub.hold, s.lastPublished)
    && AllReached(s.ops, s.pub.wake, s.lastPublished)
  }

  ghost predicate AllConsistent(s: State) {
    forall n :: n in s.ops ==> Consistent(s.ops[n])
  }

  ghost predicate Values(s: State) {
    && (forall n :: n in s.ops ==> OpValues(s.ops, s.lastPublished, s.ops[n]))
    && (forall i :: 0 <= i < |s.loops| ==> LoopValues(s.ops, s.lastPublished, s.loops[i]))
    && PubValues(s)
  }

  /** Some call in flight is bound to look at a node with this target again. */
  ghost predicate Covered(s: State, target: int) {
    || s.pub.phase == Stored
    || s.pub.phase == Seen
    || exists c :: c in s.ops && WillTake(s.ops[c], target)
  }

  predicate WillTake(op: Op, target: int) {
    op.phase == Take || (op.phase == Check && op.goal <= target)
  }

  /** Every queued node whose target is published is covered. */
  ghost predicate Watched(s: State) {
    forall n :: n in s.queue && n in s.ops && s.ops[n].target <= s.lastPublished ==> Covered(s, s.ops[n].target)
  }

  ghost predicate Inv(s: State) {
    Placed(s) && AllConsistent(s) && Values(s) && Watched(s)
  }

  // ---------------------------------------------------------------- nodes stay in one place

  /** The list at every place and the place of every node are unchanged. */
  ghost predicate Steady(s: State, t: State) {
    && (forall p :: Held(t, p) == Held(s, p))
    && s.ops.Keys <= t.ops.Keys
    && (forall n :: n in s.ops ==> t.ops[n].place == s.ops[n].place)
    && (forall n :: n in t.ops && n !in s.ops ==> !Listed(t.ops[n].place))
  }

  lemma SteadyPlaced(s: State, t: State)
    requires Placed(s) && Steady(s, t)
    ensures Placed(t)
  {
    forall p ensures ListOk(t.ops, Held(t, p), p) {
      assert ListOk(s.ops, Held(s, p), p);
    }
    forall n | n in t.ops ensures NodeOk(t, n) {
      if n in s.ops {
        assert NodeOk(s, n);
      }
    }
  }

  lemma UpdatePlaced(s: State, n: Id, op: Op)
    requires Placed(s)
    requires n in s.ops ==> op.hold == s.ops[n].hold && op.wake == s.ops[n].wake && op.place == s.ops[n].place
    requires n !in s.ops ==> op.hold == [] && op.wake == [] && !Listed(op.place)
    ensures Placed(Update(s, n, op))
  {
    var t := Update(s, n, op);
    forall p ensures Held(t, p) == Held(s, p) {}
    SteadyPlaced(s, t);
  }

  lemma BeginPlaced(s: State, n: Id)
    requires Placed(s) && InPhase(s, n, Fresh) && Consistent(s.ops[n])
    ensures Placed(DoBegin(s, n))
  {
    var t := DoBegin(s, n);
    forall p ensures ListOk(t.ops, Held(t, p), p) {
      assert ListOk(s.ops, Held(s, p), p);
      assert p != Hold(n) ==> Held(t, p) == Held(s, p);
    }
    forall m | m in t.ops ensures NodeOk(t, m) {
      assert NodeOk(s, m);
    }
  }

  lemma LinkPlaced(s: State, n: Id)
    requires Placed(s) && Enabled(s, LinkOk(n))
    ensures Placed(DoLink(s, n))
  {
    var t := DoLink(s, n);
    var hold := s.ops[n].hold;
    assert hold == Held(s, Hold(n)) && s.queue == Held(s, Shared);
    forall p ensures ListOk(t.ops, Held(t, p), p) {
      if p == Shared {
        NoDupConcat(hold, s.queue);
      } else if p != Hold(n) {
        assert Held(t, p) == Held(s, p);
      }
    }
    forall m | m in t.ops ensures NodeOk(t, m) {
      assert NodeOk(s, m);
    }
  }

  /** `later` and `reached` share out the nodes of `xs`, all of which are at `p`. */
  ghost predicate Shares(ops: map<Id, Op>, xs: seq<Id>, p: Place, known: int, later: seq<Id>, reached: seq<Id>) {
    && ListOk(ops, later, p) && ListOk(ops, reached, p)
    && (forall n :: n in xs <==> n in later || n in reached)
    && AllBeyond(ops, later, known)
    && AllReached(ops, reached, known)
  }

  lemma SplitShares(ops: map<Id, Op>, xs: seq<Id>, known: int, p: Place)
    requires ListOk(ops, xs, p)
    ensures Shares(ops, xs, p, known, Later(ops, xs, known), Reached(ops, xs, known))
  {
    var f := n => n in ops && known < ops[n].target;
    var g := n => !(n in ops && known < ops[n].target);
    SelectMembers(xs, f);
    SelectMembers(xs, g);
    SelectNoDup(xs, f);
    SelectNoDup(xs, g);
  }

  lemma TakePlaced(s: State, n: Id, later: seq<Id>, reached: seq<Id>)
    requires Placed(s) && InPhase(s, n, Take) && Consistent(s.ops[n])
    requires Shares(s.ops, s.queue, Shared, s.ops[n].known, later, reached)
    ensures Placed(TakeSplit(s, n, later, reached))
  {
    var t := TakeSplit(s, n, later, reached);
    var wake := s.ops[n].wake;
    assert wake == Held(s, WakeList(n));
    forall p ensures ListOk(t.ops, Held(t, p), p) {
      if p == WakeList(n) {
        NoDupConcat(wake, reached);
      } else if p != Hold(n) && p != Shared {
        assert Held(t, p) == Held(s, p);
      }
    }
    forall m | m in t.ops ensures NodeOk(t, m) {
      TakeNode(s, n, later, reached, m);
    }
  }

  lemma TakeNode(s: State, n: Id, later: seq<Id>, reached: seq<Id>, m: Id)
    requires Placed(s) && InPhase(s, n, Take) && Consistent(s.ops[n]) && m in s.ops
    requires Shares(s.ops, s.queue, Shared, s.ops[n].known, later, reached)
    ensures m in TakeSplit(s, n, later, reached).ops && NodeOk(TakeSplit(s, n, later, reached), m)
  {
    assert NodeOk(s, m);
  }

  lemma PubTakePlaced(s: State, later: seq<Id>, reached: seq<Id>)
    requires Placed(s) && s.pub.hold == [] && s.pub.wake == []
    requires Shares(s.ops, s.queue, Shared, s.lastPublished, later, reached)
    ensures Placed(PubSplit(s, later, reached))
  {
    var t := PubSplit(s, later, reached);
    var i := |s.loops|;
    assert Held(s, LoopWake(i)) == [] && Held(s, PubHold) == [] && Held(s, PubWake) == [];
    forall p ensures ListOk(t.ops, Held(t, p), p) {
      if p != LoopWake(i) && p != Shared && p != PubHold && p != PubWake {
        assert Held(t, p) == Held(s, p);
      }
    }
    forall m | m in t.ops ensures NodeOk(t, m) {
      assert NodeOk(s, m);
    }
  }

  lemma PubLinkPlaced(s: State)
    requires Placed(s) && Enabled(s, PubLinkOk)
    ensures Placed(DoPubLink(s))
  {
    var t := DoPubLink(s);
    assert s.queue == Held(s, Shared) && s.pub.hold == Held(s, PubHold) && s.pub.wake == Held(s, PubWake);
    assert Held(s, LoopWake(|s.loops|)) == [];
    forall p ensures ListOk(t.ops, Held(t, p), p) {
      if p == Shared {
        NoDupConcat(s.pub.hold, s.queue);
      } else if p != PubHold && p != PubWake && p != LoopWake(|s.loops|) {
        assert Held(t, p) == Held(s, p);
      }
    }
    forall m | m in t.ops ensures NodeOk(t, m) {
      assert NodeOk(s, m);
    }
  }

  /** Raising the flag of a node removes it from the list it heads and leaves the other lists alone. */
  lemma RaiseLists(ops: map<Id, Op>, w: seq<Id>, from: Place, ys: seq<Id>, q: Place)
    requires w != [] && w[0] in ops && ListOk(ops, w, from) && ListOk(ops, ys, q)
    ensures q != from ==> ListOk(Raise(ops, w[0]), ys, q)
    ensures ListOk(Raise(ops, w[0]), w[1..], from)
  {
    assert w[0] in w;
  }

  lemma WakeSignalNode(s: State, n: Id, m: Id)
    requires InPhase(s, n, Signal) && s.ops[n].wake != [] && s.ops[n].wake[0] in s.ops && m in s.ops && NodeOk(s, m)
    ensures NodeOk(DoWakeSignal(s, n), m)
  {
    var w := s.ops[n].wake;
    assert w == [w[0]] + w[1..];
  }

  lemma WakeSignalPlaced(s: State, n: Id)
    requires Placed(s) && InPhase(s, n, Signal) && s.ops[n].wake != [] && s.ops[n].wake[0] in s.ops
    ensures Placed(DoWakeSignal(s, n))
  {
    var t := DoWakeSignal(s, n);
    var w := s.ops[n].wake;
    assert w == Held(s, WakeList(n));
    forall p ensures ListOk(t.ops, Held(t, p), p) {
      RaiseLists(s.ops, w, WakeList(n), Held(s, p), p);
      if p != WakeList(n) {
        assert Held(t, p) == Held(s, p);
      }
    }
    forall m | m in t.ops ensures NodeOk(t, m) {
      assert NodeOk(s, m);
      WakeSignalNode(s, n, m);
    }
  }

  lemma LoopSignalPlaced(s: State, i: nat)
    requires Placed(s) && i < |s.loops| && s.loops[i].wake != [] && s.loops[i].wake[0] in s.ops
    ensures Placed(DoLoopSignal(s, i))
  {
    var t := DoLoopSignal(s, i);
    var w := s.loops[i].wake;
    assert w == Held(s, LoopWake(i)) && w == [w[0]] + w[1..];
    forall p ensures ListOk(t.ops, Held(t, p), p) {
      RaiseLists(s.ops, w, LoopWake(i), Held(s, p), p);
      if p != LoopWake(i) {
        assert Held(t, p) == Held(s, p);
      }
    }
    forall m | m in t.ops ensures NodeOk(t, m) {
      LoopSignalNode(s, i, m);
    }
  }

  lemma LoopSignalNode(s: State, i: nat, m: Id)
    requires Placed(s) && i < |s.loops| && s.loops[i].wake != [] && s.loops[i].wake[0] in s.ops && m in s.ops
    ensures m in DoLoopSignal(s, i).ops && NodeOk(DoLoopSignal(s, i), m)
  {
    var w := s.loops[i].wake;
    assert w == Held(s, LoopWake(i)) && w == [w[0]] + w[1..];
    assert NodeOk(s, m);
  }

  // ---------------------------------------------------------------- flags, phases and counts

  lemma RelocateConsistent(ops: map<Id, Op>, xs: seq<Id>, from: Place, p: Place)
    requires forall n :: n in ops ==> Consistent(ops[n])
    requires ListOk(ops, xs, from) && Listed(from) && Listed(p)
    ensures forall n :: n in Relocate(ops, xs, p) ==> Consistent(Relocate(ops, xs, p)[n])
  {
  }

  lemma LinkConsistent(s: State, n: Id)
    requires Placed(s) && AllConsistent(s) && InPhase(s, n, Link)
    ensures AllConsistent(DoLink(s, n))
  {
    assert s.ops[n].hold == Held(s, Hold(n));
    RelocateConsistent(s.ops, s.ops[n].hold, Hold(n), Shared);
  }

  lemma TakeConsistent(s: State, n: Id, later: seq<Id>, reached: seq<Id>)
    requires AllConsistent(s) && InPhase(s, n, Take)
    requires Shares(s.ops, s.queue, Shared, s.ops[n].known, later, reached)
    ensures AllConsistent(TakeSplit(s, n, later, reached))
  {
    RelocateTwice(s.ops, later, Hold(n), reached, WakeList(n), Shared);
    var t := TakeSplit(s, n, later, reached);
    var moved := Relocate(Relocate(s.ops, later, Hold(n)), reached, WakeList(n));
    hide ListOk, Relocate, Earliest, AllBeyond, AllReached, Shares;
    forall m | m in t.ops ensures Consistent(t.ops[m]) {
      assert Consistent(s.ops[m]) && SameButPlace(s.ops[m], moved[m]);
      assert m != n ==> t.ops[m] == moved[m];
    }
  }

  /** Two relocations of lists found at one place change nothing but places, and those only between lists. */
  lemma RelocateTwice(ops: map<Id, Op>, xs: seq<Id>, p: Place, ys: seq<Id>, q: Place, from: Place)
    requires ListOk(ops, xs, from) && ListOk(ops, ys, from) && Listed(from) && Listed(p) && Listed(q)
    ensures SamePlus(ops, Relocate(Relocate(ops, xs, p), ys, q))
  {
  }

  ghost predicate SamePlus(ops: map<Id, Op>, ops': map<Id, Op>) {
    && ops'.Keys == ops.Keys
    && forall n :: n in ops ==> SameButPlace(ops[n], ops'[n])
  }

  predicate SameButPlace(op: Op, op': Op) {
    op' == op.(place := op'.place) && (op'.place == op.place || (Listed(op.place) && Listed(op'.place)))
  }

  lemma PubTakeConsistent(s: State, later: seq<Id>, reached: seq<Id>)
    requires AllConsistent(s)
    requires Shares(s.ops, s.queue, Shared, s.lastPublished, later, reached)
    ensures AllConsistent(PubSplit(s, later, reached))
  {
    if later != [] {
      RelocateTwice(s.ops, later, PubHold, reached, PubWake, Shared);
    } else {
      RelocateConsistent(s.ops, reached, Shared, LoopWake(|s.loops|));
    }
  }

  lemma PubLinkConsistent(s: State)
    requires Placed(s) && AllConsistent(s)
    ensures AllConsistent(DoPubLink(s))
  {
    assert s.pub.hold == Held(s, PubHold) && s.pub.wake == Held(s, PubWake);
    RelocateConsistent(s.ops, s.pub.hold, PubHold, Shared);
  }

  lemma RaiseConsistent(ops: map<Id, Op>, m: Id)
    requires forall n :: n in ops ==> Consistent(ops[n])
    requires m in ops && Listed(ops[m].place)
    ensures forall n :: n in ops ==> Consistent(Raise(ops, m)[n])
  {
  }

  lemma WakeSignalConsistent(s: State, n: Id)
    requires Placed(s) && AllConsistent(s) && InPhase(s, n, Signal) && s.ops[n].wake != [] && s.ops[n].wake[0] in s.ops
    ensures AllConsistent(DoWakeSignal(s, n))
  {
    var w := s.ops[n].wake;
    assert w == Held(s, WakeList(n)) && w[0] in w;
    RaiseConsistent(s.ops, w[0]);
  }

  lemma LoopSignalConsistent(s: State, i: nat)
    requires Placed(s) && AllConsistent(s) && i < |s.loops| && s.loops[i].wake != [] && s.loops[i].wake[0] in s.ops
    ensures AllConsistent(DoLoopSignal(s, i))
  {
    var w := s.loops[i].wake;
    assert w == Held(s, LoopWake(i)) && w[0] in w;
    RaiseConsistent(s.ops, w[0]);
  }

  // ---------------------------------------------------------------- sequence numbers

  ghost predicate Extends(ops: map<Id, Op>, ops': map<Id, Op>) {
    forall m :: m in ops ==> m in ops' && ops'[m].target == ops[m].target && ops'[m].lastKnown == ops[m].lastKnown
  }

  lemma OpFrame(ops: map<Id, Op>, ops': map<Id, Op>, published: int, published': int, op: Op)
    requires OpValues(ops, published, op) && Extends(ops, ops') && published <= published'
    ensures OpValues(ops', published', op)
  {
  }

  lemma LoopFrame(ops: map<Id, Op>, ops': map<Id, Op>, published: int, published': int, l: Loop)
    requires LoopValues(ops, published, l) && Extends(ops, ops') && published <= published'
    ensures LoopValues(ops', published', l)
  {
  }

  lemma UpdateValues(s: State, n: Id, op: Op)
    requires Values(s) && OpValues(s.ops, s.lastPublished, op)
    requires n in s.ops ==> op.target == s.ops[n].target && op.lastKnown == s.ops[n].lastKnown
    ensures Values(Update(s, n, op))
  {
    var t := Update(s, n, op);
    forall m | m in t.ops ensures OpValues(t.ops, t.lastPublished, t.ops[m]) {
      OpFrame(s.ops, t.ops, s.lastPublished, t.lastPublished, t.ops[m]);
    }
    forall i | 0 <= i < |t.loops| ensures LoopValues(t.ops, t.lastPublished, t.loops[i]) {
      LoopFrame(s.ops, t.ops, s.lastPublished, t.lastPublished, s.loops[i]);
    }
  }

  lemma PublishValues(s: State, sequence: int)
    requires Values(s) && s.lastPublished <= sequence && s.pub.phase == Idle
    ensures Values(DoPublish(s, sequence))
  {
    forall m | m in s.ops ensures OpValues(s.ops, sequence, s.ops[m]) {
      OpFrame(s.ops, s.ops, s.lastPublished, sequence, s.ops[m]);
    }
    forall i | 0 <= i < |s.loops| ensures LoopValues(s.ops, sequence, s.loops[i]) {
      LoopFrame(s.ops, s.ops, s.lastPublished, sequence, s.loops[i]);
    }
  }

  /** A step that moves nodes between lists, rewrites at most operation `n` and keeps the loops it found. */
  lemma MoveValues(s: State, t: State, n: Id)
    requires Values(s) && s.lastPublished == t.lastPublished && t.ops.Keys == s.ops.Keys
    requires forall m :: m in s.ops && m != n ==> SameButPlace(s.ops[m], t.ops[m])
    requires n in s.ops ==> t.ops[n].target == s.ops[n].target && t.ops[n].lastKnown == s.ops[n].lastKnown
    requires n in s.ops ==> OpValues(s.ops, s.lastPublished, t.ops[n])
    ensures Extends(s.ops, t.ops)
    ensures forall m :: m in t.ops ==> OpValues(t.ops, t.lastPublished, t.ops[m])
    ensures forall i :: 0 <= i < |s.loops| ==> LoopValues(t.ops, t.lastPublished, s.loops[i])
  {
    assert Extends(s.ops, t.ops);
    forall m | m in t.ops ensures OpValues(t.ops, t.lastPublished, t.ops[m]) {
      assert OpValues(s.ops, s.lastPublished, s.ops[m]);
      OpFrame(s.ops, t.ops, s.lastPublished, t.lastPublished, t.ops[m]);
    }
    forall i | 0 <= i < |s.loops| ensures LoopValues(t.ops, t.lastPublished, s.loops[i]) {
      LoopFrame(s.ops, t.ops, s.lastPublished, t.lastPublished, s.loops[i]);
    }
  }

  lemma LinkValues(s: State, n: Id)
    requires Placed(s) && Values(s) && InPhase(s, n, Link)
    ensures Values(DoLink(s, n))
  {
    assert s.ops[n].hold == Held(s, Hold(n));
    assert OpValues(s.ops, s.lastPublished, s.ops[n]);
    MoveValues(s, DoLink(s, n), n);
  }

  lemma {:induction false} EarliestBound(ops: map<Id, Op>, xs: seq<Id>)
    ensures forall n :: n in xs && n in ops ==> Earliest(ops, xs) <= ops[n].target
  {
    if |xs| > 1 {
      EarliestBound(ops, xs[1..]);
    }
  }

  lemma TakeValues(s: State, n: Id, later: seq<Id>, reached: seq<Id>)
    requires Values(s) && InPhase(s, n, Take)
    requires Shares(s.ops, s.queue, Shared, s.ops[n].known, later, reached)
    ensures Values(TakeSplit(s, n, later, reached))
  {
    RelocateTwice(s.ops, later, Hold(n), reached, WakeList(n), Shared);
    EarliestBound(s.ops, later);
    assert OpValues(s.ops, s.lastPublished, s.ops[n]);
    MoveValues(s, TakeSplit(s, n, later, reached), n);
  }

  lemma PubTakeValues(s: State, later: seq<Id>, reached: seq<Id>)
    requires Values(s)
    requires Shares(s.ops, s.queue, Shared, s.lastPublished, later, reached)
    ensures Values(PubSplit(s, later, reached))
  {
    var t := PubSplit(s, later, reached);
    forall m | m in s.ops ensures SameButPlace(s.ops[m], t.ops[m]) && OpValues(s.ops, s.lastPublished, t.ops[m]) {
      assert OpValues(s.ops, s.lastPublished, s.ops[m]);
    }
    MoveValues(s, t, 0);
  }

  lemma PubLinkValues(s: State)
    requires Placed(s) && Values(s)
    ensures Values(DoPubLink(s))
  {
    var t := DoPubLink(s);
    assert s.pub.hold == Held(s, PubHold) && s.pub.wake == Held(s, PubWake);
    forall m | m in s.ops ensures SameButPlace(s.ops[m], t.ops[m]) && OpValues(s.ops, s.lastPublished, t.ops[m]) {
      assert OpValues(s.ops, s.lastPublished, s.ops[m]);
    }
    MoveValues(s, t, 0);
  }

  // ---------------------------------------------------------------- resume loops

  /** Storing into node `m` disturbs nobody who has already stored into its own first node. */
  lemma StoreOp(ops: map<Id, Op>, m: Id, known: int, published: int, op: Op)
    requires OpValues(ops, published, op) && m in ops && known <= published
    requires op.phase == Signal ==> op.wake[0] != m
    ensures OpValues(Store(ops, m, known), published, op)
  {
  }

  lemma StoreLoop(ops: map<Id, Op>, m: Id, known: int, published: int, l: Loop)
    requires LoopValues(ops, published, l) && m in ops
    requires l.written ==> l.wake[0] != m
    ensures LoopValues(Store(ops, m, known), published, l)
  {
  }

  /** The node at the head of a resume loop heads no other one. */
  lemma OnlyHead(s: State, p: Place, q: Place)
    requires Placed(s) && p != q && Held(s, p) != [] && Held(s, q) != []
    ensures Held(s, p)[0] != Held(s, q)[0]
  {
    assert Held(s, p)[0] in Held(s, p) && Held(s, q)[0] in Held(s, q);
  }

  ghost predicate CanStore(s: State, p: Place, known: int) {
    && (p.LoopWake? || p.WakeList?)
    && Held(s, p) != [] && Held(s, p)[0] in s.ops
    && AllReached(s.ops, Held(s, p), known) && known <= s.lastPublished
  }

  predicate AtSignal(s: State, p: Place) {
    match p
    case WakeList(c) => InPhase(s, c, Signal)
    case LoopWake(i) => i < |s.loops| && s.loops[i].written
    case _ => false
  }

  /** The store of `m_lastKnownPublished` into the first node of the loop at `p`. */
  lemma StoreValues(s: State, p: Place, known: int)
    requires Placed(s) && AllConsistent(s) && Values(s) && CanStore(s, p, known) && !AtSignal(s, p)
    ensures Values(s.(ops := Store(s.ops, Held(s, p)[0], known)))
  {
    var m := Held(s, p)[0];
    var t := s.(ops := Store(s.ops, m, known));
    assert m in Held(s, p) && s.ops[m].place == p;
    forall n | n in t.ops ensures OpValues(t.ops, t.lastPublished, t.ops[n]) {
      assert OpValues(s.ops, s.lastPublished, s.ops[n]) && Consistent(s.ops[n]);
      if s.ops[n].phase == Signal {
        OnlyHead(s, p, WakeList(n));
      }
      StoreOp(s.ops, m, known, s.lastPublished, s.ops[n]);
    }
    forall i | 0 <= i < |t.loops| ensures LoopValues(t.ops, t.lastPublished, t.loops[i]) {
      assert LoopValues(s.ops, s.lastPublished, s.loops[i]);
      if s.loops[i].written {
        OnlyHead(s, p, LoopWake(i));
      }
      StoreLoop(s.ops, m, known, s.lastPublished, s.loops[i]);
    }
    assert PubValues(t);
  }

  lemma WakeStoreValues(s: State, n: Id)
    requires Placed(s) && AllConsistent(s) && Values(s)
    requires InPhase(s, n, Wake) && s.ops[n].wake != [] && s.ops[n].wake[0] in s.ops
    ensures Values(DoWakeStore(s, n))
  {
    var w := s.ops[n].wake;
    assert OpValues(s.ops, s.lastPublished, s.ops[n]) && w == Held(s, WakeList(n));
    StoreValues(s, WakeList(n), s.ops[n].known);
    var t := s.(ops := Store(s.ops, w[0], s.ops[n].known));
    assert OpValues(t.ops, t.lastPublished, t.ops[n]);
    UpdateValues(t, n, t.ops[n].(phase := Signal));
  }

  lemma LoopStoreValues(s: State, i: nat)
    requires Placed(s) && AllConsistent(s) && Values(s)
    requires i < |s.loops| && !s.loops[i].written && s.loops[i].wake != [] && s.loops[i].wake[0] in s.ops
    ensures Values(DoLoopStore(s, i))
  {
    var l := s.loops[i];
    assert LoopValues(s.ops, s.lastPublished, l) && l.wake == Held(s, LoopWake(i));
    StoreValues(s, LoopWake(i), l.known);
    var t := s.(ops := Store(s.ops, l.wake[0], l.known));
    assert LoopValues(t.ops, t.lastPublished, t.loops[i]);
    assert LoopValues(t.ops, t.lastPublished, l.(written := true));
  }

  /** `resume()` on a node that has been given a sequence not before its target. */
  lemma RaiseValues(s: State, m: Id)
    requires Values(s) && m in s.ops && s.ops[m].target <= s.ops[m].lastKnown
    ensures Values(s.(ops := Raise(s.ops, m)))
  {
    assert OpValues(s.ops, s.lastPublished, s.ops[m]);
    UpdateValues(s, m, Raise(s.ops, m)[m]);
  }

  lemma WakeSignalValues(s: State, n: Id)
    requires Placed(s) && AllConsistent(s) && Values(s)
    requires InPhase(s, n, Signal) && s.ops[n].wake != [] && s.ops[n].wake[0] in s.ops
    ensures Values(DoWakeSignal(s, n))
  {
    var w := s.ops[n].wake;
    var op := s.ops[n].(wake := w[1..], phase := Wake);
    assert OpValues(s.ops, s.lastPublished, s.ops[n]) && w[0] in w;
    RaiseValues(s, w[0]);
    var t := s.(ops := Raise(s.ops, w[0]));
    assert OpValues(t.ops, t.lastPublished, t.ops[n]);
    UpdateValues(t, n, t.ops[n].(wake := w[1..], phase := Wake));
  }

  lemma LoopSignalValues(s: State, i: nat)
    requires Placed(s) && Values(s)
    requires i < |s.loops| && s.loops[i].written && s.loops[i].wake != [] && s.loops[i].wake[0] in s.ops
    ensures Values(DoLoopSignal(s, i))
  {
    var l := s.loops[i];
    assert LoopValues(s.ops, s.lastPublished, l) && l.wake[0] in l.wake;
    RaiseValues(s, l.wake[0]);
    var t := s.(ops := Raise(s.ops, l.wake[0]));
    assert LoopValues(t.ops, t.lastPublished, t.loops[i]);
    assert LoopValues(t.ops, t.lastPublished, l.(written := false, wake := l.wake[1..]));
  }

  // ---------------------------------------------------------------- no queued node is forgotten

  lemma UpdateWatched(s: State, n: Id, op: Op)
    requires Placed(s) && Watched(s)
    requires n in s.ops ==> op.target == s.ops[n].target
    requires n in s.ops ==> forall k :: k <= s.lastPublished && WillTake(s.ops[n], k) ==> WillTake(op, k)
    ensures Watched(Update(s, n, op))
  {
    var t := Update(s, n, op);
    assert s.queue == Held(s, Shared);
    forall m | m in t.queue && m in t.ops && t.ops[m].target <= t.lastPublished ensures Covered(t, t.ops[m].target) {
      var k := s.ops[m].target;
      assert Covered(s, k);
      if !s.pub.Publisher? || (s.pub.phase != Stored && s.pub.phase != Seen) {
        var c :| c in s.ops && WillTake(s.ops[c], k);
        assert WillTake(t.ops[c], k);
      }
    }
  }

  lemma LinkWatched(s: State, n: Id)
    requires Placed(s) && Values(s) && Watched(s) && InPhase(s, n, Link)
    ensures Watched(DoLink(s, n))
  {
    var t := DoLink(s, n);
    assert OpValues(s.ops, s.lastPublished, s.ops[n]);
    forall m | m in t.queue && m in t.ops && t.ops[m].target <= t.lastPublished ensures Covered(t, t.ops[m].target) {
      if m in s.ops[n].hold {
        assert WillTake(t.ops[n], t.ops[m].target);
      } else {
        CoveredStays(s, t, s.ops[m].target);
      }
    }
  }

  /** Coverage survives a step that keeps the publisher's phase and everybody's intention to take the list. */
  lemma CoveredStays(s: State, t: State, k: int)
    requires Covered(s, k)
    requires s.pub.phase == t.pub.phase || !(s.pub.phase == Stored || s.pub.phase == Seen)
    requires s.ops.Keys <= t.ops.Keys
    requires forall c :: c in s.ops && WillTake(s.ops[c], k) ==> WillTake(t.ops[c], k)
    ensures Covered(t, k)
  {
    if s.pub.phase != Stored && s.pub.phase != Seen {
      var c :| c in s.ops && WillTake(s.ops[c], k);
      assert WillTake(t.ops[c], k);
    }
  }

  lemma PubLinkWatched(s: State)
    requires Placed(s) && Values(s) && Watched(s) && s.pub.phase == Linking
    ensures Watched(DoPubLink(s))
  {
    hide OpValues, LoopValues;
    var t := DoPubLink(s);
    forall m | m in t.queue && m in t.ops && t.ops[m].target <= t.lastPublished ensures Covered(t, t.ops[m].target) {
      assert m !in s.pub.hold;
      CoveredStays(s, t, s.ops[m].target);
    }
  }

  lemma RaiseWatched(s: State, m: Id)
    requires Placed(s) && AllConsistent(s) && Watched(s) && m in s.ops && Listed(s.ops[m].place)
    ensures Watched(s.(ops := Raise(s.ops, m)))
  {
    assert Consistent(s.ops[m]);
    UpdateWatched(s, m, Raise(s.ops, m)[m]);
  }

  // ---------------------------------------------------------------- every step keeps the invariant

  /** A step that rewrites one operation's phase, flag, goal or known sequence. */
  lemma UpdateKeeps(s: State, n: Id, op: Op)
    requires Inv(s) && Consistent(op) && OpValues(s.ops, s.lastPublished, op)
    requires n in s.ops ==>
               && op.hold == s.ops[n].hold && op.wake == s.ops[n].wake && op.place == s.ops[n].place
               && op.target == s.ops[n].target && op.lastKnown == s.ops[n].lastKnown
    requires n in s.ops ==> forall k :: k <= s.lastPublished && WillTake(s.ops[n], k) ==> WillTake(op, k)
    requires n !in s.ops ==> op.hold == [] && op.wake == [] && !Listed(op.place)
    ensures Inv(Update(s, n, op))
  {
    UpdatePlaced(s, n, op);
    UpdateValues(s, n, op);
    UpdateWatched(s, n, op);
  }

  lemma ConstructKeeps(s: State, n: Id, target: int)
    requires Inv(s) && n !in s.ops
    ensures Inv(DoConstruct(s, n, target))
  {
    UpdateKeeps(s, n, DoConstruct(s, n, target).ops[n]);
  }

  lemma LoadHeadKeeps(s: State, n: Id)
    requires Inv(s) && InPhase(s, n, Load)
    ensures Inv(DoLoadHead(s, n))
  {
    assert Consistent(s.ops[n]) && OpValues(s.ops, s.lastPublished, s.ops[n]);
    UpdateKeeps(s, n, DoLoadHead(s, n).ops[n]);
  }

  lemma LinkFailKeeps(s: State, n: Id)
    requires Inv(s) && InPhase(s, n, Link)
    ensures Inv(DoLinkFail(s, n))
  {
    assert Consistent(s.ops[n]) && OpValues(s.ops, s.lastPublished, s.ops[n]);
    UpdateKeeps(s, n, DoLinkFail(s, n).ops[n]);
  }

  lemma CheckKeeps(s: State, n: Id)
    requires Inv(s) && InPhase(s, n, Check)
    ensures Inv(DoCheck(s, n))
  {
    assert Consistent(s.ops[n]) && OpValues(s.ops, s.lastPublished, s.ops[n]);
    UpdateKeeps(s, n, DoCheck(s, n).ops[n]);
  }

  lemma WakeDoneKeeps(s: State, n: Id)
    requires Inv(s) && InPhase(s, n, Wake) && s.ops[n].wake == []
    ensures Inv(DoWakeDone(s, n))
  {
    assert Consistent(s.ops[n]) && OpValues(s.ops, s.lastPublished, s.ops[n]);
    UpdateKeeps(s, n, DoWakeDone(s, n).ops[n]);
  }

  lemma LeaveKeeps(s: State, n: Id)
    requires Inv(s) && InPhase(s, n, Leave)
    ensures Inv(DoLeave(s, n))
  {
    assert Consistent(s.ops[n]) && OpValues(s.ops, s.lastPublished, s.ops[n]);
    UpdateKeeps(s, n, DoLeave(s, n).ops[n]);
  }

  lemma BeginKeeps(s: State, n: Id)
    requires Inv(s) && InPhase(s, n, Fresh)
    ensures Inv(DoBegin(s, n))
  {
    assert Consistent(s.ops[n]) && OpValues(s.ops, s.lastPublished, s.ops[n]);
    var op := DoBegin(s, n).ops[n];
    BeginPlaced(s, n);
    UpdateValues(s, n, op);
    UpdateWatched(s, n, op);
  }

  lemma LinkKeeps(s: State, n: Id)
    requires Inv(s) && Enabled(s, LinkOk(n))
    ensures Inv(DoLink(s, n))
  {
    LinkPlaced(s, n);
    LinkConsistent(s, n);
    LinkValues(s, n);
    LinkWatched(s, n);
  }

  lemma TakeKeeps(s: State, n: Id)
    requires Inv(s) && InPhase(s, n, Take)
    ensures Inv(DoTake(s, n))
  {
    var known := s.ops[n].known;
    var later, reached := Later(s.ops, s.queue, known), Reached(s.ops, s.queue, known);
    assert s.queue == Held(s, Shared) && Consistent(s.ops[n]);
    SplitShares(s.ops, s.queue, known, Shared);
    TakePlaced(s, n, later, reached);
    TakeConsistent(s, n, later, reached);
    TakeValues(s, n, later, reached);
  }

  lemma WakeStoreKeeps(s: State, n: Id)
    requires Inv(s) && InPhase(s, n, Wake) && s.ops[n].wake != [] && s.ops[n].wake[0] in s.ops
    ensures Inv(DoWakeStore(s, n))
  {
    var m := s.ops[n].wake[0];
    assert m in Held(s, WakeList(n));
    WakeStoreValues(s, n);
    WakeStorePlaced(s, n);
    StoreConsistent(s, n, m, s.ops[n].known);
  }

  lemma StoreConsistent(s: State, n: Id, m: Id, known: int)
    requires AllConsistent(s) && m in s.ops && InPhase(s, n, Wake) && s.ops[n].wake != [] && s.ops[m].place != Nowhere
    ensures var ops := Store(s.ops, m, known);
            forall k :: k in ops ==> Consistent(ops[n := ops[n].(phase := Signal)][k])
  {
    assert Consistent(s.ops[n]) && Consistent(s.ops[m]);
  }

  lemma WakeStorePlaced(s: State, n: Id)
    requires Placed(s) && Watched(s) && InPhase(s, n, Wake) && s.ops[n].wake != [] && s.ops[n].wake[0] in s.ops
    ensures Placed(DoWakeStore(s, n)) && Watched(DoWakeStore(s, n))
  {
    var m := s.ops[n].wake[0];
    var stored := s.ops[m].(lastKnown := s.ops[n].known);
    var t := Update(s, m, stored);
    UpdatePlaced(s, m, stored);
    UpdateWatched(s, m, stored);
    UpdatePlaced(t, n, t.ops[n].(phase := Signal));
    UpdateWatched(t, n, t.ops[n].(phase := Signal));
  }

  lemma WakeSignalKeeps(s: State, n: Id)
    requires Inv(s) && InPhase(s, n, Signal) && s.ops[n].wake != [] && s.ops[n].wake[0] in s.ops
    ensures Inv(DoWakeSignal(s, n))
  {
    var w := s.ops[n].wake;
    assert w[0] in Held(s, WakeList(n));
    WakeSignalPlaced(s, n);
    WakeSignalConsistent(s, n);
    WakeSignalValues(s, n);
    SignalWatched(s, n);
  }

  lemma SignalWatched(s: State, n: Id)
    requires Placed(s) && AllConsistent(s) && Watched(s)
    requires InPhase(s, n, Signal) && s.ops[n].wake != [] && s.ops[n].wake[0] in s.ops
    ensures Watched(DoWakeSignal(s, n))
  {
    var t := DoWakeSignal(s, n);
    var m := s.ops[n].wake[0];
    assert m in Held(s, WakeList(n)) && s.queue == Held(s, Shared);
    assert Consistent(s.ops[m]);
    forall k | k in t.queue && k in t.ops && t.ops[k].target <= t.lastPublished ensures Covered(t, t.ops[k].target) {
      CoveredStays(s, t, s.ops[k].target);
    }
  }

  lemma PublishKeeps(s: State, sequence: int)
    requires Inv(s) && s.pub.phase == Idle && s.lastPublished <= sequence
    ensures Inv(DoPublish(s, sequence))
  {
    SteadyPlaced(s, DoPublish(s, sequence));
    PublishValues(s, sequence);
  }

  lemma PubLoadKeeps(s: State)
    requires Inv(s) && s.pub.phase == Stored
    ensures Inv(DoPubLoad(s))
  {
    SteadyPlaced(s, DoPubLoad(s));
  }

  lemma PubLinkFailKeeps(s: State)
    requires Inv(s) && s.pub.phase == Linking
    ensures Inv(DoPubLinkFail(s))
  {
    var t := DoPubLinkFail(s);
    SteadyPlaced(s, t);
    forall m | m in t.queue && m in t.ops && t.ops[m].target <= t.lastPublished ensures Covered(t, t.ops[m].target) {
      CoveredStays(s, t, s.ops[m].target);
    }
  }

  lemma PubTakeKeeps(s: State)
    requires Inv(s) && s.pub.phase == Seen
    ensures Inv(DoPubTake(s))
  {
    var later, reached := Later(s.ops, s.queue, s.lastPublished), Reached(s.ops, s.queue, s.lastPublished);
    assert s.queue == Held(s, Shared);
    SplitShares(s.ops, s.queue, s.lastPublished, Shared);
    PubTakePlaced(s, later, reached);
    PubTakeConsistent(s, later, reached);
    PubTakeValues(s, later, reached);
  }

  lemma PubLinkKeeps(s: State)
    requires Inv(s) && Enabled(s, PubLinkOk)
    ensures Inv(DoPubLink(s))
  {
    PubLinkPlaced(s);
    PubLinkConsistent(s);
    PubLinkValues(s);
    PubLinkWatched(s);
  }

  lemma LoopStorePlaced(s: State, i: nat)
    requires Placed(s) && AllConsistent(s)
    requires i < |s.loops| && !s.loops[i].written && s.loops[i].wake != [] && s.loops[i].wake[0] in s.ops
    ensures Placed(DoLoopStore(s, i)) && AllConsistent(DoLoopStore(s, i))
  {
    var t := DoLoopStore(s, i);
    var m := s.loops[i].wake[0];
    assert m in Held(s, LoopWake(i)) && Consistent(s.ops[m]);
    forall p ensures Held(t, p) == Held(s, p) {}
    SteadyPlaced(s, t);
  }

  lemma LoopStoreKeeps(s: State, i: nat)
    requires Inv(s) && i < |s.loops| && !s.loops[i].written && s.loops[i].wake != [] && s.loops[i].wake[0] in s.ops
    ensures Inv(DoLoopStore(s, i))
  {
    LoopStorePlaced(s, i);
    LoopStoreValues(s, i);
    hide Placed, AllConsistent, Values;
    var m := s.loops[i].wake[0];
    UpdateWatched(s, m, DoLoopStore(s, i).ops[m]);
  }

  lemma LoopSignalKeeps(s: State, i: nat)
    requires Inv(s) && i < |s.loops| && s.loops[i].written && s.loops[i].wake != [] && s.loops[i].wake[0] in s.ops
    ensures Inv(DoLoopSignal(s, i))
  {
    var m := s.loops[i].wake[0];
    assert m in Held(s, LoopWake(i));
    LoopSignalPlaced(s, i);
    LoopSignalConsistent(s, i);
    LoopSignalValues(s, i);
    RaiseWatched(s, m);
  }

  lemma StepKeeps(s: State, step: Step)
    requires Inv(s) && Enabled(s, step)
    ensures Inv(Do(s, step))
  {
    match step
    case Construct(n, target) => ConstructKeeps(s, n, target);
    case Begin(n) => BeginKeeps(s, n);
    case LoadHead(n) => LoadHeadKeeps(s, n);
    case LinkOk(n) => LinkKeeps(s, n);
    case LinkFail(n) => LinkFailKeeps(s, n);
    case CheckPublished(n) => CheckKeeps(s, n);
    case TakeQueue(n) => TakeKeeps(s, n);
    case WakeStore(n) => WakeStoreKeeps(s, n);
    case WakeSignal(n) => WakeSignalKeeps(s, n);
    case WakeDone(n) => WakeDoneKeeps(s, n);
    case LeaveExchange(n) => LeaveKeeps(s, n);
    case Publish(sequence) => PublishKeeps(s, sequence);
    case PubLoad => PubLoadKeeps(s);
    case PubTake => PubTakeKeeps(s);
    case PubLinkOk => PubLinkKeeps(s);
    case PubLinkFail => PubLinkFailKeeps(s);
    case LoopStore(i) => LoopStoreKeeps(s, i);
    case LoopSignal(i) => LoopSignalKeeps(s, i);
  }

  lemma {:induction false} ReachableInv(trace: seq<State>, steps: seq<Step>, initialSequence: int, i: nat)
    requires Run(trace, steps, initialSequence) && i < |trace|
    ensures Inv(trace[i])
  {
    if i == 0 {
      var s := trace[0];
      forall p ensures Held(s, p) == [] {}
    } else {
      ReachableInv(trace, steps, initialSequence, i - 1);
      StepKeeps(trace[i - 1], steps[i - 1]);
    }
  }

  // ---------------------------------------------------------------- main results

  /** No lost wakeup: whenever a queued node's target is published, some call in flight will take the list,
      even if the node was requeued by another waiter. */
  lemma NoLostWakeup(trace: seq<State>, steps: seq<Step>, initialSequence: int, i: nat, n: Id)
    requires Run(trace, steps, initialSequence) && i < |trace|
    requires n in trace[i].queue
    ensures n in trace[i].ops
    ensures trace[i].ops[n].target <= trace[i].lastPublished ==> Covered(trace[i], trace[i].ops[n].target)
  {
    ReachableInv(trace, steps, initialSequence, i);
    assert n in Held(trace[i], Shared);
  }

  /** Nothing is in flight: no publisher, no resume loop, nobody inside await_suspend. */
  ghost predicate Quiet(s: State) {
    && s.pub.phase == Idle
    && (forall i :: 0 <= i < |s.loops| ==> s.loops[i].wake == [])
    && (forall n :: n in s.ops ==> s.ops[n].phase in {Fresh, Suspended, Continued})
  }

  /** When nothing is in flight, exactly the waiters whose target is published have continued;
      the others are suspended and queued. */
  lemma QuietMeansServed(trace: seq<State>, steps: seq<Step>, initialSequence: int, i: nat, n: Id)
    requires Run(trace, steps, initialSequence) && i < |trace| && Quiet(trace[i])
    requires n in trace[i].ops && trace[i].ops[n].phase != Fresh
    ensures trace[i].ops[n].continued == 1 <==> trace[i].ops[n].target <= trace[i].lastPublished
    ensures n in trace[i].queue <==> trace[i].lastPublished < trace[i].ops[n].target
  {
    var s := trace[i];
    ReachableInv(trace, steps, initialSequence, i);
    QuietState(s, n);
  }

  lemma QuietState(s: State, n: Id)
    requires Inv(s) && Quiet(s) && n in s.ops && s.ops[n].phase != Fresh
    ensures s.ops[n].continued == 1 <==> s.ops[n].target <= s.lastPublished
    ensures n in s.queue <==> s.lastPublished < s.ops[n].target
  {
    var op := s.ops[n];
    assert Consistent(op) && OpValues(s.ops, s.lastPublished, op) && NodeOk(s, n);
    assert s.queue == Held(s, Shared);
    match op.place
    case Hold(c) => assert false;
    case WakeList(c) => assert false;
    case _ =>
  }

  /** Exactly once: no waiter ever continues twice, and one that has continued was given a published
      sequence that does not precede its target. */
  lemma ContinuesOnce(trace: seq<State>, steps: seq<Step>, initialSequence: int, i: nat, n: Id)
    requires Run(trace, steps, initialSequence) && i < |trace| && n in trace[i].ops
    ensures trace[i].ops[n].continued <= 1
    ensures trace[i].ops[n].continued == 1 <==> trace[i].ops[n].phase == Continued
    ensures trace[i].ops[n].continued == 1 ==>
              trace[i].ops[n].target <= trace[i].ops[n].lastKnown <= trace[i].lastPublished
  {
    ReachableInv(trace, steps, initialSequence, i);
    assert Consistent(trace[i].ops[n]) && OpValues(trace[i].ops, trace[i].lastPublished, trace[i].ops[n]);
  }

  // ---------------------------------------------------------------- what a waiter is given

  /** `v` was the published sequence at some moment up to `i`. */
  ghost predicate Was(trace: seq<State>, i: nat, v: int)
    requires i < |trace|
  {
    exists j :: 0 <= j <= i && trace[j].lastPublished == v
  }

  /** `v` was the published sequence at some moment up to `i` at which `n` was waiting already, or had just arrived. */
  ghost predicate SeenBy(trace: seq<State>, i: nat, n: Id, v: int)
    requires i < |trace|
  {
    exists j :: 0 <= j <= i && n in trace[j].ops && trace[j].lastPublished == v
  }

  /** `n` arrived before its target was published. */
  ghost predicate ArrivedEarly(trace: seq<State>, i: nat, n: Id, target: int)
    requires i < |trace|
  {
    exists j :: 0 <= j <= i && n in trace[j].ops && trace[j].lastPublished < target
  }

  ghost predicate OpHistory(trace: seq<State>, i: nat, n: Id, op: Op)
    requires i < |trace|
  {
    && SeenBy(trace, i, n, op.lastKnown)
    && Was(trace, i, op.known)
    && (op.place != Nowhere ==> ArrivedEarly(trace, i, n, op.target))
  }

  ghost predicate History(trace: seq<State>, i: nat)
    requires i < |trace|
  {
    && (forall n :: n in trace[i].ops ==> OpHistory(trace, i, n, trace[i].ops[n]))
    && (forall k :: 0 <= k < |trace[i].loops| ==> Was(trace, i, trace[i].loops[k].known))
  }

  lemma HistoryGrows(trace: seq<State>, i: nat, n: Id, op: Op)
    requires i + 1 < |trace| && OpHistory(trace, i, n, op)
    ensures OpHistory(trace, i + 1, n, op)
  {
    var j :| 0 <= j <= i && n in trace[j].ops && trace[j].lastPublished == op.lastKnown;
    var k :| 0 <= k <= i && trace[k].lastPublished == op.known;
    assert 0 <= j <= i + 1 && 0 <= k <= i + 1;
    if op.place != Nowhere {
      var l :| 0 <= l <= i && n in trace[l].ops && trace[l].lastPublished < op.target;
      assert 0 <= l <= i + 1;
    }
  }

  lemma WasGrows(trace: seq<State>, i: nat, v: int)
    requires i + 1 < |trace| && Was(trace, i, v)
    ensures Was(trace, i + 1, v)
  {
    var j :| 0 <= j <= i && trace[j].lastPublished == v;
    assert 0 <= j <= i + 1;
  }

  lemma StepGrows(s: State, step: Step)
    requires Enabled(s, step)
    ensures s.ops.Keys <= Do(s, step).ops.Keys && s.lastPublished <= Do(s, step).lastPublished
  {
  }

  lemma {:induction false} RunGrows(trace: seq<State>, steps: seq<Step>, initialSequence: int, i: nat, j: nat)
    requires Run(trace, steps, initialSequence) && i <= j < |trace|
    ensures trace[i].ops.Keys <= trace[j].ops.Keys && trace[i].lastPublished <= trace[j].lastPublished
    decreases j
  {
    if i < j {
      RunGrows(trace, steps, initialSequence, i, j - 1);
      StepGrows(trace[j - 1], steps[j - 1]);
    }
  }

  /** A sequence that reaches the target of a waiter that arrived before it was not published before it arrived. */
  lemma ReachedLater(trace: seq<State>, steps: seq<Step>, initialSequence: int, i: nat, n: Id, target: int, v: int)
    requires Run(trace, steps, initialSequence) && i < |trace|
    requires Was(trace, i, v) && ArrivedEarly(trace, i, n, target) && target <= v
    ensures SeenBy(trace, i, n, v)
  {
    var j :| 0 <= j <= i && trace[j].lastPublished == v;
    var l :| 0 <= l <= i && n in trace[l].ops && trace[l].lastPublished < target;
    if j <= l {
      RunGrows(trace, steps, initialSequence, j, l);
    } else {
      RunGrows(trace, steps, initialSequence, l, j);
    }
  }

  /** The node into which a resume loop stores, and what it stores. */
  function Stores(s: State, step: Step): Option<(Id, int)>
    requires Enabled(s, step)
  {
    match step
    case WakeStore(c) => Some((s.ops[c].wake[0], s.ops[c].known))
    case LoopStore(k) => Some((s.loops[k].wake[0], s.loops[k].known))
    case _ => None
  }

  /** What `n` knows is what it knew, what a loop stores, or the published sequence. */
  ghost predicate Knows(s: State, step: Step, n: Id)
    requires Enabled(s, step)
  {
    var t := Do(s, step);
    n in t.ops
    && if n !in s.ops then
         t.ops[n].lastKnown == t.ops[n].known == s.lastPublished && t.ops[n].place == Nowhere
       else
         && t.ops[n].target == s.ops[n].target && (t.ops[n].known == s.ops[n].known || t.ops[n].known == s.lastPublished)
         && t.ops[n].lastKnown == (if Stores(s, step).Some? && Stores(s, step).value.0 == n then Stores(s, step).value.1
                                   else s.ops[n].lastKnown)
         && (t.ops[n].place != Nowhere && s.ops[n].place == Nowhere ==> s.ops[n].lastKnown < s.ops[n].target)
  }

  lemma KnowsTaken(s: State, step: Step, n: Id)
    requires Placed(s) && Enabled(s, step) && n in Do(s, step).ops && (step.TakeQueue? || step.PubTake?)
    ensures Knows(s, step, n)
  {
    assert s.queue == Held(s, Shared);
    match step
    case TakeQueue(c) => SplitShares(s.ops, s.queue, s.ops[c].known, Shared);
    case PubTake => SplitShares(s.ops, s.queue, s.lastPublished, Shared);
  }

  lemma KnowsLinked(s: State, step: Step, n: Id)
    requires Placed(s) && Enabled(s, step) && n in Do(s, step).ops && (step.LinkOk? || step.PubLinkOk?)
    ensures Knows(s, step, n)
  {
    match step
    case LinkOk(c) => assert s.ops[c].hold == Held(s, Hold(c));
    case PubLinkOk => assert s.pub.hold == Held(s, PubHold) && s.pub.wake == Held(s, PubWake);
  }

  lemma KnowsLoop(s: State, step: Step, n: Id)
    requires Placed(s) && Enabled(s, step) && n in Do(s, step).ops
    requires step.WakeStore? || step.WakeSignal? || step.LoopStore? || step.LoopSignal?
    ensures Knows(s, step, n)
  {
    match step
    case WakeStore(c) => assert s.ops[c].wake[0] in Held(s, WakeList(c));
    case WakeSignal(c) => assert s.ops[c].wake[0] in Held(s, WakeList(c));
    case LoopStore(j) => assert s.loops[j].wake[0] in Held(s, LoopWake(j));
    case LoopSignal(j) => assert s.loops[j].wake[0] in Held(s, LoopWake(j));
  }

  lemma StepKnown(s: State, step: Step, n: Id)
    requires Placed(s) && Enabled(s, step) && n in Do(s, step).ops
    ensures Knows(s, step, n)
  {
    if step.TakeQueue? || step.PubTake? {
      KnowsTaken(s, step, n);
    } else if step.LinkOk? || step.PubLinkOk? {
      KnowsLinked(s, step, n);
    } else if step.WakeStore? || step.WakeSignal? || step.LoopStore? || step.LoopSignal? {
      KnowsLoop(s, step, n);
    }
  }

  /** What a loop stores reaches the target of the node it is stored into, which arrived before that. */
  lemma StoredReaches(s: State, step: Step)
    requires Inv(s) && Enabled(s, step) && Stores(s, step).Some?
    ensures var (m, v) := Stores(s, step).value;
            m in s.ops && s.ops[m].target <= v && s.ops[m].place != Nowhere
  {
    match step
    case WakeStore(c) =>
      assert s.ops[c].wake[0] in Held(s, WakeList(c));
      assert OpValues(s.ops, s.lastPublished, s.ops[c]);
    case LoopStore(k) =>
      assert s.loops[k].wake[0] in Held(s, LoopWake(k));
      assert LoopValues(s.ops, s.lastPublished, s.loops[k]);
  }

  lemma LoopsKnown(s: State, step: Step, k: nat)
    requires Enabled(s, step) && k < |Do(s, step).loops|
    ensures Do(s, step).loops[k].known == if k < |s.loops| then s.loops[k].known else s.lastPublished
  {
  }

  lemma WasNow(trace: seq<State>, i: nat)
    requires i < |trace|
    ensures Was(trace, i, trace[i].lastPublished)
  {
  }

  lemma OpHistoryStep(trace: seq<State>, steps: seq<Step>, initialSequence: int, i: nat, n: Id)
    requires Run(trace, steps, initialSequence) && i < |steps| && Inv(trace[i]) && History(trace, i)
    requires n in trace[i + 1].ops
    ensures OpHistory(trace, i + 1, n, trace[i + 1].ops[n])
  {
    hide Inv, Do, Enabled, Consistent;
    var s, t, step := trace[i], trace[i + 1], steps[i];
    assert Placed(s) && Enabled(s, step) && t == Do(s, step) by { InvPlaced(s); }
    StepKnown(s, step, n);
    if n !in s.ops {
      NewKnows(trace, steps, initialSequence, i, n);
    } else {
      var op := s.ops[n];
      assert OpHistory(trace, i, n, op);
      HistoryGrows(trace, i, n, op);
      WasNow(trace, i);
      WasGrows(trace, i, s.lastPublished);
      if op.place == Nowhere && op.lastKnown < op.target {
        var j :| 0 <= j <= i && n in trace[j].ops && trace[j].lastPublished == op.lastKnown;
        assert ArrivedEarly(trace, i + 1, n, op.target);
      }
      if Stores(s, step).Some? && Stores(s, step).value.0 == n {
        var v := Stores(s, step).value.1;
        StoredReaches(s, step);
        StoredWas(trace, i, step);
        WasGrows(trace, i, v);
        ReachedLater(trace, steps, initialSequence, i + 1, n, op.target, v);
      }
    }
  }

  lemma InvPlaced(s: State)
    requires Inv(s)
    ensures Placed(s)
  {
  }

  lemma StoredWas(trace: seq<State>, i: nat, step: Step)
    requires i < |trace| && History(trace, i) && Enabled(trace[i], step) && Stores(trace[i], step).Some?
    ensures Was(trace, i, Stores(trace[i], step).value.1)
  {
    match step
    case WakeStore(c) => assert OpHistory(trace, i, c, trace[i].ops[c]);
    case LoopStore(k) => assert Was(trace, i, trace[i].loops[k].known);
  }

  lemma NewKnows(trace: seq<State>, steps: seq<Step>, initialSequence: int, i: nat, n: Id)
    requires Run(trace, steps, initialSequence) && i < |steps|
    requires n in trace[i + 1].ops && n !in trace[i].ops && Knows(trace[i], steps[i], n)
    ensures OpHistory(trace, i + 1, n, trace[i + 1].ops[n])
  {
    var s, t := trace[i], trace[i + 1];
    assert steps[i].Construct? && t.lastPublished == s.lastPublished;
    assert 0 <= i + 1 && n in trace[i + 1].ops && trace[i + 1].lastPublished == t.ops[n].lastKnown;
  }

  lemma {:induction false} ReachableHistory(trace: seq<State>, steps: seq<Step>, initialSequence: int, i: nat)
    requires Run(trace, steps, initialSequence) && i < |trace|
    ensures History(trace, i)
  {
    if i > 0 {
      ReachableHistory(trace, steps, initialSequence, i - 1);
      ReachableInv(trace, steps, initialSequence, i - 1);
      hide Inv, OpHistory, Was;
      forall n | n in trace[i].ops ensures OpHistory(trace, i, n, trace[i].ops[n]) {
        OpHistoryStep(trace, steps, initialSequence, i - 1, n);
      }
      forall k | 0 <= k < |trace[i].loops| ensures Was(trace, i, trace[i].loops[k].known) {
        LoopsKnown(trace[i - 1], steps[i - 1], k);
        WasNow(trace, i - 1);
        WasGrows(trace, i - 1, trace[i].loops[k].known);
      }
    }
  }

  /** A waiter that has continued was given a sequence that was the published one at some moment of its wait, and not
      just its target. */
  lemma GivenWasPublished(trace: seq<State>, steps: seq<Step>, initialSequence: int, i: nat, n: Id)
    requires Run(trace, steps, initialSequence) && i < |trace| && n in trace[i].ops && trace[i].ops[n].continued == 1
    ensures exists j :: 0 <= j <= i && n in trace[j].ops && trace[j].lastPublished == trace[i].ops[n].lastKnown
  {
    ReachableHistory(trace, steps, initialSequence, i);
    assert OpHistory(trace, i, n, trace[i].ops[n]);
  }

  /** Conservation: until its flag is raised, a waiting node is in exactly one list, and there once. */
  lemma InOneList(trace: seq<State>, steps: seq<Step>, initialSequence: int, i: nat, n: Id, p: Place, q: Place)
    requires Run(trace, steps, initialSequence) && i < |trace| && n in trace[i].ops
    ensures NoDup(Held(trace[i], p))
    ensures n in Held(trace[i], p) && n in Held(trace[i], q) ==> p == q
    ensures Listed(trace[i].ops[n].place) <==> exists r :: n in Held(trace[i], r)
    ensures trace[i].ops[n].phase != Fresh && trace[i].ops[n].continued == 0 && trace[i].ops[n].place != Signalled ==>
              Listed(trace[i].ops[n].place)
  {
    var s := trace[i];
    ReachableInv(trace, steps, initialSequence, i);
    assert ListOk(s.ops, Held(s, p), p) && ListOk(s.ops, Held(s, q), q) && NodeOk(s, n) && Consistent(s.ops[n]);
    forall r | n in Held(s, r) ensures s.ops[n].place == r {
      assert ListOk(s.ops, Held(s, r), r);
    }
  }

  /** A step that belongs to a call in flight and is not a failed compare-exchange. */
  predicate Advances(step: Step) {
    !step.Construct? && !step.Publish? && !step.LinkFail? && !step.PubLinkFail?
  }

  /** No call in flight is ever stuck. */
  lemma NeverStuck(trace: seq<State>, steps: seq<Step>, initialSequence: int, i: nat)
    requires Run(trace, steps, initialSequence) && i < |trace| && !Quiet(trace[i])
    ensures exists step :: Advances(step) && (Enabled(trace[i], step) || Retries(trace[i], step))
  {
    var s := trace[i];
    ReachableInv(trace, steps, initialSequence, i);
    if s.pub.phase != Idle {
      PublisherMoves(s);
    } else if j :| 0 <= j < |s.loops| && s.loops[j].wake != [] {
      assert LoopValues(s.ops, s.lastPublished, s.loops[j]) && s.loops[j].wake[0] in s.loops[j].wake;
      assert Enabled(s, if s.loops[j].written then LoopSignal(j) else LoopStore(j));
    } else {
      var n :| n in s.ops && s.ops[n].phase !in {Fresh, Suspended, Continued};
      OperationMoves(s, n);
    }
  }

  /** The compare-exchange of `step` would succeed right after one that fails. */
  predicate Retries(s: State, step: Step) {
    match step
    case LinkOk(n) => Enabled(s, LinkFail(n)) && Enabled(DoLinkFail(s, n), step)
    case PubLinkOk => Enabled(s, PubLinkFail) && Enabled(DoPubLinkFail(s), step)
    case _ => false
  }

  lemma PublisherMoves(s: State)
    requires s.pub.phase != Idle
    ensures exists step :: Advances(step) && (Enabled(s, step) || Retries(s, step))
  {
    match s.pub.phase
    case Stored => assert Enabled(s, PubLoad);
    case Seen => assert Enabled(s, PubTake);
    case Linking => assert Retries(s, PubLinkOk);
  }

  lemma OperationMoves(s: State, n: Id)
    requires Inv(s) && n in s.ops && s.ops[n].phase !in {Fresh, Suspended, Continued}
    ensures exists step :: Advances(step) && (Enabled(s, step) || Retries(s, step))
  {
    hide Placed, Watched, PubValues, LoopValues;
    var op := s.ops[n];
    assert Consistent(op) && OpValues(s.ops, s.lastPublished, op);
    assert op.wake != [] ==> op.wake[0] in op.wake;
    hide AllConsistent, Values, Consistent;
    match op.phase
    case Load => assert Enabled(s, LoadHead(n));
    case Link => assert Retries(s, LinkOk(n));
    case Check => assert Enabled(s, CheckPublished(n));
    case Take => assert Enabled(s, TakeQueue(n));
    case Wake => assert Enabled(s, if op.wake == [] then WakeDone(n) else WakeStore(n));
    case Signal => assert Enabled(s, WakeSignal(n));
    case Leave => assert Enabled(s, LeaveExchange(n));
  }

  /** Once a waiter has continued nobody touches its node again. */
  lemma ContinuedIsFinal(trace: seq<State>, steps: seq<Step>, initialSequence: int, i: nat, n: Id)
    requires Run(trace, steps, initialSequence) && i < |steps|
    requires n in trace[i].ops && trace[i].ops[n].phase == Continued
    ensures n in trace[i + 1].ops && trace[i + 1].ops[n] == trace[i].ops[n]
  {
    var s, t := trace[i], trace[i + 1];
    ReachableInv(trace, steps, initialSequence, i);
    Untouched(s, steps[i], n);
  }

  lemma Untouched(s: State, step: Step, n: Id)
    requires Inv(s) && Enabled(s, step) && n in s.ops && s.ops[n].phase == Continued
    ensures n in Do(s, step).ops && Do(s, step).ops[n] == s.ops[n]
  {
    assert Consistent(s.ops[n]);
    NotHeld(s, n);
    if step.TakeQueue? || step.PubTake? {
      TakeUntouched(s, step, n);
    } else if step.LinkOk? || step.PubLinkOk? {
      LinkUntouched(s, step, n);
    } else if step.WakeStore? || step.WakeSignal? || step.LoopStore? || step.LoopSignal? {
      LoopUntouched(s, step, n);
    }
  }

  lemma TakeUntouched(s: State, step: Step, n: Id)
    requires Placed(s) && Enabled(s, step) && (step.TakeQueue? || step.PubTake?)
    requires n in s.ops && s.ops[n].phase == Continued && forall p :: n !in Held(s, p)
    ensures n in Do(s, step).ops && Do(s, step).ops[n] == s.ops[n]
  {
    assert s.queue == Held(s, Shared);
    match step
    case TakeQueue(c) => SplitShares(s.ops, s.queue, s.ops[c].known, Shared);
    case PubTake => SplitShares(s.ops, s.queue, s.lastPublished, Shared);
  }

  lemma LinkUntouched(s: State, step: Step, n: Id)
    requires Enabled(s, step) && (step.LinkOk? || step.PubLinkOk?)
    requires n in s.ops && s.ops[n].phase == Continued && forall p :: n !in Held(s, p)
    ensures n in Do(s, step).ops && Do(s, step).ops[n] == s.ops[n]
  {
    match step
    case LinkOk(c) => assert s.ops[c].hold == Held(s, Hold(c));
    case PubLinkOk => assert s.pub.hold == Held(s, PubHold) && s.pub.wake == Held(s, PubWake);
  }

  lemma LoopUntouched(s: State, step: Step, n: Id)
    requires Enabled(s, step) && (step.WakeStore? || step.WakeSignal? || step.LoopStore? || step.LoopSignal?)
    requires n in s.ops && s.ops[n].phase == Continued && forall p :: n !in Held(s, p)
    ensures n in Do(s, step).ops && Do(s, step).ops[n] == s.ops[n]
  {
    match step
    case WakeStore(c) => assert s.ops[c].wake[0] in Held(s, WakeList(c));
    case WakeSignal(c) => assert s.ops[c].wake[0] in Held(s, WakeList(c));
    case LoopStore(j) => assert s.loops[j].wake[0] in Held(s, LoopWake(j));
    case LoopSignal(j) => assert s.loops[j].wake[0] in Held(s, LoopWake(j));
  }

  lemma NotHeld(s: State, n: Id)
    requires Placed(s) && n in s.ops && !Listed(s.ops[n].place)
    ensures forall p :: n !in Held(s, p)
  {
    forall p ensures n !in Held(s, p) {
      assert ListOk(s.ops, Held(s, p), p);
    }
  }
}
