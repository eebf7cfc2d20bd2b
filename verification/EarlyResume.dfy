/** When a waiter of the multi-producer sequencer may be resumed before its target is published.

    `add_awaiter` resumes every node it takes from the list as soon as its own target is published. Suppose one
    waiter aims at `a`, another at a later `b`, and neither is published. Both queue themselves; a producer
    publishes `a`; the first, still inside `add_awaiter`, finds it, takes the whole list and resumes the second
    with `a`. So nobody is ever resumed early exactly when waiters that wait together aim at one number. */
module EarlyResume {
  import opened Lists
  import opened SequencerRing
  import opened MultiProducer
  import opened MultiProducerProof
  import opened Courses

  /** Waiter 0 stands in the list and has found its target `a` published. */
  function Found(a: int): Wait {
    Queued(a, a - 1, []).(known := a, phase := Sweep)
  }

  /** Both waiters in the list, and nothing published. */
  function Both<V>(a: int, b: int, size: int, blank: V): State<V>
    requires 0 < size
  {
    State(InitialRing(size, a - 1, blank), [1, 0], map[], map[0 := Queued(a, a - 1, []), 1 := Queued(b, a - 1, [0])])
  }

  lemma BothQueue<V(!new)>(a: int, b: int, e: Setting<V>)
    requires 0 < e.size && a < b && e.may(a, b) && e.may(b, a) && e.initial == a - 1
    ensures Reach(Both(a, b, e.size, e.blank), e)
  {
    hide Reach;
    var none := InitialState(e.size, a - 1, e.blank);
    ReachFirst(e);
    Arrives(none, 0, a, a - 1, e);
    var loading := none.waits[0 := Pending(a, a - 1, Load, [0], None, Own(0))];
    Links(none.(waits := loading), 0, a, a - 1, e);
    var one := none.(queue := [0], waits := map[0 := Queued(a, a - 1, [])]);
    assert loading[0 := Queued(a, a - 1, [])] == one.waits && [0] + none.queue == one.queue;
    Arrives(one, 1, b, a - 1, e);
    var more := one.waits[1 := Pending(b, a - 1, Load, [1], None, Own(1))];
    Links(one.(waits := more), 1, b, a - 1, e);
    assert more[1 := Queued(b, a - 1, [0])] == Both(a, b, e.size, e.blank).waits && [1] + one.queue == [1, 0];
  }

  /** A producer publishes `a`, and the first waiter, still in add_awaiter, finds it. */
  lemma FirstFinds<V(!new)>(s: State<V>, a: int, e: Setting<V>)
    requires 0 < e.size && Reach(s, e) && Together(s, e.may)
    requires 0 < s.ring.size == |s.ring.published| && Cell(s.ring, a) == a && Cell(s.ring, a + 1) != a + 1
    requires 0 in s.waits && s.waits[0] == Queued(a, a - 1, [])
    ensures Reach(s.(waits := s.waits[0 := Found(a)]), e)
  {
    hide Reach, RingEnabled, RingDo, Cell, HoldsBack;
    var t := s.(waits := s.waits[0 := Queued(a, a - 1, []).(known := a)]);
    ReachNext(s, ScanOn(0), t, e);
    ReachNext(t, ScanStop(0), s.(waits := s.waits[0 := Found(a)]), e);
  }

  /** The sweep takes both nodes. */
  lemma SweepBoth<V>(s: State<V>, a: int, b: int)
    requires s.queue == [1, 0] && {0, 1} <= s.waits.Keys && s.waits[0] == Found(a) && s.waits[1] == Queued(b, a - 1, [0])
    ensures var t := DoSweep(s, 0);
            && t.waits.Keys == s.waits.Keys
            && t.waits[0].phase == Wake && t.waits[0].wake == [1, 0] && t.waits[0].known == a
            && t.waits[1].target == b && t.waits[1].phase == Scan
            && forall n :: n in t.waits ==> t.waits[n].target == s.waits[n].target && t.waits[n].continued == s.waits[n].continued
  {
    SweepTakesAll([1, 0], a, a);
  }

  lemma TakesBoth<V(!new)>(s: State<V>, a: int, b: int, e: Setting<V>) returns (t: State<V>)
    requires 0 < e.size && Reach(s, e) && Together(s, e.may) && s.queue == [1, 0] && {0, 1} <= s.waits.Keys
    requires s.waits[0] == Found(a) && s.waits[1] == Queued(b, a - 1, [0])
    ensures Reach(t, e) && Together(t, e.may) && {0, 1} <= t.waits.Keys
    ensures t.waits[0].phase == Wake && t.waits[0].wake == [1, 0] && t.waits[0].known == a
    ensures t.waits[1].target == b && t.waits[1].phase == Scan
  {
    hide Reach, RingEnabled, RingDo, DoSweep;
    t := DoSweep(s, 0);
    SweepBoth(s, a, b);
    ReachNext(s, SweepAll(0), t, e);
  }

  /** It resumes the other one, whose target may not be published. */
  lemma ResumesOther<V(!new)>(s: State<V>, a: int, b: int, e: Setting<V>) returns (t: State<V>)
    requires 0 < e.size && Reach(s, e) && Together(s, e.may) && {0, 1} <= s.waits.Keys
    requires s.waits[0].phase == Wake && s.waits[0].wake == [1, 0] && s.waits[0].known == a
    requires s.waits[1].target == b && s.waits[1].phase == Scan
    ensures Reach(t, e) && 1 in t.waits && t.waits[1].target == b
    ensures t.waits[1].place == Swept && t.waits[1].ready && t.waits[1].lastKnown == a
  {
    hide Reach, RingEnabled, RingDo;
    t := DoWakeNext(s, 0);
    ReachNext(s, WakeNext(0), t, e);
  }

  /** Two targets that may wait together and differ: a run in which the waiter for the later one is resumed with
      the earlier one. */
  lemma ResumedTooEarly<V(!new)>(a: int, b: int, e: Setting<V>) returns (s: State<V>)
    requires 0 < e.size && a < b && e.may(a, b) && e.may(b, a) && e.initial == a - 1
    ensures Reach(s, e) && 1 in s.waits && s.waits[1].target == b
    ensures s.waits[1].place == Swept && s.waits[1].ready && s.waits[1].lastKnown == a
  {
    hide Reach, Enabled, Do;
    var both := Both(a, b, e.size, e.blank);
    BothQueue(a, b, e);
    var t := Stores(both, 2, e);
    InitialCellBound(e.size, a - 1, Slot(e.size, a + 1));
    FirstFinds(t, a, e);
    t := TakesBoth(t.(waits := t.waits[0 := Found(a)]), a, b, e);
    s := ResumesOther(t, a, b, e);
  }

  /** Under a calling discipline that says which targets may wait together, whatever the size of the buffer and the
      number to start from, nobody is ever resumed before its target exactly when only equal targets may. */
  lemma NeverEarlyIff<V(!new)>(size: int, blank: V, may: (int, int) -> bool)
    requires 0 < size
    ensures (forall initial, s: State<V> :: Reach(s, Setting(size, initial, blank, may, 0)) ==> NeverEarly(s))
            <==> (forall a, b :: may(a, b) && may(b, a) ==> a == b)
  {
    if a, b :| may(a, b) && may(b, a) && a < b {
      var s := ResumedTooEarly(a, b, Setting(size, a - 1, blank, may, 0));
      assert !NeverEarly(s);
    } else {
      forall initial, s: State<V> | Reach(s, Setting(size, initial, blank, may, 0)) ensures NeverEarly(s) {
        EqualIsSafe(s, Setting(size, initial, blank, may, 0));
      }
    }
  }

  lemma EqualIsSafe<V(!new)>(s: State<V>, e: Setting<V>)
    requires 0 < e.size && Reach(s, e) && e.lag == 0
    requires forall a, b :: e.may(a, b) && e.may(b, a) ==> a == b
    ensures NeverEarly(s)
  {
    hide Reach, Enabled, Do;
    var trace, steps := ReachIsRun(s, e);
    forall k | 0 <= k < |trace| ensures SameTarget(trace[k]) {
      assert Together(trace[k], e.may);
    }
    OneTargetNeverEarly(trace, steps, e.size, e.initial, e.blank, |steps|);
  }
}
