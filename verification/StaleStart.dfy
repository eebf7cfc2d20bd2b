/** Why a wait on the multi-producer sequencer must not start behind the consumers.

    `last_published_after` and `add_awaiter` look for the next number in its slot. Once a number is consumed its
    slot is free for the number one buffer later. A waiter that starts before it then looks for a number that no
    slot holds any more, and falls asleep although its target is published and the consumers have not reached it. */
module StaleStart {
  import opened Lists
  import opened SequencerRing
  import opened MultiProducer
  import opened MultiProducerProof
  import opened Courses

  // ---------------------------------------------------------------- publishing without waiters

  /** Nobody waits; producers 0, ..., k - 1 have published a number each, and the consumers are at `consumed`. */
  ghost predicate Filled<V>(s: State<V>, k: nat, consumed: int, e: Setting<V>) {
    && s.queue == [] && s.waits == map[] && (forall p: Id :: p in s.notes <==> p < k)
    && (forall p :: p in s.notes ==> s.notes[p].phase == NWake && s.notes[p].wake == [])
    && WellSized(s.ring) && s.ring.size == e.size && s.ring.first == e.initial + 1
    && s.ring.nextToClaim == e.initial + 1 + k && s.ring.consumed == consumed
    && (forall p: Id :: p in s.ring.claims <==> p < k)
    && (forall x :: x in s.ring.done <==> e.initial < x <= e.initial + k)
  }

  /** Producer `k` publishes the next number. */
  lemma PublishOne<V(!new)>(s: State<V>, k: nat, consumed: int, e: Setting<V>) returns (t: State<V>)
    requires 0 < e.size && Reach(s, e) && Filled(s, k, consumed, e) && e.initial + 1 + k <= consumed + e.size
    ensures Reach(t, e) && Filled(t, k + 1, consumed, e)
  {
    hide Reach, RingEnabled, RingDo;
    var u := Stores(s, k, e);
    t := DoNoteLoad(u, k);
    ReachNext(u, NoteLoad(k), t, e);
  }

  /** A whole buffer of numbers is published. */
  lemma {:induction false} PublishMany<V(!new)>(k: nat, e: Setting<V>) returns (s: State<V>)
    requires 0 < e.size && k <= e.size
    ensures Reach(s, e) && Filled(s, k, e.initial, e)
  {
    hide Reach;
    if k == 0 {
      s := InitialState(e.size, e.initial, e.blank);
      ReachFirst(e);
    } else {
      s := PublishMany(k - 1, e);
      s := PublishOne(s, k - 1, e.initial, e);
    }
  }

  lemma ConsumeTo<V(!new)>(s: State<V>, k: nat, consumed: int, upTo: int, e: Setting<V>) returns (t: State<V>)
    requires 0 < e.size && Reach(s, e) && Filled(s, k, consumed, e) && consumed <= upTo <= e.initial + k
    ensures Reach(t, e) && Filled(t, k, upTo, e)
  {
    hide Reach;
    t := s.(ring := s.ring.(consumed := upTo));
    ReachNext(s, RingMove(Consume(upTo)), t, e);
  }

  /** One number more than the buffer holds has been published, and the first is consumed. */
  lemma Reused<V(!new)>(e: Setting<V>) returns (s: State<V>)
    requires 0 < e.size && e.lag == 0
    ensures Reach(s, e) && Filled(s, e.size + 1, e.initial + 1, e) && RingInv(s.ring)
  {
    hide Reach, Filled;
    s := PublishMany(e.size, e);
    s := ConsumeTo(s, e.size, e.initial, e.initial + 1, e);
    s := PublishOne(s, e.size, e.initial + 1, e);
    ReachableRing(s, e);
  }

  lemma ReachableRing<V(!new)>(s: State<V>, e: Setting<V>)
    requires 0 < e.size && Reach(s, e) && e.lag == 0
    ensures RingInv(s.ring)
  {
    hide Reach, Enabled, Do;
    var trace, steps := ReachIsRun(s, e);
    ReachableInv(trace, steps, e.size, e.initial, e.blank, |steps|);
  }

  /** The slot of the first number is taken by the one a buffer later: a scan that starts before it stops there,
      although the published prefix goes on. */
  lemma ScanStopsShort<V(!new)>(size: int, initial: int, blank: V, may: (int, int) -> bool) returns (s: State<V>)
    requires 0 < size
    ensures Reach(s, Setting(size, initial, blank, may, 0)) && RingInv(s.ring) && s.queue == [] && s.waits == map[]
    ensures s.ring.first == initial + 1 && s.ring.size == size && s.ring.consumed == initial + 1 && Quiet(s)
    ensures Contiguous(s.ring, initial + 1 + size)
    ensures Cell(s.ring, initial + 1) > initial + 1 && !PrefixEnd(s.ring, initial)
  {
    s := Reused(Setting(size, initial, blank, may, 0));
    hide Reach;
    LaterInSlot(s.ring, initial + 1);
  }

  // ---------------------------------------------------------------- a wait that starts behind the consumers

  /** Waiter 0 is the only one. */
  function Alone<V>(s: State<V>, w: Wait): State<V> {
    s.(queue := [0], waits := map[0 := w])
  }

  lemma Queues<V(!new)>(s: State<V>, target: int, start: int, e: Setting<V>)
    requires 0 < e.size && Reach(s, e) && s.queue == [] && s.waits == map[] && start < target
    requires Contiguous(s.ring, start) && s.ring.consumed - e.lag <= start && s.ring.consumed < target
    ensures Reach(Alone(s, Queued(target, start, [])), e)
  {
    hide Reach;
    var loading := s.waits[0 := Pending(target, start, Load, [0], None, Own(0))];
    Arrives(s, 0, target, start, e);
    Links(s.(waits := loading), 0, target, start, e);
    assert loading[0 := Queued(target, start, [])] == map[0 := Queued(target, start, [])] && [0] + s.queue == [0];
  }

  lemma SeesNothing<V(!new)>(s: State<V>, target: int, start: int, e: Setting<V>)
    requires 0 < e.size && Reach(Alone(s, Queued(target, start, [])), e) && start < target && !Answers(s, start + 1)
    ensures Reach(Alone(s, Queued(target, start, []).(phase := Wake)), e)
  {
    hide Reach, RingEnabled, RingDo, Cell;
    var w := Queued(target, start, []);
    ReachNext(Alone(s, w), ScanStop(0), Alone(s, w.(phase := Wake)), e);
  }

  lemma FallsAsleep<V(!new)>(s: State<V>, target: int, start: int, e: Setting<V>)
    requires 0 < e.size && Reach(Alone(s, Queued(target, start, []).(phase := Wake)), e)
    ensures Reach(Alone(s, Queued(target, start, []).(phase := Suspended, ready := true)), e)
  {
    hide Reach, RingEnabled, RingDo, Answers, HoldsBack;
    var w := Queued(target, start, []);
    ReachNext(Alone(s, w.(phase := Wake)), WakeDone(0), Alone(s, w.(phase := Leave)), e);
    ReachNext(Alone(s, w.(phase := Leave)), LeaveExchange(0), Alone(s, w.(phase := Suspended, ready := true)), e);
  }

  /** For every size of the buffer and number to start from: a waiter that starts one behind the consumers sleeps
      in the list although its target and everything before is published, and nothing is in flight. */
  lemma WakeupLost<V(!new)>(size: int, initial: int, blank: V, may: (int, int) -> bool, lag: nat) returns (t: State<V>)
    requires 0 < size && 0 < lag
    ensures Reach(t, Setting(size, initial, blank, may, lag)) && Quiet(t)
    ensures 0 in t.queue && 0 in t.waits && t.waits[0].phase == Suspended && t.waits[0].continued == 0
    ensures Contiguous(t.ring, t.waits[0].target) && t.ring.consumed < t.waits[0].target
  {
    hide Reach;
    var e := Setting(size, initial, blank, may, lag);
    var s := ScanStopsShort(size, initial, blank, may);
    ReachLater(s, e.(lag := 0), lag);
    Queues(s, initial + 2, initial, e);
    SeesNothing(s, initial + 2, initial, e);
    FallsAsleep(s, initial + 2, initial, e);
    t := Alone(s, Queued(initial + 2, initial, []).(phase := Suspended, ready := true));
  }

  /** Nothing is in flight, and a waiter that is not about to begin has continued if its target is published. */
  ghost predicate Served<V>(s: State<V>) {
    Quiet(s) ==> forall n :: n in s.waits && s.waits[n].phase != Fresh && Contiguous(s.ring, s.waits[n].target) ==>
                   s.waits[n].continued == 1
  }

  /** Whatever the size of the buffer and the number to start from: no wakeup is ever lost exactly when no wait
      starts behind the consumers. */
  lemma ServedIff<V(!new)>(size: int, blank: V, may: (int, int) -> bool, lag: nat)
    requires 0 < size
    ensures (forall initial, s: State<V> :: Reach(s, Setting(size, initial, blank, may, lag)) ==> Served(s)) <==> lag == 0
  {
    if lag > 0 {
      var s := WakeupLost(size, 0, blank, may, lag);
      assert !Served(s);
    } else {
      forall initial, s: State<V> | Reach(s, Setting(size, initial, blank, may, lag)) ensures Served(s) {
        AllServed(s, Setting(size, initial, blank, may, lag));
      }
    }
  }

  lemma AllServed<V(!new)>(s: State<V>, e: Setting<V>)
    requires 0 < e.size && Reach(s, e) && e.lag == 0
    ensures Served(s)
  {
    hide Reach, Enabled, Do;
    if Quiet(s) {
      var trace, steps := ReachIsRun(s, e);
      forall n | n in s.waits && s.waits[n].phase != Fresh && Contiguous(s.ring, s.waits[n].target)
        ensures s.waits[n].continued == 1
      {
        QuietMeansServed(trace, steps, e.size, e.initial, e.blank, |steps|, n);
      }
    }
  }
}
